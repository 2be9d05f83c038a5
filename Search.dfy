/** SearchService: a vector search over the Milvus collection joined with the
    metadata rows by vector id, falling back to a keyword search over the
    rows whenever the vector path yields nothing to join or throws. */
module Search {
  import opened JavaText
  import opened VectorDb

  /** SearchRequestDTO defaults. */
  const DefaultLimit := 10
  const DefaultMinimumScore: real := 0.7

  /** SearchResultDTO */
  datatype SearchResult = SearchResult(filePath: string, content: Option<string>, score: real, fileType: string)

  // ---------------------------------------------------------------------
  // countOccurrences

  /** Non-overlapping matches of `term` in `text`, scanning left to right
      from `from`: each search resumes just past the previous match. */
  function Occurrences(text: string, term: string, from: nat): nat
    requires |term| > 0
    decreases |text| - from
  {
    var k := IndexOf(text, term, from);
    if k == -1 then 0 else 1 + Occurrences(text, term, k + |term|)
  }

  /** The matches counted do not overlap: n of them take n·|term| characters. */
  lemma {:induction false} OccurrencesBound(text: string, term: string, from: nat)
    requires |term| > 0 && from <= |text|
    ensures Occurrences(text, term, from) * |term| <= |text| - from
    decreases |text| - from
  {
    var k := IndexOf(text, term, from);
    if k != -1 {
      var t := |term|;
      assert from <= k && k + t <= |text|;
      OccurrencesBound(text, term, k + t);
      var n := Occurrences(text, term, k + t);
      assert Occurrences(text, term, from) == 1 + n;
      assert n * t <= |text| - (k + t);
      MulSucc(n, t);
    }
  }

  /** One more factor distributes over the product. */
  lemma MulSucc(n: nat, t: nat)
    ensures (1 + n) * t == t + n * t
  {
  }

  /** The count is positive exactly when the text contains the term. */
  lemma ContainsIffOccurs(text: string, term: string)
    requires |term| > 0
    ensures Contains(text, term) <==> Occurrences(text, term, 0) >= 1
  {
    var k := IndexOf(text, term, 0);
    IndexOfFirstMatch(text, term, 0);
    if k != -1 {
      assert 0 <= k <= |text| - |term| && MatchesAt(text, term, k);
    }
  }

  /** The matches still to be counted when the loop has just found one at
      `index` (-1 when indexOf found none). */
  function CountFrom(text: string, term: string, index: int): nat
    requires |term| > 0
    requires index == -1 || (0 <= index && index + |term| <= |text|)
    decreases if index == -1 then 0 else |text| + 1 - index
  {
    if index == -1 then 0 else 1 + CountFrom(text, term, IndexOf(text, term, index + |term|))
  }

  /** Counting from the first match found from `from` is counting from `from`. */
  lemma {:induction false} CountFromOccurrences(text: string, term: string, from: nat)
    requires |term| > 0
    ensures var k := IndexOf(text, term, from);
            (k == -1 || k + |term| <= |text|) && CountFrom(text, term, k) == Occurrences(text, term, from)
    decreases |text| - from
  {
    var k := IndexOf(text, term, from);
    if k != -1 {
      CountFromOccurrences(text, term, k + |term|);
    }
  }

  /** countOccurrences(text, searchTerm): the while loop around indexOf. The
      count never exceeds the text's length, so Java's int cannot overflow. */
  method CountOccurrences(text: string, searchTerm: string) returns (count: nat)
    requires |searchTerm| > 0
    ensures count == Occurrences(text, searchTerm, 0)
  {
    count := 0;
    var index := IndexOf(text, searchTerm, 0);
    CountFromOccurrences(text, searchTerm, 0);
    ghost var total := CountFrom(text, searchTerm, index);
    while index != -1
      invariant index == -1 || (0 <= index && index + |searchTerm| <= |text|)
      invariant count + CountFrom(text, searchTerm, index) == total
      decreases if index == -1 then 0 else |text| + 1 - index
    {
      count := count + 1;
      index := IndexOf(text, searchTerm, index + |searchTerm|);
    }
  }

  // ---------------------------------------------------------------------
  // Ordering: List.sort and Stream.sorted with Double.compare(b, a) are
  // stable sorts by descending score.

  predicate SortedByScore(rs: seq<SearchResult>) {
    forall i, j :: 0 <= i < j < |rs| ==> rs[i].score >= rs[j].score
  }

  /** Places x before the first element whose score is not above its own. */
  function Insert(x: SearchResult, s: seq<SearchResult>): (r: seq<SearchResult>)
    ensures multiset(r) == multiset(s) + multiset{x}
  {
    if |s| == 0 then [x]
    else if x.score >= s[0].score then [x] + s
    else
      assert s == [s[0]] + s[1..];
      [s[0]] + Insert(x, s[1..])
  }

  lemma {:induction false} InsertSorted(x: SearchResult, s: seq<SearchResult>)
    requires SortedByScore(s)
    ensures SortedByScore(Insert(x, s))
    decreases |s|
  {
    if |s| > 0 && x.score < s[0].score {
      InsertSorted(x, s[1..]);
      var t := Insert(x, s[1..]);
      forall k | 0 <= k < |t| ensures t[k].score <= s[0].score {
        assert t[k] in multiset(t);
        if t[k] != x {
          assert t[k] in multiset(s[1..]);
          var m :| 0 <= m < |s[1..]| && s[1..][m] == t[k];
          assert s[m + 1] == t[k];
        }
      }
    }
  }

  /** The order the results are returned in: non-increasing scores, the same
      elements as the input. */
  function SortByScore(rs: seq<SearchResult>): (r: seq<SearchResult>)
    ensures SortedByScore(r)
    ensures multiset(r) == multiset(rs)
  {
    if |rs| == 0 then []
    else
      var rest := SortByScore(rs[1..]);
      InsertSorted(rs[0], rest);
      assert rs == [rs[0]] + rs[1..];
      Insert(rs[0], rest)
  }

  /** The results that carry score v, in order. */
  function WithScore(rs: seq<SearchResult>, v: real): seq<SearchResult> {
    if |rs| == 0 then []
    else if rs[0].score == v then [rs[0]] + WithScore(rs[1..], v)
    else WithScore(rs[1..], v)
  }

  /** Insertion puts the element first among those of its score. */
  lemma {:induction false} InsertWithScore(x: SearchResult, s: seq<SearchResult>, v: real)
    ensures x.score == v ==> WithScore(Insert(x, s), v) == [x] + WithScore(s, v)
    ensures x.score != v ==> WithScore(Insert(x, s), v) == WithScore(s, v)
    decreases |s|
  {
    if |s| == 0 {
      assert [x][1..] == [];
    } else if x.score >= s[0].score {
      assert ([x] + s)[1..] == s;
    } else {
      var t := Insert(x, s[1..]);
      InsertWithScore(x, s[1..], v);
      assert Insert(x, s) == [s[0]] + t;
      assert ([s[0]] + t)[1..] == t;
      if s[0].score == v {
        assert x.score != v;
        assert WithScore([s[0]] + t, v) == [s[0]] + WithScore(t, v);
      } else {
        assert WithScore([s[0]] + t, v) == WithScore(t, v);
        if x.score == v {
          assert WithScore(s, v) == WithScore(s[1..], v);
        }
      }
    }
  }

  /** Stability: results of equal score keep the order they had. */
  lemma {:induction false} SortStable(rs: seq<SearchResult>, v: real)
    ensures WithScore(SortByScore(rs), v) == WithScore(rs, v)
    decreases |rs|
  {
    if |rs| > 0 {
      SortStable(rs[1..], v);
      InsertWithScore(rs[0], SortByScore(rs[1..]), v);
    }
  }

  // ---------------------------------------------------------------------
  // fallbackSearch

  /** The relevance score of n occurrences: Math.min(0.7 + 0.05·n, 0.95). */
  function FallbackScore(n: nat): real {
    var raw := 0.7 + n as real * 0.05;
    if raw < 0.95 then raw else 0.95
  }

  /** A match scores between 0.75 and 0.95, more occurrences never score less,
      and five or more reach the cap. */
  lemma FallbackScoreBounds(n: nat, m: nat)
    requires 1 <= n <= m
    ensures 0.75 <= FallbackScore(n) <= FallbackScore(m) <= 0.95
    ensures FallbackScore(n) == 0.95 <==> n >= 5
  {
  }

  /** A null or whitespace-only query. */
  predicate BlankQuery(query: Option<string>) {
    query.None? || IsBlank(query.value)
  }

  lemma NonBlankLower(query: Option<string>)
    requires !BlankQuery(query)
    ensures |Lower(query.value)| > 0
  {
  }

  /** The lower-cased content of a row; a null content searches as "". */
  function LowerContent(doc: DocumentRecord): string {
    Lower(if doc.content.Some? then doc.content.value else "")
  }

  predicate KeywordMatch(doc: DocumentRecord, q: string) {
    Contains(LowerContent(doc), q)
  }

  /** The result built for a matching row: its stored fields, and the score
      of the number of occurrences. */
  function KeywordResult(doc: DocumentRecord, q: string): SearchResult
    requires |q| > 0
  {
    SearchResult(doc.filePath, doc.content, FallbackScore(Occurrences(LowerContent(doc), q, 0)), doc.fileType)
  }

  /** The filter and map stages, over the rows in repository order. */
  function KeywordMatches(docs: seq<DocumentRecord>, q: string): seq<SearchResult>
    requires |q| > 0
  {
    if |docs| == 0 then []
    else if KeywordMatch(docs[0], q) then [KeywordResult(docs[0], q)] + KeywordMatches(docs[1..], q)
    else KeywordMatches(docs[1..], q)
  }

  /** The filter keeps exactly the rows whose content holds the query. */
  lemma {:induction false} KeywordMatchesMembers(docs: seq<DocumentRecord>, q: string, r: SearchResult)
    requires |q| > 0
    ensures r in KeywordMatches(docs, q) <==>
            exists i :: 0 <= i < |docs| && KeywordMatch(docs[i], q) && r == KeywordResult(docs[i], q)
    decreases |docs|
  {
    if |docs| > 0 {
      var tail := docs[1..];
      KeywordMatchesMembers(tail, q, r);
      if r in KeywordMatches(docs, q) && !(KeywordMatch(docs[0], q) && r == KeywordResult(docs[0], q)) {
        assert r in KeywordMatches(tail, q);
        var i :| 0 <= i < |tail| && KeywordMatch(tail[i], q) && r == KeywordResult(tail[i], q);
        assert docs[i + 1] == tail[i];
      }
      if exists i :: 0 <= i < |docs| && KeywordMatch(docs[i], q) && r == KeywordResult(docs[i], q) {
        var i :| 0 <= i < |docs| && KeywordMatch(docs[i], q) && r == KeywordResult(docs[i], q);
        if i > 0 {
          assert tail[i - 1] == docs[i];
          assert r in KeywordMatches(tail, q);
        }
      }
    }
  }

  /** Every keyword result scores between 0.75 and 0.95. */
  lemma {:induction false} KeywordScores(docs: seq<DocumentRecord>, q: string)
    requires |q| > 0
    ensures forall r :: r in KeywordMatches(docs, q) ==> 0.75 <= r.score <= 0.95
    decreases |docs|
  {
    if |docs| > 0 {
      KeywordScores(docs[1..], q);
      if KeywordMatch(docs[0], q) {
        var n := Occurrences(LowerContent(docs[0]), q, 0);
        ContainsIffOccurs(LowerContent(docs[0]), q);
        FallbackScoreBounds(n, n);
      }
    }
  }

  /** Stream.limit(limit) for a limit that is not negative. */
  function Take(rs: seq<SearchResult>, limit: nat): seq<SearchResult> {
    if limit < |rs| then rs[..limit] else rs
  }

  /** fallbackSearch(query, limit): [] for a blank query; [] when the
      pipeline throws, which a negative limit makes it do; otherwise the
      matching rows' results, by descending score, at most limit of them. */
  function FallbackSearch(query: Option<string>, limit: int, docs: seq<DocumentRecord>): (r: seq<SearchResult>)
    ensures SortedByScore(r)
    ensures BlankQuery(query) ==> r == []
    ensures |r| <= (if limit < 0 then 0 else limit)
  {
    if BlankQuery(query) || limit < 0 then []
    else
      NonBlankLower(query);
      Take(SortByScore(KeywordMatches(docs, Lower(query.value))), limit)
  }

  /** x is the keyword result of a row whose content holds q, and it scores
      between 0.75 and 0.95. */
  predicate FromMatchingRow(docs: seq<DocumentRecord>, q: string, x: SearchResult) {
    |q| > 0 && (exists i :: 0 <= i < |docs| && KeywordMatch(docs[i], q) && x == KeywordResult(docs[i], q)) &&
    0.75 <= x.score <= 0.95
  }

  /** Every fallback result is the result of a row whose content holds the
      query, scored between 0.75 and 0.95. */
  lemma FallbackSearchProperties(query: Option<string>, limit: int, docs: seq<DocumentRecord>)
    ensures !BlankQuery(query) ==>
              forall k :: 0 <= k < |FallbackSearch(query, limit, docs)| ==>
                FromMatchingRow(docs, Lower(query.value), FallbackSearch(query, limit, docs)[k])
  {
    if !BlankQuery(query) && limit >= 0 {
      var q := Lower(query.value);
      NonBlankLower(query);
      var r := FallbackSearch(query, limit, docs);
      assert r == Take(SortByScore(KeywordMatches(docs, q)), limit);
      forall k | 0 <= k < |r| ensures FromMatchingRow(docs, q, r[k]) {
        KeptMatch(docs, q, limit, k);
      }
    }
  }

  /** One kept result of the fallback is a matching row's result. */
  lemma KeptMatch(docs: seq<DocumentRecord>, q: string, limit: nat, k: nat)
    requires |q| > 0 && k < |Take(SortByScore(KeywordMatches(docs, q)), limit)|
    ensures FromMatchingRow(docs, q, Take(SortByScore(KeywordMatches(docs, q)), limit)[k])
  {
    var all := KeywordMatches(docs, q);
    var sorted := SortByScore(all);
    var x := Take(sorted, limit)[k];
    assert x == sorted[k];
    assert x in multiset(sorted);
    assert x in all;
    KeywordMatchesMembers(docs, q, x);
    KeywordScores(docs, q);
  }

  /** The fallback keeps the first `limit` of the sorted matches: exactly
      min(limit, matches) of them, no match left out scoring above one kept;
      when the limit leaves room, every match is returned. */
  lemma FallbackKeepsTop(query: Option<string>, limit: int, docs: seq<DocumentRecord>)
    requires !BlankQuery(query) && limit >= 0
    ensures var sorted := SortByScore(KeywordMatches(docs, Lower(query.value)));
            var r := FallbackSearch(query, limit, docs);
            |r| == (if limit < |sorted| then limit else |sorted|) &&
            r == sorted[..|r|] &&
            (forall k, j :: 0 <= k < |r| <= j < |sorted| ==> sorted[j].score <= r[k].score) &&
            (limit >= |sorted| ==> multiset(r) == multiset(KeywordMatches(docs, Lower(query.value))))
  {
    var sorted := SortByScore(KeywordMatches(docs, Lower(query.value)));
    var r := FallbackSearch(query, limit, docs);
    forall k, j | 0 <= k < |r| <= j < |sorted| ensures sorted[j].score <= r[k].score {
      assert r[k] == sorted[k];
    }
  }

  // ---------------------------------------------------------------------
  // The vector path of search

  /** One hit of the Milvus search: a primary key and its score. */
  datatype IdScore = IdScore(id: int, score: real)

  /** What milvusClient.search does: throw (this also stands for every other
      exception of the vector path), or answer with a status and data, the
      data being one list of hits per target vector. search sends a single
      target, so a well-behaved store answers with one list of up to topK
      hits. */
  datatype SearchResponse = SearchRaised | SearchAnswered(status: int, data: Option<seq<seq<IdScore>>>)

  /** The hits the two for loops collect, as the Milvus SDK's
      SearchResultsWrapper behaves: getRowRecords() is getRowRecords(0), so
      numQueries is the hit count of the first target (and there is no first
      target to read when the data holds none); getIDScore(i) throws once i
      reaches the number of targets. None is an exception, which search
      catches. */
  function CollectedHits(targets: seq<seq<IdScore>>): (r: Option<seq<IdScore>>)
    ensures |targets| == 1 ==> (r.Some? <==> |targets[0]| <= 1)
    ensures |targets| == 1 && |targets[0]| <= 1 ==> r == Some(targets[0])
  {
    if |targets| == 0 then None
    else
      var numQueries := |targets[0]|;
      if numQueries > |targets| then None
      else if |targets| == 1 then
        FlattenSingle(targets);
        Some(Flatten(targets[..numQueries]))
      else Some(Flatten(targets[..numQueries]))
  }

  /** The hits of all targets, in order. */
  function Flatten(rows: seq<seq<IdScore>>): seq<IdScore> {
    if |rows| == 0 then [] else Flatten(rows[..|rows| - 1]) + rows[|rows| - 1]
  }

  /** A single target's hits, as far as the loops get to them. */
  lemma FlattenSingle(targets: seq<seq<IdScore>>)
    requires |targets| == 1 && |targets[0]| <= 1
    ensures Flatten(targets[..|targets[0]|]) == targets[0]
  {
    if |targets[0]| == 1 {
      assert targets[..1][..0] == [];
      assert Flatten(targets[..1]) == Flatten([]) + targets[0];
    }
  }

  /** documentIds after the loops: every hit's id, duplicates kept. */
  function Ids(pairs: seq<IdScore>): seq<int> {
    if |pairs| == 0 then [] else Ids(pairs[..|pairs| - 1]) + [pairs[|pairs| - 1].id]
  }

  lemma {:induction false} IdsLength(pairs: seq<IdScore>)
    ensures |Ids(pairs)| == |pairs|
    decreases |pairs|
  {
    if |pairs| > 0 {
      IdsLength(pairs[..|pairs| - 1]);
    }
  }

  /** scoreMap after the loops: each put overwrites the id's earlier score. */
  function ScoreMap(pairs: seq<IdScore>): map<int, real> {
    if |pairs| == 0 then map[]
    else ScoreMap(pairs[..|pairs| - 1])[pairs[|pairs| - 1].id := pairs[|pairs| - 1].score]
  }

  /** An id has a score exactly when the store returned it, and the score is
      that of its last hit. */
  lemma {:induction false} ScoreMapLastWins(pairs: seq<IdScore>, id: int)
    ensures id in ScoreMap(pairs) <==> id in Ids(pairs)
    ensures id in ScoreMap(pairs) ==>
              exists i :: 0 <= i < |pairs| && pairs[i].id == id && ScoreMap(pairs)[id] == pairs[i].score &&
                          forall j :: i < j < |pairs| ==> pairs[j].id != id
    decreases |pairs|
  {
    if |pairs| > 0 {
      var init := pairs[..|pairs| - 1];
      var last := pairs[|pairs| - 1];
      ScoreMapLastWins(init, id);
      if id != last.id && id in ScoreMap(pairs) {
        var i :| 0 <= i < |init| && init[i].id == id && ScoreMap(init)[id] == init[i].score &&
                 forall j :: i < j < |init| ==> init[j].id != id;
        assert pairs[i] == init[i];
        assert forall j :: i < j < |pairs| ==> pairs[j].id != id by {
          forall j | i < j < |pairs| ensures pairs[j].id != id {
            if j < |pairs| - 1 {
              assert pairs[j] == init[j];
            }
          }
        }
      }
    }
  }

  /** The rows whose vector id the store returned, in repository order. */
  function MatchingDocs(docs: seq<DocumentRecord>, ids: seq<int>): seq<DocumentRecord> {
    if |docs| == 0 then []
    else if docs[0].vectorId.Some? && docs[0].vectorId.value in ids then [docs[0]] + MatchingDocs(docs[1..], ids)
    else MatchingDocs(docs[1..], ids)
  }

  lemma {:induction false} MatchingDocsMembers(docs: seq<DocumentRecord>, ids: seq<int>, d: DocumentRecord)
    ensures d in MatchingDocs(docs, ids) <==> d in docs && d.vectorId.Some? && d.vectorId.value in ids
    decreases |docs|
  {
    if |docs| > 0 {
      MatchingDocsMembers(docs[1..], ids, d);
      assert docs == [docs[0]] + docs[1..];
    }
  }

  /** The result a joined row yields: none when its score is missing or
      below the minimum. */
  function ScoredOne(d: DocumentRecord, scores: map<int, real>, minimumScore: real): seq<SearchResult> {
    if d.vectorId.Some? && d.vectorId.value in scores && scores[d.vectorId.value] >= minimumScore
    then [SearchResult(d.filePath, d.content, scores[d.vectorId.value], d.fileType)]
    else []
  }

  /** searchResults before sorting. */
  function Scored(ds: seq<DocumentRecord>, scores: map<int, real>, minimumScore: real): seq<SearchResult> {
    if |ds| == 0 then []
    else Scored(ds[..|ds| - 1], scores, minimumScore) + ScoredOne(ds[|ds| - 1], scores, minimumScore)
  }

  lemma {:induction false} ScoredMembers(ds: seq<DocumentRecord>, scores: map<int, real>, minimumScore: real,
                                         r: SearchResult)
    ensures r in Scored(ds, scores, minimumScore) <==>
            exists d :: d in ds && ScoredOne(d, scores, minimumScore) == [r]
    decreases |ds|
  {
    if |ds| > 0 {
      var init := ds[..|ds| - 1];
      ScoredMembers(init, scores, minimumScore, r);
      assert ds == init + [ds[|ds| - 1]];
      if exists d :: d in ds && ScoredOne(d, scores, minimumScore) == [r] {
        var d :| d in ds && ScoredOne(d, scores, minimumScore) == [r];
        if d != ds[|ds| - 1] {
          assert d in init;
        }
      }
    }
  }

  /** The vector path: None where search falls back (an empty embedding, an
      exception, a failed status, null data, an exception in the loops, no
      ids, no row whose vector id was returned); otherwise the joined rows at
      or above the minimum score, sorted. The limit plays no part here. */
  function VectorPath(embedding: seq<real>, response: SearchResponse, docs: seq<DocumentRecord>,
                      minimumScore: real): (r: Option<seq<SearchResult>>)
    ensures r.Some? ==> |embedding| > 0 && response.SearchAnswered? && response.status == SuccessStatus &&
                        response.data.Some? && CollectedHits(response.data.value).Some?
    ensures r.Some? ==> SortedByScore(r.value)
  {
    if |embedding| == 0 then None
    else match response
      case SearchRaised => None
      case SearchAnswered(status, data) =>
        if status != SuccessStatus || data.None? then None
        else match CollectedHits(data.value)
          case None => None
          case Some(pairs) =>
            if |pairs| == 0 then None
            else
              var documents := MatchingDocs(docs, Ids(pairs));
              if |documents| == 0 then None
              else Some(SortByScore(Scored(documents, ScoreMap(pairs), minimumScore)))
  }

  /** The hits behind a vector result. */
  function VectorHits(response: SearchResponse): seq<IdScore>
    requires response.SearchAnswered? && response.data.Some? && CollectedHits(response.data.value).Some?
  {
    CollectedHits(response.data.value).value
  }

  /** search(query, limit, minimumScore), given the query's embedding and
      the store's answer. */
  function SearchSpec(query: Option<string>, limit: int, minimumScore: real, embedding: seq<real>,
                      response: SearchResponse, docs: seq<DocumentRecord>): (r: seq<SearchResult>)
    ensures BlankQuery(query) ==> r == []
    ensures SortedByScore(r)
  {
    if BlankQuery(query) then []
    else match VectorPath(embedding, response, docs, minimumScore)
      case None => FallbackSearch(query, limit, docs)
      case Some(rs) => rs
  }

  /** Every vector result comes from a stored row whose vector id the store
      returned, carries that id's (last) score, which is at least the
      minimum, and the results are sorted. */
  lemma VectorResultsSound(embedding: seq<real>, response: SearchResponse, docs: seq<DocumentRecord>,
                           minimumScore: real)
    requires VectorPath(embedding, response, docs, minimumScore).Some?
    ensures var rs := VectorPath(embedding, response, docs, minimumScore).value;
            var pairs := VectorHits(response);
            SortedByScore(rs) &&
            forall r :: r in rs ==>
              exists d :: d in docs && d.vectorId.Some? && d.vectorId.value in Ids(pairs) &&
                          d.vectorId.value in ScoreMap(pairs) &&
                          r == SearchResult(d.filePath, d.content, ScoreMap(pairs)[d.vectorId.value], d.fileType) &&
                          r.score >= minimumScore
  {
    var rs := VectorPath(embedding, response, docs, minimumScore).value;
    var pairs := VectorHits(response);
    var documents := MatchingDocs(docs, Ids(pairs));
    var scored := Scored(documents, ScoreMap(pairs), minimumScore);
    forall r | r in rs
      ensures exists d :: d in docs && d.vectorId.Some? && d.vectorId.value in Ids(pairs) &&
                          d.vectorId.value in ScoreMap(pairs) &&
                          r == SearchResult(d.filePath, d.content, ScoreMap(pairs)[d.vectorId.value], d.fileType) &&
                          r.score >= minimumScore
    {
      assert r in multiset(rs);
      assert r in scored;
      ScoredFrom(docs, pairs, minimumScore, r);
    }
  }

  /** A scored result is the result of a joined row, with that row's score. */
  lemma ScoredFrom(docs: seq<DocumentRecord>, pairs: seq<IdScore>, minimumScore: real, r: SearchResult)
    requires r in Scored(MatchingDocs(docs, Ids(pairs)), ScoreMap(pairs), minimumScore)
    ensures exists d :: d in docs && d.vectorId.Some? && d.vectorId.value in Ids(pairs) &&
                        d.vectorId.value in ScoreMap(pairs) &&
                        r == SearchResult(d.filePath, d.content, ScoreMap(pairs)[d.vectorId.value], d.fileType) &&
                        r.score >= minimumScore
  {
    var documents := MatchingDocs(docs, Ids(pairs));
    ScoredMembers(documents, ScoreMap(pairs), minimumScore, r);
    var d :| d in documents && ScoredOne(d, ScoreMap(pairs), minimumScore) == [r];
    MatchingDocsMembers(docs, Ids(pairs), d);
  }

  /** Conversely, every stored row whose vector id the store returned with a
      score at or above the minimum is among the vector results. */
  lemma VectorResultsComplete(embedding: seq<real>, response: SearchResponse, docs: seq<DocumentRecord>,
                              minimumScore: real, d: DocumentRecord)
    requires VectorPath(embedding, response, docs, minimumScore).Some?
    requires d in docs && d.vectorId.Some?
    requires var pairs := VectorHits(response);
             d.vectorId.value in ScoreMap(pairs) && ScoreMap(pairs)[d.vectorId.value] >= minimumScore
    ensures var pairs := VectorHits(response);
            SearchResult(d.filePath, d.content, ScoreMap(pairs)[d.vectorId.value], d.fileType)
              in VectorPath(embedding, response, docs, minimumScore).value
  {
    var pairs := VectorHits(response);
    var documents := MatchingDocs(docs, Ids(pairs));
    var r := SearchResult(d.filePath, d.content, ScoreMap(pairs)[d.vectorId.value], d.fileType);
    ScoreMapLastWins(pairs, d.vectorId.value);
    MatchingDocsMembers(docs, Ids(pairs), d);
    ScoredMembers(documents, ScoreMap(pairs), minimumScore, r);
    var rs := VectorPath(embedding, response, docs, minimumScore).value;
    assert r in multiset(Scored(documents, ScoreMap(pairs), minimumScore));
    assert r in multiset(rs);
  }

  /** When rows joined but every score is below the minimum, search returns
      the empty list and does not fall back, whatever the keyword search
      would have found. */
  lemma BelowMinimumNoFallback(query: Option<string>, limit: int, minimumScore: real, embedding: seq<real>,
                               targets: seq<seq<IdScore>>, docs: seq<DocumentRecord>)
    requires !BlankQuery(query) && |embedding| > 0 && CollectedHits(targets).Some?
    requires |MatchingDocs(docs, Ids(CollectedHits(targets).value))| > 0
    requires forall p :: p in CollectedHits(targets).value ==> p.score < minimumScore
    ensures SearchSpec(query, limit, minimumScore, embedding, SearchAnswered(SuccessStatus, Some(targets)), docs) == []
  {
    var pairs := CollectedHits(targets).value;
    assert |pairs| > 0 by {
      var d := MatchingDocs(docs, Ids(pairs))[0];
      assert d in MatchingDocs(docs, Ids(pairs));
      MatchingDocsMembers(docs, Ids(pairs), d);
      IdsLength(pairs);
    }
    ScoredBelowMinimum(MatchingDocs(docs, Ids(pairs)), pairs, minimumScore);
  }

  /** No row scores when every hit is below the minimum. */
  lemma {:induction false} ScoredBelowMinimum(ds: seq<DocumentRecord>, pairs: seq<IdScore>, minimumScore: real)
    requires forall p :: p in pairs ==> p.score < minimumScore
    ensures Scored(ds, ScoreMap(pairs), minimumScore) == []
    decreases |ds|
  {
    if |ds| > 0 {
      ScoredBelowMinimum(ds[..|ds| - 1], pairs, minimumScore);
      var d := ds[|ds| - 1];
      if d.vectorId.Some? && d.vectorId.value in ScoreMap(pairs) {
        ScoreMapLastWins(pairs, d.vectorId.value);
        var i :| 0 <= i < |pairs| && pairs[i].id == d.vectorId.value && ScoreMap(pairs)[d.vectorId.value] == pairs[i].score &&
                 forall j :: i < j < |pairs| ==> pairs[j].id != d.vectorId.value;
        assert pairs[i] in pairs;
      }
    }
  }

  /** When the store answers but no stored row carries any of the collected
      ids (zero hits included), or the loops throw, search falls back to the
      keyword search. */
  lemma NothingJoinedFallsBack(query: Option<string>, limit: int, minimumScore: real, embedding: seq<real>,
                               targets: seq<seq<IdScore>>, docs: seq<DocumentRecord>)
    requires forall d :: d in docs && d.vectorId.Some? && CollectedHits(targets).Some? ==>
               d.vectorId.value !in Ids(CollectedHits(targets).value)
    ensures SearchSpec(query, limit, minimumScore, embedding, SearchAnswered(SuccessStatus, Some(targets)), docs) ==
            FallbackSearch(query, limit, docs)
  {
    if CollectedHits(targets).Some? {
      var ids := Ids(CollectedHits(targets).value);
      if |MatchingDocs(docs, ids)| > 0 {
        var d := MatchingDocs(docs, ids)[0];
        MatchingDocsMembers(docs, ids, d);
      }
    }
  }

  /** The single target search sends: two or more hits make getIDScore(1)
      throw, so the vector results are dropped and search answers with the
      keyword search instead; a single hit reaches the join. */
  lemma ManyHitsFallBack(query: Option<string>, limit: int, minimumScore: real, embedding: seq<real>,
                         hits: seq<IdScore>, docs: seq<DocumentRecord>)
    ensures |hits| >= 2 ==>
              SearchSpec(query, limit, minimumScore, embedding, SearchAnswered(SuccessStatus, Some([hits])), docs) ==
              FallbackSearch(query, limit, docs)
    ensures |hits| == 1 ==> VectorHits(SearchAnswered(SuccessStatus, Some([hits]))) == hits
  {
    assert [hits][0] == hits;
  }

  /** The for loops over numQueries and the hits of each target, filling
      documentIds and scoreMap; getIDScore(i) throws for an index with no
      target, which `raised` reports. */
  method CollectScores(targets: seq<seq<IdScore>>, numQueries: nat)
    returns (raised: bool, documentIds: seq<int>, scoreMap: map<int, real>)
    ensures raised <==> numQueries > |targets|
    ensures !raised ==> documentIds == Ids(Flatten(targets[..numQueries])) &&
                        scoreMap == ScoreMap(Flatten(targets[..numQueries]))
  {
    raised := false;
    documentIds := [];
    scoreMap := map[];
    for i := 0 to numQueries
      invariant i <= |targets|
      invariant documentIds == Ids(Flatten(targets[..i])) && scoreMap == ScoreMap(Flatten(targets[..i]))
    {
      if i == |targets| {
        raised := true;
        return;
      }
      var idScoreList := targets[i];
      documentIds, scoreMap := AddHits(Flatten(targets[..i]), idScoreList, documentIds, scoreMap);
      assert targets[..i + 1][..i] == targets[..i];
    }
  }

  /** The inner for loop, over one target's hits. */
  method AddHits(ghost before: seq<IdScore>, idScoreList: seq<IdScore>, ids0: seq<int>, scores0: map<int, real>)
    returns (documentIds: seq<int>, scoreMap: map<int, real>)
    requires ids0 == Ids(before) && scores0 == ScoreMap(before)
    ensures documentIds == Ids(before + idScoreList) && scoreMap == ScoreMap(before + idScoreList)
  {
    documentIds, scoreMap := ids0, scores0;
    assert before + idScoreList[..0] == before;
    for j := 0 to |idScoreList|
      invariant documentIds == Ids(before + idScoreList[..j])
      invariant scoreMap == ScoreMap(before + idScoreList[..j])
    {
      var idScore := idScoreList[j];
      assert (before + idScoreList[..j + 1])[..|before| + j] == before + idScoreList[..j];
      documentIds := documentIds + [idScore.id];
      scoreMap := scoreMap[idScore.id := idScore.score];
    }
    assert idScoreList[..|idScoreList|] == idScoreList;
  }

  /** The for loop over the joined rows, building searchResults. */
  method BuildResults(documents: seq<DocumentRecord>, scoreMap: map<int, real>, minimumScore: real)
    returns (searchResults: seq<SearchResult>)
    ensures searchResults == Scored(documents, scoreMap, minimumScore)
  {
    searchResults := [];
    for k := 0 to |documents|
      invariant searchResults == Scored(documents[..k], scoreMap, minimumScore)
    {
      var doc := documents[k];
      assert documents[..k + 1][..k] == documents[..k];
      if doc.vectorId.Some? && doc.vectorId.value in scoreMap {
        var score := scoreMap[doc.vectorId.value];
        if score >= minimumScore {
          searchResults := searchResults + [SearchResult(doc.filePath, doc.content, score, doc.fileType)];
        }
      }
    }
    assert documents[..|documents|] == documents;
  }

  /** search(query, limit, minimumScore): the embedding service's answer and
      the store's response are passed in; docs are the metadata rows. */
  method Search(query: Option<string>, limit: int, minimumScore: real, embedding: seq<real>,
                response: SearchResponse, docs: seq<DocumentRecord>) returns (results: seq<SearchResult>)
    ensures results == SearchSpec(query, limit, minimumScore, embedding, response, docs)
  {
    if BlankQuery(query) {
      return [];
    }
    if |embedding| == 0 || response.SearchRaised? || response.status != SuccessStatus || response.data.None? {
      return FallbackSearch(query, limit, docs);
    }
    var targets := response.data.value;
    if |targets| == 0 {
      // getRowRecords() reads the first target, and there is none: it throws
      return FallbackSearch(query, limit, docs);
    }
    var numQueries := |targets[0]|;
    if numQueries == 0 {
      return FallbackSearch(query, limit, docs);
    }
    var raised, documentIds, scoreMap := CollectScores(targets, numQueries);
    if raised {
      return FallbackSearch(query, limit, docs);
    }
    ghost var pairs := Flatten(targets[..numQueries]);
    IdsLength(pairs);
    if |documentIds| == 0 {
      return FallbackSearch(query, limit, docs);
    }
    var documents := MatchingDocs(docs, documentIds);
    if |documents| == 0 {
      return FallbackSearch(query, limit, docs);
    }
    var searchResults := BuildResults(documents, scoreMap, minimumScore);
    results := SortByScore(searchResults);
  }
}
