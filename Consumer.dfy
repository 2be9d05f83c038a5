/** DirectoryProcessingConsumer: reads a message value of the form
    "<job id>,<directory path>" and hands it to processDirectory. Anything
    else is dropped: a value without a comma silently, a first part that is
    not a UUID through the caught exception. */
module Consumer {
  import opened JavaText
  import opened Uuids
  import opened Jobs
  import opened VectorDb
  import opened DirectoryProcessing

  /** message.split(",", 2): the whole value when it holds no comma,
      otherwise the text before the first comma and everything after it
      (further commas included, an empty tail kept). */
  function SplitFirstComma(m: string): (parts: seq<string>)
    ensures 1 <= |parts| <= 2
    ensures |parts| == 1 <==> ',' !in m
    ensures |parts| == 1 ==> parts[0] == m
    ensures |parts| == 2 ==> parts[0] + "," + parts[1] == m && ',' !in parts[0]
  {
    if |m| == 0 then [m]
    else if m[0] == ',' then
      assert m == "" + "," + m[1..];
      ["", m[1..]]
    else
      var rest := SplitFirstComma(m[1..]);
      assert m == [m[0]] + m[1..];
      if |rest| == 1 then [m]
      else
        assert [m[0]] + rest[0] + "," + rest[1] == m;
        [[m[0]] + rest[0], rest[1]]
  }

  /** What consume does with one value. */
  datatype Dispatch =
    | Dispatched(jobId: Uuid, directoryPath: string)  // processDirectory is called
    | Ignored                                         // fewer than two parts
    | Rejected                                        // UUID.fromString threw; logged

  function ParseMessage(m: string): (d: Dispatch)
    ensures ',' !in m ==> d == Ignored
    ensures d.Dispatched? ==> |m| > 36 && ToString(d.jobId) + "," + d.directoryPath == Lower(m[..36]) + m[36..]
  {
    var parts := SplitFirstComma(m);
    if |parts| != 2 then Ignored
    else match FromString(parts[0])
      case None => Rejected
      case Some(id) =>
        ToStringFromString(parts[0]);
        assert m[..36] == parts[0] && m[36..] == "," + parts[1];
        Dispatched(id, parts[1])
  }

  /** A value written as "<job id>,<path>" reaches processDirectory with
      that id and that path, whatever commas the path holds. */
  lemma {:induction false} WellFormedMessageDispatches(id: Uuid, path: string)
    ensures ParseMessage(ToString(id) + "," + path) == Dispatched(id, path)
  {
    var s := ToString(id);
    var m := s + "," + path;
    assert ',' !in s by {
      forall j | 0 <= j < 36 ensures s[j] != ',' {
        if !IsDashPosition(j) {
          var n := id[DigitIndex(j)];
          assert s[j] == HexDigit(n);
        }
      }
    }
    var parts := SplitFirstComma(m);
    assert |parts| == 2 by {
      assert m[36] == ',';
    }
    SplitUnique(s, path, parts[0], parts[1]);
    FromStringToString(id);
  }

  /** Splitting at the first comma is determined: a comma-free head, a comma,
      then any tail. */
  lemma SplitUnique(a: string, b: string, c: string, d: string)
    requires ',' !in a && ',' !in c
    requires a + "," + b == c + "," + d
    ensures a == c && b == d
  {
    var m := a + "," + b;
    assert forall k :: 0 <= k < |a| ==> m[k] == a[k];
    assert forall k :: 0 <= k < |c| ==> m[k] == c[k];
    assert m[|a|] == ',' && m[|c|] == ',';
    if |a| != |c| {
      assert false;
    }
    assert a == m[..|a|] && c == m[..|c|];
    assert b == m[|a| + 1..] && d == m[|c| + 1..];
  }

  /** scheduleDirectoryProcessing sends the directory path as the value (the
      job id goes in the key, which consume never reads). A path with no
      comma is ignored; an absolute path, starting with '/', has a first part
      that is never a UUID. Either way no job is ever processed. */
  lemma ProducerValueNeverDispatches(path: string)
    requires ',' !in path || (|path| > 0 && path[0] == '/')
    ensures !ParseMessage(path).Dispatched?
  {
    var parts := SplitFirstComma(path);
    if |parts| == 2 {
      assert parts[0][0] == '/' by {
        assert (parts[0] + "," + parts[1])[0] == path[0];
      }
      assert !IsCanonical(parts[0]) by {
        if |parts[0]| == 36 {
          assert HexValue(parts[0][0]).None?;
        }
      }
    }
  }

  /** A trailing comma still dispatches, with an empty directory path. */
  lemma TrailingCommaDispatchesEmptyPath(id: Uuid)
    ensures ParseMessage(ToString(id) + ",") == Dispatched(id, "")
  {
    WellFormedMessageDispatches(id, "");
    assert ToString(id) + "," + "" == ToString(id) + ",";
  }

  class DirectoryProcessingConsumer {
    const service: DirectoryProcessingService

    constructor (service: DirectoryProcessingService)
      ensures this.service == service
    {
      this.service := service;
    }

    /** consume(message): processDirectory runs exactly when the value parses
        as "<job id>,<path>"; otherwise nothing is written. */
    method Consume(message: string, fs: FileSystem) returns (d: Dispatch)
      requires service.Valid()
      modifies service.jobs, service.vectorDb
      ensures service.Valid()
      ensures d == ParseMessage(message)
      ensures !(d.Dispatched? && d.jobId in old(service.jobs.jobs)) ==>
                service.jobs.jobs == old(service.jobs.jobs) && service.jobs.saved == old(service.jobs.saved) &&
                service.vectorDb.State() == old(service.vectorDb.State())
      ensures d.Dispatched? && d.jobId in old(service.jobs.jobs) ==>
                var row := old(service.jobs.jobs[d.jobId]);
                var outcome := WalkListing(old(service.vectorDb.State()), ListingAt(fs, d.directoryPath),
                                           d.directoryPath, service.parsers, service.embed);
                service.vectorDb.State() == outcome.store &&
                service.jobs.saved == old(service.jobs.saved) + [row.(status := PROCESSING), FinalRecord(row, outcome)] &&
                service.jobs.jobs == old(service.jobs.jobs)[d.jobId := FinalRecord(row, outcome)]
    {
      var parts := SplitFirstComma(message);
      d := ParseMessage(message);
      if |parts| == 2 {
        var jobId := FromString(parts[0]);
        if jobId.Some? {
          service.ProcessDirectory(jobId.value, parts[1], fs);
        }
        // a None is the IllegalArgumentException of UUID.fromString, caught and logged
      }
    }
  }
}
