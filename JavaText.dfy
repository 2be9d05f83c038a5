/** The small part of java.lang.String, java.util.StringJoiner and Java's
    exceptions that the ingestion and search code relies on. Strings are
    sequences of characters; the locale-sensitive String.toLowerCase is
    modelled on ASCII letters only. */
module JavaText {

  datatype Option<+T> = None | Some(value: T)

  datatype Result<+T, +E> = Ok(value: T) | Err(error: E)

  /** A thrown exception: its class name and getMessage(), which may be null. */
  datatype Exception = Exception(name: string, message: Option<string>)

  function IllegalArgument(message: string): Exception {
    Exception("IllegalArgumentException", Some(message))
  }

  function LowerChar(c: char): char {
    if 'A' <= c <= 'Z' then (c as int + 32) as char else c
  }

  /** String.toLowerCase on ASCII: one character for one character. */
  function Lower(s: string): (r: string)
    ensures |r| == |s|
    ensures forall i :: 0 <= i < |s| ==> r[i] == LowerChar(s[i])
  {
    seq(|s|, i requires 0 <= i < |s| => LowerChar(s[i]))
  }

  lemma LowerIdempotent(s: string)
    ensures Lower(Lower(s)) == Lower(s)
  {
  }

  /** String.endsWith */
  predicate EndsWith(s: string, suffix: string) {
    |suffix| <= |s| && s[|s| - |suffix|..] == suffix
  }

  /** s.trim().isEmpty(): trim removes every character up to U+0020 from both
      ends, so the trimmed string is empty exactly when no other character occurs. */
  predicate IsBlank(s: string) {
    forall i :: 0 <= i < |s| ==> s[i] <= ' '
  }

  /** `term` occurs in `text` starting at index k. */
  predicate MatchesAt(text: string, term: string, k: int) {
    0 <= k && k + |term| <= |text| && text[k..k + |term|] == term
  }

  /** String.contains */
  predicate Contains(text: string, term: string) {
    exists k :: 0 <= k <= |text| - |term| && MatchesAt(text, term, k)
  }

  /** String.indexOf(term, from) for the non-empty terms the model searches
      for: the first match at or after `from`, or -1. */
  function IndexOf(text: string, term: string, from: nat): (r: int)
    requires |term| > 0
    ensures r == -1 || (from <= r && r + |term| <= |text|)
    decreases |text| - from
  {
    if from + |term| > |text| then -1
    else if MatchesAt(text, term, from) then from
    else IndexOf(text, term, from + 1)
  }

  /** indexOf finds the first match at or after `from`: -1 means there is
      none, and otherwise the term occurs there and nowhere in between. */
  lemma {:induction false} IndexOfFirstMatch(text: string, term: string, from: nat)
    requires |term| > 0
    ensures var r := IndexOf(text, term, from);
            (r == -1 || MatchesAt(text, term, r)) &&
            forall k :: from <= k && (r == -1 || k < r) ==> !MatchesAt(text, term, k)
    decreases |text| - from
  {
    if from + |term| <= |text| && !MatchesAt(text, term, from) {
      IndexOfFirstMatch(text, term, from + 1);
    }
  }

  /** The text of a StringJoiner after adding `parts` in order: the parts
      separated by `sep`, and "" when nothing was added. */
  function Join(parts: seq<string>, sep: string): string {
    if |parts| == 0 then ""
    else if |parts| == 1 then parts[0]
    else Join(parts[..|parts| - 1], sep) + sep + parts[|parts| - 1]
  }

  /** The strings appended to a StringBuilder, in order. */
  function Concat(ss: seq<string>): string {
    if |ss| == 0 then "" else Concat(ss[..|ss| - 1]) + ss[|ss| - 1]
  }

  /** Number of occurrences of character c. */
  function CountChar(s: string, c: char): nat {
    if |s| == 0 then 0 else CountChar(s[..|s| - 1], c) + (if s[|s| - 1] == c then 1 else 0)
  }

  lemma {:induction false} CountCharAppend(a: string, b: string, c: char)
    ensures CountChar(a + b, c) == CountChar(a, c) + CountChar(b, c)
    decreases |b|
  {
    if |b| == 0 {
      assert a + b == a;
    } else {
      assert (a + b)[..|a + b| - 1] == a + b[..|b| - 1];
      CountCharAppend(a, b[..|b| - 1], c);
    }
  }

  /** A string without c holds no c. */
  lemma {:induction false} CountCharAbsent(s: string, c: char)
    requires forall i :: 0 <= i < |s| ==> s[i] != c
    ensures CountChar(s, c) == 0
    decreases |s|
  {
    if |s| > 0 {
      CountCharAbsent(s[..|s| - 1], c);
    }
  }
}
