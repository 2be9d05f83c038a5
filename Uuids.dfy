/** java.util.UUID as far as job identifiers use it: the canonical
    8-4-4-4-12 hexadecimal text that UUID.toString produces, and the
    UUID.fromString parse that the message consumer applies to it. */
module Uuids {
  import opened JavaText

  type Nibble = x: int | 0 <= x < 16

  /** The 128 bits of a UUID as 32 hexadecimal digits, most significant first. */
  type Uuid = s: seq<Nibble> | |s| == 32 witness seq(32, _ => 0)

  /** UUID.toString writes lower-case digits. */
  function HexDigit(n: Nibble): char {
    if n < 10 then ('0' as int + n) as char else ('a' as int + n - 10) as char
  }

  /** The digit value of a hexadecimal character of either case. */
  function HexValue(c: char): Option<Nibble> {
    if '0' <= c <= '9' then Some(c as int - '0' as int)
    else if 'a' <= c <= 'f' then Some(c as int - 'a' as int + 10)
    else if 'A' <= c <= 'F' then Some(c as int - 'A' as int + 10)
    else None
  }

  /** The four dashes of the 36-character text sit at these positions. */
  predicate IsDashPosition(j: int) {
    j == 8 || j == 13 || j == 18 || j == 23
  }

  /** Character position at which digit i (0 <= i < 32) is written. */
  function CharPosition(i: int): int {
    if i < 8 then i else if i < 12 then i + 1 else if i < 16 then i + 2 else if i < 20 then i + 3 else i + 4
  }

  /** Digit shown at character position j, when j is not a dash position. */
  function DigitIndex(j: int): int {
    if j < 8 then j else if j < 13 then j - 1 else if j < 18 then j - 2 else if j < 23 then j - 3 else j - 4
  }

  /** UUID.toString */
  function ToString(u: Uuid): (r: string)
    ensures |r| == 36
  {
    seq(36, j requires 0 <= j < 36 => if IsDashPosition(j) then '-' else HexDigit(u[DigitIndex(j)]))
  }

  predicate IsCanonical(s: string) {
    |s| == 36 &&
    forall j :: 0 <= j < 36 ==> if IsDashPosition(j) then s[j] == '-' else HexValue(s[j]).Some?
  }

  /** UUID.fromString on the 36-character form: dashes at positions 8, 13, 18
      and 23, hexadecimal digits of either case elsewhere; None stands for the
      IllegalArgumentException it throws otherwise. */
  function FromString(s: string): (r: Option<Uuid>)
    ensures r.Some? <==> IsCanonical(s)
  {
    if IsCanonical(s) then
      Some(seq(32, i requires 0 <= i < 32 =>
        assert !IsDashPosition(CharPosition(i)) && 0 <= CharPosition(i) < 36;
        HexValue(s[CharPosition(i)]).value))
    else None
  }

  /** Parsing the text of a UUID gives back that UUID. */
  lemma FromStringToString(u: Uuid)
    ensures FromString(ToString(u)) == Some(u)
  {
    var s := ToString(u);
    forall j | 0 <= j < 36 && !IsDashPosition(j)
      ensures HexValue(s[j]) == Some(u[DigitIndex(j)])
    {
    }
    assert IsCanonical(s);
    var v := FromString(s).value;
    forall i | 0 <= i < 32 ensures v[i] == u[i] {
      assert DigitIndex(CharPosition(i)) == i;
    }
    assert v == u;
  }

  /** A parsed UUID prints as the lower-cased input: parsing loses only case. */
  lemma ToStringFromString(s: string)
    requires FromString(s).Some?
    ensures ToString(FromString(s).value) == Lower(s)
  {
    var u := FromString(s).value;
    var t := ToString(u);
    forall j | 0 <= j < 36 ensures t[j] == Lower(s)[j] {
      if !IsDashPosition(j) {
        assert CharPosition(DigitIndex(j)) == j;
      }
    }
  }
}
