/** Decimal numerals and separator-joined lists, with the readers that undo them. */
module Text {
  import opened Prelude

  // ----- characters ------------------------------------------------------------------------------

  predicate IsAlnum(c: char) { '0' <= c <= '9' || 'A' <= c <= 'Z' || 'a' <= c <= 'z' }

  /** The characters of stable identifiers: `[A-Za-z0-9._:/-]`. */
  predicate IsIdentifierChar(c: char) {
    IsAlnum(c) || c == '.' || c == '_' || c == ':' || c == '/' || c == '-'
  }

  // ----- decimal numerals ------------------------------------------------------------------------

  predicate IsDigit(c: char) { '0' <= c <= '9' }

  function DigitChar(d: nat): (c: char)
    requires d < 10
    ensures IsDigit(c) && c as int - '0' as int == d
  {
    '0' + d as char
  }

  /** `str(n)` for a natural number. */
  function Decimal(n: nat): (s: string)
    ensures s != [] && forall i :: 0 <= i < |s| ==> IsDigit(s[i])
  {
    if n < 10 then [DigitChar(n)] else Decimal(n / 10) + [DigitChar(n % 10)]
  }

  /** The digits of `int(...)`: single underscores are allowed between digits. */
  function DigitsValue(s: string): Option<nat> {
    if s == [] || !IsDigit(s[|s| - 1]) then None
    else
      var d := s[|s| - 1] as int - '0' as int;
      if |s| == 1 then Some(d)
      else
        var rest := if s[|s| - 2] == '_' then s[..|s| - 2] else s[..|s| - 1];
        var v := DigitsValue(rest);
        if v.None? then None else Some(10 * v.value + d)
  }

  predicate IsSpace(c: char) { c == ' ' || ('\t' <= c <= '\r') }

  function StripLeft(s: string): string { if s != [] && IsSpace(s[0]) then StripLeft(s[1..]) else s }

  function StripRight(s: string): string { if s != [] && IsSpace(s[|s| - 1]) then StripRight(s[..|s| - 1]) else s }

  /** `str(i)` for any integer. */
  function Printed(i: int): (s: string)
    ensures s != ""
  {
    if i < 0 then "-" + Decimal(-i) else Decimal(i)
  }

  function Signed(negative: bool, digits: Option<nat>): Option<int> {
    if digits.None? then None
    else
      var magnitude: int := digits.value;
      Some(if negative then 0 - magnitude else magnitude)
  }

  /** Python's `int(text)` on ASCII text. */
  function ParseInt(text: string): Option<int> {
    var s := StripRight(StripLeft(text));
    if s != [] && (s[0] == '+' || s[0] == '-') then Signed(s[0] == '-', DigitsValue(s[1..]))
    else Signed(false, DigitsValue(s))
  }

  lemma {:induction false} DigitsOfDecimal(n: nat)
    ensures DigitsValue(Decimal(n)) == Some(n)
  {
    if n >= 10 {
      DigitsOfDecimal(n / 10);
      var s := Decimal(n);
      assert s[..|s| - 1] == Decimal(n / 10);
      assert IsDigit(s[|s| - 2]);
    }
  }

  /** Printing and reading an integer are inverse, whatever its sign and size. */
  lemma ParsePrinted(i: int)
    ensures ParseInt(Printed(i)) == Some(i)
  {
    var s := Printed(i);
    DigitsOfDecimal(if i < 0 then -i else i);
    assert !IsSpace(s[0]) && !IsSpace(s[|s| - 1]);
    if i < 0 { assert s[1..] == Decimal(-i); }
  }

  lemma DecimalInjective(m: nat, n: nat)
    requires Decimal(m) == Decimal(n)
    ensures m == n
  {
    DigitsOfDecimal(m);
    DigitsOfDecimal(n);
  }

  // ----- separator-joined lists ------------------------------------------------------------------

  function Join(parts: seq<string>, sep: char): string {
    if parts == [] then ""
    else if |parts| == 1 then parts[0]
    else parts[0] + [sep] + Join(parts[1..], sep)
  }

  /** `text.split(sep)`: always at least one part. */
  function Split(text: string, sep: char): (parts: seq<string>)
    ensures parts != []
  {
    if text == "" then [""]
    else if text[0] == sep then [""] + Split(text[1..], sep)
    else
      var rest := Split(text[1..], sep);
      [[text[0]] + rest[0]] + rest[1..]
  }

  /** `filter(None, parts)`: drop the empty strings. */
  function NonEmpty(parts: seq<string>): seq<string> {
    if parts == [] then [] else (if parts[0] == "" then [] else [parts[0]]) + NonEmpty(parts[1..])
  }

  lemma {:induction false} SplitHead(part: string, rest: string, sep: char)
    requires sep !in part
    ensures Split(part + [sep] + rest, sep) == [part] + Split(rest, sep)
  {
    var text := part + [sep] + rest;
    if part == "" {
      assert text[1..] == rest;
    } else {
      assert text[1..] == part[1..] + [sep] + rest;
      SplitHead(part[1..], rest, sep);
      assert [part[0]] + part[1..] == part;
    }
  }

  lemma {:induction false} SplitAlone(part: string, sep: char)
    requires sep !in part
    ensures Split(part, sep) == [part]
  {
    if part != "" {
      SplitAlone(part[1..], sep);
      assert [part[0]] + part[1..] == part;
    }
  }

  lemma {:induction false} KeepAll(parts: seq<string>)
    requires forall i :: 0 <= i < |parts| ==> parts[i] != ""
    ensures NonEmpty(parts) == parts
  {
    if parts != [] { KeepAll(parts[1..]); }
  }

  /** Joining and splitting are inverse for non-empty parts without the separator; an empty list joins
      to the empty string, whose only part is dropped again. */
  lemma {:induction false} SplitJoined(parts: seq<string>, sep: char)
    requires forall i :: 0 <= i < |parts| ==> parts[i] != "" && sep !in parts[i]
    ensures NonEmpty(Split(Join(parts, sep), sep)) == parts
  {
    if |parts| == 1 {
      SplitAlone(parts[0], sep);
      KeepAll(parts);
    } else if |parts| > 1 {
      SplitHead(parts[0], Join(parts[1..], sep), sep);
      SplitJoined(parts[1..], sep);
      var split := [parts[0]] + Split(Join(parts[1..], sep), sep);
      assert split[1..] == Split(Join(parts[1..], sep), sep);
    }
  }
}
