/** Splitting text at a separator, joining it again, and decimal numbers. */
module Splitting {
  import opened Wrappers
  import opened Identity

  /** Where the separator first occurs. */
  function FirstMatch(value: Text, sep: Text): (r: Option<nat>)
    requires |sep| > 0
    ensures r.Some? ==> r.value + |sep| <= |value| && value[r.value..r.value + |sep|] == sep
  {
    if |value| < |sep| then None
    else if value[..|sep|] == sep then Some(0)
    else
      var later := FirstMatch(value[1..], sep);
      if later.None? then None else Some(later.value + 1)
  }

  predicate Contains(value: Text, sep: Text)
    requires |sep| > 0
  {
    FirstMatch(value, sep).Some?
  }

  /** The pieces between separators, matched from the left without overlap. */
  function Split(value: Text, sep: Text): (parts: seq<Text>)
    requires |sep| > 0
    ensures |parts| > 0
    decreases |value|
  {
    var at := FirstMatch(value, sep);
    if at.None? then [value] else [value[..at.value]] + Split(value[at.value + |sep|..], sep)
  }

  function Join(parts: seq<Text>, sep: Text): Text
    requires |parts| > 0
  {
    if |parts| == 1 then parts[0] else parts[0] + sep + Join(parts[1..], sep)
  }

  /** Joining the pieces gives the text back. */
  lemma {:induction false} JoinSplit(value: Text, sep: Text)
    requires |sep| > 0
    ensures Join(Split(value, sep), sep) == value
    decreases |value|
  {
    var at := FirstMatch(value, sep);
    if at.Some? {
      var rest := value[at.value + |sep|..];
      JoinSplit(rest, sep);
      assert Split(value, sep)[1..] == Split(rest, sep);
      assert value == value[..at.value] + value[at.value..at.value + |sep|] + rest;
    }
  }

  /** Followed by a separator, the piece ends exactly there. */
  predicate Clean(part: Text, sep: Text)
    requires |sep| > 0
  {
    FirstMatch(part + sep, sep) == Some(|part|)
  }

  predicate MatchAt(value: Text, sep: Text, i: nat) {
    i + |sep| <= |value| && value[i..i + |sep|] == sep
  }

  lemma {:induction false} FirstOfMatches(value: Text, sep: Text, n: nat)
    requires |sep| > 0 && MatchAt(value, sep, n) && forall i | 0 <= i < n :: !MatchAt(value, sep, i)
    ensures FirstMatch(value, sep) == Some(n)
  {
    if n > 0 {
      assert !MatchAt(value, sep, 0);
      var rest := value[1..];
      forall i: nat ensures MatchAt(rest, sep, i) <==> MatchAt(value, sep, i + 1) {
        assert i + |sep| <= |rest| ==> rest[i..i + |sep|] == value[i + 1..i + 1 + |sep|];
      }
      FirstOfMatches(rest, sep, n - 1);
    }
  }

  lemma CleanWhere(part: Text, sep: Text)
    requires |sep| > 0 && forall i | 0 <= i < |part| :: !MatchAt(part + sep, sep, i)
    ensures Clean(part, sep)
  {
    FirstOfMatches(part + sep, sep, |part|);
  }

  /** A clean piece contains no separator, and what follows the separator does not matter. */
  lemma {:induction false} CleanFound(part: Text, sep: Text, rest: Text)
    requires |sep| > 0 && Clean(part, sep)
    ensures FirstMatch(part + sep + rest, sep) == Some(|part|) && FirstMatch(part, sep).None?
  {
    var value := part + sep + rest;
    assert (part + sep)[..|sep|] == value[..|sep|];
    if |part| > 0 {
      assert (part + sep)[1..] == part[1..] + sep && value[1..] == part[1..] + sep + rest;
      CleanFound(part[1..], sep, rest);
      assert |part| >= |sep| ==> part[..|sep|] == value[..|sep|];
    }
  }

  lemma SplitFirst(part: Text, sep: Text, rest: Text)
    requires |sep| > 0 && Clean(part, sep)
    ensures Split(part, sep) == [part] && Split(part + sep + rest, sep) == [part] + Split(rest, sep)
  {
    CleanFound(part, sep, rest);
    var value := part + sep + rest;
    assert value[..|part|] == part && value[|part| + |sep|..] == rest;
  }

  lemma SplitOne(parts: seq<Text>, sep: Text)
    requires |sep| > 0 && |parts| > 1 && Clean(parts[0], sep)
    requires Split(Join(parts[1..], sep), sep) == parts[1..]
    ensures Split(Join(parts, sep), sep) == parts
  {
    SplitFirst(parts[0], sep, Join(parts[1..], sep));
    assert parts == [parts[0]] + parts[1..];
  }

  /** Splitting gives clean pieces back. */
  lemma {:induction false} SplitJoin(parts: seq<Text>, sep: Text)
    requires |sep| > 0 && |parts| > 0 && forall i | 0 <= i < |parts| :: Clean(parts[i], sep)
    ensures Split(Join(parts, sep), sep) == parts
  {
    if |parts| == 1 {
      SplitFirst(parts[0], sep, "");
    } else {
      SplitJoin(parts[1..], sep);
      SplitOne(parts, sep);
    }
  }

  lemma JoinFour(a: Text, b: Text, c: Text, d: Text, sep: Text)
    ensures Join([a, b, c, d], sep) == a + sep + (b + sep + (c + sep + d))
  {
    assert [a, b, c, d][1..] == [b, c, d] && [b, c, d][1..] == [c, d] && [c, d][1..] == [d];
    assert Join([c, d], sep) == c + sep + d;
    assert Join([b, c, d], sep) == b + sep + (c + sep + d);
  }

  lemma JoinFive(a: Text, b: Text, c: Text, d: Text, e: Text, sep: Text)
    ensures Join([a, b, c, d, e], sep) == a + sep + (b + sep + (c + sep + (d + sep + e)))
  {
    assert [a, b, c, d, e][1..] == [b, c, d, e];
    JoinFour(b, c, d, e, sep);
  }

  // ----- Decimal numbers -----

  predicate IsDigit(c: char) {
    '0' <= c <= '9'
  }

  function Decimal(n: nat): (text: Text)
    ensures |text| > 0 && forall i | 0 <= i < |text| :: IsDigit(text[i])
  {
    var digit := ('0' as int + n % 10) as char;
    if n < 10 then [digit] else Decimal(n / 10) + [digit]
  }

  function ReadDigits(text: Text): nat
    requires forall i | 0 <= i < |text| :: IsDigit(text[i])
  {
    if |text| == 0 then 0
    else
      assert IsDigit(text[|text| - 1]);
      ReadDigits(text[..|text| - 1]) * 10 + (text[|text| - 1] as int - '0' as int)
  }

  /** An unsigned 32-bit number; a plus sign and leading zeros are accepted. */
  function ParseU32(text: Text): (r: Option<nat>)
    ensures r.Some? ==> r.value <= U32_MAX
  {
    var digits := if |text| > 1 && text[0] == '+' then text[1..] else text;
    if |digits| == 0 || exists i :: 0 <= i < |digits| && !IsDigit(digits[i]) then None
    else
      var n := ReadDigits(digits);
      if n <= U32_MAX then Some(n) else None
  }

  lemma {:induction false} DecimalReadsBack(n: nat)
    ensures ReadDigits(Decimal(n)) == n
  {
    var text := Decimal(n);
    var digit := ('0' as int + n % 10) as char;
    if n >= 10 {
      DecimalReadsBack(n / 10);
      assert text[..|text| - 1] == Decimal(n / 10) && text[|text| - 1] == digit;
    } else {
      assert text == [digit] && text[..0] == "";
    }
  }

  lemma DecimalParses(n: nat)
    requires n <= U32_MAX
    ensures ParseU32(Decimal(n)) == Some(n)
  {
    DecimalReadsBack(n);
  }

  function Pow10(k: nat): nat {
    if k == 0 then 1 else 10 * Pow10(k - 1)
  }

  lemma {:induction false} DecimalLength(n: nat, k: nat)
    requires k > 0 && n < Pow10(k)
    ensures |Decimal(n)| <= k
  {
    if n >= 10 {
      assert k > 1;
      DecimalLength(n / 10, k - 1);
    }
  }

  lemma DecimalFits(n: nat)
    requires n <= U32_MAX
    ensures |Decimal(n)| <= 10
  {
    assert Pow10(5) == 100000;
    assert Pow10(10) == 10000000000 by {
      assert Pow10(10) == 10 * 10 * 10 * 10 * 10 * Pow10(5) by {
        assert Pow10(7) == 10 * 10 * Pow10(5);
        assert Pow10(9) == 10 * 10 * Pow10(7);
      }
    }
    DecimalLength(n, 10);
  }
}
