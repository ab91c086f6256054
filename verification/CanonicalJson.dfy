/**
 Canonical JSON: objects written with sorted member names and no white space. Two values get the
 same bytes exactly when they are equal up to member order at every depth.
 */
module CanonicalJson {
  import opened Identity

  /** A JSON value; a number is its text. */
  datatype Json =
    | Null
    | Bool(flag: bool)
    | Number(text: Text)
    | String(content: Text)
    | Array(items: seq<Json>)
    | Object(members: seq<(Text, Json)>)

  type Member = (Text, Json)

  // ----- Member order -----

  /** Byte order of names. */
  predicate Less(a: Text, b: Text) {
    |b| > 0 && (|a| == 0 || a[0] < b[0] || (a[0] == b[0] && Less(a[1..], b[1..])))
  }

  lemma {:induction false} LessTransitive(a: Text, b: Text, c: Text)
    requires Less(a, b) && Less(b, c)
    ensures Less(a, c)
  {
    if |a| > 0 && a[0] == b[0] == c[0] {
      LessTransitive(a[1..], b[1..], c[1..]);
    }
  }

  lemma {:induction false} LessTotal(a: Text, b: Text)
    ensures Less(a, b) || a == b || Less(b, a)
  {
    if |a| > 0 && |b| > 0 && a[0] == b[0] {
      LessTotal(a[1..], b[1..]);
      assert a == [a[0]] + a[1..] && b == [b[0]] + b[1..];
    }
  }

  lemma {:induction false} LessIrreflexive(a: Text)
    ensures !Less(a, a)
  {
    if |a| > 0 {
      LessIrreflexive(a[1..]);
    }
  }

  predicate DistinctNames(ms: seq<Member>) {
    forall i, j | 0 <= i < j < |ms| :: ms[i].0 != ms[j].0
  }

  predicate Ascending(ms: seq<Member>) {
    forall i, j | 0 <= i < j < |ms| :: Less(ms[i].0, ms[j].0)
  }

  function Insert(m: Member, ms: seq<Member>): (r: seq<Member>)
    ensures |r| == |ms| + 1 && forall x :: x in r <==> x == m || x in ms
  {
    if |ms| == 0 || Less(m.0, ms[0].0) then [m] + ms else [ms[0]] + Insert(m, ms[1..])
  }

  /** The members in name order. */
  function Sorted(ms: seq<Member>): (r: seq<Member>)
    ensures |r| == |ms| && forall x :: x in r <==> x in ms
  {
    if |ms| == 0 then [] else Insert(ms[0], Sorted(ms[1..]))
  }

  lemma {:induction false} InsertAscends(m: Member, ms: seq<Member>)
    requires Ascending(ms) && forall i | 0 <= i < |ms| :: ms[i].0 != m.0
    ensures Ascending(Insert(m, ms))
  {
    if |ms| > 0 {
      LessTotal(m.0, ms[0].0);
      if Less(m.0, ms[0].0) {
        forall i | 0 < i < |ms| ensures Less(m.0, ms[i].0) {
          LessTransitive(m.0, ms[0].0, ms[i].0);
        }
      } else {
        InsertAscends(m, ms[1..]);
        var rest := Insert(m, ms[1..]);
        forall i | 0 <= i < |rest| ensures Less(ms[0].0, rest[i].0) {
          assert rest[i] in rest && (rest[i] == m || rest[i] in ms[1..]);
        }
      }
    }
  }

  lemma {:induction false} SortedAscends(ms: seq<Member>)
    requires DistinctNames(ms)
    ensures Ascending(Sorted(ms))
  {
    if |ms| > 0 {
      SortedAscends(ms[1..]);
      var rest := Sorted(ms[1..]);
      forall i | 0 <= i < |rest| ensures rest[i].0 != ms[0].0 {
        assert rest[i] in ms[1..];
      }
      InsertAscends(ms[0], rest);
    }
  }

  // ----- Strings -----

  function HexDigit(n: nat): char
    requires n < 16
  {
    if n < 10 then ('0' as int + n) as char else ('a' as int + n - 10) as char
  }

  /** How one byte of a string is written. */
  function Escape(c: char): (r: Text)
    ensures |r| > 0 && r[0] != '"'
  {
    if c == '"' then "\\\""
    else if c == '\\' then "\\\\"
    else if c == 8 as char then "\\b"
    else if c == 9 as char then "\\t"
    else if c == 10 as char then "\\n"
    else if c == 12 as char then "\\f"
    else if c == 13 as char then "\\r"
    else if c < ' ' then "\\u00" + [HexDigit(c as int / 16), HexDigit(c as int % 16)]
    else [c]
  }

  function Escaped(s: Text): Text {
    if |s| == 0 then "" else Escape(s[0]) + Escaped(s[1..])
  }

  function Quoted(s: Text): Text {
    "\"" + Escaped(s) + "\""
  }

  lemma EscapeFirst(c: char)
    ensures |Escape(c)| == 1 <==> Escape(c)[0] != '\\'
    ensures |Escape(c)| == 1 ==> Escape(c) == [c]
    ensures |Escape(c)| == 2 ==> Escape(c)[1] != 'u'
    ensures |Escape(c)| == 1 || |Escape(c)| == 2 || (|Escape(c)| == 6 && Escape(c)[1] == 'u')
  {
  }

  /** Escapes are a prefix code. */
  lemma EscapePrefixFree(c: char, u: Text, d: char, w: Text)
    requires Escape(c) + u == Escape(d) + w
    ensures c == d && u == w
  {
    EscapeFirst(c);
    EscapeFirst(d);
    var whole := Escape(c) + u;
    assert whole[0] == Escape(c)[0] == Escape(d)[0];
    if |Escape(c)| > 1 {
      assert whole[1] == Escape(c)[1] == Escape(d)[1];
      if |Escape(c)| == 6 {
        assert whole[4] == Escape(c)[4] == Escape(d)[4];
        assert whole[5] == Escape(c)[5] == Escape(d)[5];
      }
    }
    assert |Escape(c)| == |Escape(d)|;
    assert u == whole[|Escape(c)|..] && w == whole[|Escape(d)|..];
  }

  lemma QuoteFirst(s: Text, x: Text)
    ensures (Escaped(s) + "\"" + x)[0] == '"' <==> |s| == 0
  {
  }

  lemma {:induction false} EscapedDelimited(s: Text, x: Text, t: Text, y: Text)
    requires Escaped(s) + "\"" + x == Escaped(t) + "\"" + y
    ensures s == t && x == y
  {
    QuoteFirst(s, x);
    QuoteFirst(t, y);
    if |s| == 0 {
      assert x == (Escaped(s) + "\"" + x)[1..] && y == (Escaped(t) + "\"" + y)[1..];
    } else {
      Framed(Escape(s[0]), Escaped(s[1..]), "\"", x);
      Framed(Escape(t[0]), Escaped(t[1..]), "\"", y);
      EscapePrefixFree(s[0], Escaped(s[1..]) + "\"" + x, t[0], Escaped(t[1..]) + "\"" + y);
      EscapedDelimited(s[1..], x, t[1..], y);
      assert s == [s[0]] + s[1..] && t == [t[0]] + t[1..];
    }
  }

  /** A quoted string ends where it says it ends. */
  lemma QuotedDelimited(s: Text, x: Text, t: Text, y: Text)
    requires Quoted(s) + x == Quoted(t) + y
    ensures s == t && x == y
  {
    Framed("\"", Escaped(s), "\"", x);
    Framed("\"", Escaped(t), "\"", y);
    SameTail('"', Escaped(s) + "\"" + x, Escaped(t) + "\"" + y);
    EscapedDelimited(s, x, t, y);
  }

  lemma SameTail(c: char, a: Text, b: Text)
    requires [c] + a == [c] + b
    ensures a == b
  {
    assert a == ([c] + a)[1..] && b == ([c] + b)[1..];
  }

  // ----- Numbers -----

  predicate NumberChar(c: char) {
    '0' <= c <= '9' || c == '-' || c == '+' || c == '.' || c == 'e' || c == 'E'
  }

  predicate NumberText(s: Text) {
    |s| > 0 && ('0' <= s[0] <= '9' || s[0] == '-') && forall i | 0 <= i < |s| :: NumberChar(s[i])
  }

  /** What follows a value: nothing, or a character no number contains. */
  predicate Stops(x: Text) {
    |x| > 0 ==> !NumberChar(x[0])
  }

  /** How many characters at the start can belong to a number. */
  function RunLength(w: Text): (n: nat)
    ensures n <= |w| && (n == 0 <==> |w| == 0 || !NumberChar(w[0]))
  {
    if |w| == 0 || !NumberChar(w[0]) then 0 else 1 + RunLength(w[1..])
  }

  lemma {:induction false} RunEnds(s: Text, x: Text)
    requires Stops(x) && forall i | 0 <= i < |s| :: NumberChar(s[i])
    ensures RunLength(s + x) == |s|
  {
    if |s| == 0 {
      assert s + x == x;
    } else {
      RunEnds(s[1..], x);
      assert (s + x)[1..] == s[1..] + x;
    }
  }

  lemma NumberDelimited(s: Text, x: Text, t: Text, y: Text)
    requires NumberText(s) && NumberText(t) && Stops(x) && Stops(y) && s + x == t + y
    ensures s == t && x == y
  {
    RunEnds(s, x);
    RunEnds(t, y);
    var whole := s + x;
    assert s == whole[..|s|] && t == whole[..|t|] && x == whole[|s|..] && y == whole[|t|..];
  }

  // ----- Writing -----

  /** Parts `i` onwards, each after a comma. */
  function Rest(parts: seq<Text>, i: nat): Text
    decreases |parts| - i
  {
    if i >= |parts| then "" else "," + parts[i] + Rest(parts, i + 1)
  }

  function Joined(parts: seq<Text>): Text {
    if |parts| == 0 then "" else parts[0] + Rest(parts, 1)
  }

  function ItemTexts(v: Json): (parts: seq<Text>)
    requires v.Array?
    decreases v, 0
    ensures |parts| == |v.items| && forall i | 0 <= i < |parts| :: parts[i] == Write(v.items[i])
  {
    seq(|v.items|, i requires 0 <= i < |v.items| => Write(v.items[i]))
  }

  function MemberText(v: Json, m: (Text, Json)): Text
    requires v.Object? && m in v.members
    decreases v, 0
  {
    Quoted(m.0) + ":" + Write(m.1)
  }

  function MemberTexts(v: Json): (parts: seq<Text>)
    requires v.Object?
    decreases v, 1
    ensures |parts| == |v.members| && forall i | 0 <= i < |parts| :: parts[i] == MemberText(v, Sorted(v.members)[i])
  {
    var sorted := Sorted(v.members);
    seq(|sorted|, i requires 0 <= i < |sorted| => assert sorted[i] in sorted; MemberText(v, sorted[i]))
  }

  /** The canonical bytes of a value. */
  function Write(v: Json): Text
    decreases v, 2
  {
    match v
    case Null => "null"
    case Bool(flag) => if flag then "true" else "false"
    case Number(text) => text
    case String(content) => Quoted(content)
    case Array(_) => "[" + Joined(ItemTexts(v)) + "]"
    case Object(_) => "{" + Joined(MemberTexts(v)) + "}"
  }

  class Output {
    var bytes: Text

    constructor ()
      ensures bytes == ""
    {
      bytes := "";
    }

    method Extend(more: Text)
      modifies this
      ensures bytes == old(bytes) + more
    {
      bytes := bytes + more;
    }

    /** The separator before every element but the first. */
    method Separate(first: bool)
      modifies this
      ensures bytes == old(bytes) + if first then "" else ","
    {
      if !first {
        bytes := bytes + ",";
      }
    }
  }

  /** What is still to be written after the first `i` parts. */
  function Remaining(parts: seq<Text>, i: nat): Text {
    if i == 0 then Joined(parts) else Rest(parts, i)
  }

  /** Bytes that the remaining parts complete to the whole. */
  predicate Completes(bytes: Text, parts: seq<Text>, i: nat, whole: Text) {
    bytes + Remaining(parts, i) == whole
  }

  lemma OneMore(bytes: Text, parts: seq<Text>, i: nat, whole: Text)
    requires i < |parts| && Completes(bytes, parts, i, whole)
    ensures Completes(bytes + (if i == 0 then "" else ",") + parts[i], parts, i + 1, whole)
  {
  }

  lemma Framed(start: Text, open: Text, inner: Text, close: Text)
    ensures start + open + inner + close == start + (open + inner + close)
  {
  }

  /** `write_canonical_json` appends the canonical bytes. */
  method WriteCanonical(v: Json, output: Output)
    modifies output
    ensures output.bytes == old(output.bytes) + Write(v)
    decreases v, 2
  {
    match v
    case Null => output.Extend("null");
    case Bool(flag) => output.Extend(if flag then "true" else "false");
    case Number(text) => output.Extend(text);
    case String(content) => output.Extend(Quoted(content));
    case Array(_) => WriteArray(v, output);
    case Object(_) => WriteObject(v, output);
  }

  method WriteArray(v: Json, output: Output)
    requires v.Array?
    modifies output
    ensures output.bytes == old(output.bytes) + Write(v)
    decreases v, 0
  {
    ghost var parts := ItemTexts(v);
    output.Extend("[");
    ghost var whole := output.bytes + Joined(parts);
    for i := 0 to |v.items|
      invariant Completes(output.bytes, parts, i, whole)
    {
      OneMore(output.bytes, parts, i, whole);
      output.Separate(i == 0);
      WriteCanonical(v.items[i], output);
    }
    output.Extend("]");
    Framed(old(output.bytes), "[", Joined(parts), "]");
  }

  method WriteObject(v: Json, output: Output)
    requires v.Object?
    modifies output
    ensures output.bytes == old(output.bytes) + Write(v)
    decreases v, 1
  {
    ghost var parts := MemberTexts(v);
    output.Extend("{");
    ghost var whole := output.bytes + Joined(parts);
    var entries := Sorted(v.members);
    for i := 0 to |entries|
      invariant Completes(output.bytes, parts, i, whole)
    {
      assert entries[i] in entries;
      OneMore(output.bytes, parts, i, whole);
      output.Separate(i == 0);
      WriteMember(v, entries[i], output);
    }
    output.Extend("}");
    Framed(old(output.bytes), "{", Joined(parts), "}");
  }

  method WriteMember(v: Json, m: Member, output: Output)
    requires v.Object? && m in v.members
    modifies output
    ensures output.bytes == old(output.bytes) + MemberText(v, m)
    decreases v, 0
  {
    output.Extend(Quoted(m.0));
    output.Extend(":");
    WriteCanonical(m.1, output);
    Framed(old(output.bytes), Quoted(m.0), ":", Write(m.1));
  }

  // ----- Equality up to member order -----

  /** Numbers are number texts and no object repeats a name: what a parsed value always satisfies. */
  predicate WellFormed(v: Json) {
    match v
    case Number(text) => NumberText(text)
    case Array(items) => forall i | 0 <= i < |items| :: WellFormed(items[i])
    case Object(ms) => DistinctNames(ms) && forall i | 0 <= i < |ms| :: WellFormed(ms[i].1)
    case _ => true
  }

  function NamesOf(ms: seq<Member>): (names: seq<Text>)
    ensures |names| == |ms| && forall i | 0 <= i < |ms| :: names[i] == ms[i].0
  {
    seq(|ms|, i requires 0 <= i < |ms| => ms[i].0)
  }

  function NameSet(names: seq<Text>): set<Text> {
    set x | x in names
  }

  /** Equal up to the order of object members, at every depth. */
  ghost predicate Same(a: Json, b: Json)
    decreases a
  {
    if a.Array? && b.Array? then
      |a.items| == |b.items| && forall i | 0 <= i < |a.items| :: Same(a.items[i], b.items[i])
    else if a.Object? && b.Object? then
      && NameSet(NamesOf(a.members)) == NameSet(NamesOf(b.members))
      && (forall i, j | 0 <= i < |a.members| && 0 <= j < |b.members| && a.members[i].0 == b.members[j].0 ::
            Same(a.members[i].1, b.members[j].1))
    else a == b
  }

  // ----- Texts end where they say they end -----

  /** Of two different texts neither continues as the other, as long as what follows stops a number. */
  ghost predicate Separable(p: Text, q: Text) {
    forall x, y | Stops(x) && Stops(y) && p + x == q + y :: p == q
  }

  lemma Separate(p: Text, x: Text, q: Text, y: Text)
    requires Separable(p, q) && Stops(x) && Stops(y) && p + x == q + y
    ensures p == q && x == y
  {
    assert x == (p + x)[|p|..] && y == (q + y)[|q|..];
  }

  lemma RestFirst(parts: seq<Text>, i: nat, close: char, x: Text)
    ensures (Rest(parts, i) + [close] + x)[0] == if i < |parts| then ',' else close
  {
  }

  lemma RestSplits(parts: seq<Text>, i: nat, close: char, x: Text)
    requires i < |parts|
    ensures (Rest(parts, i) + [close] + x)[1..] == parts[i] + (Rest(parts, i + 1) + [close] + x)
  {
  }

  lemma {:induction false} RestDelimited(pa: seq<Text>, pb: seq<Text>, i: nat, close: char, x: Text, y: Text)
    requires !NumberChar(close) && close != ',' && i <= |pa| && i <= |pb|
    requires forall k | i <= k < |pa| && k < |pb| :: Separable(pa[k], pb[k])
    requires Rest(pa, i) + [close] + x == Rest(pb, i) + [close] + y
    ensures |pa| == |pb| && (forall k | i <= k < |pa| :: pa[k] == pb[k]) && x == y
    decreases |pa| - i
  {
    RestFirst(pa, i, close, x);
    RestFirst(pb, i, close, y);
    if i == |pa| {
      assert x == (Rest(pa, i) + [close] + x)[1..] && y == (Rest(pb, i) + [close] + y)[1..];
    } else {
      RestSplits(pa, i, close, x);
      RestSplits(pb, i, close, y);
      RestFirst(pa, i + 1, close, x);
      RestFirst(pb, i + 1, close, y);
      Separate(pa[i], Rest(pa, i + 1) + [close] + x, pb[i], Rest(pb, i + 1) + [close] + y);
      RestDelimited(pa, pb, i + 1, close, x, y);
    }
  }

  predicate Opens(parts: seq<Text>, close: char) {
    forall i | 0 <= i < |parts| :: |parts[i]| > 0 && parts[i][0] != close
  }

  lemma JoinedFirst(parts: seq<Text>, close: char, x: Text)
    requires Opens(parts, close)
    ensures (Joined(parts) + [close] + x)[0] == close <==> |parts| == 0
  {
  }

  lemma JoinedSplits(parts: seq<Text>, close: char, x: Text)
    requires |parts| > 0
    ensures Joined(parts) + [close] + x == parts[0] + (Rest(parts, 1) + [close] + x)
  {
    Framed(parts[0], Rest(parts, 1), [close], x);
  }

  /** A closed list of separable parts determines the parts. */
  lemma JoinedDelimited(pa: seq<Text>, pb: seq<Text>, close: char, x: Text, y: Text)
    requires !NumberChar(close) && close != ',' && Opens(pa, close) && Opens(pb, close)
    requires forall k | 0 <= k < |pa| && k < |pb| :: Separable(pa[k], pb[k])
    requires Joined(pa) + [close] + x == Joined(pb) + [close] + y
    ensures pa == pb && x == y
  {
    JoinedFirst(pa, close, x);
    JoinedFirst(pb, close, y);
    if |pa| == 0 {
      assert x == (Joined(pa) + [close] + x)[1..] && y == (Joined(pb) + [close] + y)[1..];
    } else {
      JoinedSplits(pa, close, x);
      JoinedSplits(pb, close, y);
      RestFirst(pa, 1, close, x);
      RestFirst(pb, 1, close, y);
      Separate(pa[0], Rest(pa, 1) + [close] + x, pb[0], Rest(pb, 1) + [close] + y);
      RestDelimited(pa, pb, 1, close, x, y);
    }
  }

  // ----- The first character tells the kind -----

  function Kind(v: Json): nat {
    match v
    case Null => 0
    case Bool(flag) => if flag then 1 else 2
    case Number(_) => 3
    case String(_) => 4
    case Array(_) => 5
    case Object(_) => 6
  }

  function KindOf(c: char): nat {
    if c == 'n' then 0 else if c == 't' then 1 else if c == 'f' then 2
    else if c == '"' then 4 else if c == '[' then 5 else if c == '{' then 6 else 3
  }

  lemma KindTold(v: Json)
    requires WellFormed(v)
    ensures |Write(v)| > 0 && KindOf(Write(v)[0]) == Kind(v) && Write(v)[0] != ']' && Write(v)[0] != '}'
  {
  }

  // ----- Every pair of values is separable -----

  /** No value's text can be mistaken for the beginning of another's. */
  lemma {:induction false} ValuesSeparable(a: Json, b: Json)
    requires WellFormed(a) && WellFormed(b)
    ensures Separable(Write(a), Write(b))
    decreases a, 1
  {
    forall x, y | Stops(x) && Stops(y) && Write(a) + x == Write(b) + y ensures Write(a) == Write(b) {
      KindTold(a);
      KindTold(b);
      assert (Write(a) + x)[0] == Write(a)[0] && (Write(b) + y)[0] == Write(b)[0];
      match a
      case Null =>
      case Bool(_) =>
      case Number(text) => NumberDelimited(text, x, b.text, y);
      case String(content) => QuotedDelimited(content, x, b.content, y);
      case Array(_) => ArraysDelimited(a, x, b, y);
      case Object(_) => ObjectsDelimited(a, x, b, y);
    }
  }

  lemma Unframed(open: char, inner: Text, close: char, x: Text)
    ensures ([open] + inner + [close] + x)[1..] == inner + [close] + x
  {
  }

  lemma ItemsOpen(v: Json)
    requires v.Array? && WellFormed(v)
    ensures Opens(ItemTexts(v), ']')
  {
    forall i | 0 <= i < |v.items| ensures |ItemTexts(v)[i]| > 0 && ItemTexts(v)[i][0] != ']' {
      KindTold(v.items[i]);
    }
  }

  lemma {:induction false} ArraysDelimited(a: Json, x: Text, b: Json, y: Text)
    requires a.Array? && b.Array? && WellFormed(a) && WellFormed(b) && Write(a) + x == Write(b) + y
    ensures ItemTexts(a) == ItemTexts(b) && x == y
    decreases a, 0
  {
    var pa, pb := ItemTexts(a), ItemTexts(b);
    Unframed('[', Joined(pa), ']', x);
    Unframed('[', Joined(pb), ']', y);
    ItemsOpen(a);
    ItemsOpen(b);
    forall k | 0 <= k < |pa| && k < |pb| ensures Separable(pa[k], pb[k]) {
      ValuesSeparable(a.items[k], b.items[k]);
    }
    JoinedDelimited(pa, pb, ']', x, y);
  }

  lemma MembersOpen(v: Json)
    requires v.Object?
    ensures Opens(MemberTexts(v), '}')
  {
    forall i | 0 <= i < |v.members| ensures |MemberTexts(v)[i]| > 0 && MemberTexts(v)[i][0] != '}' {
      assert MemberTexts(v)[i] == MemberText(v, Sorted(v.members)[i]);
    }
  }

  lemma MemberSplits(v: Json, m: Member, x: Text)
    requires v.Object? && m in v.members
    ensures MemberText(v, m) + x == Quoted(m.0) + (":" + Write(m.1) + x)
    ensures (":" + Write(m.1) + x)[1..] == Write(m.1) + x
  {
  }

  /** A member's text determines its name and the text of its value. */
  lemma MembersSeparate(a: Json, m: Member, x: Text, b: Json, n: Member, y: Text)
    requires a.Object? && b.Object? && m in a.members && n in b.members
    requires Separable(Write(m.1), Write(n.1)) && Stops(x) && Stops(y)
    requires MemberText(a, m) + x == MemberText(b, n) + y
    ensures m.0 == n.0 && Write(m.1) == Write(n.1) && MemberText(a, m) == MemberText(b, n)
  {
    MemberSplits(a, m, x);
    MemberSplits(b, n, y);
    QuotedDelimited(m.0, ":" + Write(m.1) + x, n.0, ":" + Write(n.1) + y);
    Separate(Write(m.1), x, Write(n.1), y);
  }

  lemma MemberTextsSeparable(a: Json, m: Member, b: Json, n: Member)
    requires a.Object? && b.Object? && m in a.members && n in b.members && Separable(Write(m.1), Write(n.1))
    ensures Separable(MemberText(a, m), MemberText(b, n))
  {
    forall x, y | Stops(x) && Stops(y) && MemberText(a, m) + x == MemberText(b, n) + y
      ensures MemberText(a, m) == MemberText(b, n)
    {
      MembersSeparate(a, m, x, b, n, y);
    }
  }

  lemma WellFormedMember(v: Json, m: Member)
    requires v.Object? && WellFormed(v) && m in v.members
    ensures WellFormed(m.1)
  {
  }

  lemma {:induction false} ObjectsDelimited(a: Json, x: Text, b: Json, y: Text)
    requires a.Object? && b.Object? && WellFormed(a) && WellFormed(b) && Write(a) + x == Write(b) + y
    ensures MemberTexts(a) == MemberTexts(b) && x == y
    decreases a, 0
  {
    var pa, pb := MemberTexts(a), MemberTexts(b);
    Unframed('{', Joined(pa), '}', x);
    Unframed('{', Joined(pb), '}', y);
    MembersOpen(a);
    MembersOpen(b);
    forall k | 0 <= k < |pa| && k < |pb| ensures Separable(pa[k], pb[k]) {
      var m, n := Sorted(a.members)[k], Sorted(b.members)[k];
      assert m in Sorted(a.members) && n in Sorted(b.members);
      WellFormedMember(a, m);
      WellFormedMember(b, n);
      ValuesSeparable(m.1, n.1);
      MemberTextsSeparable(a, m, b, n);
    }
    JoinedDelimited(pa, pb, '}', x, y);
  }

  // ----- Equal bytes mean equal up to member order -----

  /** Equal canonical bytes come only from values that are equal up to member order. */
  lemma {:induction false} EqualBytesSame(a: Json, b: Json)
    requires WellFormed(a) && WellFormed(b) && Write(a) == Write(b)
    ensures Same(a, b)
    decreases a
  {
    KindTold(a);
    KindTold(b);
    assert Write(a) + "" == Write(a) && Write(b) + "" == Write(b);
    match a
    case String(content) => QuotedDelimited(content, "", b.content, "");
    case Array(_) =>
      ArraysDelimited(a, "", b, "");
      forall i | 0 <= i < |a.items| ensures Same(a.items[i], b.items[i]) {
        assert ItemTexts(a)[i] == ItemTexts(b)[i];
        EqualBytesSame(a.items[i], b.items[i]);
      }
    case Object(_) =>
      ObjectsDelimited(a, "", b, "");
      var sa, sb := Sorted(a.members), Sorted(b.members);
      forall k | 0 <= k < |sa| ensures sa[k].0 == sb[k].0 && Same(sa[k].1, sb[k].1) {
        assert sa[k] in sa && sb[k] in sb;
        EqualMembers(a, sa[k], b, sb[k]);
        WellFormedMember(a, sa[k]);
        WellFormedMember(b, sb[k]);
        EqualBytesSame(sa[k].1, sb[k].1);
      }
      SortedMatch(a, b);
    case _ =>
  }

  lemma EqualMembers(a: Json, m: Member, b: Json, n: Member)
    requires a.Object? && b.Object? && m in a.members && n in b.members && WellFormed(a) && WellFormed(b)
    requires MemberText(a, m) == MemberText(b, n)
    ensures m.0 == n.0 && Write(m.1) == Write(n.1)
  {
    WellFormedMember(a, m);
    WellFormedMember(b, n);
    ValuesSeparable(m.1, n.1);
    MembersSeparate(a, m, "", b, n, "");
  }

  lemma SortedMatch(a: Json, b: Json)
    requires a.Object? && b.Object? && DistinctNames(a.members) && DistinctNames(b.members) && Partners(a, b)
    ensures Same(a, b)
  {
    var sa, sb := Sorted(a.members), Sorted(b.members);
    assert NamesOf(sa) == NamesOf(sb);
    SortedNames(a.members);
    SortedNames(b.members);
    SortedAscends(b.members);
    forall i, j | 0 <= i < |a.members| && 0 <= j < |b.members| && a.members[i].0 == b.members[j].0
      ensures Same(a.members[i].1, b.members[j].1)
    {
      assert a.members[i] in sa && b.members[j] in sb;
      var k :| 0 <= k < |sa| && sa[k] == a.members[i];
      var l :| 0 <= l < |sb| && sb[l] == b.members[j];
      OnePlace(sb, k, l);
    }
  }

  lemma SortedNames(ms: seq<Member>)
    ensures NameSet(NamesOf(Sorted(ms))) == NameSet(NamesOf(ms))
  {
    var sorted := Sorted(ms);
    forall x | x in NamesOf(sorted) ensures x in NamesOf(ms) {
      var i :| 0 <= i < |sorted| && NamesOf(sorted)[i] == x;
      assert sorted[i] in sorted;
      var j :| 0 <= j < |ms| && ms[j] == sorted[i];
      assert NamesOf(ms)[j] == x;
    }
    forall x | x in NamesOf(ms) ensures x in NamesOf(sorted) {
      var i :| 0 <= i < |ms| && NamesOf(ms)[i] == x;
      assert ms[i] in sorted;
      var j :| 0 <= j < |sorted| && sorted[j] == ms[i];
      assert NamesOf(sorted)[j] == x;
    }
  }

  // ----- Equal up to member order means equal bytes -----

  predicate AscendingNames(xs: seq<Text>) {
    forall i, j | 0 <= i < j < |xs| :: Less(xs[i], xs[j])
  }

  lemma TailNames(xs: seq<Text>)
    requires |xs| > 0 && AscendingNames(xs)
    ensures AscendingNames(xs[1..]) && NameSet(xs[1..]) == NameSet(xs) - {xs[0]}
  {
    LessIrreflexive(xs[0]);
    assert xs == [xs[0]] + xs[1..];
  }

  lemma LeastName(xs: seq<Text>, y: Text)
    requires |xs| > 0 && AscendingNames(xs) && y in xs
    ensures y == xs[0] || Less(xs[0], y)
  {
  }

  /** Ascending lists of the same names are the same list. */
  lemma {:induction false} AscendingUnique(xs: seq<Text>, ys: seq<Text>)
    requires AscendingNames(xs) && AscendingNames(ys) && NameSet(xs) == NameSet(ys)
    ensures xs == ys
  {
    assert |xs| > 0 ==> xs[0] in NameSet(xs) && xs[0] in NameSet(ys);
    assert |ys| > 0 ==> ys[0] in NameSet(ys) && ys[0] in NameSet(xs);
    if |xs| > 0 {
      LeastName(xs, ys[0]);
      LeastName(ys, xs[0]);
      if xs[0] != ys[0] {
        LessTransitive(xs[0], ys[0], xs[0]);
        LessIrreflexive(xs[0]);
      }
      TailNames(xs);
      TailNames(ys);
      AscendingUnique(xs[1..], ys[1..]);
      assert xs == [xs[0]] + xs[1..] && ys == [ys[0]] + ys[1..];
    }
  }

  /** In name order, members with the same place have the same name and the same value. */
  ghost predicate Partners(a: Json, b: Json)
    requires a.Object? && b.Object?
  {
    var sa, sb := Sorted(a.members), Sorted(b.members);
    |sa| == |sb| && forall k | 0 <= k < |sa| :: sa[k].0 == sb[k].0 && Same(sa[k].1, sb[k].1)
  }

  lemma SameObjectsPartner(a: Json, b: Json)
    requires a.Object? && b.Object? && DistinctNames(a.members) && DistinctNames(b.members) && Same(a, b)
    ensures Partners(a, b)
  {
    var sa, sb := Sorted(a.members), Sorted(b.members);
    SortedAscends(a.members);
    SortedAscends(b.members);
    SortedNames(a.members);
    SortedNames(b.members);
    AscendingUnique(NamesOf(sa), NamesOf(sb));
    forall k | 0 <= k < |sa| ensures sa[k].0 == sb[k].0 && Same(sa[k].1, sb[k].1) {
      assert NamesOf(sa)[k] == NamesOf(sb)[k];
      assert sa[k] in sa && sb[k] in sb;
      var i :| 0 <= i < |a.members| && a.members[i] == sa[k];
      var j :| 0 <= j < |b.members| && b.members[j] == sb[k];
    }
  }

  lemma OnePlace(sb: seq<Member>, k: nat, j: nat)
    requires Ascending(sb) && k < |sb| && j < |sb| && sb[k].0 == sb[j].0
    ensures k == j
  {
    LessIrreflexive(sb[k].0);
  }

  /** Member order never changes the bytes. */
  lemma {:induction false} SameEqualBytes(a: Json, b: Json)
    requires WellFormed(a) && WellFormed(b) && Same(a, b)
    ensures Write(a) == Write(b)
    decreases a
  {
    match a
    case Array(_) =>
      forall i | 0 <= i < |a.items| ensures ItemTexts(a)[i] == ItemTexts(b)[i] {
        SameEqualBytes(a.items[i], b.items[i]);
      }
      assert ItemTexts(a) == ItemTexts(b);
    case Object(_) =>
      SameObjectsPartner(a, b);
      var sa, sb := Sorted(a.members), Sorted(b.members);
      forall k | 0 <= k < |sa| ensures MemberTexts(a)[k] == MemberTexts(b)[k] {
        assert sa[k] in sa && sb[k] in sb;
        WellFormedMember(a, sa[k]);
        WellFormedMember(b, sb[k]);
        SameEqualBytes(sa[k].1, sb[k].1);
      }
      assert MemberTexts(a) == MemberTexts(b);
    case _ =>
  }

  /** Canonical JSON is canonical. */
  lemma CanonicalBytes(a: Json, b: Json)
    requires WellFormed(a) && WellFormed(b)
    ensures Write(a) == Write(b) <==> Same(a, b)
  {
    if Write(a) == Write(b) {
      EqualBytesSame(a, b);
    }
    if Same(a, b) {
      SameEqualBytes(a, b);
    }
  }
}
