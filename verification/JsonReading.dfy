/**
 A reader of JSON text (sections 3 to 7 of RFC 8259, without white space), independent of the
 canonical writer: what was written reads back, up to member order.
 */
module JsonReading {
  import opened Wrappers
  import opened Identity
  import opened CanonicalJson

  // ----- Strings -----

  function HexValue(c: char): (r: Option<nat>)
    ensures r.Some? ==> r.value < 16
  {
    if '0' <= c <= '9' then Some(c as int - '0' as int)
    else if 'a' <= c <= 'f' then Some(c as int - 'a' as int + 10)
    else if 'A' <= c <= 'F' then Some(c as int - 'A' as int + 10)
    else None
  }

  /** The character a two-character escape stands for. */
  function Unescaped(c: char): Option<char> {
    if c == '"' || c == '\\' || c == '/' then Some(c)
    else if c == 'b' then Some(8 as char)
    else if c == 'f' then Some(12 as char)
    else if c == 'n' then Some(10 as char)
    else if c == 'r' then Some(13 as char)
    else if c == 't' then Some(9 as char)
    else None
  }

  /** The one-byte character of a four-digit escape; only these stand for a single byte. */
  function UnicodeByte(digits: Text): Option<char>
    requires |digits| == 4
  {
    var high, low := HexValue(digits[2]), HexValue(digits[3]);
    if digits[0] != '0' || digits[1] != '0' || high.None? || low.None? || high.value >= 8 then None
    else Some((high.value * 16 + low.value) as char)
  }

  /** One character of a string and what follows it. */
  function ReadChar(text: Text): (r: Option<(char, Text)>)
    requires |text| > 0
    ensures r.Some? ==> |r.value.1| < |text|
  {
    if text[0] != '\\' then if text[0] < ' ' then None else Some((text[0], text[1..]))
    else if |text| >= 2 && Unescaped(text[1]).Some? then Some((Unescaped(text[1]).value, text[2..]))
    else if |text| >= 6 && text[1] == 'u' && UnicodeByte(text[2..6]).Some? then Some((UnicodeByte(text[2..6]).value, text[6..]))
    else None
  }

  /** The rest of a string after its opening quote, and what follows its closing quote. */
  function ReadString(text: Text): (r: Option<(Text, Text)>)
    ensures r.Some? ==> |r.value.1| < |text|
    decreases |text|
  {
    if |text| == 0 then None
    else if text[0] == '"' then Some(("", text[1..]))
    else
      match ReadChar(text)
      case None => None
      case Some((c, rest)) =>
        match ReadString(rest)
        case None => None
        case Some((content, after)) => Some(([c] + content, after))
  }

  lemma HexReads(n: nat)
    requires n < 16
    ensures HexValue(HexDigit(n)) == Some(n)
  {
  }

  lemma CharReads(c: char, x: Text)
    ensures ReadChar(Escape(c) + x) == Some((c, x))
  {
    var text := Escape(c) + x;
    assert text[|Escape(c)|..] == x;
    if c < ' ' && |Escape(c)| == 6 {
      HexReads(c as int / 16);
      HexReads(c as int % 16);
      assert text[2..6] == Escape(c)[2..6] == ['0', '0', HexDigit(c as int / 16), HexDigit(c as int % 16)];
    }
  }

  lemma {:induction false} StringReads(s: Text, x: Text)
    ensures ReadString(Escaped(s) + "\"" + x) == Some((s, x))
  {
    var text := Escaped(s) + "\"" + x;
    if |s| == 0 {
      assert text[1..] == x;
    } else {
      Framed(Escape(s[0]), Escaped(s[1..]), "\"", x);
      CharReads(s[0], Escaped(s[1..]) + "\"" + x);
      StringReads(s[1..], x);
      assert text[0] == Escape(s[0])[0];
      assert s == [s[0]] + s[1..];
    }
  }

  // ----- Values -----

  /** A value at the beginning of the text, and what follows it. */
  function ReadValue(text: Text): (r: Option<(Json, Text)>)
    ensures r.Some? ==> |r.value.1| < |text|
    decreases |text|, 0
  {
    if |text| == 0 then None
    else if text[0] == '"' then
      match ReadString(text[1..])
      case None => None
      case Some((content, rest)) => Some((String(content), rest))
    else if text[0] == '[' then
      if |text| > 1 && text[1] == ']' then Some((Array([]), text[2..]))
      else
        match ReadItems(text[1..])
        case None => None
        case Some((items, rest)) => Some((Array(items), rest))
    else if text[0] == '{' then
      if |text| > 1 && text[1] == '}' then Some((Object([]), text[2..]))
      else
        match ReadMembers(text[1..])
        case None => None
        case Some((members, rest)) => Some((Object(members), rest))
    else if text[0] == '-' || '0' <= text[0] <= '9' then Some((Number(text[..RunLength(text)]), text[RunLength(text)..]))
    else ReadLiteral(text)
  }

  function ReadLiteral(text: Text): (r: Option<(Json, Text)>)
    ensures r.Some? ==> |r.value.1| < |text|
  {
    if |text| >= 4 && text[..4] == "null" then Some((Null, text[4..]))
    else if |text| >= 4 && text[..4] == "true" then Some((Bool(true), text[4..]))
    else if |text| >= 5 && text[..5] == "false" then Some((Bool(false), text[5..]))
    else None
  }

  /** One or more values separated by commas, up to the closing bracket. */
  function ReadItems(text: Text): (r: Option<(seq<Json>, Text)>)
    ensures r.Some? ==> |r.value.1| < |text|
    decreases |text|, 1
  {
    match ReadValue(text)
    case None => None
    case Some((v, rest)) =>
      if |rest| > 0 && rest[0] == ']' then Some(([v], rest[1..]))
      else if |rest| > 0 && rest[0] == ',' then
        match ReadItems(rest[1..])
        case None => None
        case Some((more, after)) => Some(([v] + more, after))
      else None
  }

  /** A quoted name, a colon and a value. */
  function ReadMember(text: Text): (r: Option<(Member, Text)>)
    ensures r.Some? ==> |r.value.1| < |text|
    decreases |text|, 1
  {
    if |text| == 0 || text[0] != '"' then None
    else
      match ReadString(text[1..])
      case None => None
      case Some((name, rest)) =>
        if |rest| == 0 || rest[0] != ':' then None
        else
          match ReadValue(rest[1..])
          case None => None
          case Some((v, after)) => Some(((name, v), after))
  }

  /** One or more members separated by commas, up to the closing brace. */
  function ReadMembers(text: Text): (r: Option<(seq<Member>, Text)>)
    ensures r.Some? ==> |r.value.1| < |text|
    decreases |text|, 2
  {
    match ReadMember(text)
    case None => None
    case Some((m, rest)) =>
      if |rest| > 0 && rest[0] == '}' then Some(([m], rest[1..]))
      else if |rest| > 0 && rest[0] == ',' then
        match ReadMembers(rest[1..])
        case None => None
        case Some((more, after)) => Some(([m] + more, after))
      else None
  }

  // ----- The value with its members in order -----

  function OrderedItems(v: Json): (items: seq<Json>)
    requires v.Array?
    decreases v, 0
    ensures |items| == |v.items| && forall i | 0 <= i < |items| :: items[i] == Ordered(v.items[i])
  {
    seq(|v.items|, i requires 0 <= i < |v.items| => Ordered(v.items[i]))
  }

  function OrderedMember(v: Json, m: Member): Member
    requires v.Object? && m in v.members
    decreases v, 0
  {
    (m.0, Ordered(m.1))
  }

  function OrderedMembers(v: Json): (members: seq<Member>)
    requires v.Object?
    decreases v, 1
    ensures |members| == |v.members| && forall i | 0 <= i < |members| :: members[i] == OrderedMember(v, Sorted(v.members)[i])
  {
    var sorted := Sorted(v.members);
    seq(|sorted|, i requires 0 <= i < |sorted| => assert sorted[i] in sorted; OrderedMember(v, sorted[i]))
  }

  /** The same value with the members of every object in name order. */
  function Ordered(v: Json): Json
    decreases v, 2
  {
    match v
    case Array(_) => Array(OrderedItems(v))
    case Object(_) => Object(OrderedMembers(v))
    case _ => v
  }

  /** Ordering the members changes nothing else. */
  lemma {:induction false} OrderedIsSame(v: Json)
    requires WellFormed(v)
    ensures Same(v, Ordered(v))
    decreases v
  {
    match v
    case Array(_) =>
      forall i | 0 <= i < |v.items| ensures Same(v.items[i], OrderedItems(v)[i]) {
        OrderedIsSame(v.items[i]);
      }
    case Object(_) =>
      var sorted, members := Sorted(v.members), OrderedMembers(v);
      assert NamesOf(members) == NamesOf(sorted);
      SortedNames(v.members);
      SortedAscends(v.members);
      forall i, j | 0 <= i < |v.members| && 0 <= j < |members| && v.members[i].0 == members[j].0
        ensures Same(v.members[i].1, members[j].1)
      {
        assert v.members[i] in sorted;
        PlaceOf(sorted, v.members[i], j);
        OrderedIsSame(v.members[i].1);
      }
    case _ =>
  }

  lemma PlaceOf(sorted: seq<Member>, m: Member, j: nat)
    requires Ascending(sorted) && m in sorted && j < |sorted| && m.0 == sorted[j].0
    ensures sorted[j] == m
  {
    var k :| 0 <= k < |sorted| && sorted[k] == m;
    OnePlace(sorted, k, j);
  }

  // ----- What was written reads back -----

  lemma LiteralReads(word: Text, x: Text)
    requires word == "null" || word == "true" || word == "false"
    ensures ReadValue(word + x) ==
      Some((if word == "null" then Null else Bool(word == "true"), x))
  {
    var text := word + x;
    assert text[..|word|] == word && text[|word|..] == x && text[0] == word[0];
    if word == "false" {
      assert text[..4][0] == 'f';
    }
    if word == "true" {
      assert text[..4][0] == 't';
    }
  }

  lemma NumberReads(text: Text, x: Text)
    requires NumberText(text) && Stops(x)
    ensures ReadValue(text + x) == Some((Number(text), x))
  {
    RunEnds(text, x);
    assert (text + x)[..|text|] == text && (text + x)[|text|..] == x;
  }

  lemma QuotedReads(s: Text, x: Text)
    ensures ReadString((Quoted(s) + x)[1..]) == Some((s, x)) && (Quoted(s) + x)[0] == '"'
  {
    assert Quoted(s) + x == "\"" + (Escaped(s) + "\"" + x) by {
      Framed("\"", Escaped(s), "\"", x);
    }
    assert (Quoted(s) + x)[1..] == Escaped(s) + "\"" + x;
    StringReads(s, x);
  }

  /** Written values read back in member order, and reading stops where writing stopped. */
  lemma {:induction false} ValueReads(v: Json, x: Text)
    requires WellFormed(v) && Stops(x)
    ensures ReadValue(Write(v) + x) == Some((Ordered(v), x))
    decreases v, 1
  {
    match v
    case Null => LiteralReads("null", x);
    case Bool(flag) => LiteralReads(if flag then "true" else "false", x);
    case Number(text) => NumberReads(text, x);
    case String(content) => QuotedReads(content, x);
    case Array(items) =>
      if |items| > 0 {
        ItemsRead(v, x);
      }
      ArrayReads(v, x);
    case Object(members) =>
      if |members| > 0 {
        MembersRead(v, x);
      }
      ObjectReads(v, x);
  }

  lemma ArrayReads(v: Json, x: Text)
    requires v.Array? && WellFormed(v)
    requires |v.items| > 0 ==> ReadItems(ItemTexts(v)[0] + (Rest(ItemTexts(v), 1) + "]" + x)) == Some((OrderedItems(v)[0..], x))
    ensures ReadValue(Write(v) + x) == Some((Ordered(v), x))
  {
    if |v.items| == 0 {
      assert Write(v) + x == "[]" + x && ("[]" + x)[2..] == x;
    } else {
      ArrayShape(v, x);
      assert OrderedItems(v)[0..] == OrderedItems(v);
    }
  }

  lemma ObjectReads(v: Json, x: Text)
    requires v.Object?
    requires |v.members| > 0 ==> ReadMembers(MemberTexts(v)[0] + (Rest(MemberTexts(v), 1) + "}" + x)) == Some((OrderedMembers(v)[0..], x))
    ensures ReadValue(Write(v) + x) == Some((Ordered(v), x))
  {
    if |v.members| == 0 {
      assert Write(v) + x == "{}" + x && ("{}" + x)[2..] == x;
    } else {
      ObjectShape(v, x);
      assert OrderedMembers(v)[0..] == OrderedMembers(v);
    }
  }

  lemma ArrayShape(v: Json, x: Text)
    requires v.Array? && |v.items| > 0 && WellFormed(v)
    ensures var parts := ItemTexts(v);
      && (Write(v) + x)[1..] == parts[0] + (Rest(parts, 1) + "]" + x)
      && (Write(v) + x)[0] == '[' && (Write(v) + x)[1] != ']' && |Write(v) + x| > 1
  {
    var parts := ItemTexts(v);
    Unframed('[', Joined(parts), ']', x);
    JoinedSplits(parts, ']', x);
    KindTold(v.items[0]);
  }

  lemma MoreItems(text: Text, v: Json, rest: Text, more: seq<Json>, x: Text)
    requires ReadValue(text) == Some((v, rest)) && |rest| > 0 && rest[0] == ',' && ReadItems(rest[1..]) == Some((more, x))
    ensures ReadItems(text) == Some(([v] + more, x))
  {
  }

  /** The text of a value reads as it, whatever stops after it. */
  ghost predicate ReadsAs(part: Text, v: Json) {
    forall y | Stops(y) :: ReadValue(part + y) == Some((v, y))
  }

  lemma NextItem(part: Text, v: Json, rest: Text, more: seq<Json>, x: Text)
    requires ReadsAs(part, v) && |rest| > 0 && rest[0] == ',' && ReadItems(rest[1..]) == Some((more, x))
    ensures ReadItems(part + rest) == Some(([v] + more, x))
  {
    MoreItems(part + rest, v, rest, more, x);
  }

  lemma LastItem(part: Text, v: Json, rest: Text, x: Text)
    requires ReadsAs(part, v) && |rest| > 0 && rest[0] == ']' && rest[1..] == x
    ensures ReadItems(part + rest) == Some(([v], x))
  {
    assert ReadValue(part + rest) == Some((v, rest));
  }

  /** What follows part `i`. */
  function After(parts: seq<Text>, i: nat, close: Text, x: Text): Text {
    Rest(parts, i + 1) + close + x
  }

  lemma AfterShape(parts: seq<Text>, i: nat, close: char, x: Text)
    ensures var rest := After(parts, i, [close], x);
      && |rest| > 0
      && (if i + 1 < |parts| then rest[0] == ',' && rest[1..] == parts[i + 1] + After(parts, i + 1, [close], x)
          else rest[0] == close && rest[1..] == x)
  {
    RestFirst(parts, i + 1, close, x);
    if i + 1 < |parts| {
      RestSplits(parts, i + 1, close, x);
    }
  }

  lemma {:induction false} ItemsChain(parts: seq<Text>, vs: seq<Json>, i: nat, x: Text)
    requires i < |parts| == |vs| && forall k | 0 <= k < |parts| :: ReadsAs(parts[k], vs[k])
    ensures ReadItems(parts[i] + After(parts, i, "]", x)) == Some((vs[i..], x))
    decreases |parts| - i
  {
    var rest := After(parts, i, "]", x);
    AfterShape(parts, i, ']', x);
    if i + 1 < |parts| {
      ItemsChain(parts, vs, i + 1, x);
      NextItem(parts[i], vs[i], rest, vs[i + 1..], x);
      assert vs[i..] == [vs[i]] + vs[i + 1..];
    } else {
      LastItem(parts[i], vs[i], rest, x);
      assert vs[i..] == [vs[i]];
    }
  }

  lemma {:induction false} ItemsRead(v: Json, x: Text)
    requires v.Array? && WellFormed(v) && |v.items| > 0
    ensures ReadItems(ItemTexts(v)[0] + (Rest(ItemTexts(v), 1) + "]" + x)) == Some((OrderedItems(v)[0..], x))
    decreases v, 0
  {
    var parts, vs := ItemTexts(v), OrderedItems(v);
    forall k | 0 <= k < |parts| ensures ReadsAs(parts[k], vs[k]) {
      forall y | Stops(y) ensures ReadValue(parts[k] + y) == Some((vs[k], y)) {
        ValueReads(v.items[k], y);
      }
    }
    ItemsChain(parts, vs, 0, x);
  }

  lemma ObjectShape(v: Json, x: Text)
    requires v.Object? && |v.members| > 0
    ensures var parts := MemberTexts(v);
      && (Write(v) + x)[1..] == parts[0] + (Rest(parts, 1) + "}" + x)
      && (Write(v) + x)[0] == '{' && (Write(v) + x)[1] != '}' && |Write(v) + x| > 1
  {
    var parts := MemberTexts(v);
    Unframed('{', Joined(parts), '}', x);
    JoinedSplits(parts, '}', x);
    MembersOpen(v);
  }

  lemma MemberReads(v: Json, m: Member, x: Text)
    requires v.Object? && m in v.members && ReadValue(Write(m.1) + x) == Some((Ordered(m.1), x))
    ensures ReadMember(MemberText(v, m) + x) == Some((OrderedMember(v, m), x))
  {
    MemberSplits(v, m, x);
    QuotedReads(m.0, ":" + Write(m.1) + x);
  }

  lemma MoreMembers(text: Text, m: Member, rest: Text, more: seq<Member>, x: Text)
    requires ReadMember(text) == Some((m, rest)) && |rest| > 0 && rest[0] == ',' && ReadMembers(rest[1..]) == Some((more, x))
    ensures ReadMembers(text) == Some(([m] + more, x))
  {
  }

  lemma LastMember(text: Text, m: Member, rest: Text, x: Text)
    requires ReadMember(text) == Some((m, rest)) && |rest| > 0 && rest[0] == '}' && rest[1..] == x
    ensures ReadMembers(text) == Some(([m], x))
  {
  }

  ghost predicate MemberReadsAs(part: Text, m: Member) {
    forall y | Stops(y) :: ReadMember(part + y) == Some((m, y))
  }

  lemma NextMember(part: Text, m: Member, rest: Text, more: seq<Member>, x: Text)
    requires MemberReadsAs(part, m) && |rest| > 0 && rest[0] == ',' && ReadMembers(rest[1..]) == Some((more, x))
    ensures ReadMembers(part + rest) == Some(([m] + more, x))
  {
    MoreMembers(part + rest, m, rest, more, x);
  }

  lemma FinalMember(part: Text, m: Member, rest: Text, x: Text)
    requires MemberReadsAs(part, m) && |rest| > 0 && rest[0] == '}' && rest[1..] == x
    ensures ReadMembers(part + rest) == Some(([m], x))
  {
    LastMember(part + rest, m, rest, x);
  }

  lemma {:induction false} MembersChain(parts: seq<Text>, ms: seq<Member>, i: nat, x: Text)
    requires i < |parts| == |ms| && forall k | 0 <= k < |parts| :: MemberReadsAs(parts[k], ms[k])
    ensures ReadMembers(parts[i] + After(parts, i, "}", x)) == Some((ms[i..], x))
    decreases |parts| - i
  {
    var rest := After(parts, i, "}", x);
    AfterShape(parts, i, '}', x);
    if i + 1 < |parts| {
      MembersChain(parts, ms, i + 1, x);
      NextMember(parts[i], ms[i], rest, ms[i + 1..], x);
      assert ms[i..] == [ms[i]] + ms[i + 1..];
    } else {
      FinalMember(parts[i], ms[i], rest, x);
      assert ms[i..] == [ms[i]];
    }
  }

  lemma {:induction false} MembersRead(v: Json, x: Text)
    requires v.Object? && WellFormed(v) && |v.members| > 0
    ensures ReadMembers(MemberTexts(v)[0] + (Rest(MemberTexts(v), 1) + "}" + x)) == Some((OrderedMembers(v)[0..], x))
    decreases v, 0
  {
    var sorted, parts, ms := Sorted(v.members), MemberTexts(v), OrderedMembers(v);
    forall k | 0 <= k < |parts| ensures MemberReadsAs(parts[k], ms[k]) {
      assert sorted[k] in sorted;
      WellFormedMember(v, sorted[k]);
      forall y | Stops(y) ensures ReadMember(parts[k] + y) == Some((ms[k], y)) {
        ValueReads(sorted[k].1, y);
        MemberReads(v, sorted[k], y);
      }
    }
    MembersChain(parts, ms, 0, x);
  }

  /** Canonical bytes are JSON text for the value: they read back to it, up to member order, with nothing left over. */
  lemma CanonicalReadsBack(v: Json)
    requires WellFormed(v)
    ensures ReadValue(Write(v)) == Some((Ordered(v), "")) && Same(v, Ordered(v))
  {
    ValueReads(v, "");
    assert Write(v) + "" == Write(v);
    OrderedIsSame(v);
  }
}
