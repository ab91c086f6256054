/**
 Scoped delivery names and message addresses. What is built from valid components parses back,
 every accepted text is a built one, and no component is ever confused with the test scope.
 */
module Names {
  import opened Wrappers
  import opened Identity
  import opened Splitting

  const MAX_SCOPE_NAME_BYTES: nat := 64
  const MAX_CONSUMER_NAME_BYTES: nat := 256
  const MAX_ADDRESS_BYTES: nat := 256
  const MAX_ADDRESS_SEGMENT_BYTES: nat := 64

  datatype NameError = Empty | TooLong | Wildcard | ControlCharacter | InvalidFormat | WrongAddressKind

  datatype TrafficScope = Normal | Test

  /** The segment that marks test traffic. */
  const TEST: Text := "test"

  // ----- Components -----

  /** A control character in UTF-8: below space, delete, or U+0080 to U+009F as two bytes. */
  predicate HasControl(s: Text) {
    || (exists i :: 0 <= i < |s| && (s[i] < ' ' || s[i] == 127 as char))
    || (exists i :: 0 <= i < |s| - 1 && s[i] == 0xC2 as char && 0x80 as char <= s[i + 1] <= 0x9F as char)
  }

  predicate HasWildcard(s: Text) {
    '*' in s || '>' in s
  }

  predicate NameChar(c: char) {
    'a' <= c <= 'z' || '0' <= c <= '9' || c == '-'
  }

  /** `validate_scope_name` and `validate_address_name`, which differ only in the name of their equal bound. */
  function ComponentError(s: Text, bound: nat): Option<NameError> {
    if |s| == 0 then Some(Empty)
    else if |s| > bound then Some(TooLong)
    else if HasWildcard(s) then Some(Wildcard)
    else if HasControl(s) then Some(ControlCharacter)
    else if s[0] == '-' || s[|s| - 1] == '-' || Contains(s, "--") || exists i :: 0 <= i < |s| && !NameChar(s[i]) then
      Some(InvalidFormat)
    else None
  }

  function ScopeError(s: Text): Option<NameError> {
    ComponentError(s, MAX_SCOPE_NAME_BYTES)
  }

  function AddressNameError(s: Text): Option<NameError> {
    ComponentError(s, MAX_ADDRESS_SEGMENT_BYTES)
  }

  /** Lower-case words of letters and digits joined by single hyphens. */
  predicate ValidComponent(s: Text) {
    && 0 < |s| <= 64
    && s[0] != '-' && s[|s| - 1] != '-'
    && !Contains(s, "--")
    && forall i | 0 <= i < |s| :: NameChar(s[i])
  }

  lemma ComponentAccepted(s: Text)
    ensures ComponentError(s, 64).None? <==> ValidComponent(s)
  {
  }

  /** Characters of names, addresses and their separators. */
  predicate Plain(s: Text) {
    forall i | 0 <= i < |s| :: NameChar(s[i]) || s[i] == '.'
  }

  lemma PlainIsPrintable(s: Text)
    requires Plain(s)
    ensures !HasControl(s) && !HasWildcard(s)
  {
  }

  lemma {:induction false} JoinPlain(parts: seq<Text>, sep: Text)
    requires |parts| > 0 && Plain(sep) && forall i | 0 <= i < |parts| :: Plain(parts[i])
    ensures Plain(Join(parts, sep))
  {
    if |parts| > 1 {
      JoinPlain(parts[1..], sep);
    }
  }

  lemma {:induction false} MatchesAreFound(s: Text, sep: Text, i: nat)
    requires |sep| > 0 && MatchAt(s, sep, i)
    ensures Contains(s, sep)
  {
    if i > 0 && s[..|sep|] != sep {
      assert s[1..][i - 1..i - 1 + |sep|] == s[i..i + |sep|];
      MatchesAreFound(s[1..], sep, i - 1);
    }
  }

  /** Valid components end at the double hyphen that follows them. */
  lemma CleanAtHyphens(s: Text)
    requires |s| > 0 && s[|s| - 1] != '-' && !Contains(s, "--")
    ensures Clean(s, "--")
  {
    forall i | 0 <= i < |s| ensures !MatchAt(s + "--", "--", i) {
      assert (s + "--")[i] == s[i];
      if i + 1 < |s| && MatchAt(s + "--", "--", i) {
        assert s[i..i + 2] == (s + "--")[i..i + 2];
        MatchesAreFound(s, "--", i);
      }
    }
    CleanWhere(s, "--");
  }

  lemma CleanAtDots(s: Text)
    requires forall i | 0 <= i < |s| :: s[i] != '.'
    ensures Clean(s, ".")
  {
    forall i | 0 <= i < |s| ensures !MatchAt(s + ".", ".", i) {
      assert (s + ".")[i..i + 1] == [s[i]];
    }
    CleanWhere(s, ".");
  }

  lemma {:induction false} WithoutHyphen(s: Text)
    requires forall i | 0 <= i < |s| :: s[i] != '-'
    ensures !Contains(s, "--")
  {
    if |s| >= 2 {
      assert s[..2][0] == s[0];
      WithoutHyphen(s[1..]);
    }
  }

  function At(parts: seq<Text>, index: nat): Text {
    if index < |parts| then parts[index] else ""
  }

  // ----- Delivery names -----

  function DeliverySegments(application: Text, scope: TrafficScope, context: Text, purpose: Text, version: nat): seq<Text> {
    if scope.Normal? then [application, context, purpose, "v" + Decimal(version)]
    else [application, TEST, context, purpose, "v" + Decimal(version)]
  }

  function BuildDeliveryName(application: Text, scope: TrafficScope, context: Text, purpose: Text, version: nat): Result<Text, NameError> {
    if ScopeError(application).Some? then Err(ScopeError(application).value)
    else if ScopeError(context).Some? then Err(ScopeError(context).value)
    else if ScopeError(purpose).Some? then Err(ScopeError(purpose).value)
    else
      var value := Join(DeliverySegments(application, scope, context, purpose, version), "--");
      if |value| > MAX_CONSUMER_NAME_BYTES then Err(TooLong) else Ok(value)
  }

  /** The last step of parsing: the version text must be the number's own decimal form. */
  function ParseVersioned(value: Text, application: Text, scope: TrafficScope, context: Text, purpose: Text, version: Text): Result<Text, NameError> {
    if |version| == 0 || version[0] != 'v' then Err(InvalidFormat)
    else
      match ParseU32(version[1..])
      case None => Err(InvalidFormat)
      case Some(n) =>
        if version[1..] != Decimal(n) then Err(InvalidFormat)
        else
          var built := BuildDeliveryName(application, scope, context, purpose, n);
          if built.Err? then built else Ok(value)
  }

  function ParseDeliverySegments(value: Text, s: seq<Text>): Result<Text, NameError> {
    if |s| == 4 then ParseVersioned(value, s[0], Normal, s[1], s[2], s[3])
    else if |s| == 5 && s[1] == TEST then ParseVersioned(value, s[0], Test, s[2], s[3], s[4])
    else Err(InvalidFormat)
  }

  function ParseDeliveryName(value: Text): Result<Text, NameError> {
    if |value| == 0 then Err(Empty)
    else if |value| > MAX_CONSUMER_NAME_BYTES then Err(TooLong)
    else if HasControl(value) then Err(ControlCharacter)
    else ParseDeliverySegments(value, Split(value, "--"))
  }

  function ScopeOfDelivery(s: seq<Text>): TrafficScope {
    if |s| == 5 && At(s, 1) == TEST then Test else Normal
  }

  function DeliveryScope(value: Text): TrafficScope {
    ScopeOfDelivery(Split(value, "--"))
  }

  function Scoped(s: seq<Text>, scope: TrafficScope, normalIndex: nat): Text {
    At(s, if scope.Test? && normalIndex > 0 then normalIndex + 1 else normalIndex)
  }

  function DeliverySegment(value: Text, normalIndex: nat): Text {
    Scoped(Split(value, "--"), DeliveryScope(value), normalIndex)
  }

  predicate ValidDelivery(application: Text, context: Text, purpose: Text, version: nat) {
    ValidComponent(application) && ValidComponent(context) && ValidComponent(purpose) && version <= U32_MAX
  }

  /** The segment ends at the separator after it and has no unusual character. */
  predicate Fine(s: Text) {
    Clean(s, "--") && Plain(s)
  }

  lemma FineComponent(s: Text)
    requires ValidComponent(s)
    ensures Fine(s)
  {
    CleanAtHyphens(s);
  }

  lemma VersionSegment(version: nat)
    requires version <= U32_MAX
    ensures var s := "v" + Decimal(version); |s| <= 11 && s[1..] == Decimal(version) && Fine(s)
  {
    DecimalFits(version);
    var s := "v" + Decimal(version);
    forall i | 0 <= i < |s| ensures s[i] != '-' && NameChar(s[i]) {
      if i > 0 {
        assert s[i] == Decimal(version)[i - 1] && IsDigit(Decimal(version)[i - 1]);
      }
    }
    WithoutHyphen(s);
    CleanAtHyphens(s);
  }

  lemma DeliverySegmentsFine(application: Text, scope: TrafficScope, context: Text, purpose: Text, version: nat)
    requires ValidDelivery(application, context, purpose, version)
    ensures var parts := DeliverySegments(application, scope, context, purpose, version);
      forall i | 0 <= i < |parts| :: Fine(parts[i])
  {
    VersionSegment(version);
    FineComponent(application);
    FineComponent(context);
    FineComponent(purpose);
    FineTest();
    Each(x => Fine(x), application, TEST, context, purpose, "v" + Decimal(version));
  }

  lemma Each(P: Text -> bool, a: Text, t: Text, b: Text, c: Text, d: Text)
    requires P(a) && P(t) && P(b) && P(c) && P(d)
    ensures forall i | 0 <= i < 4 :: P([a, b, c, d][i])
    ensures forall i | 0 <= i < 5 :: P([a, t, b, c, d][i])
  {
  }

  lemma FineTest()
    ensures Fine(TEST) && |TEST| == 4 && forall i | 0 <= i < |TEST| :: NameChar(TEST[i])
  {
    WithoutHyphen(TEST);
    CleanAtHyphens(TEST);
  }

  lemma FineSplits(parts: seq<Text>)
    requires |parts| > 0 && forall i | 0 <= i < |parts| :: Fine(parts[i])
    ensures Split(Join(parts, "--"), "--") == parts && !HasControl(Join(parts, "--"))
  {
    SplitJoin(parts, "--");
    JoinPlain(parts, "--");
    PlainIsPrintable(Join(parts, "--"));
  }

  lemma DeliveryFits(application: Text, scope: TrafficScope, context: Text, purpose: Text, version: nat)
    requires ValidDelivery(application, context, purpose, version)
    ensures 0 < |Join(DeliverySegments(application, scope, context, purpose, version), "--")| <= MAX_CONSUMER_NAME_BYTES
  {
    VersionSegment(version);
    JoinFour(application, context, purpose, "v" + Decimal(version), "--");
    JoinFive(application, TEST, context, purpose, "v" + Decimal(version), "--");
  }

  /** Building succeeds exactly on valid components: the length bound is never the reason for a refusal. */
  lemma BuildAccepts(application: Text, scope: TrafficScope, context: Text, purpose: Text, version: nat)
    requires version <= U32_MAX
    ensures BuildDeliveryName(application, scope, context, purpose, version).Ok? <==> ValidDelivery(application, context, purpose, version)
  {
    ComponentAccepted(application);
    ComponentAccepted(context);
    ComponentAccepted(purpose);
    if ValidDelivery(application, context, purpose, version) {
      DeliveryFits(application, scope, context, purpose, version);
    }
  }

  /** What is built splits into its own segments. */
  lemma DeliverySplits(application: Text, scope: TrafficScope, context: Text, purpose: Text, version: nat)
    requires ValidDelivery(application, context, purpose, version)
    ensures var parts := DeliverySegments(application, scope, context, purpose, version); var value := Join(parts, "--");
      && BuildDeliveryName(application, scope, context, purpose, version) == Ok(value)
      && Split(value, "--") == parts && 0 < |value| <= MAX_CONSUMER_NAME_BYTES && !HasControl(value)
  {
    DeliverySegmentsFine(application, scope, context, purpose, version);
    FineSplits(DeliverySegments(application, scope, context, purpose, version));
    BuildIsJoin(application, scope, context, purpose, version);
  }

  lemma BuildIsJoin(application: Text, scope: TrafficScope, context: Text, purpose: Text, version: nat)
    requires ValidDelivery(application, context, purpose, version)
    ensures var value := Join(DeliverySegments(application, scope, context, purpose, version), "--");
      BuildDeliveryName(application, scope, context, purpose, version) == Ok(value) && 0 < |value| <= MAX_CONSUMER_NAME_BYTES
  {
    ComponentAccepted(application);
    ComponentAccepted(context);
    ComponentAccepted(purpose);
    DeliveryFits(application, scope, context, purpose, version);
  }

  lemma BuiltVersionParses(value: Text, application: Text, scope: TrafficScope, context: Text, purpose: Text, version: nat)
    requires ValidDelivery(application, context, purpose, version)
    ensures ParseVersioned(value, application, scope, context, purpose, "v" + Decimal(version)) == Ok(value)
  {
    VersionSegment(version);
    DecimalParses(version);
    BuildAccepts(application, scope, context, purpose, version);
  }

  /** Built delivery names parse back, and their accessors return the components they were built from. */
  lemma DeliveryRoundTrip(application: Text, scope: TrafficScope, context: Text, purpose: Text, version: nat)
    requires ValidDelivery(application, context, purpose, version)
    ensures var built := BuildDeliveryName(application, scope, context, purpose, version);
      && built.Ok?
      && ParseDeliveryName(built.value) == Ok(built.value)
      && DeliveryScope(built.value) == scope
      && DeliverySegment(built.value, 0) == application
      && DeliverySegment(built.value, 1) == context
  {
    DeliverySplits(application, scope, context, purpose, version);
    var parts := DeliverySegments(application, scope, context, purpose, version);
    BuiltVersionParses(Join(parts, "--"), application, scope, context, purpose, version);
    SegmentsRead(Join(parts, "--"), application, scope, context, purpose, version);
  }

  lemma SegmentsRead(value: Text, application: Text, scope: TrafficScope, context: Text, purpose: Text, version: nat)
    ensures var s := DeliverySegments(application, scope, context, purpose, version);
      && ParseDeliverySegments(value, s) == ParseVersioned(value, application, scope, context, purpose, "v" + Decimal(version))
      && ScopeOfDelivery(s) == scope && Scoped(s, scope, 0) == application && Scoped(s, scope, 1) == context
  {
  }

  lemma VersionedIsBuilt(value: Text, application: Text, scope: TrafficScope, context: Text, purpose: Text, last: Text) returns (version: nat)
    requires ParseVersioned(value, application, scope, context, purpose, last).Ok?
    ensures ValidDelivery(application, context, purpose, version) && last == "v" + Decimal(version)
  {
    version := ParseU32(last[1..]).value;
    BuildAccepts(application, scope, context, purpose, version);
    assert last == "v" + last[1..];
  }

  /** Every accepted delivery name is the built name of valid components. */
  lemma AcceptedDeliveryIsBuilt(value: Text) returns (application: Text, scope: TrafficScope, context: Text, purpose: Text, version: nat)
    requires ParseDeliveryName(value).Ok?
    ensures ValidDelivery(application, context, purpose, version)
    ensures BuildDeliveryName(application, scope, context, purpose, version) == Ok(value)
  {
    JoinSplit(value, "--");
    application, scope, context, purpose, version := AcceptedSegments(value, Split(value, "--"));
    BuildIsJoin(application, scope, context, purpose, version);
  }

  lemma AcceptedSegments(value: Text, s: seq<Text>) returns (application: Text, scope: TrafficScope, context: Text, purpose: Text, version: nat)
    requires ParseDeliverySegments(value, s).Ok?
    ensures ValidDelivery(application, context, purpose, version)
    ensures s == DeliverySegments(application, scope, context, purpose, version)
  {
    if |s| == 4 {
      application, scope, context, purpose := s[0], Normal, s[1], s[2];
      version := VersionedIsBuilt(value, s[0], Normal, s[1], s[2], s[3]);
    } else {
      application, scope, context, purpose := s[0], Test, s[2], s[3];
      version := VersionedIsBuilt(value, s[0], Test, s[2], s[3], s[4]);
    }
  }

  /** The convention of delivery names, written out. */
  lemma DeliveryFormat(application: Text, scope: TrafficScope, context: Text, purpose: Text, version: nat)
    requires ValidDelivery(application, context, purpose, version)
    ensures var tail := context + "--" + (purpose + "--" + ("v" + Decimal(version)));
      BuildDeliveryName(application, scope, context, purpose, version) ==
        Ok(application + "--" + (if scope.Test? then "test" + "--" + tail else tail))
  {
    BuildIsJoin(application, scope, context, purpose, version);
    JoinFour(application, context, purpose, "v" + Decimal(version), "--");
    JoinFive(application, TEST, context, purpose, "v" + Decimal(version), "--");
  }

  // ----- Addresses -----

  datatype AddressKind = Command | CommandResponse | IntegrationEvent | Query
  {
    function Segment(): Text {
      match this
      case Command => "command"
      case CommandResponse => "command-response"
      case IntegrationEvent => "integration"
      case Query => "query"
    }
  }

  function KindOf(segment: Text): Option<AddressKind> {
    if segment == "command" then Some(Command)
    else if segment == "command-response" then Some(CommandResponse)
    else if segment == "integration" then Some(IntegrationEvent)
    else if segment == "query" then Some(Query)
    else None
  }

  function AddressSegments(kind: AddressKind, application: Text, scope: TrafficScope, context: Text, name: Text): seq<Text> {
    if scope.Normal? then [application, kind.Segment(), context, name]
    else [application, TEST, kind.Segment(), context, name]
  }

  function BuildAddress(kind: AddressKind, application: Text, scope: TrafficScope, context: Text, name: Text): Result<Text, NameError> {
    if ScopeError(application).Some? then Err(ScopeError(application).value)
    else if ScopeError(context).Some? then Err(ScopeError(context).value)
    else if AddressNameError(name).Some? then Err(AddressNameError(name).value)
    else
      var value := Join(AddressSegments(kind, application, scope, context, name), ".");
      if |value| > MAX_ADDRESS_BYTES then Err(TooLong) else Ok(value)
  }

  function ParseSegments(application: Text, kind: Text, context: Text, name: Text): Result<AddressKind, NameError> {
    if KindOf(kind).None? then Err(WrongAddressKind)
    else if ScopeError(application).Some? then Err(ScopeError(application).value)
    else if ScopeError(context).Some? then Err(ScopeError(context).value)
    else if AddressNameError(name).Some? then Err(AddressNameError(name).value)
    else Ok(KindOf(kind).value)
  }

  function ParseAddressSegments(s: seq<Text>): Result<AddressKind, NameError> {
    if |s| == 5 && s[1] == TEST then ParseSegments(s[0], s[2], s[3], s[4])
    else if |s| == 4 && s[1] != TEST then ParseSegments(s[0], s[1], s[2], s[3])
    else Err(InvalidFormat)
  }

  function ParseAddress(value: Text): Result<AddressKind, NameError> {
    if |value| == 0 then Err(Empty)
    else if |value| > MAX_ADDRESS_BYTES then Err(TooLong)
    else if HasWildcard(value) then Err(Wildcard)
    else if HasControl(value) then Err(ControlCharacter)
    else ParseAddressSegments(Split(value, "."))
  }

  function AddressScope(value: Text): TrafficScope {
    if At(Split(value, "."), 1) == TEST then Test else Normal
  }

  function AddressSegment(value: Text, normalIndex: nat): Text {
    Scoped(Split(value, "."), AddressScope(value), normalIndex)
  }

  predicate ValidAddress(application: Text, context: Text, name: Text) {
    ValidComponent(application) && ValidComponent(context) && ValidComponent(name)
  }

  lemma KindSegments(kind: AddressKind)
    ensures KindOf(kind.Segment()) == Some(kind) && kind.Segment() != TEST && |kind.Segment()| <= 16
    ensures forall i | 0 <= i < |kind.Segment()| :: NameChar(kind.Segment()[i])
  {
  }

  lemma AddressFits(kind: AddressKind, application: Text, scope: TrafficScope, context: Text, name: Text)
    requires ValidAddress(application, context, name)
    ensures 0 < |Join(AddressSegments(kind, application, scope, context, name), ".")| <= MAX_ADDRESS_BYTES
  {
    KindSegments(kind);
    JoinFour(application, kind.Segment(), context, name, ".");
    JoinFive(application, TEST, kind.Segment(), context, name, ".");
  }

  /** Building succeeds exactly on valid components: the length bound is never the reason for a refusal. */
  lemma BuildAddressAccepts(kind: AddressKind, application: Text, scope: TrafficScope, context: Text, name: Text)
    ensures BuildAddress(kind, application, scope, context, name).Ok? <==> ValidAddress(application, context, name)
  {
    ComponentAccepted(application);
    ComponentAccepted(context);
    ComponentAccepted(name);
    if ValidAddress(application, context, name) {
      AddressFits(kind, application, scope, context, name);
    }
  }

  lemma BuildAddressIsJoin(kind: AddressKind, application: Text, scope: TrafficScope, context: Text, name: Text)
    requires ValidAddress(application, context, name)
    ensures var value := Join(AddressSegments(kind, application, scope, context, name), ".");
      BuildAddress(kind, application, scope, context, name) == Ok(value) && 0 < |value| <= MAX_ADDRESS_BYTES
  {
    BuildAddressAccepts(kind, application, scope, context, name);
    AddressFits(kind, application, scope, context, name);
  }

  lemma DotFree(parts: seq<Text>)
    requires |parts| > 0 && forall i, k | 0 <= i < |parts| && 0 <= k < |parts[i]| :: NameChar(parts[i][k])
    ensures Split(Join(parts, "."), ".") == parts && !HasControl(Join(parts, ".")) && !HasWildcard(Join(parts, "."))
  {
    forall i | 0 <= i < |parts| ensures Clean(parts[i], ".") && Plain(parts[i]) {
      CleanAtDots(parts[i]);
    }
    SplitJoin(parts, ".");
    JoinPlain(parts, ".");
    PlainIsPrintable(Join(parts, "."));
  }

  lemma AddressSplits(kind: AddressKind, application: Text, scope: TrafficScope, context: Text, name: Text)
    requires ValidAddress(application, context, name)
    ensures var parts := AddressSegments(kind, application, scope, context, name);
      Split(Join(parts, "."), ".") == parts && !HasControl(Join(parts, ".")) && !HasWildcard(Join(parts, "."))
  {
    KindSegments(kind);
    FineTest();
    DotFree(AddressSegments(kind, application, scope, context, name));
  }

  lemma AddressSegmentsRead(kind: AddressKind, application: Text, scope: TrafficScope, context: Text, name: Text)
    requires ValidAddress(application, context, name)
    ensures var s := AddressSegments(kind, application, scope, context, name);
      && ParseAddressSegments(s) == Ok(kind)
      && (At(s, 1) == TEST <==> scope.Test?)
      && Scoped(s, scope, 0) == application && Scoped(s, scope, 2) == context && Scoped(s, scope, 3) == name
  {
    KindSegments(kind);
    ComponentAccepted(application);
    ComponentAccepted(context);
    ComponentAccepted(name);
  }

  /** Built addresses parse back to their kind, and their accessors return the components they were built from. */
  lemma AddressRoundTrip(kind: AddressKind, application: Text, scope: TrafficScope, context: Text, name: Text)
    requires ValidAddress(application, context, name)
    ensures var built := BuildAddress(kind, application, scope, context, name);
      && built.Ok?
      && ParseAddress(built.value) == Ok(kind)
      && AddressScope(built.value) == scope
      && AddressSegment(built.value, 0) == application
      && AddressSegment(built.value, 2) == context
      && AddressSegment(built.value, 3) == name
  {
    BuildAddressIsJoin(kind, application, scope, context, name);
    AddressSplits(kind, application, scope, context, name);
    AddressSegmentsRead(kind, application, scope, context, name);
  }

  lemma SegmentsAreValid(application: Text, kind: Text, context: Text, name: Text)
    requires ParseSegments(application, kind, context, name).Ok?
    ensures ValidAddress(application, context, name)
    ensures ParseSegments(application, kind, context, name).value.Segment() == kind
  {
    ComponentAccepted(application);
    ComponentAccepted(context);
    ComponentAccepted(name);
  }

  lemma AcceptedAddressSegments(s: seq<Text>) returns (application: Text, scope: TrafficScope, context: Text, name: Text)
    requires ParseAddressSegments(s).Ok?
    ensures ValidAddress(application, context, name)
    ensures s == AddressSegments(ParseAddressSegments(s).value, application, scope, context, name)
  {
    if |s| == 4 {
      application, scope, context, name := s[0], Normal, s[2], s[3];
      SegmentsAreValid(s[0], s[1], s[2], s[3]);
    } else {
      application, scope, context, name := s[0], Test, s[3], s[4];
      SegmentsAreValid(s[0], s[2], s[3], s[4]);
    }
  }

  /** Every accepted address is the built address of valid components. */
  lemma AcceptedAddressIsBuilt(value: Text) returns (application: Text, scope: TrafficScope, context: Text, name: Text)
    requires ParseAddress(value).Ok?
    ensures ValidAddress(application, context, name)
    ensures BuildAddress(ParseAddress(value).value, application, scope, context, name) == Ok(value)
  {
    JoinSplit(value, ".");
    application, scope, context, name := AcceptedAddressSegments(Split(value, "."));
    BuildAddressIsJoin(ParseAddress(value).value, application, scope, context, name);
  }

  /** The convention of addresses, written out. */
  lemma AddressFormat(kind: AddressKind, application: Text, scope: TrafficScope, context: Text, name: Text)
    requires ValidAddress(application, context, name)
    ensures var tail := kind.Segment() + "." + (context + "." + name);
      BuildAddress(kind, application, scope, context, name) ==
        Ok(application + "." + (if scope.Test? then "test" + "." + tail else tail))
  {
    BuildAddressIsJoin(kind, application, scope, context, name);
    JoinFour(application, kind.Segment(), context, name, ".");
    JoinFive(application, TEST, kind.Segment(), context, name, ".");
  }
}
