/**
 Candidates: the checks a signed request passes before its key is asked for. The structured field
 parser and the signature verifier are foreign and come in as functions.
 */
module Candidate {
  import opened Wrappers
  import opened Discovery
  import opened Wire
  import opened Fields
  import opened Request
  import opened Policy

  type I64 = x: int | -0x8000_0000_0000_0000 <= x <= 0x7fff_ffff_ffff_ffff
  type U64 = x: int | 0 <= x <= 0xffff_ffff_ffff_ffff

  const I64_MIN: I64 := -0x8000_0000_0000_0000
  const I64_MAX: I64 := 0x7fff_ffff_ffff_ffff

  /** A covered component and the value that was signed for it. */
  datatype Covered = Covered(component: Component, value: string)

  /** What the verifier parsed: one label, what it covers, and its parameters. */
  datatype ParsedSignature = ParsedSignature(
    name: string, covered: seq<Covered>, algorithm: Option<BareItem>, created: Option<I64>,
    expires: Option<I64>, keyId: Option<SfString>)

  datatype ModuleLibrary = ModuleLibrary(
    fields: FieldLibrary, url: UrlLibrary, verifier: RequestComponents -> Option<ParsedSignature>)

  datatype VerificationCandidate = VerificationCandidate(
    verifier: ParsedSignature, discovery: DiscoveryMechanism, signedUrl: SfString,
    normalizedIdentifier: string, keyId: SfString)

  datatype CandidateError =
    | BadSyntax
    | MultipleSignatures
    | MissingSignatureAgent
    | SignatureAgentNotBound
    | UnsupportedDiscoveryType
    | InvalidDiscoveryUrl
    | ProfileFieldTooLarge
    | MissingRequiredComponent
    | InvalidFreshness
    | UnsupportedAlgorithm

  function ErrorResult(error: CandidateError): VerificationResult {
    match error
    case BadSyntax => Invalid(Malformed, MalformedProfile)
    case MultipleSignatures => Unverified(Unsupported, UnsupportedMultipleSignatures)
    case MissingSignatureAgent => Invalid(Rejected, NoSignatureAgent)
    case SignatureAgentNotBound => Invalid(Rejected, UnboundSignatureAgent)
    case UnsupportedDiscoveryType => Unverified(Unsupported, UnknownDiscoveryType)
    case InvalidDiscoveryUrl => Invalid(Rejected, BadDiscoveryUrl)
    case ProfileFieldTooLarge => Invalid(Malformed, FieldTooLarge)
    case MissingRequiredComponent => Invalid(Rejected, NoRequiredComponent)
    case InvalidFreshness => Invalid(Rejected, BadFreshness)
    case UnsupportedAlgorithm => Unverified(Unsupported, UnknownAlgorithm)
  }

  /**
   What a refusal says: malformed for what does not parse or is too large, unsupported for what this
   module does not do, rejected for the rest; and no two refusals give one reason.
   */
  lemma ErrorResultExact(error: CandidateError, other: CandidateError)
    ensures var r := ErrorResult(error);
            && (error in {BadSyntax, ProfileFieldTooLarge} <==> r.Invalid? && r.invalidKind.Malformed?)
            && (error in {MultipleSignatures, UnsupportedDiscoveryType, UnsupportedAlgorithm} <==>
                  r.Unverified? && r.unverifiedKind.Unsupported?)
            && (r.Invalid? || r.Unverified?) && (r.Unverified? ==> r.unverifiedKind.Unsupported?)
    ensures error != other ==> ReasonOf(ErrorResult(error)) != ReasonOf(ErrorResult(other))
  {
  }

  // The one signature with the profile's tag.

  predicate Tagged(entry: ListEntry) {
    entry.InnerList? && "tag" in entry.params && entry.params["tag"] == Text("web-bot-auth")
  }

  /** The labels of the tagged members of a dictionary, in order. */
  function LabelsIn(d: Dictionary): seq<string> {
    if d == [] then []
    else
      var n := |d| - 1;
      LabelsIn(d[..n]) + (if Tagged(d[n].entry) then [d[n].key] else [])
  }

  /** The labels of all tagged members of a field, if every value is a dictionary. */
  function ProfileLabels(lib: FieldLibrary, values: seq<string>): Option<seq<string>> {
    if values == [] then Some([])
    else
      var n := |values| - 1;
      var before, last := ProfileLabels(lib, values[..n]), ParseDictionary(lib.members, values[n]);
      if before.Some? && last.Some? then Some(before.value + LabelsIn(last.value)) else None
  }

  function LabelOf(lib: FieldLibrary, values: seq<string>): Result<string, CandidateError> {
    match ProfileLabels(lib, values)
    case None => Err(BadSyntax)
    case Some(labels) =>
      if labels == [] then Err(BadSyntax)
      else if |labels| == 1 then Ok(labels[0])
      else Err(MultipleSignatures)
  }

  lemma {:induction false} LabelsNeedAll(lib: FieldLibrary, values: seq<string>, i: nat)
    requires i < |values| && ParseDictionary(lib.members, values[i]).None?
    ensures ProfileLabels(lib, values).None?
    decreases |values|
  {
    if i < |values| - 1 {
      LabelsNeedAll(lib, values[..|values| - 1], i);
    }
  }

  method ProfileSignatureLabel(lib: FieldLibrary, values: seq<string>) returns (r: Result<string, CandidateError>)
    ensures r == LabelOf(lib, values)
  {
    var labels: seq<string> := [];
    for i := 0 to |values|
      invariant ProfileLabels(lib, values[..i]) == Some(labels)
    {
      assert values[..i + 1][..i] == values[..i];
      var dictionary := ParseDictionary(lib.members, values[i]);
      if dictionary.None? {
        LabelsNeedAll(lib, values, i);
        return Err(BadSyntax);
      }
      var d := dictionary.value;
      ghost var before := labels;
      for j := 0 to |d|
        invariant labels == before + LabelsIn(d[..j])
      {
        assert d[..j + 1][..j] == d[..j];
        if Tagged(d[j].entry) {
          labels := labels + [d[j].key];
        }
      }
      assert d[..|d|] == d;
    }
    assert values[..|values|] == values;
    r := if labels == [] then Err(BadSyntax) else if |labels| == 1 then Ok(labels[0]) else Err(MultipleSignatures);
  }

  /** A place where a tagged member stands: a field value, and a position in its dictionary. */
  predicate TaggedAt(lib: FieldLibrary, values: seq<string>, i: nat, j: nat) {
    && i < |values|
    && ParseDictionary(lib.members, values[i]).Some?
    && j < |ParseDictionary(lib.members, values[i]).value|
    && Tagged(ParseDictionary(lib.members, values[i]).value[j].entry)
  }

  lemma {:induction false} LabelListed(d: Dictionary, j: nat)
    requires j < |d| && Tagged(d[j].entry)
    ensures d[j].key in LabelsIn(d)
  {
    if j < |d| - 1 {
      LabelListed(d[..|d| - 1], j);
    }
  }

  lemma {:induction false} TwoLabelsListed(d: Dictionary, j: nat, k: nat)
    requires j < k < |d| && Tagged(d[j].entry) && Tagged(d[k].entry)
    ensures |LabelsIn(d)| >= 2
  {
    if k < |d| - 1 {
      TwoLabelsListed(d[..|d| - 1], j, k);
    } else {
      LabelListed(d[..|d| - 1], j);
    }
  }

  lemma {:induction false} LabelCounted(lib: FieldLibrary, values: seq<string>, i: nat, j: nat)
    requires ProfileLabels(lib, values).Some? && TaggedAt(lib, values, i, j)
    ensures ParseDictionary(lib.members, values[i]).value[j].key in ProfileLabels(lib, values).value
    decreases |values|
  {
    if i < |values| - 1 {
      LabelCounted(lib, values[..|values| - 1], i, j);
    } else {
      LabelListed(ParseDictionary(lib.members, values[i]).value, j);
    }
  }

  lemma LabelsOfLast(lib: FieldLibrary, values: seq<string>)
    requires values != [] && ProfileLabels(lib, values).Some?
    ensures var n := |values| - 1;
            && ProfileLabels(lib, values[..n]).Some? && ParseDictionary(lib.members, values[n]).Some?
            && ProfileLabels(lib, values).value ==
               ProfileLabels(lib, values[..n]).value + LabelsIn(ParseDictionary(lib.members, values[n]).value)
  {
  }

  lemma TaggedAtPrefix(lib: FieldLibrary, values: seq<string>, n: nat, i: nat, j: nat)
    requires i < n <= |values| && TaggedAt(lib, values, i, j)
    ensures TaggedAt(lib, values[..n], i, j)
  {
  }

  lemma {:induction false} TwoLabelsCounted(lib: FieldLibrary, values: seq<string>, i: nat, j: nat, i': nat, j': nat)
    requires ProfileLabels(lib, values).Some?
    requires TaggedAt(lib, values, i, j) && TaggedAt(lib, values, i', j') && (i < i' || (i == i' && j < j'))
    ensures |ProfileLabels(lib, values).value| >= 2
    decreases |values|
  {
    var n := |values| - 1;
    LabelsOfLast(lib, values);
    if i' < n {
      TaggedAtPrefix(lib, values, n, i, j);
      TaggedAtPrefix(lib, values, n, i', j');
      TwoLabelsCounted(lib, values[..n], i, j, i', j');
    } else if i < n {
      TaggedAtPrefix(lib, values, n, i, j);
      LabelCounted(lib, values[..n], i, j);
      LabelListed(ParseDictionary(lib.members, values[n]).value, j');
    } else {
      TwoLabelsListed(ParseDictionary(lib.members, values[n]).value, j, j');
    }
  }

  /** A label is accepted only if it is the only tagged member of the whole field. */
  lemma ProfileLabelUnique(lib: FieldLibrary, values: seq<string>, i: nat, j: nat, i': nat, j': nat)
    requires LabelOf(lib, values).Ok? && TaggedAt(lib, values, i, j) && TaggedAt(lib, values, i', j')
    ensures i == i' && j == j'
    ensures ParseDictionary(lib.members, values[i]).value[j].key == LabelOf(lib, values).value
  {
    LabelCounted(lib, values, i, j);
    if i < i' || (i == i' && j < j') {
      TwoLabelsCounted(lib, values, i, j, i', j');
    }
    if i' < i || (i == i' && j' < j) {
      TwoLabelsCounted(lib, values, i', j', i, j);
    }
  }

  /** No tagged member anywhere. */
  ghost predicate NoneTagged(lib: FieldLibrary, values: seq<string>) {
    forall i, j :: !TaggedAt(lib, values, i, j)
  }

  lemma {:induction false} LabelsEmpty(d: Dictionary)
    requires forall j :: 0 <= j < |d| ==> !Tagged(d[j].entry)
    ensures LabelsIn(d) == []
  {
    if d != [] {
      LabelsEmpty(d[..|d| - 1]);
    }
  }

  lemma {:induction false} LabelAlone(d: Dictionary, j: nat)
    requires j < |d| && Tagged(d[j].entry) && forall k :: 0 <= k < |d| && k != j ==> !Tagged(d[k].entry)
    ensures LabelsIn(d) == [d[j].key]
  {
    var n := |d| - 1;
    if j == n {
      LabelsEmpty(d[..n]);
    } else {
      LabelAlone(d[..n], j);
    }
  }

  lemma {:induction false} NoLabels(lib: FieldLibrary, values: seq<string>)
    requires NoneTagged(lib, values) && ProfileLabels(lib, values).Some?
    ensures ProfileLabels(lib, values) == Some([])
    decreases |values|
  {
    if values != [] {
      var n := |values| - 1;
      LabelsOfLast(lib, values);
      forall i: nat, j: nat ensures !TaggedAt(lib, values[..n], i, j) {
        assert !TaggedAt(lib, values, i, j);
      }
      NoLabels(lib, values[..n]);
      var d := ParseDictionary(lib.members, values[n]).value;
      forall j | 0 <= j < |d| ensures !Tagged(d[j].entry) {
        assert !TaggedAt(lib, values, n, j);
      }
      LabelsEmpty(d);
    }
  }

  lemma {:induction false} OneLabel(lib: FieldLibrary, values: seq<string>, i: nat, j: nat)
    requires ProfileLabels(lib, values).Some? && TaggedAt(lib, values, i, j)
    requires forall i': nat, j': nat :: TaggedAt(lib, values, i', j') ==> i' == i && j' == j
    ensures ProfileLabels(lib, values) == Some([ParseDictionary(lib.members, values[i]).value[j].key])
    decreases |values|
  {
    var n := |values| - 1;
    LabelsOfLast(lib, values);
    var d := ParseDictionary(lib.members, values[n]).value;
    if i == n {
      forall k | 0 <= k < |d| && k != j ensures !Tagged(d[k].entry) {
        assert !TaggedAt(lib, values, n, k);
      }
      LabelAlone(d, j);
      forall i': nat, j': nat ensures !TaggedAt(lib, values[..n], i', j') {
        assert TaggedAt(lib, values[..n], i', j') ==> TaggedAt(lib, values, i', j');
      }
      NoLabels(lib, values[..n]);
      assert [] + [d[j].key] == [d[j].key];
    } else {
      forall k | 0 <= k < |d| ensures !Tagged(d[k].entry) {
        assert !TaggedAt(lib, values, n, k);
      }
      LabelsEmpty(d);
      forall i': nat, j': nat | TaggedAt(lib, values[..n], i', j') ensures i' == i && j' == j {
        assert TaggedAt(lib, values, i', j');
      }
      TaggedAtPrefix(lib, values, n, i, j);
      OneLabel(lib, values[..n], i, j);
      assert ProfileLabels(lib, values[..n]).value + [] == ProfileLabels(lib, values[..n]).value;
    }
  }

  /** Any inner list with the profile's tag is tagged, and nothing else is. */
  lemma TaggedIff(items: seq<Item>, item: Item, params: map<string, BareItem>, value: BareItem)
    ensures Tagged(InnerList(items, params["tag" := value])) <==> value == Text("web-bot-auth")
    ensures !Tagged(InnerList(items, params - {"tag"})) && !Tagged(Single(item))
  {
  }

  /**
   A field of dictionaries gives a label exactly when one member of all its values has the profile's
   tag, and then that member's; more than one is reported as such, and none as malformed.
   */
  lemma LabelExact(lib: FieldLibrary, values: seq<string>, i: nat, j: nat, i': nat, j': nat)
    requires ProfileLabels(lib, values).Some?
    ensures NoneTagged(lib, values) ==> LabelOf(lib, values) == Err(BadSyntax)
    ensures TaggedAt(lib, values, i, j) && (forall k: nat, l: nat :: TaggedAt(lib, values, k, l) ==> k == i && l == j) ==>
              LabelOf(lib, values) == Ok(ParseDictionary(lib.members, values[i]).value[j].key)
    ensures TaggedAt(lib, values, i, j) && TaggedAt(lib, values, i', j') && (i != i' || j != j') ==>
              LabelOf(lib, values) == Err(MultipleSignatures)
  {
    if NoneTagged(lib, values) {
      NoLabels(lib, values);
    }
    if TaggedAt(lib, values, i, j) && forall k: nat, l: nat :: TaggedAt(lib, values, k, l) ==> k == i && l == j {
      OneLabel(lib, values, i, j);
    }
    if TaggedAt(lib, values, i, j) && TaggedAt(lib, values, i', j') && (i != i' || j != j') {
      if i < i' || (i == i' && j < j') {
        TwoLabelsCounted(lib, values, i, j, i', j');
      } else {
        TwoLabelsCounted(lib, values, i', j', i, j);
      }
    }
  }

  // The agent member the signature covers.

  predicate IsAgentField(c: Component) {
    c.HttpField? && c.name == SIGNATURE_AGENT
  }

  /** The dictionary key a covered agent field names; none if it covers the whole field. */
  function AgentKeyOf(parameters: seq<FieldParameter>): (r: Result<Option<string>, CandidateError>)
    ensures r.Ok? ==> parameters == if r.value.Some? then [KeyOf(r.value.value)] else []
  {
    if parameters == [] then Ok(None)
    else if |parameters| == 1 && parameters[0].KeyOf? then Ok(Some(parameters[0].key))
    else Err(BadSyntax)
  }

  function SignedAgentMemberKey(components: seq<Component>): (r: Result<Option<string>, CandidateError>)
    ensures r.Ok? ==> HttpField(SIGNATURE_AGENT, if r.value.Some? then [KeyOf(r.value.value)] else []) in components
  {
    if components == [] then Err(SignatureAgentNotBound)
    else if IsAgentField(components[0]) then AgentKeyOf(components[0].parameters)
    else SignedAgentMemberKey(components[1..])
  }

  /** The same, from the items of an inner list that are yet to be read as components. */
  function ListedAgentKey(lib: FieldLibrary, items: seq<Item>): Result<Option<string>, CandidateError> {
    if items == [] then Err(SignatureAgentNotBound)
    else match lib.component(items[0])
      case None => Err(BadSyntax)
      case Some(c) => if IsAgentField(c) then AgentKeyOf(c.parameters) else ListedAgentKey(lib, items[1..])
  }

  function InputAgentKey(lib: FieldLibrary, values: seq<string>, name: string): Result<Option<string>, CandidateError> {
    if values == [] then Err(BadSyntax)
    else match ParseDictionary(lib.members, values[0])
      case None => Err(BadSyntax)
      case Some(d) =>
        match Get(d, name)
        case Some(InnerList(items, _)) => ListedAgentKey(lib, items)
        case _ => InputAgentKey(lib, values[1..], name)
  }

  method SignatureAgentKeyFromInput(lib: FieldLibrary, values: seq<string>, name: string)
    returns (r: Result<Option<string>, CandidateError>)
    ensures r == InputAgentKey(lib, values, name)
  {
    assert values[0..] == values;
    for i := 0 to |values|
      invariant InputAgentKey(lib, values, name) == InputAgentKey(lib, values[i..], name)
    {
      assert values[i..][1..] == values[i + 1..];
      var dictionary := ParseDictionary(lib.members, values[i]);
      if dictionary.None? {
        return Err(BadSyntax);
      }
      var entry := Get(dictionary.value, name);
      if entry.None? || !entry.value.InnerList? {
        continue;
      }
      var items := entry.value.items;
      assert items[0..] == items;
      for j := 0 to |items|
        invariant ListedAgentKey(lib, items) == ListedAgentKey(lib, items[j..])
      {
        assert items[j..][1..] == items[j + 1..];
        var component := lib.component(items[j]);
        if component.None? {
          return Err(BadSyntax);
        }
        if IsAgentField(component.value) {
          return AgentKeyOf(component.value.parameters);
        }
      }
      return Err(SignatureAgentNotBound);
    }
    r := Err(BadSyntax);
  }

  /** Read before or after the verifier parses the list, the covered agent key is the same. */
  lemma {:induction false} AgentKeysAgree(lib: FieldLibrary, items: seq<Item>, components: seq<Component>)
    requires |items| == |components|
    requires forall i :: 0 <= i < |items| ==> lib.component(items[i]) == Some(components[i])
    ensures ListedAgentKey(lib, items) == SignedAgentMemberKey(components)
  {
    if items != [] && !IsAgentField(components[0]) {
      AgentKeysAgree(lib, items[1..], components[1..]);
    }
  }

  // The agent item.

  datatype AgentForm = DictionaryForm | LegacyItem

  datatype SelectedAgent = SelectedAgent(item: Item, form: AgentForm)

  function AgentOf(lib: FieldLibrary, values: seq<string>, agentKey: Option<string>, acceptLegacy: bool)
    : Result<SelectedAgent, CandidateError>
  {
    match Combined(lib.members, values)
    case Some(ms) => AgentIn(ms, agentKey)
    case None =>
      if !acceptLegacy || agentKey.Some? || |values| != 1 then Err(BadSyntax)
      else match lib.item(values[0])
        case Some(item) => Ok(SelectedAgent(item, LegacyItem))
        case None => Err(BadSyntax)
  }

  function AgentIn(ms: seq<DictMember>, agentKey: Option<string>): Result<SelectedAgent, CandidateError> {
    if agentKey.None? then Err(MissingSignatureAgent)
    else match LastOf(ms, agentKey.value)
      case Some(Single(item)) => Ok(SelectedAgent(item, DictionaryForm))
      case Some(InnerList(_, _)) => Err(BadSyntax)
      case None => Err(MissingSignatureAgent)
  }

  /** The merge of the values read so far looks every key up as the last member of all of them. */
  ghost predicate Merges(d: Dictionary, ms: seq<DictMember>) {
    forall key :: Get(d, key) == LastOf(ms, key)
  }

  lemma MergesMore(d: Dictionary, ms: seq<DictMember>, more: seq<DictMember>)
    requires Merges(d, ms)
    ensures Merges(InsertAll(d, InsertAll([], more)), ms + more)
  {
    forall key ensures Get(InsertAll(d, InsertAll([], more)), key) == LastOf(ms + more, key) {
      ExtendIsInsertAll(d, more, key);
      GetInsertAll(d, more, key);
      LastOfAppend(ms, more, key);
      assert Get(d, key) == LastOf(ms, key);
    }
  }

  method SelectAgent(lib: FieldLibrary, values: seq<string>, agentKey: Option<string>, acceptLegacy: bool)
    returns (r: Result<SelectedAgent, CandidateError>)
    ensures r == AgentOf(lib, values, agentKey, acceptLegacy)
  {
    var dictionary: Dictionary := [];
    var dictionaryValid := true;
    var i := 0;
    while i < |values| && dictionaryValid
      invariant 0 <= i <= |values|
      invariant dictionaryValid ==>
                  && Combined(lib.members, values[..i]).Some?
                  && Merges(dictionary, Combined(lib.members, values[..i]).value)
      invariant !dictionaryValid ==> Combined(lib.members, values).None?
      decreases |values| - i, dictionaryValid
    {
      assert values[..i + 1][..i] == values[..i];
      var parsed := ParseDictionary(lib.members, values[i]);
      if parsed.Some? {
        MergesMore(dictionary, Combined(lib.members, values[..i]).value, lib.members(values[i]).value);
        dictionary := InsertAll(dictionary, parsed.value);
        i := i + 1;
      } else {
        CombinedNeedsAll(lib.members, values, i);
        dictionaryValid := false;
      }
    }
    if dictionaryValid {
      assert values[..i] == values;
      if agentKey.None? {
        return Err(MissingSignatureAgent);
      }
      match Get(dictionary, agentKey.value) {
        case Some(Single(item)) => return Ok(SelectedAgent(item, DictionaryForm));
        case Some(InnerList(_, _)) => return Err(BadSyntax);
        case None => return Err(MissingSignatureAgent);
      }
    }
    if acceptLegacy && agentKey.None? && |values| == 1 {
      var item := lib.item(values[0]);
      return if item.Some? then Ok(SelectedAgent(item.value, LegacyItem)) else Err(BadSyntax);
    }
    r := Err(BadSyntax);
  }

  function ParseAgent(item: Item): Result<(SfString, DiscoveryMechanism), CandidateError> {
    if !item.bare.Text? then Err(BadSyntax)
    else if "type" !in item.params || item.params["type"] == Token("directory") then Ok((item.bare.text, Directory))
    else if item.params["type"] == Token("jwks_uri") then Ok((item.bare.text, JwksUri))
    else if item.params["type"] == Token("cimd") then Ok((item.bare.text, Cimd))
    else Err(UnsupportedDiscoveryType)
  }

  predicate SupportedAlgorithm(algorithm: Option<BareItem>) {
    algorithm.None? || algorithm.value == Text("ed25519")
  }

  // Freshness, in the machine's 64-bit arithmetic.

  function CheckedSub(a: I64, b: I64): Option<I64> {
    if I64_MIN <= a - b <= I64_MAX then Some(a - b) else None
  }

  function SaturatingAdd(a: I64, b: I64): I64 {
    if a + b > I64_MAX then I64_MAX else if a + b < I64_MIN then I64_MIN else a + b
  }

  function SaturatingSub(a: I64, b: I64): I64 {
    if a - b > I64_MAX then I64_MAX else if a - b < I64_MIN then I64_MIN else a - b
  }

  /** Freshness as it reads in unbounded integers. */
  predicate Fresh(created: int, expires: int, now: int, maxLifetime: int, clockSkew: int) {
    0 <= expires - created <= maxLifetime && created <= now + clockSkew && expires >= now - clockSkew
  }

  /** Accepts exactly what the unbounded rule accepts, if skew and lifetime fit 64 bits with sign. */
  function ValidateFreshness(
    created: Option<I64>, expires: Option<I64>, now: I64, maxLifetime: U64, clockSkew: U64)
    : (r: Result<(), CandidateError>)
    ensures r.Ok? <==>
            && created.Some? && expires.Some?
            && Fresh(created.value, expires.value, now, maxLifetime, clockSkew)
            && clockSkew <= I64_MAX && expires.value - created.value <= I64_MAX
    ensures r.Err? ==> r.error == InvalidFreshness
  {
    if created.None? || expires.None? then Err(InvalidFreshness)
    else if clockSkew > I64_MAX then Err(InvalidFreshness)
    else
      var skew: I64 := clockSkew;
      match CheckedSub(expires.value, created.value)
      case None => Err(InvalidFreshness)
      case Some(lifetime) =>
        if || lifetime < 0 || lifetime > maxLifetime
           || created.value > SaturatingAdd(now, skew)
           || expires.value < SaturatingSub(now, skew)
        then Err(InvalidFreshness)
        else Ok(())
  }

  // Coverage.

  /** The name that coverage records for a component: four derived ones, and every field's. */
  function RecordedName(c: Component): Option<string> {
    match c
    case DerivedComponent(Method, false) => Some("@method")
    case DerivedComponent(Path, false) => Some("@path")
    case DerivedComponent(TargetUri, false) => Some("@target-uri")
    case DerivedComponent(Authority, false) => Some("@authority")
    case DerivedComponent(_, _) => None
    case HttpField(name, _) => Some(name)
  }

  predicate Records(components: seq<Component>, name: string) {
    exists c :: c in components && RecordedName(c) == Some(name)
  }

  predicate CoversTarget(components: seq<Component>) {
    DerivedComponent(Authority, false) in components || DerivedComponent(TargetUri, false) in components
  }

  predicate BindsAgent(components: seq<Component>, agentKey: Option<string>, form: AgentForm) {
    match form
    case DictionaryForm => agentKey.Some? && HttpField(SIGNATURE_AGENT, [KeyOf(agentKey.value)]) in components
    case LegacyItem => HttpField(SIGNATURE_AGENT, []) in components
  }

  predicate RecordsAll(components: seq<Component>, required: seq<string>) {
    forall i :: 0 <= i < |required| ==> Records(components, required[i])
  }

  function CoverageOf(
    components: seq<Component>, agentKey: Option<string>, form: AgentForm, required: seq<string>)
    : Result<(), CandidateError>
  {
    if !CoversTarget(components) then Err(MissingRequiredComponent)
    else if !BindsAgent(components, agentKey, form) then Err(SignatureAgentNotBound)
    else if !RecordsAll(components, required) then Err(MissingRequiredComponent)
    else Ok(())
  }

  /** What one more component adds to a coverage. */
  lemma CoverageMore(components: seq<Component>, c: Component, agentKey: Option<string>)
    ensures CoversTarget(components + [c]) <==>
            || CoversTarget(components)
            || c == DerivedComponent(Authority, false) || c == DerivedComponent(TargetUri, false)
    ensures BindsAgent(components + [c], agentKey, DictionaryForm) <==>
            || BindsAgent(components, agentKey, DictionaryForm)
            || (IsAgentField(c) && NamesKey(c.parameters, agentKey))
    ensures BindsAgent(components + [c], agentKey, LegacyItem) <==>
            BindsAgent(components, agentKey, LegacyItem) || (IsAgentField(c) && c.parameters == [])
  {
    if IsAgentField(c) && NamesKey(c.parameters, agentKey) {
      assert c.parameters == [KeyOf(agentKey.value)];
    }
  }

  predicate NamesKey(parameters: seq<FieldParameter>, agentKey: Option<string>) {
    |parameters| == 1 && parameters[0].KeyOf? && agentKey == Some(parameters[0].key)
  }

  lemma RecordsMore(components: seq<Component>, c: Component)
    ensures forall name :: Records(components + [c], name) <==>
                           Records(components, name) || RecordedName(c) == Some(name)
  {
    forall name
      ensures Records(components + [c], name) <==> Records(components, name) || RecordedName(c) == Some(name)
    {
      if Records(components, name) {
        var d :| d in components && RecordedName(d) == Some(name);
        assert d in components + [c];
      }
      assert c in components + [c];
    }
  }

  method ValidateCoverage(components: seq<Component>, agentKey: Option<string>, form: AgentForm, required: seq<string>)
    returns (r: Result<(), CandidateError>)
    ensures r == CoverageOf(components, agentKey, form, required)
  {
    var authorityOrTarget, boundAgent, legacyAgent := false, false, false;
    var names: seq<string> := [];
    for i := 0 to |components|
      invariant authorityOrTarget <==> CoversTarget(components[..i])
      invariant boundAgent <==> BindsAgent(components[..i], agentKey, DictionaryForm)
      invariant legacyAgent <==> BindsAgent(components[..i], agentKey, LegacyItem)
      invariant forall name :: name in names <==> Records(components[..i], name)
    {
      assert components[..i + 1] == components[..i] + [components[i]];
      RecordsMore(components[..i], components[i]);
      CoverageMore(components[..i], components[i], agentKey);
      match components[i] {
        case DerivedComponent(Method, false) =>
          names := names + ["@method"];
        case DerivedComponent(Path, false) =>
          names := names + ["@path"];
        case DerivedComponent(TargetUri, false) =>
          authorityOrTarget := true;
          names := names + ["@target-uri"];
        case DerivedComponent(Authority, false) =>
          authorityOrTarget := true;
          names := names + ["@authority"];
        case DerivedComponent(_, _) =>
        case HttpField(name, parameters) =>
          names := names + [name];
          if name == SIGNATURE_AGENT {
            if NamesKey(parameters, agentKey) {
              boundAgent := true;
            } else if parameters == [] {
              legacyAgent := true;
            }
          }
      }
    }
    assert components[..|components|] == components;
    if !authorityOrTarget {
      return Err(MissingRequiredComponent);
    }
    var agentIsBound := if form.DictionaryForm? then boundAgent else legacyAgent;
    if !agentIsBound {
      return Err(SignatureAgentNotBound);
    }
    for i := 0 to |required|
      invariant RecordsAll(components, required[..i])
    {
      if required[i] !in names {
        return Err(MissingRequiredComponent);
      }
    }
    assert required[..|required|] == required;
    r := Ok(());
  }

  // The whole parse.

  datatype Profile = Profile(acceptLegacy: bool, required: seq<string>, maxLifetime: U64, clockSkew: U64)

  function ComponentsOf(covered: seq<Covered>): (r: seq<Component>)
    ensures |r| == |covered|
    ensures forall i :: 0 <= i < |covered| ==> r[i] == covered[i].component
  {
    seq(|covered|, i requires 0 <= i < |covered| => covered[i].component)
  }

  /** The agent item and the parsed signature that belong together. */
  datatype Paired = Paired(agent: SelectedAgent, agentKey: Option<string>, verifier: ParsedSignature)

  /** Finds the agent item that the request's one profile signature covers. */
  function PairingOf(lib: ModuleLibrary, profile: Profile, request: RequestComponents): Result<Paired, CandidateError> {
    var name := LabelOf(lib.fields, request.signatureInput);
    if name.Err? then Err(name.error) else
    var expected := InputAgentKey(lib.fields, request.signatureInput, name.value);
    if expected.Err? then Err(expected.error) else
    var agent := AgentOf(lib.fields, request.signatureAgent, expected.value, profile.acceptLegacy);
    if agent.Err? then Err(agent.error) else
    var verifier := lib.verifier(request);
    if verifier.None? || verifier.value.name != name.value then Err(BadSyntax) else
    var agentKey := SignedAgentMemberKey(ComponentsOf(verifier.value.covered));
    if agentKey.Err? then Err(agentKey.error)
    else if agentKey.value != expected.value then Err(BadSyntax)
    else Ok(Paired(agent.value, agentKey.value, verifier.value))
  }

  /** Checks the signature's parameters and coverage; the answer is its key id. */
  function KeyIdOf(profile: Profile, p: Paired, now: I64): Result<SfString, CandidateError> {
    if !SupportedAlgorithm(p.verifier.algorithm) then Err(UnsupportedAlgorithm) else
    var checked := ValidateFreshness(p.verifier.created, p.verifier.expires, now, profile.maxLifetime, profile.clockSkew);
    if checked.Err? then Err(checked.error) else
    var coverage := CoverageOf(ComponentsOf(p.verifier.covered), p.agentKey, p.agent.form, profile.required);
    if coverage.Err? then Err(coverage.error)
    else if p.verifier.keyId.None? || p.verifier.keyId.value == "" then Err(BadSyntax)
    else Ok(p.verifier.keyId.value)
  }

  /** Reads the agent item: where its keys are and which identifier it stands for. */
  function WithTarget(lib: UrlLibrary, p: Paired, keyId: SfString): Result<VerificationCandidate, CandidateError> {
    var agent := ParseAgent(p.agent.item);
    if agent.Err? then Err(agent.error)
    else if |keyId| > MAX_KEY_ID_BYTES then Err(ProfileFieldTooLarge)
    else
      var (url, discovery) := agent.value;
      match TargetOf(lib, url, discovery)
      case Err(TooLong) => Err(ProfileFieldTooLarge)
      case Err(_) => Err(InvalidDiscoveryUrl)
      case Ok(target) => Ok(VerificationCandidate(p.verifier, discovery, url, target.normalizedIdentifier, keyId))
  }

  function CandidateOf(lib: ModuleLibrary, profile: Profile, request: RequestComponents, now: I64)
    : Result<VerificationCandidate, CandidateError>
  {
    var paired := PairingOf(lib, profile, request);
    if paired.Err? then Err(paired.error) else
    var keyId := KeyIdOf(profile, paired.value, now);
    if keyId.Err? then Err(keyId.error) else WithTarget(lib.url, paired.value, keyId.value)
  }

  method Parse(lib: ModuleLibrary, profile: Profile, request: RequestComponents, now: I64)
    returns (r: Result<VerificationCandidate, CandidateError>)
    ensures r == CandidateOf(lib, profile, request, now)
  {
    var paired := ParsePair(lib, profile, request);
    if paired.Err? {
      return Err(paired.error);
    }
    var keyId := ParseKeyId(profile, paired.value, now);
    if keyId.Err? {
      return Err(keyId.error);
    }
    r := WithTarget(lib.url, paired.value, keyId.value);
  }

  method ParsePair(lib: ModuleLibrary, profile: Profile, request: RequestComponents)
    returns (r: Result<Paired, CandidateError>)
    ensures r == PairingOf(lib, profile, request)
  {
    var name := ProfileSignatureLabel(lib.fields, request.signatureInput);
    if name.Err? {
      return Err(name.error);
    }
    var expected := SignatureAgentKeyFromInput(lib.fields, request.signatureInput, name.value);
    if expected.Err? {
      return Err(expected.error);
    }
    var agent := SelectAgent(lib.fields, request.signatureAgent, expected.value, profile.acceptLegacy);
    if agent.Err? {
      return Err(agent.error);
    }
    var verifier := lib.verifier(request);
    if verifier.None? || verifier.value.name != name.value {
      return Err(BadSyntax);
    }
    var agentKey := SignedAgentMemberKey(ComponentsOf(verifier.value.covered));
    if agentKey.Err? {
      return Err(agentKey.error);
    }
    if agentKey.value != expected.value {
      return Err(BadSyntax);
    }
    r := Ok(Paired(agent.value, agentKey.value, verifier.value));
  }

  method ParseKeyId(profile: Profile, p: Paired, now: I64) returns (r: Result<SfString, CandidateError>)
    ensures r == KeyIdOf(profile, p, now)
  {
    if !SupportedAlgorithm(p.verifier.algorithm) {
      return Err(UnsupportedAlgorithm);
    }
    var checked := ValidateFreshness(p.verifier.created, p.verifier.expires, now, profile.maxLifetime, profile.clockSkew);
    if checked.Err? {
      return Err(checked.error);
    }
    var coverage := ValidateCoverage(ComponentsOf(p.verifier.covered), p.agentKey, p.agent.form, profile.required);
    if coverage.Err? {
      return Err(coverage.error);
    }
    if p.verifier.keyId.None? || p.verifier.keyId.value == "" {
      return Err(BadSyntax);
    }
    r := Ok(p.verifier.keyId.value);
  }

  // What acceptance means.

  /** A pairing already binds the agent, so coverage never finds it unbound. */
  lemma PairingBinds(lib: ModuleLibrary, profile: Profile, request: RequestComponents)
    requires PairingOf(lib, profile, request).Ok?
    ensures var p := PairingOf(lib, profile, request).value;
            BindsAgent(ComponentsOf(p.verifier.covered), p.agentKey, p.agent.form)
  {
  }

  // Required names, by the name each component goes by.

  /** The names of the six derived components that can be required, and of fields. */
  function NameOf(c: Component): Option<string> {
    if c.HttpField? then Some(c.name)
    else if c.req then None
    else match c.derived
      case Method => Some("@method")
      case Authority => Some("@authority")
      case Scheme => Some("@scheme")
      case TargetUri => Some("@target-uri")
      case Path => Some("@path")
      case Query => Some("@query")
      case OtherDerived(_) => None
  }

  predicate CoversName(components: seq<Component>, name: string) {
    exists c :: c in components && NameOf(c) == Some(name)
  }

  predicate CoversAll(components: seq<Component>, required: seq<string>) {
    forall i :: 0 <= i < |required| ==> CoversName(components, required[i])
  }

  predicate CoversField(components: seq<Component>, name: string) {
    exists c :: c in components && c.HttpField? && c.name == name
  }

  predicate IsUnrecorded(name: string) {
    name == "@scheme" || name == "@query"
  }

  lemma RecordedIsNamed(c: Component, name: string)
    ensures RecordedName(c) == Some(name) <==> NameOf(c) == Some(name) && (c.HttpField? || !IsUnrecorded(name))
  {
  }

  /** A name is recorded exactly when it is covered and, for the two unrecorded ones, covered by a field. */
  lemma RecordsIff(components: seq<Component>, name: string)
    ensures Records(components, name) <==>
            CoversName(components, name) && (IsUnrecorded(name) ==> CoversField(components, name))
  {
    if Records(components, name) {
      var c :| c in components && RecordedName(c) == Some(name);
      RecordedIsNamed(c, name);
    }
    if CoversName(components, name) && !IsUnrecorded(name) {
      var c :| c in components && NameOf(c) == Some(name);
      RecordedIsNamed(c, name);
    }
    if CoversField(components, name) {
      var c :| c in components && c.HttpField? && c.name == name;
      RecordedIsNamed(c, name);
    }
  }

  /** Components that cover every required name, one of them only as a derived component. */
  function CoveringBut(required: seq<string>, name: string, derived: Derived): (r: seq<Component>)
    ensures |r| == |required|
    ensures forall i :: 0 <= i < |required| ==>
              r[i] == if required[i] == name then DerivedComponent(derived, false) else HttpField(required[i], [])
  {
    seq(|required|, i requires 0 <= i < |required| =>
      if required[i] == name then DerivedComponent(derived, false) else HttpField(required[i], []))
  }

  lemma UnrecordedIsMissed(required: seq<string>, name: string, derived: Derived)
    requires name in required && IsUnrecorded(name) && NameOf(DerivedComponent(derived, false)) == Some(name)
    ensures var components := CoveringBut(required, name, derived);
            CoversAll(components, required) && !RecordsAll(components, required)
  {
    var components := CoveringBut(required, name, derived);
    forall i | 0 <= i < |required| ensures CoversName(components, required[i]) {
      assert components[i] in components && NameOf(components[i]) == Some(required[i]);
    }
    var i :| 0 <= i < |required| && required[i] == name;
    RecordsIff(components, name);
    assert !CoversField(components, name);
    assert !Records(components, required[i]);
  }

  /**
   The exact condition: every signature that covers the required names meets the requirement if and
   only if neither `@scheme` nor `@query` is required.
   */
  lemma RequirementsHonouredIff(required: seq<string>)
    ensures (forall components :: CoversAll(components, required) ==> RecordsAll(components, required)) <==>
            "@scheme" !in required && "@query" !in required
  {
    if "@scheme" in required {
      UnrecordedIsMissed(required, "@scheme", Scheme);
    } else if "@query" in required {
      UnrecordedIsMissed(required, "@query", Query);
    } else {
      forall components, i | CoversAll(components, required) && 0 <= i < |required|
        ensures Records(components, required[i])
      {
        RecordsIff(components, required[i]);
        assert required[i] in required;
      }
    }
  }

  /** A signature over `@query` is refused for not covering `@query`. */
  lemma CoveredQueryIsRefused(key: string)
    ensures var components :=
              [DerivedComponent(Authority, false), DerivedComponent(Query, false), HttpField(SIGNATURE_AGENT, [KeyOf(key)])];
            && CoversAll(components, ["@query"])
            && CoverageOf(components, Some(key), DictionaryForm, ["@query"]) == Err(MissingRequiredComponent)
  {
    var components :=
      [DerivedComponent(Authority, false), DerivedComponent(Query, false), HttpField(SIGNATURE_AGENT, [KeyOf(key)])];
    var required := ["@query"];
    assert components[1] in components && NameOf(components[1]) == Some("@query");
    RecordsIff(components, "@query");
    assert !Records(components, required[0]);
  }

  /** The verifier signs, for a component with a single value, that value. */
  ghost predicate SignsLookedUp(lib: ModuleLibrary) {
    forall r, i :: lib.verifier(r).Some? && 0 <= i < |lib.verifier(r).value.covered| ==>
      var c := lib.verifier(r).value.covered[i];
      var values := LookupComponent(lib.fields, r, c.component);
      |values| == 1 ==> c.value == values[0]
  }

  /** A signed value that carries an item: as its canonical text, or, for the legacy form, as text that parses to it. */
  predicate Carries(lib: FieldLibrary, c: Covered, item: Item, form: AgentForm) {
    && IsAgentField(c.component)
    && match form
       case DictionaryForm => c.component.parameters != [] && c.value == lib.serialize(item)
       case LegacyItem => c.component.parameters == [] && lib.item(c.value) == Some(item)
  }

  /** The two merges agree: the item selected is the item looked up for the covered member. */
  lemma SelectedIsLookedUp(lib: FieldLibrary, r: RequestComponents, agentKey: Option<string>, acceptLegacy: bool)
    requires AgentOf(lib, r.signatureAgent, agentKey, acceptLegacy).Ok?
    ensures var agent := AgentOf(lib, r.signatureAgent, agentKey, acceptLegacy).value;
            match agent.form
            case DictionaryForm =>
              && agentKey.Some?
              && LookupComponent(lib, r, HttpField(SIGNATURE_AGENT, [KeyOf(agentKey.value)])) == [lib.serialize(agent.item)]
            case LegacyItem =>
              && agentKey.None?
              && LookupComponent(lib, r, HttpField(SIGNATURE_AGENT, [])) == r.signatureAgent
              && |r.signatureAgent| == 1 && lib.item(r.signatureAgent[0]) == Some(agent.item)
  {
  }

  /** The agent item used is the one that was signed. */
  lemma PairedIsSigned(lib: ModuleLibrary, profile: Profile, request: RequestComponents) returns (i: nat)
    requires PairingOf(lib, profile, request).Ok? && SignsLookedUp(lib)
    ensures var p := PairingOf(lib, profile, request).value;
            i < |p.verifier.covered| && Carries(lib.fields, p.verifier.covered[i], p.agent.item, p.agent.form)
  {
    var p := PairingOf(lib, profile, request).value;
    SelectedIsLookedUp(lib.fields, request, p.agentKey, profile.acceptLegacy);
    var c := HttpField(SIGNATURE_AGENT, if p.agentKey.Some? then [KeyOf(p.agentKey.value)] else []);
    assert c in ComponentsOf(p.verifier.covered);
    i :| 0 <= i < |p.verifier.covered| && ComponentsOf(p.verifier.covered)[i] == c;
    assert lib.verifier(request) == Some(p.verifier);
  }

  /**
   Every accepted candidate's URL and discovery type are those of an item that its own signature
   covers, whatever the request and its fields.
   */
  lemma AgentIsSigned(lib: ModuleLibrary, profile: Profile, request: RequestComponents, now: I64)
    requires CandidateOf(lib, profile, request, now).Ok? && SignsLookedUp(lib)
    ensures var c := CandidateOf(lib, profile, request, now).value;
            exists i, item, form ::
              && 0 <= i < |c.verifier.covered|
              && Carries(lib.fields, c.verifier.covered[i], item, form)
              && ParseAgent(item) == Ok((c.signedUrl, c.discovery))
  {
    var p := PairingOf(lib, profile, request).value;
    var c := CandidateOf(lib, profile, request, now).value;
    var i := PairedIsSigned(lib, profile, request);
    assert Carries(lib.fields, c.verifier.covered[i], p.agent.item, p.agent.form);
  }

  lemma KeyIdGuarantees(profile: Profile, p: Paired, now: I64)
    requires KeyIdOf(profile, p, now).Ok?
    ensures Vetted(profile, p.verifier, now)
    ensures p.verifier.keyId == Some(KeyIdOf(profile, p, now).value) && KeyIdOf(profile, p, now).value != ""
  {
  }

  /** A signature that is fresh and covers what it must. */
  predicate Vetted(profile: Profile, verifier: ParsedSignature, now: I64) {
    && (verifier.algorithm.None? || verifier.algorithm == Some(Text("ed25519")))
    && verifier.created.Some? && verifier.expires.Some?
    && Fresh(verifier.created.value, verifier.expires.value, now, profile.maxLifetime, profile.clockSkew)
    && CoversTarget(ComponentsOf(verifier.covered))
    && RecordsAll(ComponentsOf(verifier.covered), profile.required)
  }

  lemma TargetGuarantees(lib: UrlLibrary, p: Paired, keyId: SfString)
    requires WithTarget(lib, p, keyId).Ok?
    ensures var c := WithTarget(lib, p, keyId).value;
            var target := TargetOf(lib, c.signedUrl, c.discovery);
            && c.verifier == p.verifier && c.keyId == keyId
            && |keyId| <= MAX_KEY_ID_BYTES && |c.signedUrl| <= MAX_AGENT_URL_BYTES
            && target.Ok? && target.value.normalizedIdentifier == c.normalizedIdentifier
  {
  }

  /** Every accepted candidate is fresh, covers what it must, and names a bounded key and a valid target. */
  lemma CandidateGuarantees(lib: ModuleLibrary, profile: Profile, request: RequestComponents, now: I64)
    requires CandidateOf(lib, profile, request, now).Ok?
    ensures var c := CandidateOf(lib, profile, request, now).value;
            var target := TargetOf(lib.url, c.signedUrl, c.discovery);
            && LabelOf(lib.fields, request.signatureInput) == Ok(c.verifier.name)
            && Vetted(profile, c.verifier, now)
            && c.verifier.keyId == Some(c.keyId) && 0 < |c.keyId| <= MAX_KEY_ID_BYTES
            && |c.signedUrl| <= MAX_AGENT_URL_BYTES
            && target.Ok? && target.value.normalizedIdentifier == c.normalizedIdentifier
  {
    var p := PairingOf(lib, profile, request).value;
    KeyIdGuarantees(profile, p, now);
    TargetGuarantees(lib.url, p, KeyIdOf(profile, p, now).value);
  }

  // When a candidate is accepted, and why it is refused.

  /** An agent item is a string, and its type the name of a discovery mechanism; without one, a directory. */
  lemma ParseAgentIff(item: Item, url: SfString, discovery: DiscoveryMechanism)
    ensures ParseAgent(item) == Ok((url, discovery)) <==>
            && item.bare == Text(url)
            && ("type" in item.params ==> item.params["type"] == Token(DiscoveryName(discovery)))
            && ("type" !in item.params ==> discovery.Directory?)
  {
  }

  /** The lifetime and the skew fit the arithmetic they are checked in. */
  predicate FitsClock(profile: Profile, verifier: ParsedSignature) {
    && profile.clockSkew <= 0x7fff_ffff_ffff_ffff
    && verifier.created.Some? && verifier.expires.Some?
    && verifier.expires.value - verifier.created.value <= 0x7fff_ffff_ffff_ffff
  }

  lemma KeyIdIff(profile: Profile, p: Paired, now: I64)
    requires BindsAgent(ComponentsOf(p.verifier.covered), p.agentKey, p.agent.form)
    ensures KeyIdOf(profile, p, now).Ok? <==>
            && Vetted(profile, p.verifier, now) && FitsClock(profile, p.verifier)
            && p.verifier.keyId.Some? && p.verifier.keyId.value != ""
  {
  }

  /**
   A request whose agent item and signature belong together is accepted exactly when its signature
   is fresh, of the profile's algorithm and covers what it must, its key id is there and not too long,
   and its agent item names an acceptable URL and a known discovery mechanism.
   */
  lemma AcceptedIff(lib: ModuleLibrary, profile: Profile, request: RequestComponents, now: I64)
    requires PairingOf(lib, profile, request).Ok?
    ensures var p := PairingOf(lib, profile, request).value;
            CandidateOf(lib, profile, request, now).Ok? <==>
            && Vetted(profile, p.verifier, now) && FitsClock(profile, p.verifier)
            && p.verifier.keyId.Some? && 0 < |p.verifier.keyId.value| <= 512
            && ParseAgent(p.agent.item).Ok?
            && FetchOf(lib.url, ParseAgent(p.agent.item).value.0, ParseAgent(p.agent.item).value.1).Ok?
  {
    var p := PairingOf(lib, profile, request).value;
    PairingBinds(lib, profile, request);
    KeyIdIff(profile, p, now);
    if KeyIdOf(profile, p, now).Ok? {
      KeyIdGuarantees(profile, p, now);
      WithTargetIff(lib.url, p, KeyIdOf(profile, p, now).value);
    }
  }

  lemma WithTargetIff(lib: UrlLibrary, p: Paired, keyId: SfString)
    ensures WithTarget(lib, p, keyId).Ok? <==>
            && |keyId| <= 512 && ParseAgent(p.agent.item).Ok?
            && FetchOf(lib, ParseAgent(p.agent.item).value.0, ParseAgent(p.agent.item).value.1).Ok?
  {
  }

  /** A signature that is not fresh is refused for that, if its algorithm is supported. */
  lemma StaleIsRefused(lib: ModuleLibrary, profile: Profile, request: RequestComponents, now: I64)
    requires PairingOf(lib, profile, request).Ok?
    requires var v := PairingOf(lib, profile, request).value.verifier;
             && (v.algorithm.None? || v.algorithm == Some(Text("ed25519")))
             && !(&& v.created.Some? && v.expires.Some?
                  && Fresh(v.created.value, v.expires.value, now, profile.maxLifetime, profile.clockSkew))
    ensures CandidateOf(lib, profile, request, now) == Err(InvalidFreshness)
  {
  }

  /** A fresh signature that does not cover what it must is refused for that. */
  lemma UncoveredIsRefused(lib: ModuleLibrary, profile: Profile, request: RequestComponents, now: I64)
    requires PairingOf(lib, profile, request).Ok?
    requires var v := PairingOf(lib, profile, request).value.verifier;
             && (v.algorithm.None? || v.algorithm == Some(Text("ed25519"))) && FitsClock(profile, v)
             && Fresh(v.created.value, v.expires.value, now, profile.maxLifetime, profile.clockSkew)
             && !(CoversTarget(ComponentsOf(v.covered)) && RecordsAll(ComponentsOf(v.covered), profile.required))
    ensures CandidateOf(lib, profile, request, now) == Err(MissingRequiredComponent)
  {
    PairingBinds(lib, profile, request);
  }

  /** A good signature whose agent URL is not acceptable is refused for that, or for its length. */
  lemma BadUrlIsRefused(lib: UrlLibrary, p: Paired, keyId: SfString)
    requires |keyId| <= 512 && ParseAgent(p.agent.item).Ok?
    requires FetchOf(lib, ParseAgent(p.agent.item).value.0, ParseAgent(p.agent.item).value.1).Err?
    ensures WithTarget(lib, p, keyId) ==
            Err(if |ParseAgent(p.agent.item).value.0| > 2048 then ProfileFieldTooLarge else InvalidDiscoveryUrl)
  {
    FetchIff(lib, ParseAgent(p.agent.item).value.0, ParseAgent(p.agent.item).value.1);
  }

  // When agent item and signature belong together.

  lemma {:induction false} FirstAgentFieldDecides(components: seq<Component>, i: nat)
    requires i < |components| && IsAgentField(components[i])
    requires forall j :: 0 <= j < i ==> !IsAgentField(components[j])
    ensures var ps, r := components[i].parameters, SignedAgentMemberKey(components);
            && (ps == [] ==> r == Ok(None))
            && (|ps| == 1 && ps[0].KeyOf? ==> r == Ok(Some(ps[0].key)))
            && (|ps| > 1 || (|ps| == 1 && !ps[0].KeyOf?) ==> r == Err(BadSyntax))
  {
    if i > 0 {
      FirstAgentFieldDecides(components[1..], i - 1);
    }
  }

  /** The value before which every value is a dictionary without an inner list of this name, and which has one. */
  ghost predicate FirstListed(lib: FieldLibrary, values: seq<string>, name: string, i: nat, items: seq<Item>) {
    && i < |values|
    && (forall j :: 0 <= j < i ==>
          ParseDictionary(lib.members, values[j]).Some? &&
          !IsList(Get(ParseDictionary(lib.members, values[j]).value, name)))
    && ParseDictionary(lib.members, values[i]).Some?
    && IsList(Get(ParseDictionary(lib.members, values[i]).value, name))
    && Get(ParseDictionary(lib.members, values[i]).value, name).value.items == items
  }

  predicate IsList(entry: Option<ListEntry>) {
    entry.Some? && entry.value.InnerList?
  }

  /** The first inner list of the label is the one whose covered agent key is expected. */
  lemma {:induction false} FirstListDecides(
    lib: FieldLibrary, values: seq<string>, name: string, i: nat, items: seq<Item>, components: seq<Component>)
    requires FirstListed(lib, values, name, i, items) && |items| == |components|
    requires forall k :: 0 <= k < |items| ==> lib.component(items[k]) == Some(components[k])
    ensures InputAgentKey(lib, values, name) == SignedAgentMemberKey(components)
  {
    if i > 0 {
      FirstListDecides(lib, values[1..], name, i - 1, items, components);
    } else {
      AgentKeysAgree(lib, items, components);
    }
  }

  /** Which item is selected, in either form. */
  lemma SelectedIff(
    lib: FieldLibrary, values: seq<string>, agentKey: Option<string>, acceptLegacy: bool, item: Item, form: AgentForm)
    ensures AgentOf(lib, values, agentKey, acceptLegacy) == Ok(SelectedAgent(item, form)) <==>
            match form
            case DictionaryForm =>
              && Combined(lib.members, values).Some? && agentKey.Some?
              && LastOf(Combined(lib.members, values).value, agentKey.value) == Some(Single(item))
            case LegacyItem =>
              && Combined(lib.members, values).None? && acceptLegacy && agentKey.None?
              && |values| == 1 && lib.item(values[0]) == Some(item)
  {
  }

  /**
   Agent item and signature belong together exactly when the field has one profile signature, the
   verifier parsed that one, and the agent key it covers is the one its list names and selects the item.
   */
  lemma PairedIff(
    lib: ModuleLibrary, profile: Profile, request: RequestComponents, agent: SelectedAgent, agentKey: Option<string>,
    verifier: ParsedSignature)
    ensures PairingOf(lib, profile, request) == Ok(Paired(agent, agentKey, verifier)) <==>
            && LabelOf(lib.fields, request.signatureInput) == Ok(verifier.name)
            && lib.verifier(request) == Some(verifier)
            && InputAgentKey(lib.fields, request.signatureInput, verifier.name) == Ok(agentKey)
            && SignedAgentMemberKey(ComponentsOf(verifier.covered)) == Ok(agentKey)
            && AgentOf(lib.fields, request.signatureAgent, agentKey, profile.acceptLegacy) == Ok(agent)
  {
  }
}
