/** The signed view of a request: bounded capture of its headers, and the values of its components. */
module Request {
  import opened Wrappers
  import opened Fields

  datatype RequestComponents = RequestComponents(
    verb: string, scheme: string, authority: string, path: string, query: string,
    signature: seq<string>, signatureInput: seq<string>, signatureAgent: seq<string>)

  datatype Derived = Method | Authority | Scheme | TargetUri | Path | Query | OtherDerived(name: string)

  datatype FieldParameter = KeyOf(key: string) | OtherParameter(name: string)

  /** What a signature can cover. */
  datatype Component =
    | DerivedComponent(derived: Derived, req: bool)
    | HttpField(name: string, parameters: seq<FieldParameter>)

  const METHOD := ":method"
  const AUTHORITY := ":authority"
  const PATH := ":path"
  const SCHEME := ":scheme"
  const SIGNATURE := "signature"
  const SIGNATURE_INPUT := "signature-input"
  const SIGNATURE_AGENT := "signature-agent"

  // Lookup of a covered component.

  /** Structured field functions that are foreign. */
  datatype FieldLibrary = FieldLibrary(
    members: string -> Option<seq<DictMember>>, item: string -> Option<Item>, serialize: Item -> string,
    component: Item -> Option<Component>)

  /** The last member with a key over all values of a field, in its canonical text. */
  function SelectedMember(lib: FieldLibrary, values: seq<string>, key: string): Option<string> {
    match Combined(lib.members, values)
    case None => None
    case Some(ms) =>
      match LastOf(ms, key)
      case Some(Single(item)) => Some(lib.serialize(item))
      case _ => None
  }

  method SelectDictionaryMember(lib: FieldLibrary, values: seq<string>, key: string) returns (r: Option<string>)
    ensures r == SelectedMember(lib, values, key)
  {
    var dictionary: Dictionary := [];
    for i := 0 to |values|
      invariant Combined(lib.members, values[..i]).Some?
      invariant dictionary == InsertAll([], Combined(lib.members, values[..i]).value)
    {
      assert values[..i + 1][..i] == values[..i];
      var members := lib.members(values[i]);
      if members.None? {
        CombinedNeedsAll(lib.members, values, i);
        return None;
      }
      InsertAllAppend([], Combined(lib.members, values[..i]).value, members.value);
      dictionary := InsertAll(dictionary, members.value);
    }
    assert values[..|values|] == values;
    GetInsertAll([], Combined(lib.members, values).value, key);
    match Get(dictionary, key)
    case Some(Single(item)) => r := Some(lib.serialize(item));
    case _ => r := None;
  }

  function LookupComponent(lib: FieldLibrary, r: RequestComponents, c: Component): seq<string> {
    match c
    case DerivedComponent(Method, false) => [r.verb]
    case DerivedComponent(Authority, false) => [r.authority]
    case DerivedComponent(Scheme, false) => [r.scheme]
    case DerivedComponent(TargetUri, false) => [r.scheme + "://" + r.authority + r.path + r.query]
    case DerivedComponent(Path, false) => [r.path]
    case DerivedComponent(Query, false) => [r.query]
    case DerivedComponent(_, _) => []
    case HttpField(name, parameters) =>
      if name == SIGNATURE_AGENT then
        if parameters == [] then r.signatureAgent
        else if |parameters| == 1 && parameters[0].KeyOf? then
          match SelectedMember(lib, r.signatureAgent, parameters[0].key)
          case Some(text) => [text]
          case None => []
        else []
      else if parameters == [] && name == SIGNATURE then r.signature
      else if parameters == [] && name == SIGNATURE_INPUT then r.signatureInput
      else []
  }

  // Capture.

  const MAX_VALUES := 16
  const MAX_VALUE_BYTES := 4096
  const MAX_FIELD_BYTES := 8192
  const MAX_TOTAL_BYTES := 16384

  datatype CaptureError =
    | MissingHeader(name: string)
    | InvalidUtf8(name: string)
    | NonAsciiHeader(name: string)
    | HeaderTooLarge(name: string)

  /** Header bytes are characters below 256; `utf8` says which byte strings are valid UTF-8. */
  type Utf8 = string -> bool

  type Headers = map<string, seq<string>>

  predicate IsAscii(s: string) {
    forall i :: 0 <= i < |s| ==> s[i] < 128 as char
  }

  function DecodeAscii(utf8: Utf8, value: string, name: string): Result<string, CaptureError> {
    if !utf8(value) then Err(InvalidUtf8(name))
    else if !IsAscii(value) then Err(NonAsciiHeader(name))
    else Ok(value)
  }

  /** Values copied so far and the bytes taken so far by all signature fields. */
  datatype Copy = Copy(values: seq<string>, total: nat)

  /** Copies values one after the other, given the bytes this field and all fields have taken. */
  function CopyRest(utf8: Utf8, name: string, values: seq<string>, field: nat, total: nat)
    : Result<Copy, CaptureError>
  {
    if values == [] then Ok(Copy([], total))
    else
      var n := |values[0]|;
      if field + n > MAX_FIELD_BYTES || total + n > MAX_TOTAL_BYTES || n > MAX_VALUE_BYTES then
        Err(HeaderTooLarge(name))
      else match DecodeAscii(utf8, values[0], name)
        case Err(error) => Err(error)
        case Ok(value) => Prefixed([value], CopyRest(utf8, name, values[1..], field + n, total + n))
  }

  function Prefixed(values: seq<string>, r: Result<Copy, CaptureError>): Result<Copy, CaptureError> {
    match r
    case Ok(copy) => Ok(copy.(values := values + copy.values))
    case Err(error) => Err(error)
  }

  function CopyOf(utf8: Utf8, name: string, values: seq<string>, total: nat): Result<Copy, CaptureError> {
    if |values| > MAX_VALUES then Err(HeaderTooLarge(name)) else CopyRest(utf8, name, values, 0, total)
  }

  method CopyAsciiHeaderValues(utf8: Utf8, values: seq<string>, name: string, total: nat)
    returns (r: Result<Copy, CaptureError>)
    ensures r == CopyOf(utf8, name, values, total)
  {
    if |values| > MAX_VALUES {
      return Err(HeaderTooLarge(name));
    }
    var fieldBytes: nat, totalBytes: nat := 0, total;
    var copied: seq<string> := [];
    assert values[0..] == values;
    ghost var all := CopyRest(utf8, name, values, 0, total);
    assert all.Ok? ==> copied + all.value.values == all.value.values;
    for i := 0 to |values|
      invariant all == Prefixed(copied, CopyRest(utf8, name, values[i..], fieldBytes, totalBytes))
    {
      assert values[i..][1..] == values[i + 1..];
      fieldBytes := fieldBytes + |values[i]|;
      if fieldBytes > MAX_FIELD_BYTES {
        return Err(HeaderTooLarge(name));
      }
      totalBytes := totalBytes + |values[i]|;
      if totalBytes > MAX_TOTAL_BYTES {
        return Err(HeaderTooLarge(name));
      }
      if |values[i]| > MAX_VALUE_BYTES {
        return Err(HeaderTooLarge(name));
      }
      var value := DecodeAscii(utf8, values[i], name);
      if value.Err? {
        return Err(value.error);
      }
      ghost var rest := CopyRest(utf8, name, values[i + 1..], fieldBytes, totalBytes);
      assert rest.Ok? ==> copied + ([value.value] + rest.value.values) == copied + [value.value] + rest.value.values;
      copied := copied + [value.value];
    }
    assert copied + [] == copied;
    r := Ok(Copy(copied, totalBytes));
  }

  function Size(values: seq<string>): nat {
    if values == [] then 0 else |values[0]| + Size(values[1..])
  }

  predicate Copyable(utf8: Utf8, values: seq<string>) {
    forall i :: 0 <= i < |values| ==> |values[i]| <= MAX_VALUE_BYTES && utf8(values[i]) && IsAscii(values[i])
  }

  /**
   Copying succeeds exactly when every value is small ASCII text and the sizes of the field and of
   all fields so far stay within their limits; then it changes no value and counts every byte.
   */
  lemma {:induction false} CopyRestExact(utf8: Utf8, name: string, values: seq<string>, field: nat, total: nat)
    requires field <= MAX_FIELD_BYTES && total <= MAX_TOTAL_BYTES
    ensures var r := CopyRest(utf8, name, values, field, total);
            && (r.Ok? <==> Copyable(utf8, values) && field + Size(values) <= MAX_FIELD_BYTES
                                                  && total + Size(values) <= MAX_TOTAL_BYTES)
            && (r.Ok? ==> r.value == Copy(values, total + Size(values)))
    decreases |values|
  {
    if values != [] {
      var n := |values[0]|;
      var fits := field + n <= MAX_FIELD_BYTES && total + n <= MAX_TOTAL_BYTES && n <= MAX_VALUE_BYTES;
      assert Copyable(utf8, values) ==> n <= MAX_VALUE_BYTES && utf8(values[0]) && IsAscii(values[0]);
      if fits && DecodeAscii(utf8, values[0], name).Ok? {
        CopyRestExact(utf8, name, values[1..], field + n, total + n);
        assert [values[0]] + values[1..] == values;
        assert Copyable(utf8, values) <==> Copyable(utf8, values[1..]) by {
          if Copyable(utf8, values[1..]) {
            forall i | 0 <= i < |values|
              ensures |values[i]| <= MAX_VALUE_BYTES && utf8(values[i]) && IsAscii(values[i])
            {
              assert i > 0 ==> values[i] == values[1..][i - 1];
            }
          }
        }
      }
    }
  }

  // Pseudo headers.

  function FirstQuestionMark(s: string): (i: nat)
    ensures i <= |s| && (i < |s| ==> s[i] == '?')
    ensures forall j :: 0 <= j < i ==> s[j] != '?'
  {
    if s == "" || s[0] == '?' then 0 else 1 + FirstQuestionMark(s[1..])
  }

  predicate IsBlank(c: char) {
    c == ' ' || c == '\t' || c == '\n' || c == '\r' || c as int == 12
  }

  function TrimStart(s: string): string {
    if s != "" && IsBlank(s[0]) then TrimStart(s[1..]) else s
  }

  function TrimEnd(s: string): string {
    if s != "" && IsBlank(s[|s| - 1]) then TrimEnd(s[..|s| - 1]) else s
  }

  function LowerChar(c: char): char {
    if 'A' <= c <= 'Z' then (c as int + 32) as char else c
  }

  function Lower(s: string): string {
    seq(|s|, i requires 0 <= i < |s| => LowerChar(s[i]))
  }

  function FromPseudoHeaders(verb: string, authority: string, rawPath: string): RequestComponents {
    var i := FirstQuestionMark(rawPath);
    RequestComponents(verb, "https", TrimEnd(TrimStart(authority)), rawPath[..i], rawPath[i..], [], [], [])
  }

  // Everything together.

  function ValuesOf(headers: Headers, name: string): seq<string> {
    if name in headers then headers[name] else []
  }

  function AsciiHeader(utf8: Utf8, headers: Headers, name: string): Result<string, CaptureError> {
    if ValuesOf(headers, name) == [] then Err(MissingHeader(name))
    else DecodeAscii(utf8, ValuesOf(headers, name)[0], name)
  }

  function CopyField(utf8: Utf8, headers: Headers, name: string, total: nat): Result<Copy, CaptureError> {
    if ValuesOf(headers, name) == [] then Err(MissingHeader(name))
    else CopyOf(utf8, name, ValuesOf(headers, name), total)
  }

  /** What capturing a request answers. */
  function Captured(utf8: Utf8, headers: Headers): Result<RequestComponents, CaptureError> {
    var verb := AsciiHeader(utf8, headers, METHOD);
    if verb.Err? then Err(verb.error) else
    var authority := AsciiHeader(utf8, headers, AUTHORITY);
    if authority.Err? then Err(authority.error) else
    var scheme := AsciiHeader(utf8, headers, SCHEME);
    if scheme.Err? then Err(scheme.error) else
    var rawPath := AsciiHeader(utf8, headers, PATH);
    if rawPath.Err? then Err(rawPath.error) else
    var signature := CopyField(utf8, headers, SIGNATURE, 0);
    if signature.Err? then Err(signature.error) else
    var input := CopyField(utf8, headers, SIGNATURE_INPUT, signature.value.total);
    if input.Err? then Err(input.error) else
    var agent := CopyField(utf8, headers, SIGNATURE_AGENT, input.value.total);
    if agent.Err? then Err(agent.error) else
    Ok(FromPseudoHeaders(verb.value, authority.value, rawPath.value).(
         scheme := Lower(scheme.value), signature := signature.value.values,
         signatureInput := input.value.values, signatureAgent := agent.value.values))
  }

  method CaptureField(utf8: Utf8, headers: Headers, name: string, total: nat) returns (r: Result<Copy, CaptureError>)
    ensures r == CopyField(utf8, headers, name, total)
  {
    if ValuesOf(headers, name) == [] {
      return Err(MissingHeader(name));
    }
    r := CopyAsciiHeaderValues(utf8, ValuesOf(headers, name), name, total);
  }

  method TryFromEnvoy(utf8: Utf8, headers: Headers) returns (r: Result<RequestComponents, CaptureError>)
    ensures r == Captured(utf8, headers)
  {
    var verb := AsciiHeader(utf8, headers, METHOD);
    if verb.Err? { return Err(verb.error); }
    var authority := AsciiHeader(utf8, headers, AUTHORITY);
    if authority.Err? { return Err(authority.error); }
    var scheme := AsciiHeader(utf8, headers, SCHEME);
    if scheme.Err? { return Err(scheme.error); }
    var rawPath := AsciiHeader(utf8, headers, PATH);
    if rawPath.Err? { return Err(rawPath.error); }
    var signature := CaptureField(utf8, headers, SIGNATURE, 0);
    if signature.Err? { return Err(signature.error); }
    var input := CaptureField(utf8, headers, SIGNATURE_INPUT, signature.value.total);
    if input.Err? { return Err(input.error); }
    var agent := CaptureField(utf8, headers, SIGNATURE_AGENT, input.value.total);
    if agent.Err? { return Err(agent.error); }
    var request := FromPseudoHeaders(verb.value, authority.value, rawPath.value);
    request := request.(signature := signature.value.values, signatureInput := input.value.values,
                        signatureAgent := agent.value.values);
    r := Ok(request.(scheme := Lower(scheme.value)));
  }

  lemma CopyFieldExact(utf8: Utf8, headers: Headers, name: string, total: nat)
    requires CopyField(utf8, headers, name, total).Ok? && total <= MAX_TOTAL_BYTES
    ensures CopyField(utf8, headers, name, total).value
         == Copy(ValuesOf(headers, name), total + Size(ValuesOf(headers, name)))
    ensures total + Size(ValuesOf(headers, name)) <= MAX_TOTAL_BYTES
  {
    CopyRestExact(utf8, name, ValuesOf(headers, name), 0, total);
  }

  lemma FieldsExact(utf8: Utf8, headers: Headers)
    requires Captured(utf8, headers).Ok?
    ensures var r := Captured(utf8, headers).value;
            && r.signature == ValuesOf(headers, SIGNATURE)
            && r.signatureInput == ValuesOf(headers, SIGNATURE_INPUT)
            && r.signatureAgent == ValuesOf(headers, SIGNATURE_AGENT)
            && Size(r.signature) + Size(r.signatureInput) + Size(r.signatureAgent) <= MAX_TOTAL_BYTES
  {
    CopyFieldExact(utf8, headers, SIGNATURE, 0);
    var total := Size(ValuesOf(headers, SIGNATURE));
    CopyFieldExact(utf8, headers, SIGNATURE_INPUT, total);
    CopyFieldExact(utf8, headers, SIGNATURE_AGENT, total + Size(ValuesOf(headers, SIGNATURE_INPUT)));
  }

  /** Path and query are the raw path, cut before the first question mark. */
  predicate CutAtQuery(r: RequestComponents, rawPath: string) {
    r.path + r.query == rawPath && '?' !in r.path && (r.query == "" || r.query[0] == '?')
  }

  lemma PathExact(verb: string, authority: string, rawPath: string)
    ensures CutAtQuery(FromPseudoHeaders(verb, authority, rawPath), rawPath)
  {
    var i := FirstQuestionMark(rawPath);
    assert rawPath[..i] + rawPath[i..] == rawPath;
  }

  /**
   A captured request holds exactly the signature fields received, at most 16 KiB of them, and its
   path and query are the raw path, cut before the first question mark.
   */
  lemma CaptureExact(utf8: Utf8, headers: Headers)
    requires Captured(utf8, headers).Ok?
    ensures var r := Captured(utf8, headers).value;
            && r.signature == ValuesOf(headers, SIGNATURE)
            && r.signatureInput == ValuesOf(headers, SIGNATURE_INPUT)
            && r.signatureAgent == ValuesOf(headers, SIGNATURE_AGENT)
            && Size(r.signature) + Size(r.signatureInput) + Size(r.signatureAgent) <= MAX_TOTAL_BYTES
            && ValuesOf(headers, PATH) != [] && CutAtQuery(r, ValuesOf(headers, PATH)[0])
  {
    FieldsExact(utf8, headers);
    PathExact(ValuesOf(headers, METHOD)[0], ValuesOf(headers, AUTHORITY)[0], ValuesOf(headers, PATH)[0]);
  }

  // What is signed, in terms of the headers received.

  lemma {:induction false} TrimStartExact(s: string) returns (n: nat)
    ensures n <= |s| && TrimStart(s) == s[n..] && forall i :: 0 <= i < n ==> IsBlank(s[i])
    ensures TrimStart(s) == "" || !IsBlank(TrimStart(s)[0])
  {
    if s != "" && IsBlank(s[0]) {
      n := TrimStartExact(s[1..]);
      n := n + 1;
    } else {
      n := 0;
    }
  }

  lemma {:induction false} TrimEndExact(s: string) returns (n: nat)
    ensures n <= |s| && TrimEnd(s) == s[..n] && forall i :: n <= i < |s| ==> IsBlank(s[i])
    ensures TrimEnd(s) == "" || !IsBlank(TrimEnd(s)[|TrimEnd(s)| - 1])
  {
    if s != "" && IsBlank(s[|s| - 1]) {
      n := TrimEndExact(s[..|s| - 1]);
    } else {
      n := |s|;
    }
  }

  /** A text without the blanks around another: nothing but blanks is cut off, and all of them are. */
  ghost predicate Trims(whole: string, part: string) {
    && (exists n, m :: 0 <= n <= m <= |whole| && part == whole[n..m]
          && (forall i :: 0 <= i < n ==> IsBlank(whole[i])) && (forall i :: m <= i < |whole| ==> IsBlank(whole[i])))
    && (part == "" || (!IsBlank(part[0]) && !IsBlank(part[|part| - 1])))
  }

  lemma TrimExact(s: string)
    ensures Trims(s, TrimEnd(TrimStart(s)))
  {
    var n := TrimStartExact(s);
    var m := TrimEndExact(s[n..]);
    assert s[n..][..m] == s[n..n + m];
    forall i | n + m <= i < |s| ensures IsBlank(s[i]) {
      assert s[i] == s[n..][i - n];
    }
  }

  /** Letter by letter the lower-case form. */
  predicate Lowers(whole: string, lower: string) {
    && |lower| == |whole|
    && forall i :: 0 <= i < |whole| ==>
         lower[i] == if 65 <= whole[i] as int <= 90 then (whole[i] as int + 32) as char else whole[i]
  }

  function FirstValue(headers: Headers, name: string): string {
    if ValuesOf(headers, name) == [] then "" else ValuesOf(headers, name)[0]
  }

  lemma PseudoExact(utf8: Utf8, headers: Headers)
    requires Captured(utf8, headers).Ok?
    ensures var r := Captured(utf8, headers).value;
            && r.verb == FirstValue(headers, ":method")
            && Trims(FirstValue(headers, ":authority"), r.authority)
            && Lowers(FirstValue(headers, ":scheme"), r.scheme)
            && CutAtQuery(r, FirstValue(headers, ":path"))
  {
    CaptureExact(utf8, headers);
    TrimExact(ValuesOf(headers, AUTHORITY)[0]);
    SchemeExact(ValuesOf(headers, SCHEME)[0]);
  }

  lemma LookupDerived(lib: FieldLibrary, r: RequestComponents, rawPath: string)
    requires CutAtQuery(r, rawPath)
    ensures LookupComponent(lib, r, DerivedComponent(Method, false)) == [r.verb]
    ensures LookupComponent(lib, r, DerivedComponent(Authority, false)) == [r.authority]
    ensures LookupComponent(lib, r, DerivedComponent(Scheme, false)) == [r.scheme]
    ensures LookupComponent(lib, r, DerivedComponent(Path, false)) == [r.path]
    ensures LookupComponent(lib, r, DerivedComponent(Query, false)) == [r.query]
    ensures LookupComponent(lib, r, DerivedComponent(TargetUri, false)) == [r.scheme + "://" + r.authority + rawPath]
  {
    assert r.scheme + "://" + r.authority + r.path + r.query == r.scheme + "://" + r.authority + (r.path + r.query);
  }

  /**
   The values a signature over a captured request covers: the method as received, the authority
   without blanks around it, the scheme in lower case, path and query as the raw path cut before its
   first question mark, the target as all of them together, and the signature fields as received.
   */
  lemma SignedValues(lib: FieldLibrary, utf8: Utf8, headers: Headers)
    requires Captured(utf8, headers).Ok?
    ensures var r := Captured(utf8, headers).value;
            && Trims(FirstValue(headers, ":authority"), r.authority)
            && Lowers(FirstValue(headers, ":scheme"), r.scheme)
            && CutAtQuery(r, FirstValue(headers, ":path"))
            && LookupComponent(lib, r, DerivedComponent(Method, false)) == [FirstValue(headers, ":method")]
            && LookupComponent(lib, r, DerivedComponent(Authority, false)) == [r.authority]
            && LookupComponent(lib, r, DerivedComponent(Scheme, false)) == [r.scheme]
            && LookupComponent(lib, r, DerivedComponent(Path, false)) == [r.path]
            && LookupComponent(lib, r, DerivedComponent(Query, false)) == [r.query]
            && LookupComponent(lib, r, DerivedComponent(TargetUri, false)) ==
               [r.scheme + "://" + r.authority + FirstValue(headers, ":path")]
    ensures var r := Captured(utf8, headers).value;
            && LookupComponent(lib, r, HttpField("signature", [])) == ValuesOf(headers, "signature")
            && LookupComponent(lib, r, HttpField("signature-input", [])) == ValuesOf(headers, "signature-input")
            && LookupComponent(lib, r, HttpField("signature-agent", [])) == ValuesOf(headers, "signature-agent")
  {
    CaptureExact(utf8, headers);
    PseudoExact(utf8, headers);
    LookupDerived(lib, Captured(utf8, headers).value, FirstValue(headers, ":path"));
  }

  lemma SchemeExact(s: string)
    ensures Lowers(s, Lower(s))
  {
  }

  /** A header that is there and whose first value is ASCII text. */
  predicate AsciiFirst(utf8: Utf8, headers: Headers, name: string) {
    var values := ValuesOf(headers, name);
    values != [] && utf8(values[0]) && forall i :: 0 <= i < |values[0]| ==> values[0][i] as int < 128
  }

  /** A signature field that is there, within its limits. */
  ghost predicate FieldFits(utf8: Utf8, values: seq<string>) {
    1 <= |values| <= 16 && Copyable(utf8, values) && Size(values) <= 8192
  }

  lemma CopyFieldIff(utf8: Utf8, headers: Headers, name: string, total: nat)
    requires total <= MAX_TOTAL_BYTES
    ensures CopyField(utf8, headers, name, total).Ok? <==>
            FieldFits(utf8, ValuesOf(headers, name)) && total + Size(ValuesOf(headers, name)) <= 16384
  {
    CopyRestExact(utf8, name, ValuesOf(headers, name), 0, total);
  }

  lemma SignatureFieldsIff(utf8: Utf8, headers: Headers)
    ensures var a := CopyField(utf8, headers, SIGNATURE, 0);
            var b := if a.Ok? then CopyField(utf8, headers, SIGNATURE_INPUT, a.value.total) else Err(MissingHeader(""));
            var c := if b.Ok? then CopyField(utf8, headers, SIGNATURE_AGENT, b.value.total) else Err(MissingHeader(""));
            c.Ok? <==>
            && FieldFits(utf8, ValuesOf(headers, "signature"))
            && FieldFits(utf8, ValuesOf(headers, "signature-input"))
            && FieldFits(utf8, ValuesOf(headers, "signature-agent"))
            && Size(ValuesOf(headers, "signature")) + Size(ValuesOf(headers, "signature-input"))
               + Size(ValuesOf(headers, "signature-agent")) <= 16384
  {
    CopyFieldIff(utf8, headers, SIGNATURE, 0);
    if CopyField(utf8, headers, SIGNATURE, 0).Ok? {
      CopyFieldExact(utf8, headers, SIGNATURE, 0);
      var n := Size(ValuesOf(headers, SIGNATURE));
      CopyFieldIff(utf8, headers, SIGNATURE_INPUT, n);
      if CopyField(utf8, headers, SIGNATURE_INPUT, n).Ok? {
        CopyFieldExact(utf8, headers, SIGNATURE_INPUT, n);
        CopyFieldIff(utf8, headers, SIGNATURE_AGENT, n + Size(ValuesOf(headers, SIGNATURE_INPUT)));
      }
    }
  }

  /**
   A request is captured exactly when its four pseudo headers are ASCII text and its three signature
   fields are there with at most sixteen values each, small ASCII texts, 8 KiB a field and 16 KiB in all.
   */
  lemma CapturedIff(utf8: Utf8, headers: Headers)
    ensures Captured(utf8, headers).Ok? <==>
            && AsciiFirst(utf8, headers, ":method") && AsciiFirst(utf8, headers, ":authority")
            && AsciiFirst(utf8, headers, ":scheme") && AsciiFirst(utf8, headers, ":path")
            && FieldFits(utf8, ValuesOf(headers, "signature"))
            && FieldFits(utf8, ValuesOf(headers, "signature-input"))
            && FieldFits(utf8, ValuesOf(headers, "signature-agent"))
            && Size(ValuesOf(headers, "signature")) + Size(ValuesOf(headers, "signature-input"))
               + Size(ValuesOf(headers, "signature-agent")) <= 16384
  {
    SignatureFieldsIff(utf8, headers);
    AsciiHeaderIff(utf8, headers, METHOD);
    AsciiHeaderIff(utf8, headers, AUTHORITY);
    AsciiHeaderIff(utf8, headers, SCHEME);
    AsciiHeaderIff(utf8, headers, PATH);
  }

  lemma AsciiHeaderIff(utf8: Utf8, headers: Headers, name: string)
    ensures AsciiHeader(utf8, headers, name).Ok? <==> AsciiFirst(utf8, headers, name)
  {
  }
}
