/**
 The contract between module and resolver: request and response, and the JSON text of a request.
 A text is a sequence of characters; every character the module sends is printable ASCII, one byte.
 */
module Wire {
  import opened Wrappers
  import opened Discovery
  import opened Resource
  import opened PercentEncoding

  const MAX_KEY_ID_BYTES := 512
  const MAX_RESOLVE_BODY_BYTES := 8192

  datatype ResolveRequest = ResolveRequest(discovery: DiscoveryMechanism, agentUrl: string, keyId: string)

  datatype ResolveResponse =
    | Resolved(normalizedIdentifier: string, jwk: Jwk)
    | KeyNotFound(normalizedIdentifier: string)

  predicate Printable(s: string) {
    forall i :: 0 <= i < |s| ==> ' ' <= s[i] <= '~'
  }

  // Encoding.

  const QUOTE: char := '\"'
  const BACKSLASH: char := '\\'

  /** One character inside a JSON string literal, as the serializer writes it. */
  function EscapeChar(c: char): string {
    if c == QUOTE || c == BACKSLASH then [BACKSLASH, c]
    else if c as int == 8 then [BACKSLASH, 'b']
    else if c == '\t' then [BACKSLASH, 't']
    else if c == '\n' then [BACKSLASH, 'n']
    else if c as int == 12 then [BACKSLASH, 'f']
    else if c == '\r' then [BACKSLASH, 'r']
    else if c < ' ' then [BACKSLASH, 'u', '0', '0', LowerHex(c as int / 16), LowerHex(c as int % 16)]
    else [c]
  }

  function LowerHex(n: int): (c: char)
    requires 0 <= n < 16
    ensures HexValue(c) == Some(n)
  {
    if n < 10 then '0' + n as char else 'a' + (n - 10) as char
  }

  function Escape(s: string): string {
    if s == "" then "" else EscapeChar(s[0]) + Escape(s[1..])
  }

  function Literal(s: string): string {
    [QUOTE] + Escape(s) + [QUOTE]
  }

  function DiscoveryName(d: DiscoveryMechanism): string {
    match d
    case Directory => "directory"
    case JwksUri => "jwks_uri"
    case Cimd => "cimd"
  }

  datatype Member = Member(name: string, value: string)

  function MemberText(m: Member): string {
    Literal(m.name) + [':'] + Literal(m.value)
  }

  /** The members of an object and its closing brace. */
  function Members(ms: seq<Member>): string
    requires ms != []
  {
    MemberText(ms[0]) + (if |ms| == 1 then ['}'] else [','] + Members(ms[1..]))
  }

  function RequestMembers(r: ResolveRequest): seq<Member> {
    [Member("api_version", "v1"), Member("discovery", DiscoveryName(r.discovery)),
     Member("agent_url", r.agentUrl), Member("key_id", r.keyId)]
  }

  function Encode(r: ResolveRequest): string {
    ['{'] + Members(RequestMembers(r))
  }

  // Decoding. The reader takes string members without white space, in any order.

  datatype Read<T> = Read(value: T, rest: string)

  /** The character an escape sequence stands for, and the sequence's length. */
  function ReadEscape(s: string): (r: Option<(char, nat)>)
    requires s != "" && s[0] == BACKSLASH
    ensures r.Some? ==> 2 <= r.value.1 <= |s|
  {
    if |s| < 2 then None
    else if s[1] == QUOTE || s[1] == BACKSLASH || s[1] == '/' then Some((s[1], 2))
    else if s[1] == 'b' then Some((8 as char, 2))
    else if s[1] == 't' then Some(('\t', 2))
    else if s[1] == 'n' then Some(('\n', 2))
    else if s[1] == 'f' then Some((12 as char, 2))
    else if s[1] == 'r' then Some(('\r', 2))
    else if s[1] == 'u' && |s| >= 6 && s[2] == '0' && s[3] == '0' && IsHex(s[4]) && IsHex(s[5])
    then Some(((16 * HexValue(s[4]).value + HexValue(s[5]).value) as char, 6))
    else None
  }

  /** Reads the inside of a string literal up to its closing quote. */
  function ReadInside(s: string): (r: Option<Read<string>>)
    ensures r.Some? ==> |r.value.rest| < |s|
    decreases |s|
  {
    if s == "" || s[0] < ' ' then None
    else if s[0] == QUOTE then Some(Read("", s[1..]))
    else if s[0] != BACKSLASH then Prepend(s[0], ReadInside(s[1..]))
    else match ReadEscape(s)
      case None => None
      case Some((c, n)) => Prepend(c, ReadInside(s[n..]))
  }

  function Prepend(c: char, r: Option<Read<string>>): Option<Read<string>> {
    match r
    case None => None
    case Some(Read(value, rest)) => Some(Read([c] + value, rest))
  }

  function ReadLiteral(s: string): (r: Option<Read<string>>)
    ensures r.Some? ==> |r.value.rest| < |s|
  {
    if s == "" || s[0] != QUOTE then None else ReadInside(s[1..])
  }

  function ReadMember(s: string): (r: Option<Read<Member>>)
    ensures r.Some? ==> |r.value.rest| < |s|
  {
    match ReadLiteral(s)
    case None => None
    case Some(Read(name, rest)) =>
      if rest == "" || rest[0] != ':' then None
      else match ReadLiteral(rest[1..])
        case None => None
        case Some(Read(value, rest')) => Some(Read(Member(name, value), rest'))
  }

  function ReadMembers(s: string): Option<seq<Member>>
    decreases |s|
  {
    match ReadMember(s)
    case None => None
    case Some(Read(m, rest)) =>
      if rest == ['}'] then Some([m])
      else if rest == "" || rest[0] != ',' then None
      else match ReadMembers(rest[1..])
        case None => None
        case Some(ms) => Some([m] + ms)
  }

  function ValueOf(ms: seq<Member>, name: string): Option<string> {
    if ms == [] then None
    else if ms[0].name == name then Some(ms[0].value)
    else ValueOf(ms[1..], name)
  }

  function NamedDiscovery(name: string): Option<DiscoveryMechanism> {
    if name == "directory" then Some(Directory)
    else if name == "jwks_uri" then Some(JwksUri)
    else if name == "cimd" then Some(Cimd)
    else None
  }

  /** A request needs its four members, each once, and nothing else. */
  function FromMembers(ms: seq<Member>): Option<ResolveRequest> {
    var version, discovery := ValueOf(ms, "api_version"), ValueOf(ms, "discovery");
    var url, keyId := ValueOf(ms, "agent_url"), ValueOf(ms, "key_id");
    if |ms| != 4 || version != Some("v1") || discovery.None? || url.None? || keyId.None? then None
    else match NamedDiscovery(discovery.value)
      case None => None
      case Some(d) => Some(ResolveRequest(d, url.value, keyId.value))
  }

  function Decode(text: string): Option<ResolveRequest> {
    if text == "" || text[0] != '{' then None
    else match ReadMembers(text[1..])
      case None => None
      case Some(ms) => FromMembers(ms)
  }

  // The reader undoes the encoder.

  lemma EscapeCharRead(c: char, rest: string)
    ensures ReadInside(EscapeChar(c) + rest) == Prepend(c, ReadInside(rest))
  {
    var e := EscapeChar(c);
    var s := e + rest;
    assert s[|e|..] == rest;
    if e[0] == BACKSLASH {
      assert ReadEscape(s) == Some((c, |e|)) by {
        if c < ' ' && |e| == 6 {
          assert s[4] == e[4] && s[5] == e[5];
        } else {
          assert s[1] == e[1];
        }
      }
    }
  }

  lemma {:induction false} EscapeRead(s: string, rest: string)
    ensures ReadInside(Escape(s) + [QUOTE] + rest) == Some(Read(s, rest))
  {
    if s == "" {
      assert Escape(s) + [QUOTE] + rest == [QUOTE] + rest;
    } else {
      EscapeRead(s[1..], rest);
      EscapeCharRead(s[0], Escape(s[1..]) + [QUOTE] + rest);
      assert Escape(s) + [QUOTE] + rest == EscapeChar(s[0]) + (Escape(s[1..]) + [QUOTE] + rest);
      assert [s[0]] + s[1..] == s;
    }
  }

  lemma LiteralRead(s: string, rest: string)
    ensures ReadLiteral(Literal(s) + rest) == Some(Read(s, rest))
  {
    EscapeRead(s, rest);
    assert (Literal(s) + rest)[1..] == Escape(s) + [QUOTE] + rest;
  }

  lemma ReadsPair(text: string, name: string, tail: string, value: string, rest: string)
    requires ReadLiteral(text) == Some(Read(name, [':'] + tail))
    requires ReadLiteral(tail) == Some(Read(value, rest))
    ensures ReadMember(text) == Some(Read(Member(name, value), rest))
  {
    assert ([':'] + tail)[1..] == tail;
  }

  lemma Nest(a: string, b: string, c: string, d: string)
    ensures a + b + c + d == a + (b + (c + d))
  {
  }

  lemma MemberRead(m: Member, rest: string)
    ensures ReadMember(MemberText(m) + rest) == Some(Read(m, rest))
  {
    var tail := Literal(m.value) + rest;
    LiteralRead(m.value, rest);
    LiteralRead(m.name, [':'] + tail);
    ReadsPair(Literal(m.name) + ([':'] + tail), m.name, tail, m.value, rest);
    Nest(Literal(m.name), [':'], Literal(m.value), rest);
  }

  lemma FirstAndRest(ms: seq<Member>)
    requires ms != []
    ensures |ms| == 1 ==> ms == [ms[0]]
    ensures ms == [ms[0]] + ms[1..]
  {
  }

  lemma {:induction false} MembersRead(ms: seq<Member>, text: string)
    requires ms != [] && text == Members(ms)
    ensures ReadMembers(text) == Some(ms)
    decreases |ms|
  {
    FirstAndRest(ms);
    if |ms| == 1 {
      LastMemberRead(ms[0], text);
    } else {
      MembersRead(ms[1..], Members(ms[1..]));
      MoreMembersRead(ms[0], ms[1..], Members(ms[1..]), text);
    }
  }

  lemma LastMemberRead(m: Member, text: string)
    requires text == MemberText(m) + ['}']
    ensures ReadMembers(text) == Some([m])
  {
    MemberRead(m, ['}']);
    ReadsLast(m, MemberText(m));
  }

  lemma MoreMembersRead(m: Member, ms: seq<Member>, more: string, text: string)
    requires more != "" && ReadMembers(more) == Some(ms) && text == MemberText(m) + ([','] + more)
    ensures ReadMembers(text) == Some([m] + ms)
  {
    MemberRead(m, [','] + more);
    ReadsMore(m, ms, MemberText(m), more);
  }

  lemma ReadsLast(m: Member, first: string)
    requires ReadMember(first + ['}']) == Some(Read(m, ['}']))
    ensures ReadMembers(first + ['}']) == Some([m])
  {
  }

  lemma ReadsMore(m: Member, ms: seq<Member>, first: string, more: string)
    requires ReadMember(first + ([','] + more)) == Some(Read(m, [','] + more)) && more != ""
    requires ReadMembers(more) == Some(ms)
    ensures ReadMembers(first + ([','] + more)) == Some([m] + ms)
  {
    assert ([','] + more)[1..] == more;
  }

  /** The request read is the request sent, for every request. */
  lemma RequestRoundTrip(r: ResolveRequest)
    ensures Decode(Encode(r)) == Some(r)
  {
    var ms := RequestMembers(r);
    MembersRead(ms, Members(ms));
    RequestFound(r);
    DecodesMembers(Members(ms), ms);
  }

  lemma DecodesMembers(text: string, ms: seq<Member>)
    requires ReadMembers(text) == Some(ms)
    ensures Decode(['{'] + text) == FromMembers(ms)
  {
    assert (['{'] + text)[1..] == text;
  }

  lemma RequestFound(r: ResolveRequest)
    ensures FromMembers(RequestMembers(r)) == Some(r)
  {
    var ms := RequestMembers(r);
    FindsMembers(ms[0], ms[1], ms[2], ms[3]);
    assert NamedDiscovery(DiscoveryName(r.discovery)) == Some(r.discovery);
  }

  lemma FindsMembers(a: Member, b: Member, c: Member, d: Member)
    requires a.name != b.name && a.name != c.name && b.name != c.name
    requires a.name != d.name && b.name != d.name && c.name != d.name
    ensures ValueOf([a, b, c, d], a.name) == Some(a.value)
    ensures ValueOf([a, b, c, d], b.name) == Some(b.value)
    ensures ValueOf([a, b, c, d], c.name) == Some(c.value)
    ensures ValueOf([a, b, c, d], d.name) == Some(d.value)
  {
    assert [a, b, c, d][1..] == [b, c, d];
    assert [b, c, d][1..] == [c, d];
    assert [c, d][1..] == [d];
    assert ValueOf([b, c, d], c.name) == ValueOf([c, d], c.name) == Some(c.value);
    assert ValueOf([b, c, d], d.name) == ValueOf([c, d], d.name) == ValueOf([d], d.name) == Some(d.value);
  }

  // Size.

  lemma {:induction false} EscapeBound(s: string)
    requires Printable(s)
    ensures |Escape(s)| <= 2 * |s|
  {
    if s != "" {
      EscapeBound(s[1..]);
    }
  }

  lemma MembersBound(ms: seq<Member>)
    requires ms != [] && Printable(ms[0].name) && Printable(ms[0].value)
    ensures |Members(ms)| <= 6 + 2 * |ms[0].name| + 2 * |ms[0].value| + (if |ms| == 1 then 0 else |Members(ms[1..])|)
  {
    EscapeBound(ms[0].name);
    EscapeBound(ms[0].value);
  }

  /** Four printable members that need not much more than three thousand characters. */
  predicate Small(ms: seq<Member>) {
    && |ms| == 4
    && (forall m :: m in ms ==> Printable(m.name) && Printable(m.value))
    && |ms[0].name| + |ms[0].value| + |ms[1].name| + |ms[1].value|
       + |ms[2].name| + |ms[2].value| + |ms[3].name| + |ms[3].value| <= 3000
  }

  lemma SmallFits(ms: seq<Member>)
    requires Small(ms)
    ensures |Members(ms)| + 1 < MAX_RESOLVE_BODY_BYTES
  {
    MembersBound(ms);
    MembersBound(ms[1..]);
    MembersBound(ms[2..]);
    MembersBound(ms[3..]);
    assert ms[1..][1..] == ms[2..] && ms[2..][1..] == ms[3..];
  }

  lemma NamesPrintable()
    ensures Printable("api_version") && Printable("v1") && Printable("discovery")
    ensures Printable("agent_url") && Printable("key_id")
  {
  }

  lemma DiscoveryNamePrintable(d: DiscoveryMechanism)
    ensures Printable(DiscoveryName(d)) && |DiscoveryName(d)| <= 9
  {
  }

  lemma FourSmall(a: Member, b: Member, c: Member, d: Member)
    requires Printable(a.name) && Printable(a.value) && Printable(b.name) && Printable(b.value)
    requires Printable(c.name) && Printable(c.value) && Printable(d.name) && Printable(d.value)
    requires |a.name| + |a.value| + |b.name| + |b.value| + |c.name| + |c.value| + |d.name| + |d.value| <= 3000
    ensures Small([a, b, c, d])
  {
  }

  lemma RequestSmall(r: ResolveRequest)
    requires Printable(r.agentUrl) && |r.agentUrl| <= MAX_AGENT_URL_BYTES
    requires Printable(r.keyId) && |r.keyId| <= MAX_KEY_ID_BYTES
    ensures Small(RequestMembers(r))
  {
    NamesPrintable();
    DiscoveryNamePrintable(r.discovery);
    FourSmall(Member("api_version", "v1"), Member("discovery", DiscoveryName(r.discovery)),
              Member("agent_url", r.agentUrl), Member("key_id", r.keyId));
  }

  /**
   A request whose texts are printable and within the profile's limits never comes near the
   largest body the resolver takes.
   */
  lemma RequestFits(r: ResolveRequest)
    requires Printable(r.agentUrl) && |r.agentUrl| <= MAX_AGENT_URL_BYTES
    requires Printable(r.keyId) && |r.keyId| <= MAX_KEY_ID_BYTES
    ensures |Encode(r)| < MAX_RESOLVE_BODY_BYTES
  {
    RequestSmall(r);
    SmallFits(RequestMembers(r));
  }

  // The text itself.

  /** A text that needs no escaping. */
  ghost predicate Unescaped(s: string) {
    forall i :: 0 <= i < |s| ==> ' ' <= s[i] && s[i] != '\"' && s[i] != '\\'
  }

  lemma {:induction false} EscapeUnescaped(s: string)
    requires Unescaped(s)
    ensures Escape(s) == s
  {
    if s != "" {
      EscapeUnescaped(s[1..]);
      assert [s[0]] + s[1..] == s;
    }
  }

  function Quoted(name: string, value: string): string {
    "\"" + name + "\":\"" + value + "\""
  }

  /** A plain member is its name and value, quoted, with a colon between. */
  lemma PlainMember(m: Member)
    requires Unescaped(m.name) && Unescaped(m.value)
    ensures MemberText(m) == Quoted(m.name, m.value)
  {
    EscapeUnescaped(m.name);
    EscapeUnescaped(m.value);
  }

  lemma FourMembers(a: Member, b: Member, c: Member, d: Member)
    ensures Members([a, b, c, d]) ==
            MemberText(a) + ([','] + (MemberText(b) + ([','] + (MemberText(c) + ([','] + (MemberText(d) + ['}']))))))
  {
    assert [a, b, c, d][1..] == [b, c, d];
    assert [b, c, d][1..] == [c, d];
    assert [c, d][1..] == [d];
    assert Members([d]) == MemberText(d) + ['}'];
    assert Members([c, d]) == MemberText(c) + ([','] + Members([d]));
    assert Members([b, c, d]) == MemberText(b) + ([','] + Members([c, d]));
  }

  lemma NamesUnescaped(d: DiscoveryMechanism)
    ensures Unescaped("api_version") && Unescaped("v1") && Unescaped("discovery")
    ensures Unescaped("agent_url") && Unescaped("key_id") && Unescaped(DiscoveryName(d))
  {
  }

  /** The body of a request whose texts need no escaping, character by character. */
  lemma RequestText(r: ResolveRequest)
    requires Unescaped(r.agentUrl) && Unescaped(r.keyId)
    ensures var discovery := match r.discovery
                             case Directory => "directory"
                             case JwksUri => "jwks_uri"
                             case Cimd => "cimd";
            Encode(r) ==
            ['{'] + (Quoted("api_version", "v1") + ([','] + (Quoted("discovery", discovery) + ([','] +
            (Quoted("agent_url", r.agentUrl) + ([','] + (Quoted("key_id", r.keyId) + ['}'])))))))
  {
    var a, b := Member("api_version", "v1"), Member("discovery", DiscoveryName(r.discovery));
    var c, d := Member("agent_url", r.agentUrl), Member("key_id", r.keyId);
    NamesUnescaped(r.discovery);
    PlainMember(a);
    PlainMember(b);
    PlainMember(c);
    PlainMember(d);
    FourMembers(a, b, c, d);
  }
}
