/**
 Percent-encoding normalisation of a URL path (sections 6.2.2.1 and 6.2.2.2 of RFC 3986).
 A path is a string of ASCII characters, one character for each byte.
 */
module PercentEncoding {
  import opened Wrappers

  function HexValue(c: char): (r: Option<nat>)
    ensures r.Some? ==> r.value < 16
    ensures r.Some? <==> '0' <= c <= '9' || 'a' <= c <= 'f' || 'A' <= c <= 'F'
  {
    if '0' <= c <= '9' then Some(c as int - '0' as int)
    else if 'a' <= c <= 'f' then Some(c as int - 'a' as int + 10)
    else if 'A' <= c <= 'F' then Some(c as int - 'A' as int + 10)
    else None
  }

  predicate IsHex(c: char) {
    HexValue(c).Some?
  }

  // The digit written back is the upper-case one of the same value.
  function HexDigit(value: nat): (c: char)
    requires value < 16
    ensures HexValue(c) == Some(value)
    ensures !('a' <= c <= 'f') && c != '%' && c != '/'
  {
    if value <= 9 then ('0' as int + value) as char else ('A' as int + value - 10) as char
  }

  predicate IsUnreserved(byte: nat) {
    || '0' as int <= byte <= '9' as int
    || 'A' as int <= byte <= 'Z' as int
    || 'a' as int <= byte <= 'z' as int
    || byte in {'-' as int, '.' as int, '_' as int, '~' as int}
  }

  predicate StartsTriplet(s: string) {
    |s| >= 3 && s[0] == '%' && IsHex(s[1]) && IsHex(s[2])
  }

  /** The two hexadecimal values of a triplet at the front of `s`. */
  function FirstTriplet(s: string): (r: (nat, nat))
    requires StartsTriplet(s)
    ensures r.0 < 16 && r.1 < 16
  {
    (HexValue(s[1]).value, HexValue(s[2]).value)
  }

  /** What one triplet becomes. */
  function NormalTriplet(high: nat, low: nat): (r: string)
    requires high < 16 && low < 16
    ensures 1 <= |r| <= 3
  {
    if IsUnreserved(16 * high + low) then [(16 * high + low) as char]
    else ['%', HexDigit(high), HexDigit(low)]
  }

  /** The normal form that the loop below computes. */
  function PercentNormal(s: string): (r: string)
    ensures |r| <= |s|
  {
    if s == "" then ""
    else if StartsTriplet(s) then
      NormalTriplet(FirstTriplet(s).0, FirstTriplet(s).1) + PercentNormal(s[3..])
    else [s[0]] + PercentNormal(s[1..])
  }

  /** One round of the loop: what the characters from `index` on contribute first. */
  lemma PercentNormalAt(value: string, index: nat)
    requires index < |value|
    ensures StartsTriplet(value[index..]) <==>
              value[index] == '%' && index + 2 < |value| && IsHex(value[index + 1]) && IsHex(value[index + 2])
    ensures StartsTriplet(value[index..]) ==>
              FirstTriplet(value[index..]) == (HexValue(value[index + 1]).value, HexValue(value[index + 2]).value)
    ensures StartsTriplet(value[index..]) ==>
              var t := FirstTriplet(value[index..]);
              PercentNormal(value[index..]) == NormalTriplet(t.0, t.1) + PercentNormal(value[index + 3..])
    ensures !StartsTriplet(value[index..]) ==>
              PercentNormal(value[index..]) == [value[index]] + PercentNormal(value[index + 1..])
  {
    var rest := value[index..];
    assert rest[1..] == value[index + 1..];
    if StartsTriplet(rest) {
      assert rest[3..] == value[index + 3..];
    }
  }

  lemma AppendAssociates(a: string, b: string, c: string)
    ensures (a + b) + c == a + (b + c)
  {
  }

  method NormalizePercentEncoding(value: string) returns (normalized: string)
    ensures normalized == PercentNormal(value)
  {
    normalized := "";
    var index := 0;
    while index < |value|
      invariant 0 <= index <= |value|
      invariant normalized + PercentNormal(value[index..]) == PercentNormal(value)
    {
      PercentNormalAt(value, index);
      ghost var before := normalized;
      if value[index] == '%' && index + 2 < |value| && IsHex(value[index + 1]) && IsHex(value[index + 2]) {
        var high, low := HexValue(value[index + 1]).value, HexValue(value[index + 2]).value;
        if IsUnreserved(16 * high + low) {
          normalized := normalized + [(16 * high + low) as char];
        } else {
          normalized := normalized + ['%'];
          normalized := normalized + [HexDigit(high)];
          normalized := normalized + [HexDigit(low)];
        }
        assert normalized == before + NormalTriplet(high, low);
        AppendAssociates(before, NormalTriplet(high, low), PercentNormal(value[index + 3..]));
        index := index + 3;
      } else {
        normalized := normalized + [value[index]];
        AppendAssociates(before, [value[index]], PercentNormal(value[index + 1..]));
        index := index + 1;
      }
    }
  }

  // Token view: the independent meaning of a path's characters.

  datatype Token = Literal(c: char) | Triplet(high: nat, low: nat)

  predicate ValidToken(t: Token) {
    t.Triplet? ==> t.high < 16 && t.low < 16
  }

  /** The byte that a token stands for. */
  function TokenByte(t: Token): nat {
    match t
    case Literal(c) => c as nat
    case Triplet(high, low) => 16 * high + low
  }

  /** The escape of an unreserved byte is identified with the byte itself. */
  function CanonicalToken(t: Token): (r: Token)
    requires ValidToken(t)
    ensures ValidToken(r) && TokenByte(r) == TokenByte(t)
  {
    if t.Triplet? && IsUnreserved(TokenByte(t)) then Literal(TokenByte(t) as char) else t
  }

  function Tokens(s: string): (ts: seq<Token>)
    ensures forall t :: t in ts ==> ValidToken(t)
  {
    if s == "" then []
    else if StartsTriplet(s) then
      [Triplet(FirstTriplet(s).0, FirstTriplet(s).1)] + Tokens(s[3..])
    else [Literal(s[0])] + Tokens(s[1..])
  }

  function Canonical(ts: seq<Token>): (r: seq<Token>)
    requires forall t :: t in ts ==> ValidToken(t)
    ensures |r| == |ts|
    ensures forall i :: 0 <= i < |r| ==> r[i] == CanonicalToken(ts[i])
    ensures forall t :: t in r ==> ValidToken(t)
  {
    if ts == [] then [] else [CanonicalToken(ts[0])] + Canonical(ts[1..])
  }

  function RenderToken(t: Token): (r: string)
    requires ValidToken(t)
  {
    match t
    case Literal(c) => [c]
    case Triplet(high, low) => ['%', HexDigit(high), HexDigit(low)]
  }

  function Render(ts: seq<Token>): string
    requires forall t :: t in ts ==> ValidToken(t)
  {
    if ts == [] then "" else RenderToken(ts[0]) + Render(ts[1..])
  }

  function Bytes(ts: seq<Token>): seq<nat> {
    if ts == [] then [] else [TokenByte(ts[0])] + Bytes(ts[1..])
  }

  /** Percent-decoding of a path. */
  function Decode(s: string): seq<nat> {
    Bytes(Tokens(s))
  }

  /** Every `%` starts a triplet of two hexadecimal digits. */
  ghost predicate WellFormed(s: string) {
    forall i :: 0 <= i < |s| && s[i] == '%' ==> i + 2 < |s| && IsHex(s[i + 1]) && IsHex(s[i + 2])
  }

  ghost predicate NoPercentLiteral(ts: seq<Token>) {
    Literal('%') !in ts
  }

  lemma {:induction false} WellFormedTokens(s: string)
    requires WellFormed(s)
    ensures NoPercentLiteral(Tokens(s))
  {
    if s != "" {
      if StartsTriplet(s) {
        assert WellFormed(s[3..]) by {
          forall i | 0 <= i < |s[3..]| && s[3..][i] == '%'
            ensures i + 2 < |s[3..]| && IsHex(s[3..][i + 1]) && IsHex(s[3..][i + 2])
          { assert s[i + 3] == '%'; }
        }
        WellFormedTokens(s[3..]);
      } else {
        assert s[0] != '%';
        assert WellFormed(s[1..]) by {
          forall i | 0 <= i < |s[1..]| && s[1..][i] == '%'
            ensures i + 2 < |s[1..]| && IsHex(s[1..][i + 1]) && IsHex(s[1..][i + 2])
          { assert s[i + 1] == '%'; }
        }
        WellFormedTokens(s[1..]);
      }
    }
  }

  /** The loop's result is the rendering of the canonical tokens. */
  lemma {:induction false} NormalIsRenderedCanonical(s: string)
    ensures PercentNormal(s) == Render(Canonical(Tokens(s)))
  {
    if s != "" {
      if StartsTriplet(s) {
        NormalIsRenderedCanonical(s[3..]);
        assert Tokens(s)[1..] == Tokens(s[3..]);
      } else {
        NormalIsRenderedCanonical(s[1..]);
        assert Tokens(s)[1..] == Tokens(s[1..]);
      }
      assert Canonical(Tokens(s))[1..] == Canonical(Tokens(s)[1..]);
    }
  }

  /** Rendering loses nothing when no literal `%` is present: reading it back gives the tokens. */
  lemma {:induction false} TokensOfRender(ts: seq<Token>)
    requires forall t :: t in ts ==> ValidToken(t)
    requires NoPercentLiteral(ts)
    ensures Tokens(Render(ts)) == ts
  {
    if ts != [] {
      var rest := Render(ts[1..]);
      TokensOfRender(ts[1..]);
      if ts[0].Triplet? {
        assert Render(ts)[3..] == rest;
        assert FirstTriplet(Render(ts)) == (ts[0].high, ts[0].low);
      } else {
        assert ts[0] in ts;
        assert Render(ts)[1..] == rest;
      }
    }
  }

  lemma CanonicalKeepsNoPercentLiteral(ts: seq<Token>)
    requires forall t :: t in ts ==> ValidToken(t)
    requires NoPercentLiteral(ts)
    ensures NoPercentLiteral(Canonical(ts))
  {
    forall i | 0 <= i < |ts| ensures Canonical(ts)[i] != Literal('%') {
      assert ts[i] in ts;
    }
  }

  lemma NormalTokens(s: string)
    requires WellFormed(s)
    ensures Tokens(PercentNormal(s)) == Canonical(Tokens(s))
  {
    NormalIsRenderedCanonical(s);
    WellFormedTokens(s);
    CanonicalKeepsNoPercentLiteral(Tokens(s));
    TokensOfRender(Canonical(Tokens(s)));
  }

  /**
   The normal form is canonical: two well-formed paths normalise to the same text exactly when
   their token sequences are the same up to hexadecimal case and escapes of unreserved bytes.
   */
  lemma PercentNormalIsCanonical(s: string, t: string)
    requires WellFormed(s) && WellFormed(t)
    ensures PercentNormal(s) == PercentNormal(t) <==> Canonical(Tokens(s)) == Canonical(Tokens(t))
  {
    NormalTokens(s);
    NormalTokens(t);
    NormalIsRenderedCanonical(s);
    NormalIsRenderedCanonical(t);
  }

  lemma {:induction false} CanonicalBytes(ts: seq<Token>)
    requires forall t :: t in ts ==> ValidToken(t)
    ensures Bytes(Canonical(ts)) == Bytes(ts)
  {
    if ts != [] {
      CanonicalBytes(ts[1..]);
      assert Canonical(ts)[1..] == Canonical(ts[1..]);
    }
  }

  /** Normalisation never changes what a well-formed path decodes to. */
  lemma PercentNormalKeepsMeaning(s: string)
    requires WellFormed(s)
    ensures Decode(PercentNormal(s)) == Decode(s)
  {
    NormalTokens(s);
    CanonicalBytes(Tokens(s));
  }

  /** A digit's value is its place among the sixteen, and the digit written back is the upper-case one. */
  lemma HexDigitsExact(c: char)
    requires IsHex(c)
    ensures var v := HexValue(c).value;
            && (c == "0123456789ABCDEF"[v] || c == "0123456789abcdef"[v])
            && HexDigit(v) == "0123456789ABCDEF"[v]
  {
  }

  // Which escapes are resolved, told by the bytes alone.

  /** An ASCII letter or digit, `-`, `.`, `_` or `~`. */
  predicate IsPlain(byte: nat) {
    48 <= byte <= 57 || 65 <= byte <= 90 || 97 <= byte <= 122 || byte == 45 || byte == 46 || byte == 95 || byte == 126
  }

  ghost predicate AllPlain(bytes: seq<nat>) {
    forall i :: 0 <= i < |bytes| ==> IsPlain(bytes[i])
  }

  /** Bytes as the characters they are. */
  function TextOf(bytes: seq<nat>): string
    requires AllPlain(bytes)
  {
    if bytes == [] then ""
    else
      assert IsPlain(bytes[0]) && AllPlain(bytes[1..]);
      [bytes[0] as char] + TextOf(bytes[1..])
  }

  /**
   Token by token the normal form has the same bytes, and writes one as an escape exactly when the
   input did and the byte is not plain.
   */
  lemma EscapesExact(s: string)
    requires WellFormed(s)
    ensures var ts, ns := Tokens(s), Tokens(PercentNormal(s));
            && |ns| == |ts|
            && forall i :: 0 <= i < |ts| ==>
                 && TokenByte(ns[i]) == TokenByte(ts[i])
                 && (ns[i].Triplet? <==> ts[i].Triplet? && !IsPlain(TokenByte(ts[i])))
  {
    NormalTokens(s);
  }

  lemma BytesTail(ts: seq<Token>)
    requires ts != []
    ensures Bytes(ts) != [] && Bytes(ts)[0] == TokenByte(ts[0]) && Bytes(ts)[1..] == Bytes(ts[1..])
  {
  }

  lemma RenderPlainToken(t: Token)
    requires ValidToken(t) && IsPlain(TokenByte(t))
    ensures RenderToken(CanonicalToken(t)) == [TokenByte(t) as char]
  {
  }

  lemma {:induction false} RenderPlain(ts: seq<Token>)
    requires (forall t :: t in ts ==> ValidToken(t)) && AllPlain(Bytes(ts))
    ensures Render(Canonical(ts)) == TextOf(Bytes(ts))
  {
    if ts != [] {
      BytesTail(ts);
      RenderPlain(ts[1..]);
      RenderPlainToken(ts[0]);
      assert Canonical(ts)[1..] == Canonical(ts[1..]);
    }
  }

  /** A string that decodes to plain bytes only, escaped or not, is normalised to those bytes. */
  lemma PlainIsResolved(s: string)
    requires AllPlain(Decode(s))
    ensures PercentNormal(s) == TextOf(Decode(s))
  {
    NormalIsRenderedCanonical(s);
    RenderPlain(Tokens(s));
  }

  // Idempotence, exactly.

  /** Every triplet of `s` is upper case and escapes a byte that needs escaping. */
  ghost predicate CanonicalTriplets(s: string) {
    forall i :: 0 <= i < |s| ==> NoneToNormalise(s, i)
  }

  /** A triplet that stands here needs no normalising. */
  ghost predicate NoneToNormalise(s: string, i: nat) {
    i + 2 < |s| && s[i] == '%' && IsHex(s[i + 1]) && IsHex(s[i + 2]) ==> CanonicalAt(s, i)
  }

  ghost predicate CanonicalAt(s: string, i: nat)
    requires i + 2 < |s| && IsHex(s[i + 1]) && IsHex(s[i + 2])
  {
    && !('a' <= s[i + 1] <= 'f') && !('a' <= s[i + 2] <= 'f')
    && !IsUnreserved(16 * HexValue(s[i + 1]).value + HexValue(s[i + 2]).value)
  }

  lemma NoneToNormaliseLater(s: string, n: nat, i: nat)
    requires n <= |s|
    ensures NoneToNormalise(s[n..], i) <==> NoneToNormalise(s, i + n)
  {
  }

  /** Dropping a prefix that holds no further `%` only drops the check at position 0. */
  lemma CanonicalTripletsStep(s: string, n: nat)
    requires 0 < n <= |s|
    requires forall i :: 0 < i < n ==> s[i] != '%'
    ensures CanonicalTriplets(s) <==>
            (StartsTriplet(s) ==> CanonicalAt(s, 0)) && CanonicalTriplets(s[n..])
  {
    var r := s[n..];
    assert NoneToNormalise(s, 0) <==> (StartsTriplet(s) ==> CanonicalAt(s, 0));
    if CanonicalTriplets(s) {
      forall i | 0 <= i < |r| ensures NoneToNormalise(r, i) {
        NoneToNormaliseLater(s, n, i);
      }
    }
    if (StartsTriplet(s) ==> CanonicalAt(s, 0)) && CanonicalTriplets(r) {
      forall i | 0 <= i < |s| ensures NoneToNormalise(s, i) {
        if i >= n {
          NoneToNormaliseLater(s, n, i - n);
        }
      }
    }
  }

  /** A triplet is written back as it was read exactly when it is canonical. */
  lemma TripletKept(s: string)
    requires StartsTriplet(s)
    ensures var t := FirstTriplet(s);
            NormalTriplet(t.0, t.1) == s[..3] <==> CanonicalAt(s, 0)
  {
    var (high, low) := FirstTriplet(s);
    UpperDigit(s[1], high);
    UpperDigit(s[2], low);
    if !IsUnreserved(16 * high + low) {
      assert s[..3] == ['%', s[1], s[2]];
    }
  }

  /** A path is left alone exactly when all its triplets are canonical already. */
  lemma {:induction false} FixedPoint(s: string)
    ensures PercentNormal(s) == s <==> CanonicalTriplets(s)
  {
    if s == "" {
    } else if StartsTriplet(s) {
      var t := FirstTriplet(s);
      var chunk := NormalTriplet(t.0, t.1);
      CanonicalTripletsStep(s, 3);
      TripletKept(s);
      FixedPoint(s[3..]);
      ChunksEqual(chunk, PercentNormal(s[3..]), s, 3);
    } else {
      CanonicalTripletsStep(s, 1);
      FixedPoint(s[1..]);
      ChunksEqual([s[0]], PercentNormal(s[1..]), s, 1);
    }
  }

  lemma ChunksEqual(chunk: string, rest: string, s: string, n: nat)
    requires |chunk| <= n <= |s| && |rest| <= |s| - n
    ensures chunk + rest == s <==> chunk == s[..n] && rest == s[n..]
  {
    assert s == s[..n] + s[n..];
    if chunk + rest == s {
      assert |chunk| == n;
      assert (chunk + rest)[..n] == chunk && (chunk + rest)[n..] == rest;
    }
  }

  lemma UpperDigit(c: char, value: nat)
    requires HexValue(c) == Some(value)
    ensures value < 16 && (HexDigit(value) == c <==> !('a' <= c <= 'f'))
  {
  }

  /** A literal `%` captures the two tokens after it when they read as hexadecimal digits. */
  predicate CapturesAt(ts: seq<Token>, i: nat)
    requires i < |ts|
  {
    && ts[i] == Literal('%')
    && i + 2 < |ts|
    && ts[i + 1].Literal? && IsHex(ts[i + 1].c)
    && ts[i + 2].Literal? && IsHex(ts[i + 2].c)
  }

  /** No literal `%` captures digits that a second pass would rewrite. */
  ghost predicate NoCapture(ts: seq<Token>) {
    forall i :: 0 <= i < |ts| && CapturesAt(ts, i) ==>
      CanonicalAt(['%', ts[i + 1].c, ts[i + 2].c], 0)
  }

  lemma NoCaptureStep(ts: seq<Token>)
    requires ts != []
    ensures NoCapture(ts) <==>
            (CapturesAt(ts, 0) ==> CanonicalAt(['%', ts[1].c, ts[2].c], 0)) && NoCapture(ts[1..])
  {
    var r := ts[1..];
    if NoCapture(ts) {
      forall i | 0 <= i < |r| && CapturesAt(r, i)
        ensures CanonicalAt(['%', r[i + 1].c, r[i + 2].c], 0)
      {
        assert CapturesAt(ts, i + 1);
      }
    }
    if (CapturesAt(ts, 0) ==> CanonicalAt(['%', ts[1].c, ts[2].c], 0)) && NoCapture(r) {
      forall i | 0 <= i < |ts| && CapturesAt(ts, i)
        ensures CanonicalAt(['%', ts[i + 1].c, ts[i + 2].c], 0)
      {
        if i > 0 {
          assert CapturesAt(r, i - 1);
        }
      }
    }
  }

  lemma RenderLiteral(ts: seq<Token>)
    requires forall t :: t in ts ==> ValidToken(t)
    requires ts != [] && ts[0].Literal?
    ensures Render(ts) != "" && Render(ts)[0] == ts[0].c && Render(ts)[1..] == Render(ts[1..])
  {
  }

  lemma RenderTriplet(ts: seq<Token>)
    requires forall t :: t in ts ==> ValidToken(t)
    requires ts != [] && ts[0].Triplet?
    ensures StartsTriplet(Render(ts)) && FirstTriplet(Render(ts)) == (ts[0].high, ts[0].low)
    ensures !('a' <= Render(ts)[1] <= 'f') && !('a' <= Render(ts)[2] <= 'f')
    ensures Render(ts)[3..] == Render(ts[1..])
  {
  }

  /** The two characters after a literal `%` are digits exactly when two literal tokens supply them. */
  lemma CapturedDigits(ts: seq<Token>)
    requires forall t :: t in ts ==> ValidToken(t)
    requires ts != [] && ts[0] == Literal('%')
    ensures StartsTriplet(Render(ts)) <==> CapturesAt(ts, 0)
    ensures CapturesAt(ts, 0) ==> Render(ts)[1] == ts[1].c && Render(ts)[2] == ts[2].c
  {
    RenderLiteral(ts);
    var rest := ts[1..];
    if rest != [] {
      if rest[0].Literal? {
        RenderLiteral(rest);
        var last := rest[1..];
        if last != [] {
          if last[0].Literal? { RenderLiteral(last); } else { RenderTriplet(last); }
        }
      } else {
        RenderTriplet(rest);
      }
    }
  }

  lemma {:induction false} CapturesInRender(ts: seq<Token>)
    requires forall t :: t in ts ==> ValidToken(t)
    requires forall t :: t in ts ==> CanonicalToken(t) == t
    ensures CanonicalTriplets(Render(ts)) <==> NoCapture(ts)
  {
    if ts != [] {
      var r := Render(ts);
      CapturesInRender(ts[1..]);
      NoCaptureStep(ts);
      if ts[0].Triplet? {
        RenderTriplet(ts);
        CanonicalTripletsStep(r, 3);
        assert ts[0] in ts;
      } else {
        RenderLiteral(ts);
        CanonicalTripletsStep(r, 1);
        if ts[0].c == '%' {
          CapturedDigits(ts);
        }
      }
    }
  }

  /**
   A second pass changes nothing exactly when no literal `%` captures, among the canonical
   tokens of the input, two digits of a triplet that still needs normalising.
   */
  lemma PercentNormalIdempotentIff(s: string)
    ensures PercentNormal(PercentNormal(s)) == PercentNormal(s) <==> NoCapture(Canonical(Tokens(s)))
  {
    FixedPoint(PercentNormal(s));
    NormalIsRenderedCanonical(s);
    CapturesInRender(Canonical(Tokens(s)));
  }

  lemma PercentNormalIdempotent(s: string)
    requires WellFormed(s)
    ensures PercentNormal(PercentNormal(s)) == PercentNormal(s)
  {
    WellFormedTokens(s);
    CanonicalKeepsNoPercentLiteral(Tokens(s));
    PercentNormalIdempotentIff(s);
    var ts := Canonical(Tokens(s));
    forall i | 0 <= i < |ts| ensures !CapturesAt(ts, i) {
      assert ts[i] in ts;
    }
  }

  /** Without well-formedness a second pass can decode once more. */
  lemma PercentNormalNotIdempotent()
    ensures PercentNormal("%%34%31") == "%41"
    ensures PercentNormal("%41") == "A"
  {
    var s := "%%34%31";
    assert s[1..] == "%34%31" && s[1..][3..] == "%31" && "%31"[3..] == "";
    assert PercentNormal("%31") == "1";
    assert PercentNormal("%34%31") == "41";
    assert "%41"[3..] == "";
  }
}
