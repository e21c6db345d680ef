/** The path normalisation behind agent identifiers: percent pass, then dot-segment pass. */
module NormalPath {
  import opened PercentEncoding
  import opened DotSegments

  function NormalForm(path: string): string {
    RemoveDots(PercentNormal(path))
  }

  method NormalizePath(path: string) returns (normalized: string)
    ensures normalized == NormalForm(path)
  {
    var decoded := NormalizePercentEncoding(path);
    normalized := RemoveDotSegments(decoded);
  }

  // The percent pass works segment by segment.

  lemma DropBeforeSlash(g: string, rest: string, k: nat)
    requires k <= |g|
    ensures (g + "/" + rest)[k..] == g[k..] + "/" + rest
  {
  }

  lemma TripletBeforeSlash(g: string, rest: string)
    requires g != ""
    ensures StartsTriplet(g + "/" + rest) <==> StartsTriplet(g)
    ensures StartsTriplet(g) ==> FirstTriplet(g + "/" + rest) == FirstTriplet(g)
  {
    var s := g + "/" + rest;
    assert s[|g|] == '/';
    assert forall i :: 0 <= i < |g| ==> s[i] == g[i];
  }

  /** A triplet never reaches over a `/`. */
  lemma {:induction false} PercentOverSlash(g: string, rest: string)
    ensures PercentNormal(g + "/" + rest) == PercentNormal(g) + "/" + PercentNormal(rest)
  {
    if g == "" {
      assert (g + "/" + rest)[1..] == rest;
    } else {
      TripletBeforeSlash(g, rest);
      var k := if StartsTriplet(g) then 3 else 1;
      DropBeforeSlash(g, rest, k);
      PercentOverSlash(g[k..], rest);
    }
  }

  lemma {:induction false} PercentAddsNoSlash(g: string)
    requires '/' !in g
    ensures '/' !in PercentNormal(g)
  {
    if g != "" {
      if StartsTriplet(g) {
        PercentAddsNoSlash(g[3..]);
      } else {
        assert g[0] in g;
        PercentAddsNoSlash(g[1..]);
      }
    }
  }

  function NormalSegments(segs: seq<string>): (r: seq<string>)
    ensures |r| == |segs|
    ensures forall i :: 0 <= i < |segs| ==> r[i] == PercentNormal(segs[i])
  {
    if segs == [] then [] else [PercentNormal(segs[0])] + NormalSegments(segs[1..])
  }

  lemma {:induction false} SegmentsOfPercentNormal(s: string)
    ensures Segments(PercentNormal(s)) == NormalSegments(Segments(s))
  {
    var n := FirstSlash(s);
    var g := s[..n];
    PercentAddsNoSlash(g);
    if n == |s| {
      assert s == g;
      SegmentsAfterPrefix(PercentNormal(s), "");
    } else {
      var rest := s[n + 1..];
      assert s == g + "/" + rest;
      PercentOverSlash(g, rest);
      SegmentsAfterPrefix(PercentNormal(g), PercentNormal(rest));
      SegmentsOfPercentNormal(rest);
      assert Segments(s)[1..] == Segments(rest);
    }
  }

  lemma PercentOfAbsolute(path: string)
    requires IsAbsolute(path)
    ensures IsAbsolute(PercentNormal(path)) && PercentNormal(path)[1..] == PercentNormal(path[1..])
  {
    assert path == "" + "/" + path[1..];
    PercentOverSlash("", path[1..]);
  }

  /** The segments that survive both passes. */
  function Survivors(path: string): seq<string>
    requires IsAbsolute(path)
  {
    Resolved(NormalSegments(Segments(path[1..])))
  }

  /** Both passes, told by segments alone. */
  lemma NormalFormSegments(path: string)
    requires IsAbsolute(path)
    ensures Survivors(path) != [] && NoSlashes(Survivors(path)) && NoDots(Survivors(path))
    ensures NormalForm(path) == Slashed(Survivors(path)) && IsAbsolute(NormalForm(path))
    ensures Segments(NormalForm(path)[1..]) == Survivors(path)
    ensures |NormalForm(path)| <= |path|
  {
    PercentOfAbsolute(path);
    SegmentsOfPercentNormal(path[1..]);
    RemoveDotsAbsolute(PercentNormal(path));
    DotSegmentsRemoved(PercentNormal(path));
    SegmentsOfSlashed(Survivors(path));
  }

  /** Two paths name the same identifier exactly when the same segments survive. */
  lemma SameNormalForm(p: string, q: string)
    requires IsAbsolute(p) && IsAbsolute(q)
    ensures NormalForm(p) == NormalForm(q) <==> Survivors(p) == Survivors(q)
  {
    NormalFormSegments(p);
    NormalFormSegments(q);
  }

  // Idempotence.

  lemma ShortIsFixed(g: string)
    requires |g| < 3
    ensures PercentNormal(g) == g
  {
    FixedPoint(g);
  }

  /** Normalising segments shortens them, and keeps the length only if it keeps every length. */
  lemma {:induction false} NormalSegmentsLength(segs: seq<string>)
    ensures |Slashed(NormalSegments(segs))| <= |Slashed(segs)|
    ensures |Slashed(NormalSegments(segs))| == |Slashed(segs)| ==>
              forall i :: 0 <= i < |segs| ==> |PercentNormal(segs[i])| == |segs[i]|
  {
    if segs != [] {
      NormalSegmentsLength(segs[1..]);
      SlashedCons(segs[0], segs[1..]);
      SlashedCons(PercentNormal(segs[0]), NormalSegments(segs[1..]));
      assert segs == [segs[0]] + segs[1..];
    }
  }

  lemma NormalSegmentsNoSlashes(segs: seq<string>)
    requires NoSlashes(segs)
    ensures NoSlashes(NormalSegments(segs))
  {
    var ns := NormalSegments(segs);
    forall g | g in ns ensures '/' !in g {
      var i :| 0 <= i < |ns| && ns[i] == g;
      assert segs[i] in segs;
      PercentAddsNoSlash(segs[i]);
    }
  }

  /** Segments that keep their lengths become dots only if they were. */
  lemma SameLengthNoDots(segs: seq<string>)
    requires NoDots(segs) && forall i :: 0 <= i < |segs| ==> |PercentNormal(segs[i])| == |segs[i]|
    ensures NoDots(NormalSegments(segs))
  {
    var ns := NormalSegments(segs);
    forall g | g in ns ensures !IsDot(g) {
      var i :| 0 <= i < |ns| && ns[i] == g;
      assert segs[i] in segs;
      if |segs[i]| < 3 { ShortIsFixed(segs[i]); }
    }
  }

  lemma ResolvedNoDots(segs: seq<string>)
    requires NoDots(segs)
    ensures Resolved(segs) == segs
  {
    ResolveNoDots(NOTHING, segs);
    assert [] + segs == segs;
  }

  lemma NormalSegmentsUnchanged(segs: seq<string>)
    requires segs != [] && NoSlashes(segs) && NoDots(segs)
    ensures Resolved(NormalSegments(segs)) == segs <==> NormalSegments(segs) == segs
  {
    var ns := NormalSegments(segs);
    if Resolved(ns) == segs {
      NormalSegmentsNoSlashes(segs);
      ResolveShape(NOTHING, ns);
      NormalSegmentsLength(segs);
      SameLengthNoDots(segs);
      ResolvedNoDots(ns);
    } else if ns == segs {
      ResolvedNoDots(segs);
    }
  }

  lemma SurvivorsDecide(path: string)
    requires IsAbsolute(path)
    ensures NormalForm(NormalForm(path)) == NormalForm(path) <==>
            forall g :: g in Survivors(path) ==> CanonicalTriplets(g)
  {
    var u, segs := NormalForm(path), Survivors(path);
    NormalFormSegments(path);
    NormalFormSegments(u);
    NormalSegmentsUnchanged(segs);
    forall i | 0 <= i < |segs| ensures PercentNormal(segs[i]) == segs[i] <==> CanonicalTriplets(segs[i]) {
      FixedPoint(segs[i]);
    }
    if forall g :: g in segs ==> CanonicalTriplets(g) {
      forall i | 0 <= i < |segs| ensures NormalSegments(segs)[i] == segs[i] {
        assert segs[i] in segs;
      }
    }
  }

  /** The segments of a path, as they stand in it, that survive: the others are dots or popped by dots. */
  function Kept(stack: seq<string>, segs: seq<string>): seq<string>
    decreases |segs|
  {
    if segs == [] then stack
    else
      var g := PercentNormal(segs[0]);
      if g == "." then if |segs| == 1 then stack + [""] else Kept(stack, segs[1..])
      else if g == ".." then
        var popped := if stack == [] then [] else stack[..|stack| - 1];
        if |segs| == 1 then popped + [""] else Kept(popped, segs[1..])
      else Kept(stack + [segs[0]], segs[1..])
  }

  lemma NormalSegmentsPush(stack: seq<string>, g: string)
    ensures NormalSegments(stack + [g]) == NormalSegments(stack) + [PercentNormal(g)]
  {
  }

  lemma NormalSegmentsPop(stack: seq<string>)
    requires stack != []
    ensures NormalSegments(stack[..|stack| - 1]) == NormalSegments(stack)[..|stack| - 1]
  {
  }

  lemma {:induction false} KeptSurvive(stack: seq<string>, segs: seq<string>)
    ensures Resolve(Output("", NormalSegments(stack)), NormalSegments(segs))
         == Output("", NormalSegments(Kept(stack, segs)))
    decreases |segs|
  {
    if segs != [] {
      var ns := NormalSegments(segs);
      assert ns[1..] == NormalSegments(segs[1..]);
      var popped := if stack == [] then [] else stack[..|stack| - 1];
      if stack != [] {
        NormalSegmentsPop(stack);
      }
      assert PercentNormal("") == "";
      if ns[0] == "." {
        if |segs| == 1 { NormalSegmentsPush(stack, ""); } else { KeptSurvive(stack, segs[1..]); }
      } else if ns[0] == ".." {
        if |segs| == 1 { NormalSegmentsPush(popped, ""); } else { KeptSurvive(popped, segs[1..]); }
      } else {
        NormalSegmentsPush(stack, segs[0]);
        KeptSurvive(stack + [segs[0]], segs[1..]);
      }
    }
  }

  // Dot segments, told by the decoded bytes alone.

  /** A well-formed segment acts as a dot segment exactly when it decodes to one dot or two. */
  lemma DotsByBytes(g: string)
    requires WellFormed(g)
    ensures PercentNormal(g) == "." <==> Decode(g) == [46]
    ensures PercentNormal(g) == ".." <==> Decode(g) == [46, 46]
  {
    PercentNormalKeepsMeaning(g);
    DecodedDots();
    if Decode(g) == [46] || Decode(g) == [46, 46] {
      PlainIsResolved(g);
    }
  }

  lemma DecodedDots()
    ensures Decode(".") == [46] && Decode("..") == [46, 46]
  {
    assert "."[1..] == "" && ".."[1..] == ".";
    assert Tokens(".") == [Literal('.')] && [Literal('.')][1..] == [];
    assert Tokens("..") == [Literal('.'), Literal('.')];
    assert [Literal('.'), Literal('.')][1..] == [Literal('.')];
  }

  /** The segments that survive when those that decode to dots skip and pop. */
  function KeptByBytes(stack: seq<string>, segs: seq<string>): seq<string>
    decreases |segs|
  {
    if segs == [] then stack
    else if Decode(segs[0]) == [46] then
      if |segs| == 1 then stack + [""] else KeptByBytes(stack, segs[1..])
    else if Decode(segs[0]) == [46, 46] then
      var popped := if stack == [] then [] else stack[..|stack| - 1];
      if |segs| == 1 then popped + [""] else KeptByBytes(popped, segs[1..])
    else KeptByBytes(stack + [segs[0]], segs[1..])
  }

  lemma {:induction false} KeptAgrees(stack: seq<string>, segs: seq<string>)
    requires forall g :: g in segs ==> WellFormed(g)
    ensures Kept(stack, segs) == KeptByBytes(stack, segs)
    decreases |segs|
  {
    if segs != [] {
      DotsByBytes(segs[0]);
      var popped := if stack == [] then [] else stack[..|stack| - 1];
      if |segs| > 1 {
        KeptAgrees(stack, segs[1..]);
        KeptAgrees(popped, segs[1..]);
      }
      KeptAgrees(stack + [segs[0]], segs[1..]);
    }
  }

  /**
   The identifier of a well-formed absolute path, by decoded bytes: of its segments those survive
   that neither decode to dots nor are popped by one that decodes to two, each in its normal form.
   */
  lemma SurvivorsByBytes(path: string)
    requires IsAbsolute(path) && WellFormed(path)
    ensures NormalForm(path) == Slashed(NormalSegments(KeptByBytes([], Segments(path[1..]))))
  {
    WellFormedTail(path);
    WellFormedSegments(path[1..]);
    KeptAgrees([], Segments(path[1..]));
    KeptSurvive([], Segments(path[1..]));
    NormalFormSegments(path);
  }

  lemma WellFormedTail(path: string)
    requires path != "" && WellFormed(path)
    ensures WellFormed(path[1..])
  {
    forall i | 0 <= i < |path[1..]| && path[1..][i] == '%'
      ensures i + 2 < |path[1..]| && IsHex(path[1..][i + 1]) && IsHex(path[1..][i + 2])
    {
      assert path[i + 1] == '%';
    }
  }

  /** In no segment that survives does a literal `%` capture digits of an escape. */
  ghost predicate NoneCaptures(segs: seq<string>) {
    forall i :: 0 <= i < |segs| ==> NoCapture(Canonical(Tokens(segs[i])))
  }

  /**
   Normalising an absolute path twice gives the same result as once exactly when no literal `%`
   in a surviving segment of the path captures two digits of a triplet that still needs
   normalising.
   */
  lemma NormalFormIdempotentIff(path: string)
    requires IsAbsolute(path)
    ensures NormalForm(NormalForm(path)) == NormalForm(path) <==> NoneCaptures(Kept([], Segments(path[1..])))
  {
    var kept := Kept([], Segments(path[1..]));
    SurvivorsDecide(path);
    KeptSurvive([], Segments(path[1..]));
    assert Survivors(path) == NormalSegments(kept);
    forall i | 0 <= i < |kept|
      ensures CanonicalTriplets(NormalSegments(kept)[i]) <==> NoCapture(Canonical(Tokens(kept[i])))
    {
      FixedPoint(PercentNormal(kept[i]));
      PercentNormalIdempotentIff(kept[i]);
    }
    if forall g :: g in Survivors(path) ==> CanonicalTriplets(g) {
      forall i | 0 <= i < |kept| ensures NoCapture(Canonical(Tokens(kept[i]))) {
        assert NormalSegments(kept)[i] in Survivors(path);
      }
    }
  }

  /** Every segment left on the stack was one of the inputs, or is the empty last segment. */
  lemma {:induction false} ResolveMembers(o: Output, segs: seq<string>)
    ensures forall g :: g in Resolve(o, segs).stack ==> g in o.stack || g in segs || g == ""
    decreases |segs|
  {
    if segs != [] {
      if segs[0] == "." {
        if |segs| > 1 { ResolveMembers(o, segs[1..]); }
      } else if segs[0] == ".." {
        if |segs| > 1 { ResolveMembers(Pop(o), segs[1..]); }
      } else {
        ResolveMembers(Push(o, segs[0]), segs[1..]);
      }
    }
  }

  lemma {:induction false} WellFormedSegments(s: string)
    requires WellFormed(s)
    ensures forall g :: g in Segments(s) ==> WellFormed(g)
  {
    var n := FirstSlash(s);
    if n < |s| {
      var g, rest := s[..n], s[n + 1..];
      assert WellFormed(g) by {
        forall i | 0 <= i < |g| && g[i] == '%' ensures i + 2 < |g| && IsHex(g[i + 1]) && IsHex(g[i + 2]) {
          assert s[i] == '%' && s[n] == '/';
        }
      }
      assert WellFormed(rest) by {
        forall i | 0 <= i < |rest| && rest[i] == '%'
          ensures i + 2 < |rest| && IsHex(rest[i + 1]) && IsHex(rest[i + 2])
        {
          assert s[i + n + 1] == '%';
        }
      }
      WellFormedSegments(rest);
    }
  }

  /** On every absolute path whose `%` signs all start triplets, normalisation is idempotent. */
  lemma NormalFormIdempotent(path: string)
    requires IsAbsolute(path) && WellFormed(path)
    ensures NormalForm(NormalForm(path)) == NormalForm(path)
  {
    var segs := Segments(path[1..]);
    WellFormedTail(path);
    WellFormedSegments(path[1..]);
    ResolveMembers(NOTHING, NormalSegments(segs));
    forall g | g in Survivors(path) ensures CanonicalTriplets(g) {
      if g != "" {
        var i :| 0 <= i < |segs| && NormalSegments(segs)[i] == g;
        assert segs[i] in segs;
        PercentNormalIdempotent(segs[i]);
        FixedPoint(g);
      }
    }
    SurvivorsDecide(path);
  }

  /** A path of one segment that does not become a dot segment is normalised as that segment. */
  lemma OneSegment(g: string)
    requires '/' !in g && !IsDot(PercentNormal(g))
    ensures NormalForm("/" + g) == "/" + PercentNormal(g)
  {
    var path := "/" + g;
    assert path[1..] == g;
    FirstSegmentOf(g, "");
    assert g + "" == g;
    NormalFormSegments(path);
    ResolveNoDots(NOTHING, [PercentNormal(g)]);
    assert NormalSegments([g]) == [PercentNormal(g)];
    assert Survivors(path) == [PercentNormal(g)];
    SlashedCons(PercentNormal(g), []);
  }

  /** What a second percent pass changes in a segment, a second normalisation changes in a path. */
  lemma SecondPassShows(g: string)
    requires '/' !in g && !IsDot(PercentNormal(g)) && !IsDot(PercentNormal(PercentNormal(g)))
    requires PercentNormal(PercentNormal(g)) != PercentNormal(g)
    ensures NormalForm("/" + g) == "/" + PercentNormal(g)
    ensures NormalForm(NormalForm("/" + g)) != NormalForm("/" + g)
  {
    OneSegment(g);
    PercentAddsNoSlash(g);
    OneSegment(PercentNormal(g));
    assert ("/" + PercentNormal(g))[1..] == PercentNormal(g);
    assert ("/" + PercentNormal(PercentNormal(g)))[1..] == PercentNormal(PercentNormal(g));
  }

  /** A literal `%` that captures digits makes the second result differ from the first. */
  lemma NormalFormNotIdempotent(path: string)
    requires path == "/" + "%%34%31"
    ensures NormalForm(path) == "/" + "%41"
    ensures NormalForm(NormalForm(path)) != NormalForm(path)
  {
    PercentNormalNotIdempotent();
    SecondPassShows("%%34%31");
  }
}
