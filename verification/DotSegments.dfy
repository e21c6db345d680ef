/**
 Removal of dot segments from a URL path (sections 5.2.4 and 6.2.2.3 of RFC 3986): the in-place
 loop, and the segment stack it refines.
 */
module DotSegments {

  // Splitting and joining.

  /** The position of the first `/`, or the length of `s`. */
  function FirstSlash(s: string): (n: nat)
    ensures n <= |s|
    ensures '/' !in s[..n]
    ensures n < |s| ==> s[n] == '/'
  {
    if s == "" || s[0] == '/' then 0
    else
      var n := FirstSlash(s[1..]);
      assert s[..n + 1] == [s[0]] + s[1..][..n];
      n + 1
  }

  function Segments(s: string): (segs: seq<string>)
    ensures segs != []
    ensures NoSlashes(segs)
  {
    var n := FirstSlash(s);
    if n == |s| then
      assert s[..n] == s;
      [s]
    else [s[..n]] + Segments(s[n + 1..])
  }

  ghost predicate NoSlashes(segs: seq<string>) {
    forall g :: g in segs ==> '/' !in g
  }

  /** Each segment with a `/` before it. */
  function Slashed(segs: seq<string>): string {
    if segs == [] then "" else "/" + segs[0] + Slashed(segs[1..])
  }

  lemma Regroup(a: string, b: string, c: string, d: string)
    ensures a + b + (c + d) == a + (b + (c + d)) == a + b + c + d
  {
  }

  lemma SlashedCons(g: string, segs: seq<string>)
    ensures Slashed([g] + segs) == "/" + g + Slashed(segs)
  {
    assert ([g] + segs)[1..] == segs;
  }

  lemma {:induction false} SlashedAppend(a: seq<string>, b: seq<string>)
    ensures Slashed(a + b) == Slashed(a) + Slashed(b)
  {
    if a == [] {
      assert a + b == b;
    } else {
      SlashedAppend(a[1..], b);
      assert (a + b)[1..] == a[1..] + b;
      Regroup("/", a[0], Slashed(a[1..]), Slashed(b));
    }
  }

  lemma {:induction false} SlashedSegments(s: string)
    ensures Slashed(Segments(s)) == "/" + s
  {
    var n := FirstSlash(s);
    if n == |s| {
      SlashedCons(s, []);
    } else {
      SlashedSegments(s[n + 1..]);
      SlashedCons(s[..n], Segments(s[n + 1..]));
      Regroup("/", s[..n], "/", s[n + 1..]);
      CutAt(s, n);
    }
  }

  lemma CutAt(s: string, n: nat)
    requires n < |s| && s[n] == '/'
    ensures s == s[..n] + ("/" + s[n + 1..])
  {
  }

  lemma {:induction false} FirstSlashAt(g: string, rest: string)
    requires '/' !in g
    requires rest == "" || rest[0] == '/'
    ensures FirstSlash(g + rest) == |g|
  {
    if g == "" {
      assert g + rest == rest;
    } else {
      assert g[0] in g;
      assert (g + rest)[1..] == g[1..] + rest;
      FirstSlashAt(g[1..], rest);
    }
  }

  /** A segment before a slash, or before the end, is the first one. */
  lemma FirstSegmentOf(g: string, rest: string)
    requires '/' !in g && (rest == "" || rest[0] == '/')
    ensures Segments(g + rest) == [g] + if rest == "" then [] else Segments(rest[1..])
  {
    FirstSlashAt(g, rest);
    if rest == "" {
      assert g + rest == g;
    } else {
      assert (g + rest)[..|g|] == g && (g + rest)[|g| + 1..] == rest[1..];
    }
  }

  lemma {:induction false} SegmentsOfSlashed(segs: seq<string>)
    requires segs != [] && NoSlashes(segs)
    ensures Slashed(segs) != "" && Segments(Slashed(segs)[1..]) == segs
  {
    var rest := Slashed(segs[1..]);
    assert Slashed(segs) == ("/" + segs[0]) + rest;
    assert Slashed(segs)[1..] == segs[0] + rest;
    FirstSegmentOf(segs[0], rest);
    if segs[1..] != [] {
      SegmentsOfSlashed(segs[1..]);
    }
    assert [segs[0]] + segs[1..] == segs;
  }

  // The specification: a stack of output segments.

  /** Output so far: text before the first `/` (empty for an absolute path), then segments. */
  datatype Output = Output(base: string, stack: seq<string>)

  ghost predicate ValidOutput(o: Output) {
    '/' !in o.base && NoSlashes(o.stack)
  }

  function Text(o: Output): string {
    o.base + Slashed(o.stack)
  }

  function Push(o: Output, segment: string): Output {
    o.(stack := o.stack + [segment])
  }

  function Pop(o: Output): Output {
    if o.stack != [] then o.(stack := o.stack[..|o.stack| - 1]) else o.(base := "")
  }

  /** `.` skips, `..` pops, and a dot segment at the end leaves an empty last segment. */
  function Resolve(o: Output, segs: seq<string>): Output
    decreases |segs|
  {
    if segs == [] then o
    else if segs[0] == "." then
      if |segs| == 1 then Push(o, "") else Resolve(o, segs[1..])
    else if segs[0] == ".." then
      if |segs| == 1 then Push(Pop(o), "") else Resolve(Pop(o), segs[1..])
    else Resolve(Push(o, segs[0]), segs[1..])
  }

  const NOTHING := Output("", [])

  function Continue(o: Output, input: string): string {
    if input == "" then Text(o) else Text(Resolve(o, Segments(input[1..])))
  }

  /** A relative path loses its leading dot segments. */
  function StripLeading(path: string): (r: string)
    ensures |r| <= |path|
    ensures path != "" && path[0] == '/' ==> r == path
  {
    if path == "." || path == ".." then ""
    else if "../" <= path then StripLeading(path[3..])
    else if "./" <= path then StripLeading(path[2..])
    else path
  }

  function RemoveDots(path: string): string {
    var r := StripLeading(path);
    if r == "" || r[0] == '/' then Continue(NOTHING, r)
    else Continue(Output(r[..FirstSlash(r)], []), r[FirstSlash(r)..])
  }

  // The loop.

  /** The position of the last `/`. */
  function LastSlash(s: string): (n: nat)
    requires '/' in s
    ensures n < |s| && s[n] == '/' && '/' !in s[n + 1..]
  {
    if s[|s| - 1] == '/' then |s| - 1
    else
      var t := s[..|s| - 1];
      assert s == t + [s[|s| - 1]];
      var n := LastSlash(t);
      assert s[n + 1..] == t[n + 1..] + [s[|s| - 1]];
      n
  }

  lemma {:induction false} LastSlashAt(before: string, g: string)
    requires '/' !in g
    ensures LastSlash(before + "/" + g) == |before|
  {
    var s := before + "/" + g;
    if g == "" {
      assert s[|s| - 1] == '/';
    } else {
      assert g[|g| - 1] in g;
      assert s[..|s| - 1] == before + "/" + g[..|g| - 1];
      LastSlashAt(before, g[..|g| - 1]);
    }
  }

  lemma NoSlashInText(o: Output)
    requires ValidOutput(o) && o.stack == []
    ensures '/' !in Text(o)
  {
    assert Text(o) == o.base;
  }

  lemma TextOfPush(o: Output, segment: string)
    ensures Text(Push(o, segment)) == Text(o) + "/" + segment
  {
    SlashedAppend(o.stack, [segment]);
    assert Slashed([segment]) == "/" + segment;
  }

  lemma TextOfPop(o: Output)
    requires ValidOutput(o)
    ensures ValidOutput(Pop(o))
    ensures o.stack == [] ==> Text(Pop(o)) == "" && '/' !in Text(o)
    ensures o.stack != [] ==>
              var g := o.stack[|o.stack| - 1];
              Text(o) == Text(Pop(o)) + "/" + g && '/' in Text(o) && Text(o)[..LastSlash(Text(o))] == Text(Pop(o))
  {
    if o.stack == [] {
      NoSlashInText(o);
    } else {
      assert o == Push(Pop(o), o.stack[|o.stack| - 1]);
      TextOfPush(Pop(o), o.stack[|o.stack| - 1]);
      LastSlashAt(Text(Pop(o)), o.stack[|o.stack| - 1]);
      assert Text(o)[|Text(Pop(o))|] == '/';
    }
  }

  /** Dropping the last `/` and what follows it pops the last segment of the output. */
  method RemoveLastPathSegment(output: string, ghost o: Output) returns (r: string)
    requires ValidOutput(o) && output == Text(o)
    ensures r == Text(Pop(o))
  {
    TextOfPop(o);
    if '/' in output {
      r := output[..LastSlash(output)];
    } else {
      r := "";
    }
  }

  /** The first segment of an absolute input and what the loop keeps of it. */
  lemma FirstSegment(input: string, n: nat)
    requires input != "" && input[0] == '/'
    requires n == 1 + FirstSlash(input[1..])
    ensures '/' !in input[1..n]
    ensures n == |input| ==> Segments(input[1..]) == [input[1..n]]
    ensures n < |input| ==> input[n] == '/' && Segments(input[1..]) == [input[1..n]] + Segments(input[n + 1..])
  {
    assert input[1..][..n - 1] == input[1..n];
    if n == |input| {
      assert input[1..n] == input[1..];
    } else {
      assert input[1..][n..] == input[n + 1..];
    }
  }

  lemma SegmentsAfterPrefix(g: string, rest: string)
    requires '/' !in g
    ensures Segments(g) == [g]
    ensures Segments(g + "/" + rest) == [g] + Segments(rest)
  {
    assert g == g + "";
    FirstSlashAt(g, "");
    var s := g + ("/" + rest);
    assert s == g + "/" + rest;
    FirstSlashAt(g, "/" + rest);
    assert s[..|g|] == g && s[|g| + 1..] == rest;
  }

  /** The last segment of an input. */
  lemma ContinueLast(o: Output, input: string, g: string)
    requires '/' !in g && input != "" && input[1..] == g
    ensures Continue(o, input) == Text(Resolve(o, [g]))
  {
    FirstSegmentOf(g, "");
    assert g + "" == g;
  }

  /** A segment of an input with more after it. */
  lemma ContinueMore(o: Output, input: string, g: string, rest: string)
    requires '/' !in g && input != "" && input[1..] == g + ("/" + rest)
    ensures Continue(o, input) == Text(Resolve(o, [g] + Segments(rest)))
  {
    FirstSegmentOf(g, "/" + rest);
    assert ("/" + rest)[1..] == rest;
  }

  lemma ContinueRest(o: Output, rest: string)
    ensures Continue(o, "/" + rest) == Text(Resolve(o, Segments(rest)))
  {
    assert ("/" + rest)[1..] == rest;
  }

  lemma ResolveDot(o: Output, segs: seq<string>)
    requires segs != []
    ensures Resolve(o, ["."] + segs) == Resolve(o, segs)
    ensures Resolve(o, [".."] + segs) == Resolve(Pop(o), segs)
  {
    assert (["."] + segs)[1..] == segs;
    assert ([".."] + segs)[1..] == segs;
  }

  /** A dot segment at the end leaves an empty segment. */
  lemma ContinueDotLast(o: Output)
    ensures Continue(o, "/.") == Continue(o, "/")
    ensures Continue(o, "/..") == Continue(Pop(o), "/")
  {
    ContinueLast(o, "/.", ".");
    ContinueLast(o, "/..", "..");
    ContinueLast(o, "/", "");
    ContinueLast(Pop(o), "/", "");
    assert Resolve(Pop(o), [""]) == Push(Pop(o), "") && Resolve(o, [""]) == Push(o, "") by {
      assert [""][1..] == [];
    }
  }

  /** A dot segment before more skips. */
  lemma ContinueDot(o: Output, input: string, rest: string)
    requires input == "/./" + rest
    ensures Continue(o, input) == Continue(o, "/" + rest)
  {
    assert input[1..] == "." + ("/" + rest);
    ContinueMore(o, input, ".", rest);
    ContinueRest(o, rest);
    ResolveDot(o, Segments(rest));
  }

  /** A double dot segment before more pops. */
  lemma ContinueDotDot(o: Output, input: string, rest: string)
    requires input == "/../" + rest
    ensures Continue(o, input) == Continue(Pop(o), "/" + rest)
  {
    assert input[1..] == ".." + ("/" + rest);
    ContinueMore(o, input, "..", rest);
    ContinueRest(Pop(o), rest);
    ResolveDot(o, Segments(rest));
  }

  lemma ContinueSegment(o: Output, input: string, n: nat)
    requires ValidOutput(o)
    requires input != "" && input[0] == '/'
    requires n == 1 + FirstSlash(input[1..])
    requires input[1..n] != "." && input[1..n] != ".."
    ensures ValidOutput(Push(o, input[1..n]))
    ensures Text(Push(o, input[1..n])) == Text(o) + input[..n]
    ensures n < |input| ==> input[n] == '/'
    ensures Continue(o, input) == Continue(Push(o, input[1..n]), input[n..])
  {
    var g := input[1..n];
    FirstSegment(input, n);
    TextOfPush(o, g);
    assert input[..n] == "/" + g;
    var segs := Segments(input[1..]);
    if n == |input| {
      assert Resolve(o, [g]) == Resolve(Push(o, g), [g][1..]) == Push(o, g);
    } else {
      assert segs[1..] == Segments(input[n + 1..]);
      assert input[n..][1..] == input[n + 1..];
    }
  }

  lemma NotDotSegment(input: string, n: nat)
    requires input != "" && input[0] == '/'
    requires n == 1 + FirstSlash(input[1..])
    requires !LeadsWithDot(input) && !LeadsWithDotDot(input)
    ensures input[1..n] != "." && input[1..n] != ".."
  {
    assert input[..n] == "/" + input[1..n];
    if n < |input| {
      assert input[..n + 1] == input[..n] + "/";
    }
  }

  lemma FirstSlashTail(s: string)
    requires s != "" && s[0] != '/'
    ensures FirstSlash(s) == 1 + FirstSlash(s[1..])
  {
  }

  /** What the loop keeps: the specification of the input left, on top of the output written. */
  ghost predicate Running(path: string, input: string, output: string, o: Output) {
    && ValidOutput(o) && output == Text(o)
    && if input == "" || input[0] == '/' then Continue(o, input) == RemoveDots(path)
       else o == NOTHING && RemoveDots(input) == RemoveDots(path)
  }

  lemma StartRunning(path: string)
    ensures Running(path, path, "", NOTHING)
  {
  }

  /** The forms a relative input may start with; an absolute input has none of them. */
  predicate LeadsWithDots(input: string) {
    input == "." || input == ".." || "../" <= input || "./" <= input
  }

  /** The first three branches of the loop. */
  method DropLeadingDots(ghost path: string, input: string, ghost output: string, ghost o: Output)
    returns (rest: string)
    requires Running(path, input, output, o)
    requires LeadsWithDots(input)
    ensures Running(path, rest, output, o) && |rest| < |input|
  {
    assert input[0] == '.';
    if input == "." || input == ".." {
      rest := "";
    } else if "../" <= input {
      rest := input[3..];
    } else {
      rest := input[2..];
    }
    assert StripLeading(input) == StripLeading(rest);
  }

  predicate LeadsWithDot(input: string) {
    input == "/." || "/./" <= input
  }

  predicate LeadsWithDotDot(input: string) {
    input == "/.." || "/../" <= input
  }

  lemma TakeSegment(path: string, input: string, output: string, o: Output, n: nat)
    returns (o': Output)
    requires Running(path, input, output, o)
    requires input != "" && n == 1 + FirstSlash(input[1..])
    requires !LeadsWithDots(input)
    requires !LeadsWithDot(input) && !LeadsWithDotDot(input)
    ensures Running(path, input[n..], output + input[..n], o')
  {
    if input[0] == '/' {
      NotDotSegment(input, n);
      ContinueSegment(o, input, n);
      o' := Push(o, input[1..n]);
    } else {
      FirstSlashTail(input);
      assert StripLeading(input) == input;
      o' := Output(input[..n], []);
    }
  }

  /** The fourth and fifth branch: `/.` in front goes. */
  method SkipDotSegment(ghost path: string, input: string, ghost output: string, ghost o: Output)
    returns (input': string)
    requires Running(path, input, output, o) && LeadsWithDot(input)
    ensures Running(path, input', output, o) && |input'| < |input|
  {
    if input == "/." {
      ContinueDotLast(o);
      input' := "/";
    } else {
      ContinueDot(o, input, input[3..]);
      input' := "/" + input[3..];
    }
  }

  /** The sixth and seventh branch: `/..` in front goes, with the last segment written. */
  method PopDotDotSegment(ghost path: string, input: string, output: string, ghost o: Output)
    returns (input': string, output': string)
    requires Running(path, input, output, o) && LeadsWithDotDot(input)
    ensures Running(path, input', output', Pop(o)) && |input'| < |input|
  {
    output' := RemoveLastPathSegment(output, o);
    if input == "/.." {
      ContinueDotLast(o);
      input' := "/";
    } else {
      ContinueDotDot(o, input, input[4..]);
      input' := "/" + input[4..];
    }
  }

  method RemoveDotSegments(path: string) returns (output: string)
    ensures output == RemoveDots(path)
  {
    var input := path;
    output := "";
    ghost var o := NOTHING;
    StartRunning(path);

    while input != ""
      invariant Running(path, input, output, o)
      decreases |input|
    {
      if LeadsWithDots(input) {
        input := DropLeadingDots(path, input, output, o);
      } else if LeadsWithDot(input) {
        input := SkipDotSegment(path, input, output, o);
      } else if LeadsWithDotDot(input) {
        input, output := PopDotDotSegment(path, input, output, o);
        o := Pop(o);
      } else {
        var segmentEnd := 1 + FirstSlash(input[1..]);
        o := TakeSegment(path, input, output, o, segmentEnd);
        output := output + input[..segmentEnd];
        input := input[segmentEnd..];
      }
    }
  }

  // What the specification guarantees for absolute paths.

  predicate IsAbsolute(path: string) {
    path != "" && path[0] == '/'
  }

  predicate IsDot(segment: string) {
    segment == "." || segment == ".."
  }

  ghost predicate NoDots(segs: seq<string>) {
    forall g :: g in segs ==> !IsDot(g)
  }

  /** The segments an absolute path resolves to. */
  function Resolved(segs: seq<string>): seq<string> {
    Resolve(NOTHING, segs).stack
  }

  lemma {:induction false} ResolveShape(o: Output, segs: seq<string>)
    requires ValidOutput(o) && NoSlashes(segs) && NoDots(o.stack)
    ensures var r := Resolve(o, segs);
            && ValidOutput(r) && NoDots(r.stack)
            && (o.base == "" ==> r.base == "")
            && (segs != [] ==> r.stack != [])
            && |Slashed(r.stack)| <= |Slashed(o.stack)| + |Slashed(segs)|
    decreases |segs|
  {
    if segs != [] {
      assert Slashed(segs) == "/" + segs[0] + Slashed(segs[1..]);
      PopShrinks(o);
      PushSlashed(o, "");
      PushSlashed(Pop(o), "");
      PushSlashed(o, segs[0]);
      if segs[0] == "." {
        if |segs| > 1 { ResolveShape(o, segs[1..]); }
      } else if segs[0] == ".." {
        if |segs| > 1 { ResolveShape(Pop(o), segs[1..]); }
      } else {
        ResolveShape(Push(o, segs[0]), segs[1..]);
      }
    }
  }

  lemma PushSlashed(o: Output, segment: string)
    ensures Slashed(Push(o, segment).stack) == Slashed(o.stack) + "/" + segment
  {
    SlashedAppend(o.stack, [segment]);
    assert Slashed([segment]) == "/" + segment;
  }

  lemma PopShrinks(o: Output)
    ensures |Slashed(Pop(o).stack)| <= |Slashed(o.stack)|
  {
    if o.stack != [] {
      var n := |o.stack| - 1;
      SlashedAppend(o.stack[..n], o.stack[n..]);
      assert o.stack == o.stack[..n] + o.stack[n..];
    }
  }

  /** Segments without dots resolve to themselves. */
  lemma {:induction false} ResolveNoDots(o: Output, segs: seq<string>)
    requires NoDots(segs)
    ensures Resolve(o, segs) == o.(stack := o.stack + segs)
    decreases |segs|
  {
    if segs == [] {
      assert o.stack + segs == o.stack;
    } else {
      assert segs[0] in segs;
      ResolveNoDots(Push(o, segs[0]), segs[1..]);
      assert o.stack + [segs[0]] + segs[1..] == o.stack + segs;
    }
  }

  lemma RemoveDotsAbsolute(path: string)
    requires IsAbsolute(path)
    ensures RemoveDots(path) == Slashed(Resolved(Segments(path[1..])))
    ensures Resolved(Segments(path[1..])) != [] && NoSlashes(Resolved(Segments(path[1..])))
  {
    ResolveShape(NOTHING, Segments(path[1..]));
  }

  /**
   For every absolute path the result is absolute, no longer than the path, holds no dot segment,
   and is the path itself exactly when the path held none.
   */
  lemma DotSegmentsRemoved(path: string)
    requires IsAbsolute(path)
    ensures var r := RemoveDots(path);
            && IsAbsolute(r) && |r| <= |path|
            && NoDots(Segments(r[1..]))
            && (r == path <==> NoDots(Segments(path[1..])))
  {
    var segs := Segments(path[1..]);
    ResolveShape(NOTHING, segs);
    RemoveDotsAbsolute(path);
    SlashedSegments(path[1..]);
    assert path == "/" + path[1..];
    SegmentsOfSlashed(Resolved(segs));
    assert Segments(RemoveDots(path)[1..]) == Resolved(segs);
    if NoDots(segs) {
      ResolveNoDots(NOTHING, segs);
      assert [] + segs == segs;
    }
  }

  lemma RemoveDotsIdempotent(path: string)
    requires IsAbsolute(path)
    ensures RemoveDots(RemoveDots(path)) == RemoveDots(path)
  {
    DotSegmentsRemoved(path);
    DotSegmentsRemoved(RemoveDots(path));
  }
}
