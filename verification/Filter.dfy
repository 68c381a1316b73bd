/** Matching paths against filter patterns with the recursive wildcard "**" (match).

    Patterns and paths are lists of components; an absolute one begins with "/".  Matching
    one component is left to a parameter that stands for filepath.Match. */
module Filter {

  /** One component of a pattern; the empty string stands for "**". */
  datatype Part = Part(pattern: string, isSimple: bool)

  datatype GlobResult = Yes | No | Bad

  type Glob = (string, string) -> GlobResult

  const ROOT: string := "/"
  const STAR: Part := Part("*", false)

  predicate Wild(part: Part) {
    part.pattern == ""
  }

  function Comp(g: Glob, part: Part, str: string): GlobResult {
    if part.isSimple then (if part.pattern == str then Yes else No) else g(part.pattern, str)
  }

  predicate Rooted(parts: seq<Part>) {
    parts != [] && parts[0].pattern == ROOT
  }

  /** The first component a window may begin with. */
  function FirstOffset(parts: seq<Part>, strs: seq<string>): nat {
    if !Rooted(parts) && strs != [] && strs[0] == ROOT then 1 else 0
  }

  // ----- What a pattern means -----

  /** The pattern matches exactly these components; "**" stands for zero or more of them. */
  ghost predicate Exact(g: Glob, parts: seq<Part>, run: seq<string>)
    decreases |parts|
  {
    if parts == [] then run == []
    else if Wild(parts[0]) then
      exists k :: 0 <= k <= |run| && Stars(g, run[..k]) && Exact(g, parts[1..], run[k..])
    else run != [] && Comp(g, parts[0], run[0]) == Yes && Exact(g, parts[1..], run[1..])
  }

  ghost predicate Stars(g: Glob, run: seq<string>) {
    forall i :: 0 <= i < |run| ==> Comp(g, STAR, run[i]) == Yes
  }

  /** The pattern matches some components in a row, from the root if it is absolute. */
  ghost predicate Means(g: Glob, parts: seq<Part>, strs: seq<string>) {
    exists lo, hi :: MeansAt(g, parts, strs, lo, hi)
  }

  ghost predicate MeansAt(g: Glob, parts: seq<Part>, strs: seq<string>, lo: nat, hi: nat) {
    && lo < hi <= |strs| && Exact(g, parts, strs[lo..hi])
    && (parts != [] && parts[0].pattern == "/" ==> lo == 0)
    // the root is no component of a pattern that is not absolute
    && (strs[0] == "/" && (parts == [] || parts[0].pattern != "/") ==> lo > 0)
  }

  // ----- What match computes -----

  ghost predicate FitsAt(g: Glob, parts: seq<Part>, strs: seq<string>, offset: nat) {
    offset + |parts| <= |strs| && forall i :: 0 <= i < |parts| ==> Comp(g, parts[i], strs[offset + i]) == Yes
  }

  /** Matching without "**". */
  ghost predicate Window(g: Glob, parts: seq<Part>, strs: seq<string>) {
    if parts == [] then strs == []
    else exists offset ::
      FirstOffset(parts, strs) <= offset && (Rooted(parts) ==> offset == 0) && FitsAt(g, parts, strs, offset)
  }

  function Repeat(n: nat): (r: seq<Part>)
    ensures |r| == n && forall i :: 0 <= i < n ==> r[i] == STAR
  {
    seq(n, i => STAR)
  }

  function NumWild(parts: seq<Part>): nat {
    if parts == [] then 0 else (if Wild(parts[0]) then 1 else 0) + NumWild(parts[1..])
  }

  predicate FirstWild(parts: seq<Part>, pos: nat) {
    pos < |parts| && Wild(parts[pos]) && forall i :: 0 <= i < pos ==> !Wild(parts[i])
  }

  /** The first "**" replaced by n times "*". */
  function ExpandFirst(parts: seq<Part>, pos: nat, n: nat): seq<Part>
    requires pos < |parts|
  {
    parts[..pos] + Repeat(n) + parts[pos + 1..]
  }

  /** Every "**" replaced by as many "*" as `ns` says. */
  function Expand(parts: seq<Part>, ns: seq<nat>): seq<Part>
    requires |ns| == NumWild(parts)
  {
    if parts == [] then []
    else if Wild(parts[0]) then Repeat(ns[0]) + Expand(parts[1..], ns[1..])
    else [parts[0]] + Expand(parts[1..], ns)
  }

  /** How far match expands each "**" in a path of `len` components: as if every other "**"
      stood for one component. */
  predicate WithinLimit(count: int, ns: seq<nat>, len: nat)
    decreases |ns|
  {
    ns == [] || (ns[0] <= len - count + 1 && WithinLimit(count - 1 + ns[0], ns[1..], len))
  }

  ghost predicate Expands(g: Glob, parts: seq<Part>, strs: seq<string>, ns: seq<nat>) {
    |ns| == NumWild(parts) && WithinLimit(|parts|, ns, |strs|) && Window(g, Expand(parts, ns), strs)
  }

  ghost predicate MatchSpec(g: Glob, parts: seq<Part>, strs: seq<string>) {
    exists ns :: Expands(g, parts, strs, ns)
  }

  // ----- Expanding step by step -----

  lemma {:induction false} NoWild(parts: seq<Part>)
    requires forall i :: 0 <= i < |parts| ==> !Wild(parts[i])
    ensures NumWild(parts) == 0 && Expand(parts, []) == parts
  {
    if parts != [] {
      NoWild(parts[1..]);
    }
  }

  lemma {:induction false} NumWildAppend(a: seq<Part>, b: seq<Part>)
    ensures NumWild(a + b) == NumWild(a) + NumWild(b)
  {
    if a == [] {
      assert a + b == b;
    } else {
      NumWildAppend(a[1..], b);
      assert (a + b)[1..] == a[1..] + b;
    }
  }

  lemma {:induction false} ExpandPrefix(a: seq<Part>, b: seq<Part>, ns: seq<nat>)
    requires forall i :: 0 <= i < |a| ==> !Wild(a[i])
    requires |ns| == NumWild(b)
    ensures NumWild(a + b) == NumWild(b) && Expand(a + b, ns) == a + Expand(b, ns)
  {
    if a == [] {
      assert a + b == b;
    } else {
      ExpandPrefix(a[1..], b, ns);
      assert (a + b)[1..] == a[1..] + b;
    }
  }

  /** Expanding the first "**" and then the others expands all of them. */
  lemma ExpandTwice(parts: seq<Part>, pos: nat, ns: seq<nat>)
    requires FirstWild(parts, pos) && |ns| == NumWild(parts)
    ensures |ns| > 0
    ensures NumWild(ExpandFirst(parts, pos, ns[0])) == NumWild(parts) - 1
    ensures Expand(ExpandFirst(parts, pos, ns[0]), ns[1..]) == Expand(parts, ns)
  {
    var a, rest := parts[..pos], parts[pos + 1..];
    assert parts == a + parts[pos..] && parts[pos..] == [parts[pos]] + rest && parts[pos..][1..] == rest;
    NumWildAppend(a, parts[pos..]);
    NoWild(a);
    FirstExpanded(a, parts[pos], rest, ns);
  }

  lemma FirstExpanded(a: seq<Part>, wild: Part, rest: seq<Part>, ns: seq<nat>)
    requires (forall i :: 0 <= i < |a| ==> !Wild(a[i])) && Wild(wild) && ns != [] && |ns| - 1 == NumWild(rest)
    ensures NumWild(a + Repeat(ns[0]) + rest) == |ns| - 1 && NumWild(a + ([wild] + rest)) == |ns|
    ensures Expand(a + Repeat(ns[0]) + rest, ns[1..]) == Expand(a + ([wild] + rest), ns)
  {
    hide Expand, NumWild;
    WildExpanded(wild, rest, ns);
    ExpandPrefix(a, [wild] + rest, ns);
    ExpandPrefix(a + Repeat(ns[0]), rest, ns[1..]);
    Regroup(a, Repeat(ns[0]), Expand(rest, ns[1..]));
  }

  lemma Regroup(a: seq<Part>, b: seq<Part>, c: seq<Part>)
    ensures a + b + c == a + (b + c)
  {
  }

  lemma WildExpanded(wild: Part, rest: seq<Part>, ns: seq<nat>)
    requires Wild(wild) && ns != [] && |ns| - 1 == NumWild(rest)
    ensures NumWild([wild] + rest) == |ns| && Expand([wild] + rest, ns) == Repeat(ns[0]) + Expand(rest, ns[1..])
  {
    assert ([wild] + rest)[1..] == rest;
  }

  lemma WildCount(parts: seq<Part>, pos: nat, n: nat)
    requires FirstWild(parts, pos)
    ensures NumWild(ExpandFirst(parts, pos, n)) == NumWild(parts) - 1
  {
    var a, rest := parts[..pos], parts[pos + 1..];
    assert parts == a + parts[pos..];
    assert parts[pos..][1..] == rest;
    NumWildAppend(a, parts[pos..]);
    NumWildAppend(a + Repeat(n), rest);
    NoWild(a);
    NoWild(a + Repeat(n));
  }

  /** match with "**" succeeds iff it does for some expansion of the first one. */
  lemma MatchFirst(g: Glob, parts: seq<Part>, strs: seq<string>, pos: nat)
    requires FirstWild(parts, pos)
    ensures MatchSpec(g, parts, strs)
       <==> exists n: nat :: n <= |strs| - |parts| + 1 && MatchSpec(g, ExpandFirst(parts, pos, n), strs)
  {
    hide Expands, ExpandFirst;
    if ns :| Expands(g, parts, strs, ns) {
      FirstOfExpansion(g, parts, strs, pos, ns);
    }
    if n: nat :| n <= |strs| - |parts| + 1 && MatchSpec(g, ExpandFirst(parts, pos, n), strs) {
      var rest :| Expands(g, ExpandFirst(parts, pos, n), strs, rest);
      ExpansionOfFirst(g, parts, strs, pos, n, rest);
    }
  }

  lemma FirstOfExpansion(g: Glob, parts: seq<Part>, strs: seq<string>, pos: nat, ns: seq<nat>)
    requires FirstWild(parts, pos) && Expands(g, parts, strs, ns)
    ensures ns != [] && ns[0] <= |strs| - |parts| + 1
    ensures MatchSpec(g, ExpandFirst(parts, pos, ns[0]), strs)
  {
    hide Expand, Window, NumWild;
    ExpandTwice(parts, pos, ns);
    assert Expands(g, ExpandFirst(parts, pos, ns[0]), strs, ns[1..]);
  }

  lemma ExpansionOfFirst(g: Glob, parts: seq<Part>, strs: seq<string>, pos: nat, n: nat, rest: seq<nat>)
    requires FirstWild(parts, pos) && n <= |strs| - |parts| + 1 && Expands(g, ExpandFirst(parts, pos, n), strs, rest)
    ensures MatchSpec(g, parts, strs)
  {
    hide Expand, Window, NumWild;
    var ns := [n] + rest;
    WildCount(parts, pos, n);
    assert ns[1..] == rest;
    ExpandTwice(parts, pos, ns);
    assert Expands(g, parts, strs, ns);
  }

  lemma MatchPlain(g: Glob, parts: seq<Part>, strs: seq<string>)
    requires forall i :: 0 <= i < |parts| ==> !Wild(parts[i])
    ensures MatchSpec(g, parts, strs) <==> Window(g, parts, strs)
  {
    NoWild(parts);
    assert Expands(g, parts, strs, []) <==> Window(g, parts, strs);
  }

  // ----- match -----

  method HasDoubleWildcard(parts: seq<Part>) returns (ok: bool, pos: nat)
    ensures ok ==> FirstWild(parts, pos)
    ensures !ok ==> forall i :: 0 <= i < |parts| ==> !Wild(parts[i])
  {
    for i := 0 to |parts|
      invariant forall j :: 0 <= j < i ==> !Wild(parts[j])
    {
      if parts[i].pattern == "" {
        return true, i;
      }
    }
    return false, 0;
  }

  /** A component of the pattern, or "*" where there is a "**", is malformed. */
  ghost predicate Malformed(g: Glob, parts: seq<Part>, strs: seq<string>) {
    exists part, str :: str in strs && (part in parts || part == STAR) && Comp(g, part, str) == Bad
  }

  method MatchWindow(g: Glob, parts: seq<Part>, strs: seq<string>) returns (matched: bool, bad: bool)
    requires forall i :: 0 <= i < |parts| ==> !Wild(parts[i])
    ensures !bad ==> (matched <==> Window(g, parts, strs))
    ensures bad ==> !matched && Malformed(g, parts, strs)
  {
    if |parts| == 0 {
      return |strs| == 0, false;
    }
    if |parts| <= |strs| {
      var minOffset, maxOffset := 0, |strs| - |parts|;
      if parts[0].pattern == ROOT {
        maxOffset := 0;
      } else if strs[0] == ROOT {
        minOffset := 1;
      }
      var offset := maxOffset;
      while offset >= minOffset
        invariant offset <= maxOffset
        invariant forall o: nat :: offset < o <= maxOffset ==> !FitsAt(g, parts, strs, o)
      {
        var i := |parts| - 1;
        var ok := true;
        while i >= 0 && ok
          invariant -1 <= i < |parts|
          invariant ok ==> forall j :: i < j < |parts| ==> Comp(g, parts[j], strs[offset + j]) == Yes
          invariant !ok ==> !FitsAt(g, parts, strs, offset)
          decreases i, ok
        {
          match Comp(g, parts[i], strs[offset + i])
          case Yes => i := i - 1;
          case No => ok := false;
          case Bad =>
            assert parts[i] in parts && strs[offset + i] in strs;
            return false, true;
        }
        if ok {
          assert FitsAt(g, parts, strs, offset);
          return true, false;
        }
        offset := offset - 1;
      }
    }
    return false, false;
  }

  lemma ExpandedMalformed(g: Glob, parts: seq<Part>, strs: seq<string>, pos: nat, n: nat)
    requires pos < |parts| && Malformed(g, ExpandFirst(parts, pos, n), strs)
    ensures Malformed(g, parts, strs)
  {
    var part, str :| str in strs && (part in ExpandFirst(parts, pos, n) || part == STAR) && Comp(g, part, str) == Bad;
    assert part in parts || part == STAR;
  }

  /** One round on the buffer: a further "*" after the static prefix, and then the rest of
      the pattern, which overwrites the rest from the round before. */
  method ExpandInPlace(buf: array<Part>, parts: seq<Part>, pos: nat, i: nat)
    requires pos < |parts| && |parts| - 1 + i <= buf.Length
    requires buf[..pos + (if i > 0 then i - 1 else 0)] == parts[..pos] + Repeat(if i > 0 then i - 1 else 0)
    modifies buf
    ensures buf[..|parts| - 1 + i] == ExpandFirst(parts, pos, i)
    ensures buf[..pos + i] == parts[..pos] + Repeat(i)
  {
    if i > 0 {
      buf[pos + i - 1] := STAR;
    }
    assert buf[..pos + i] == parts[..pos] + Repeat(i);
    forall j | 0 <= j < |parts| - pos - 1 {
      buf[pos + i + j] := parts[pos + 1 + j];
    }
    assert buf[..pos + i] == parts[..pos] + Repeat(i);
    assert buf[pos + i..|parts| - 1 + i] == parts[pos + 1..];
    assert buf[..|parts| - 1 + i] == buf[..pos + i] + buf[pos + i..|parts| - 1 + i];
  }

  /** Expands "**" in a buffer of the length of the path, a longer expansion in each round. */
  method Match(g: Glob, parts: seq<Part>, strs: seq<string>) returns (matched: bool, bad: bool)
    ensures !bad ==> (matched <==> MatchSpec(g, parts, strs))
    ensures bad ==> !matched && Malformed(g, parts, strs)
    decreases NumWild(parts)
  {
    hide MatchSpec, Malformed, ExpandFirst, Repeat;
    var ok, pos := HasDoubleWildcard(parts);
    if !ok {
      matched, bad := MatchWindow(g, parts, strs);
      MatchPlain(g, parts, strs);
      return;
    }
    MatchFirst(g, parts, strs, pos);
    var newPat := new Part[|strs|](_ => Part("", false));
    forall j | 0 <= j < pos && j < |strs| {
      newPat[j] := parts[j];
    }
    var limit := |strs| - |parts| + 1;
    var i := 0;
    while i <= limit
      invariant 0 <= i
      invariant i <= limit ==>
        newPat[..pos + (if i > 0 then i - 1 else 0)] == parts[..pos] + Repeat(if i > 0 then i - 1 else 0)
      invariant forall n: nat :: n < i && n <= limit ==> !MatchSpec(g, ExpandFirst(parts, pos, n), strs)
    {
      ExpandInPlace(newPat, parts, pos, i);
      WildCount(parts, pos, i);
      matched, bad := Match(g, newPat[..|parts| - 1 + i], strs);
      if bad {
        ExpandedMalformed(g, parts, strs, pos, i);
        return;
      }
      if matched {
        return;
      }
      i := i + 1;
    }
    return false, false;
  }

  // ----- match means what the pattern says -----

  /** A plain pattern that fits these components and no more. */
  ghost predicate FitsExactly(g: Glob, parts: seq<Part>, run: seq<string>) {
    |parts| == |run| && FitsAt(g, parts, run, 0)
  }

  lemma FitsConcat(g: Glob, a: seq<Part>, b: seq<Part>, run: seq<string>)
    requires |a| <= |run|
    ensures FitsExactly(g, a + b, run) <==> FitsExactly(g, a, run[..|a|]) && FitsExactly(g, b, run[|a|..])
  {
    if FitsExactly(g, a + b, run) {
      forall i | 0 <= i < |a|
        ensures Comp(g, a[i], run[..|a|][i]) == Yes
      {
        assert Comp(g, (a + b)[i], run[0 + i]) == Yes;
      }
      forall i | 0 <= i < |b|
        ensures Comp(g, b[i], run[|a|..][i]) == Yes
      {
        assert Comp(g, (a + b)[|a| + i], run[0 + |a| + i]) == Yes;
      }
    }
    if FitsExactly(g, a, run[..|a|]) && FitsExactly(g, b, run[|a|..]) {
      forall i | 0 <= i < |a + b|
        ensures Comp(g, (a + b)[i], run[0 + i]) == Yes
      {
        if i < |a| {
          assert Comp(g, a[i], run[..|a|][0 + i]) == Yes;
        } else {
          assert Comp(g, b[i - |a|], run[|a|..][0 + (i - |a|)]) == Yes;
        }
      }
    }
  }

  lemma StarsFit(g: Glob, n: nat, run: seq<string>)
    ensures FitsExactly(g, Repeat(n), run) <==> n == |run| && Stars(g, run)
  {
    if FitsExactly(g, Repeat(n), run) {
      forall i | 0 <= i < |run|
        ensures Comp(g, STAR, run[i]) == Yes
      {
        assert Comp(g, Repeat(n)[i], run[0 + i]) == Yes;
      }
    }
  }

  /** Some expansion of the pattern fits exactly iff the pattern matches exactly. */
  lemma {:induction false} ExactIsExpansion(g: Glob, parts: seq<Part>, run: seq<string>)
    ensures Exact(g, parts, run) <==> exists ns :: |ns| == NumWild(parts) && FitsExactly(g, Expand(parts, ns), run)
    decreases |parts|
  {
    if parts == [] {
      var none: seq<nat> := [];
      assert |none| == NumWild(parts) && (run == [] ==> FitsExactly(g, Expand(parts, none), run));
    } else if Exact(g, parts, run) {
      var ns := ExpansionOf(g, parts, run);
    } else if ns :| |ns| == NumWild(parts) && FitsExactly(g, Expand(parts, ns), run) {
      ExactOfExpansion(g, parts, run, ns);
    }
  }

  lemma {:induction false} ExpansionOf(g: Glob, parts: seq<Part>, run: seq<string>) returns (ns: seq<nat>)
    requires Exact(g, parts, run)
    ensures |ns| == NumWild(parts) && FitsExactly(g, Expand(parts, ns), run)
    decreases |parts|
  {
    if parts == [] {
      ns := [];
    } else if Wild(parts[0]) {
      var k :| 0 <= k <= |run| && Stars(g, run[..k]) && Exact(g, parts[1..], run[k..]);
      var rest := ExpansionOf(g, parts[1..], run[k..]);
      ns := [k] + rest;
      assert ns[1..] == rest;
      StarsFit(g, k, run[..k]);
      FitsConcat(g, Repeat(k), Expand(parts[1..], rest), run);
    } else {
      ns := ExpansionOf(g, parts[1..], run[1..]);
      FitsConcat(g, [parts[0]], Expand(parts[1..], ns), run);
    }
  }

  lemma {:induction false} ExactOfExpansion(g: Glob, parts: seq<Part>, run: seq<string>, ns: seq<nat>)
    requires |ns| == NumWild(parts) && FitsExactly(g, Expand(parts, ns), run)
    ensures Exact(g, parts, run)
    decreases |parts|
  {
    if parts == [] {
    } else if Wild(parts[0]) {
      var k := ns[0];
      FitsConcat(g, Repeat(k), Expand(parts[1..], ns[1..]), run);
      StarsFit(g, k, run[..k]);
      ExactOfExpansion(g, parts[1..], run[k..], ns[1..]);
    } else {
      FitsConcat(g, [parts[0]], Expand(parts[1..], ns), run);
      assert Comp(g, [parts[0]][0], run[..1][0 + 0]) == Yes;
      ExactOfExpansion(g, parts[1..], run[1..], ns);
    }
  }

  /** Only the first component of a pattern may be "/". */
  predicate WellFormed(parts: seq<Part>) {
    parts != [] && forall i :: 0 < i < |parts| ==> parts[i].pattern != ROOT
  }

  /** The expansion of a pattern is rooted iff the pattern is. */
  lemma {:induction false} ExpandRooted(parts: seq<Part>, ns: seq<nat>)
    requires |ns| == NumWild(parts)
    requires forall i :: 0 < i < |parts| ==> parts[i].pattern != ROOT
    ensures Rooted(Expand(parts, ns)) <==> Rooted(parts)
    decreases |parts|
  {
    if parts != [] && Wild(parts[0]) && ns[0] == 0 {
      assert Expand(parts, ns) == Expand(parts[1..], ns[1..]);
      ExpandRooted(parts[1..], ns[1..]);
    }
  }

  /** A window is a run of components that the plain pattern fits exactly. */
  lemma WindowIsRun(g: Glob, plain: seq<Part>, strs: seq<string>, lo: nat)
    requires lo + |plain| <= |strs|
    ensures FitsAt(g, plain, strs, lo) <==> FitsExactly(g, plain, strs[lo..lo + |plain|])
  {
    var run := strs[lo..lo + |plain|];
    assert forall i :: 0 <= i < |plain| ==> run[i] == strs[lo + i];
  }

  /** Whatever match finds, the pattern means; for any number of "**". */
  lemma MatchSound(g: Glob, parts: seq<Part>, strs: seq<string>)
    requires WellFormed(parts) && strs != []
    ensures MatchSpec(g, parts, strs) ==> Means(g, parts, strs)
  {
    if ns :| Expands(g, parts, strs, ns) {
      var plain := Expand(parts, ns);
      ExpandRooted(parts, ns);
      var lo :| FirstOffset(plain, strs) <= lo && (Rooted(plain) ==> lo == 0) && FitsAt(g, plain, strs, lo);
      WindowIsRun(g, plain, strs, lo);
      ExactOfExpansion(g, parts, strs[lo..lo + |plain|], ns);
      assert MeansAt(g, parts, strs, lo, lo + |plain|);
    }
  }

  /** What a pattern means, some expansion finds. */
  lemma MeansExpansion(g: Glob, parts: seq<Part>, strs: seq<string>) returns (ns: seq<nat>)
    requires WellFormed(parts) && Means(g, parts, strs)
    ensures |ns| == NumWild(parts) && Window(g, Expand(parts, ns), strs) && |Expand(parts, ns)| <= |strs|
  {
    var lo: nat, hi: nat :| MeansAt(g, parts, strs, lo, hi);
    ns := ExpansionOf(g, parts, strs[lo..hi]);
    var plain := Expand(parts, ns);
    ExpandRooted(parts, ns);
    WindowIsRun(g, plain, strs, lo);
    assert plain != [];
    assert FirstOffset(plain, strs) <= lo && FitsAt(g, plain, strs, lo);
  }

  lemma {:induction false} ExpandLength(parts: seq<Part>, ns: seq<nat>)
    requires |ns| == NumWild(parts)
    ensures |Expand(parts, ns)| == |parts| - |ns| + Sum(ns)
    decreases |parts|
  {
    if parts != [] {
      if Wild(parts[0]) {
        ExpandLength(parts[1..], ns[1..]);
      } else {
        ExpandLength(parts[1..], ns);
      }
    }
  }

  function Sum(ns: seq<nat>): nat {
    if ns == [] then 0 else ns[0] + Sum(ns[1..])
  }

  /** An expansion is within the limits if every "**" but the first is expanded to at least
      one component. */
  lemma {:induction false} LongEnough(count: int, ns: seq<nat>, len: nat)
    requires forall i :: 1 <= i < |ns| ==> ns[i] >= 1
    requires count - |ns| + Sum(ns) <= len
    ensures WithinLimit(count, ns, len)
    decreases |ns|
  {
    if ns != [] {
      SumAtLeast(ns[1..]);
      LongEnough(count - 1 + ns[0], ns[1..], len);
    }
  }

  lemma {:induction false} SumAtLeast(ns: seq<nat>)
    requires forall i :: 0 <= i < |ns| ==> ns[i] >= 1
    ensures Sum(ns) >= |ns|
  {
    if ns != [] {
      SumAtLeast(ns[1..]);
    }
  }

  /** The pattern with the first `k` "**" expanded, and each of the others counted as one
      component, is not longer than the path. */
  predicate FitsPartly(count: int, ns: seq<nat>, len: nat, k: nat)
    requires k <= |ns|
  {
    count - k + Sum(ns[..k]) <= len
  }

  predicate FitsThroughout(count: int, ns: seq<nat>, len: nat) {
    forall k: nat :: 1 <= k <= |ns| ==> FitsPartly(count, ns, len, k)
  }

  lemma {:induction false} LimitIsFit(count: int, ns: seq<nat>, len: nat)
    ensures WithinLimit(count, ns, len) <==> FitsThroughout(count, ns, len)
    decreases |ns|
  {
    if ns != [] {
      var count', rest := count - 1 + ns[0], ns[1..];
      LimitIsFit(count', rest, len);
      assert ns[..1] == [ns[0]] && ns[..1][1..] == [] && Sum(ns[..1]) == ns[0] + Sum([]);
      assert FitsPartly(count, ns, len, 1) <==> ns[0] <= len - count + 1;
      forall k: nat | 2 <= k <= |ns|
        ensures FitsPartly(count, ns, len, k) <==> FitsPartly(count', rest, len, k - 1)
      {
        assert ns[..k][1..] == rest[..k - 1];
      }
      if FitsThroughout(count, ns, len) {
        forall k: nat | 1 <= k <= |rest|
          ensures FitsPartly(count', rest, len, k)
        {
          assert FitsPartly(count, ns, len, k + 1);
        }
      }
    }
  }

  /** Exactly which expansions match tries: those with which the pattern fits into the path
      at every stage. */
  lemma MatchFindsExactly(g: Glob, parts: seq<Part>, strs: seq<string>)
    ensures MatchSpec(g, parts, strs) <==> exists ns :: FindableExpansion(g, parts, strs, ns)
  {
    if MatchSpec(g, parts, strs) {
      var ns :| Expands(g, parts, strs, ns);
      LimitIsFit(|parts|, ns, |strs|);
      assert FindableExpansion(g, parts, strs, ns);
    }
    if ns :| FindableExpansion(g, parts, strs, ns) {
      LimitIsFit(|parts|, ns, |strs|);
      assert Expands(g, parts, strs, ns);
    }
  }

  ghost predicate FindableExpansion(g: Glob, parts: seq<Part>, strs: seq<string>, ns: seq<nat>) {
    |ns| == NumWild(parts) && Window(g, Expand(parts, ns), strs) && FitsThroughout(|parts|, ns, |strs|)
  }

  /** With at most one "**", match finds exactly what the pattern means. */
  lemma MatchExact(g: Glob, parts: seq<Part>, strs: seq<string>)
    requires WellFormed(parts) && strs != [] && NumWild(parts) <= 1
    ensures MatchSpec(g, parts, strs) <==> Means(g, parts, strs)
  {
    MatchSound(g, parts, strs);
    if Means(g, parts, strs) {
      var ns := MeansExpansion(g, parts, strs);
      ExpandLength(parts, ns);
      LongEnough(|parts|, ns, |strs|);
      assert Expands(g, parts, strs, ns);
    }
  }

  /** With more of them, match finds what the pattern means if all "**" but the first can be
      expanded to at least one component each. */
  lemma MatchFindsLongExpansions(g: Glob, parts: seq<Part>, strs: seq<string>, ns: seq<nat>)
    requires |ns| == NumWild(parts) && Window(g, Expand(parts, ns), strs)
    requires forall i :: 1 <= i < |ns| ==> ns[i] >= 1
    ensures MatchSpec(g, parts, strs)
  {
    ExpandLength(parts, ns);
    LongEnough(|parts|, ns, |strs|);
    assert Expands(g, parts, strs, ns);
  }

  // ----- Patterns with several recursive wildcards -----

  function Zeros(n: nat): (r: seq<nat>)
    ensures |r| == n && forall i :: 0 <= i < n ==> r[i] == 0
  {
    seq(n, i => 0)
  }

  lemma {:induction false} SumOfZeros(n: nat)
    ensures Sum(Zeros(n)) == 0
  {
    if n > 0 {
      SumOfZeros(n - 1);
      assert Zeros(n)[1..] == Zeros(n - 1);
    }
  }

  /** The components of the pattern besides "**". */
  function Plain(parts: seq<Part>): seq<Part> {
    Expand(parts, Zeros(NumWild(parts)))
  }

  /** Each component of the path fits one of these components, and there are no others. */
  ghost predicate FitsPlain(g: Glob, parts: seq<Part>, strs: seq<string>) {
    && strs != [] && |strs| == |Plain(parts)| && (strs[0] == "/" ==> parts != [] && parts[0].pattern == "/")
    && FitsAt(g, Plain(parts), strs, 0)
  }

  /** A path that is shorter than the pattern with one "**" left out is never matched. */
  lemma ShortPathsMiss(g: Glob, parts: seq<Part>, strs: seq<string>)
    requires NumWild(parts) >= 1 && |strs| < |parts| - 1
    ensures !MatchSpec(g, parts, strs)
  {
  }

  /** Whatever the pattern is, with two or more "**" match misses all paths that the other
      components fit exactly. */
  lemma ManyWildcardsMiss(g: Glob, parts: seq<Part>, strs: seq<string>)
    requires WellFormed(parts) && NumWild(parts) >= 2 && FitsPlain(g, parts, strs)
    ensures Means(g, parts, strs) && !MatchSpec(g, parts, strs)
  {
    var ns := Zeros(NumWild(parts));
    SumOfZeros(NumWild(parts));
    ExpandLength(parts, ns);
    ShortPathsMiss(g, parts, strs);
    ExactOfExpansion(g, parts, strs, ns);
    assert strs[0..|strs|] == strs;
    assert MeansAt(g, parts, strs, 0, |strs|);
  }

  /** So a pattern whose other components fit some path is matched against all paths as it is
      meant exactly if it has at most one "**". */
  lemma CompleteIffOneWildcard(g: Glob, parts: seq<Part>, path: seq<string>)
    requires WellFormed(parts) && FitsPlain(g, parts, path)
    ensures NumWild(parts) <= 1 <==>
      forall strs :: strs != [] ==> (MatchSpec(g, parts, strs) <==> Means(g, parts, strs))
  {
    if NumWild(parts) <= 1 {
      forall strs | strs != []
        ensures MatchSpec(g, parts, strs) <==> Means(g, parts, strs)
      {
        MatchExact(g, parts, strs);
      }
    } else {
      ManyWildcardsMiss(g, parts, path);
    }
  }

  // a/ ** /b/ ** /c and the path a/x/b/c
  const PART_A: Part := Part("a", true)
  const PART_B: Part := Part("b", true)
  const PART_C: Part := Part("c", true)
  const WILD: Part := Part("", false)
  const TWO_WILD: seq<Part> := [PART_A, WILD, PART_B, WILD, PART_C]
  const MISSED: seq<string> := ["a", "x", "b", "c"]

  lemma TwoWildExpand(ns: seq<nat>)
    requires |ns| == 2
    ensures NumWild(TWO_WILD) == 2
    ensures Expand(TWO_WILD, ns) == [PART_A] + Repeat(ns[0]) + [PART_B] + Repeat(ns[1]) + [PART_C]
  {
    NoWild([PART_C]);
    hide Expand, NumWild;
    assert ns[1..][1..] == [];
    var inner := [PART_B] + ([WILD] + [PART_C]);
    PartThenWild(PART_B, [PART_C], ns[1..]);
    PartThenWild(PART_A, inner, ns);
    assert TWO_WILD == [PART_A] + ([WILD] + inner);
    Regroup([PART_A] + Repeat(ns[0]), [PART_B] + Repeat(ns[1]), [PART_C]);
    Regroup([PART_A] + Repeat(ns[0]), [PART_B], Repeat(ns[1]));
  }

  lemma PartThenWild(part: Part, rest: seq<Part>, ns: seq<nat>)
    requires !Wild(part) && ns != [] && |ns| - 1 == NumWild(rest)
    ensures NumWild([part] + ([WILD] + rest)) == |ns|
    ensures Expand([part] + ([WILD] + rest), ns) == [part] + Repeat(ns[0]) + Expand(rest, ns[1..])
  {
    hide Expand, NumWild;
    WildExpanded(WILD, rest, ns);
    ExpandPrefix([part], [WILD] + rest, ns);
    Regroup([part], Repeat(ns[0]), Expand(rest, ns[1..]));
  }

  lemma MissedIsMeant(g: Glob)
    requires g("*", "x") == Yes
    ensures Means(g, TWO_WILD, MISSED)
  {
    TwoWildExpand([1, 0]);
    var plain := Expand(TWO_WILD, [1, 0]);
    assert plain == [PART_A, STAR, PART_B, PART_C];
    ExactOfExpansion(g, TWO_WILD, MISSED, [1, 0]);
    assert MISSED[0..4] == MISSED;
    assert MeansAt(g, TWO_WILD, MISSED, 0, 4);
  }

  /** With two "**" match can miss a path, because the second one counts as a component when
      the first one is expanded: a/ ** /b/ ** /c does not match a/x/b/c. */
  lemma TwoWildcardsMiss(g: Glob)
    requires g("*", "x") == Yes
    ensures WellFormed(TWO_WILD) && Means(g, TWO_WILD, MISSED) && !MatchSpec(g, TWO_WILD, MISSED)
  {
    MissedIsMeant(g);
    TwoWildExpand([0, 0]);
    forall ns | |ns| == 2
      ensures !Expands(g, TWO_WILD, MISSED, ns)
    {
      TwoWildExpand(ns);
      if ns[0] == 0 {
        var plain := Expand(TWO_WILD, ns);
        assert plain[0] == PART_A && plain[1] == PART_B;
        assert forall o: nat :: o + |plain| <= |MISSED| && MISSED[o] == "a" ==> MISSED[o + 1] != "b";
      }
    }
  }
}
