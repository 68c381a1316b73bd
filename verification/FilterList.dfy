/** Lists of patterns with negations, and whether a directory may contain anything that
    matches (childMatch, list). */
module FilterList {
  import opened Filter

  datatype Pattern = Pattern(parts: seq<Part>, isNegated: bool)

  datatype ListResult = Listed(matched: bool, childMayMatch: bool) | EmptyPath | BadPattern

  // ----- One pattern and the children of a path -----

  /** The length of the pattern's prefix without "**". */
  function StaticLength(parts: seq<Part>): (n: nat)
    ensures n <= |parts| && (forall i :: 0 <= i < n ==> !Wild(parts[i]))
    ensures n < |parts| ==> Wild(parts[n])
  {
    if parts == [] || Wild(parts[0]) then 0 else 1 + StaticLength(parts[1..])
  }

  /** The path, cut off at the first "**" of the pattern. */
  function CutPath(parts: seq<Part>, strs: seq<string>): seq<string> {
    var n := StaticLength(parts);
    if n < |parts| && n <= |strs| then strs[..n] else strs
  }

  function Min(a: nat, b: nat): nat {
    if a < b then a else b
  }

  /** Something below the path may match: the path fits the beginning of the pattern. */
  ghost predicate ChildSpec(g: Glob, parts: seq<Part>, strs: seq<string>) {
    Rooted(parts) ==>
      var cut := CutPath(parts, strs);
      MatchSpec(g, parts[..Min(|cut|, |parts|)], cut)
  }

  method ChildMatch(g: Glob, parts: seq<Part>, strs: seq<string>) returns (may: bool, bad: bool)
    requires parts != []
    ensures !bad ==> (may <==> ChildSpec(g, parts, strs))
    ensures bad ==> Malformed(g, parts, strs)
  {
    if parts[0].pattern != ROOT {
      return true, false;
    }
    var ok, pos := HasDoubleWildcard(parts);
    var cut := strs;
    if ok && |strs| >= pos {
      cut := strs[..pos];
    }
    assert cut == CutPath(parts, strs) by {
      if ok {
        assert !(StaticLength(parts) < pos) && !(pos < StaticLength(parts));
      }
    }
    var l := if |cut| > |parts| then |parts| else |cut|;
    may, bad := Match(g, parts[..l], cut);
    if bad {
      var part, str :| str in cut && (part in parts[..l] || part == STAR) && Comp(g, part, str) == Bad;
      assert str in strs && (part in parts || part == STAR);
    }
  }

  /** The beginning of an expanded pattern is the beginning of the pattern. */
  lemma StaticPrefix(parts: seq<Part>, ns: seq<nat>)
    requires |ns| == NumWild(parts)
    ensures var n := StaticLength(parts);
      n <= |Expand(parts, ns)| && Expand(parts, ns)[..n] == parts[..n]
      && (n == |parts| ==> Expand(parts, ns) == parts)
  {
    var n := StaticLength(parts);
    var a, b := parts[..n], parts[n..];
    assert parts == a + b;
    NumWildAppend(a, b);
    NoWild(a);
    ExpandPrefix(a, b, ns);
    if n == |parts| {
      NoWild(parts);
      assert ns == [];
    }
  }

  /** A pattern from the root that matches agrees with the path on its static prefix. */
  lemma StaticPrefixFits(g: Glob, parts: seq<Part>, strs: seq<string>)
    requires Rooted(parts) && MatchSpec(g, parts, strs)
    ensures FitsAt(g, parts[..StaticLength(parts)], strs, 0)
    ensures StaticLength(parts) == |parts| ==> FitsAt(g, parts, strs, 0)
  {
    var ns :| Expands(g, parts, strs, ns);
    var plain, n := Expand(parts, ns), StaticLength(parts);
    StaticPrefix(parts, ns);
    RootIsNotWild(parts);
    assert parts[0] == parts[..n][0] == plain[..n][0];
    PrefixFits(g, plain, strs, n);
  }

  lemma RootIsNotWild(parts: seq<Part>)
    requires Rooted(parts)
    ensures StaticLength(parts) > 0
  {
  }

  lemma PrefixFits(g: Glob, parts: seq<Part>, strs: seq<string>, n: nat)
    requires n <= |parts| && FitsAt(g, parts, strs, 0)
    ensures FitsAt(g, parts[..n], strs, 0)
  {
    assert forall i :: 0 <= i < n ==> parts[..n][i] == parts[i];
  }

  lemma FitsBelow(g: Glob, parts: seq<Part>, strs: seq<string>, n: nat, len: nat)
    requires n <= |parts| && n <= len <= |strs| && FitsAt(g, parts, strs, 0)
    ensures FitsAt(g, parts[..n], strs[..len], 0)
  {
    assert forall i :: 0 <= i < n ==> parts[..n][i] == parts[i] && strs[..len][0 + i] == strs[0 + i];
  }

  /** If something below a path matches, the path says that it may. */
  lemma ChildMatchSound(g: Glob, parts: seq<Part>, path: seq<string>, rest: seq<string>)
    requires path != [] && MatchSpec(g, parts, path + rest)
    ensures ChildSpec(g, parts, path)
  {
    hide MatchSpec, FitsAt;
    if Rooted(parts) {
      var fixed := parts[..StaticLength(parts)];
      StaticPrefixFits(g, parts, path + rest);
      RootIsNotWild(parts);
      var cut := CutPath(parts, path);
      var l := Min(|cut|, |parts|);
      var begin := parts[..l];
      assert cut == (path + rest)[..|cut|] && begin == fixed[..l];
      FitsBelow(g, fixed, path + rest, l, |cut|);
      assert Window(g, begin, cut);
      MatchPlain(g, begin, cut);
    }
  }

  /** Something below a path may match unless the path differs from an absolute pattern in a
      component before the first "**" of the pattern. */
  lemma ChildMayMatchIff(g: Glob, parts: seq<Part>, strs: seq<string>)
    requires strs != []
    ensures ChildSpec(g, parts, strs) <==>
      parts != [] && parts[0].pattern == "/" ==>
        forall i :: 0 <= i < |parts| && i < |strs| && (forall j :: 0 <= j <= i ==> parts[j].pattern != "") ==>
          Comp(g, parts[i], strs[i]) == Yes
  {
    hide MatchSpec;
    if parts != [] && parts[0].pattern == "/" {
      var cut := CutPath(parts, strs);
      var n, l := StaticLength(parts), Min(|cut|, |parts|);
      RootIsNotWild(parts);
      MatchPlain(g, parts[..l], cut);
      assert parts[..l][0] == parts[0];
      assert Window(g, parts[..l], cut) <==> FitsAt(g, parts[..l], cut, 0);
      assert forall i :: 0 <= i < l ==> parts[..l][i] == parts[i] && cut[0 + i] == strs[i];
      if n < |parts| {
        assert parts[n].pattern == "";
      }
    }
  }

  /** What matches a path matches everything below it. */
  lemma MatchMonotone(g: Glob, parts: seq<Part>, path: seq<string>, rest: seq<string>)
    requires path != [] && MatchSpec(g, parts, path)
    ensures MatchSpec(g, parts, path + rest)
  {
    var ns :| Expands(g, parts, path, ns);
    LimitMonotone(|parts|, ns, |path|, |path + rest|);
    var plain := Expand(parts, ns);
    var o: nat :| FirstOffset(plain, path) <= o && (Rooted(plain) ==> o == 0) && FitsAt(g, plain, path, o);
    assert FirstOffset(plain, path + rest) <= o && FitsAt(g, plain, path + rest, o);
    assert Expands(g, parts, path + rest, ns);
  }

  lemma {:induction false} LimitMonotone(count: int, ns: seq<nat>, len: nat, len': nat)
    requires WithinLimit(count, ns, len) && len <= len'
    ensures WithinLimit(count, ns, len')
    decreases |ns|
  {
    if ns != [] {
      LimitMonotone(count - 1 + ns[0], ns[1..], len, len');
    }
  }

  // ----- Lists -----

  ghost predicate Matched(g: Glob, pats: seq<Pattern>, strs: seq<string>) {
    pats != [] &&
    var n, p := |pats| - 1, pats[|pats| - 1];
    if p.isNegated then Matched(g, pats[..n], strs) && !MatchSpec(g, p.parts, strs)
    else Matched(g, pats[..n], strs) || MatchSpec(g, p.parts, strs)
  }

  ghost predicate MayMatch(g: Glob, pats: seq<Pattern>, strs: seq<string>) {
    pats != [] &&
    var n, p := |pats| - 1, pats[|pats| - 1];
    if p.isNegated then MayMatch(g, pats[..n], strs) && !MatchSpec(g, p.parts, strs)
    else MayMatch(g, pats[..n], strs) || ChildSpec(g, p.parts, strs)
  }

  /** The last pattern that matches decides. */
  lemma {:induction false} LastMatchDecides(g: Glob, pats: seq<Pattern>, strs: seq<string>)
    ensures Matched(g, pats, strs) <==>
      exists k :: 0 <= k < |pats| && !pats[k].isNegated && MatchSpec(g, pats[k].parts, strs)
        && forall j :: k < j < |pats| && pats[j].isNegated ==> !MatchSpec(g, pats[j].parts, strs)
  {
    if pats != [] {
      var n := |pats| - 1;
      LastMatchDecides(g, pats[..n], strs);
      assert forall k :: 0 <= k < n ==> pats[..n][k] == pats[k];
      if !pats[n].isNegated && MatchSpec(g, pats[n].parts, strs) {
        assert Matched(g, pats, strs);
      } else {
        assert Matched(g, pats, strs) <==>
          Matched(g, pats[..n], strs) && !(pats[n].isNegated && MatchSpec(g, pats[n].parts, strs));
      }
    }
  }

  /** So does the last pattern for what is below: a negated one only if it matches the path itself. */
  lemma {:induction false} LastChildMatchDecides(g: Glob, pats: seq<Pattern>, strs: seq<string>)
    ensures MayMatch(g, pats, strs) <==>
      exists k :: 0 <= k < |pats| && !pats[k].isNegated && ChildSpec(g, pats[k].parts, strs)
        && forall j :: k < j < |pats| && pats[j].isNegated ==> !MatchSpec(g, pats[j].parts, strs)
  {
    hide MatchSpec, ChildSpec;
    if pats != [] {
      var n := |pats| - 1;
      LastChildMatchDecides(g, pats[..n], strs);
      assert forall k :: 0 <= k < n ==> pats[..n][k] == pats[k];
      if !pats[n].isNegated && ChildSpec(g, pats[n].parts, strs) {
        assert MayMatch(g, pats, strs);
      } else {
        assert MayMatch(g, pats, strs) <==>
          MayMatch(g, pats[..n], strs) && !(pats[n].isNegated && MatchSpec(g, pats[n].parts, strs));
      }
    }
  }

  lemma {:induction false} StaysWithoutNegation(g: Glob, pats: seq<Pattern>, strs: seq<string>, i: nat)
    requires i <= |pats| && forall j :: 0 <= j < |pats| ==> !pats[j].isNegated
    ensures Matched(g, pats[..i], strs) ==> Matched(g, pats, strs)
    ensures MayMatch(g, pats[..i], strs) ==> MayMatch(g, pats, strs)
  {
    if i < |pats| {
      var n := |pats| - 1;
      StaysWithoutNegation(g, pats[..n], strs, i);
      assert pats[..n][..i] == pats[..i];
    } else {
      assert pats[..i] == pats;
    }
  }

  ghost predicate SomeMalformed(g: Glob, pats: seq<Pattern>, strs: seq<string>) {
    exists p :: p in pats && Malformed(g, p.parts, strs)
  }

  /** Goes through the patterns; without negations it may stop early. */
  method List(g: Glob, pats: seq<Pattern>, checkChildMatches: bool, strs: seq<string>) returns (r: ListResult)
    requires forall p :: p in pats ==> p.parts != []
    ensures r == EmptyPath <==> pats != [] && strs == []
    ensures r == BadPattern ==> SomeMalformed(g, pats, strs)
    ensures r.Listed? ==> (r.matched <==> Matched(g, pats, strs))
    ensures r.Listed? && checkChildMatches ==> (r.childMayMatch <==> MayMatch(g, pats, strs))
  {
    if |pats| == 0 {
      return Listed(false, false);
    }
    if |strs| == 0 {
      return EmptyPath;
    }
    var hasNegated := exists p :: p in pats && p.isNegated;
    var matched, may := false, false;
    for i := 0 to |pats|
      invariant matched <==> Matched(g, pats[..i], strs)
      invariant checkChildMatches ==> (may <==> MayMatch(g, pats[..i], strs))
    {
      var p := pats[i];
      assert pats[..i + 1][..i] == pats[..i];
      var m, bad := Match(g, p.parts, strs);
      if bad {
        assert p in pats;
        return BadPattern;
      }
      var c := true;
      if checkChildMatches {
        c, bad := ChildMatch(g, p.parts, strs);
        if bad {
          assert p in pats;
          return BadPattern;
        }
      }
      if p.isNegated {
        matched, may := matched && !m, may && !m;
      } else {
        matched, may := matched || m, may || c;
        if matched && may && !hasNegated {
          assert forall j :: 0 <= j < |pats| ==> pats[j] in pats;
          StaysWithoutNegation(g, pats, strs, i + 1);
          return Listed(true, true);
        }
      }
    }
    assert pats[..|pats|] == pats;
    return Listed(matched, may);
  }

  /** A walk that enters only directories that may contain matches misses none: if the list
      matches a path, it says of each directory above it that something below may match. */
  lemma {:induction false} PruningIsComplete(g: Glob, pats: seq<Pattern>, dir: seq<string>, rest: seq<string>)
    requires dir != [] && Matched(g, pats, dir + rest)
    ensures MayMatch(g, pats, dir)
  {
    var n, p := |pats| - 1, pats[|pats| - 1];
    if p.isNegated {
      PruningIsComplete(g, pats[..n], dir, rest);
      if MatchSpec(g, p.parts, dir) {
        MatchMonotone(g, p.parts, dir, rest);
      }
    } else if Matched(g, pats[..n], dir + rest) {
      PruningIsComplete(g, pats[..n], dir, rest);
    } else {
      ChildMatchSound(g, p.parts, dir, rest);
    }
  }

  /** So no directory on the way to a match is skipped. */
  lemma WalkReachesEveryMatch(g: Glob, pats: seq<Pattern>, path: seq<string>)
    requires path != [] && Matched(g, pats, path)
    ensures forall n :: 0 < n <= |path| ==> MayMatch(g, pats, path[..n])
  {
    forall n | 0 < n <= |path|
      ensures MayMatch(g, pats, path[..n])
    {
      assert path == path[..n] + path[n..];
      PruningIsComplete(g, pats, path[..n], path[n..]);
    }
  }
}
