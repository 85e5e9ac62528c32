/** Path patterns (`path_matches` in inject.rs): the matcher over segments, and what a
    pattern means as a set of strings. */
module Globs {
  import opened Text

  /** The request path without its query. */
  function PathOnly(requestPath: string): string {
    Before(requestPath, '?')
  }

  predicate HasMidPathWildcard(pattern: string) {
    |pattern| > 1 && '*' in pattern[..|pattern| - 1]
  }

  predicate SegmentMatches(segment: string, pattern: string) {
    if '*' !in pattern then segment == pattern
    else
      var prefix := Before(pattern, '*');
      var suffix := pattern[|prefix| + 1..];
      prefix <= segment && EndsWith(segment, suffix) && |segment| >= |prefix| + |suffix|
  }

  predicate AllSegmentsMatch(segments: seq<string>, patterns: seq<string>)
    requires |patterns| <= |segments|
  {
    forall i | 0 <= i < |patterns| :: SegmentMatches(segments[i], patterns[i])
  }

  predicate SegmentWildcardMatches(path: string, pattern: string) {
    var pathSegs, patSegs := Split(path, '/'), Split(pattern, '/');
    var trailingWild := patSegs[|patSegs| - 1] == "*";
    var fixedPats := if trailingWild then patSegs[..|patSegs| - 1] else patSegs;
    (if trailingWild then |pathSegs| >= |fixedPats| + 1 else |pathSegs| == |patSegs|)
    && AllSegmentsMatch(pathSegs, fixedPats)
  }

  predicate PathMatches(requestPath: string, pattern: string) {
    var path := PathOnly(requestPath);
    if pattern == "*" then true
    else if HasMidPathWildcard(pattern) then SegmentWildcardMatches(path, pattern)
    else if EndsWith(pattern, "/*") then
      var prefix := pattern[..|pattern| - 2];
      path == prefix || (prefix <= path && |path| > |prefix| && path[|prefix|] == '/')
    else if EndsWith(pattern, "*") then pattern[..|pattern| - 1] <= path
    else path == pattern
  }

  // ── What a pattern means ──────────────────────────────────────────────

  /** How many stars of `pattern` are wild: the first one of each segment. */
  function Wilds(pattern: string, starred: bool): nat {
    if pattern == "" then 0
    else if pattern[0] == '/' then Wilds(pattern[1..], false)
    else if pattern[0] == '*' && !starred then 1 + Wilds(pattern[1..], true)
    else Wilds(pattern[1..], starred)
  }

  /** `pattern` with each wild star replaced by its own text; every other character,
      later stars of a segment included, stands for itself. */
  function Fill(pattern: string, starred: bool, fills: seq<string>): string
    requires |fills| == Wilds(pattern, starred)
  {
    if pattern == "" then ""
    else if pattern[0] == '/' then "/" + Fill(pattern[1..], false, fills)
    else if pattern[0] == '*' && !starred then fills[0] + Fill(pattern[1..], true, fills[1..])
    else [pattern[0]] + Fill(pattern[1..], starred, fills)
  }

  ghost predicate FilledBy(path: string, pattern: string, fills: seq<string>) {
    && |fills| == Wilds(pattern, false)
    && (forall fill | fill in fills :: '/' !in fill)
    && path == Fill(pattern, false, fills)
  }

  /** `path` is `pattern` with slash-free texts in place of its wild stars. */
  ghost predicate Instance(path: string, pattern: string) {
    exists fills: seq<string> :: FilledBy(path, pattern, fills)
  }

  ghost predicate SplitsAs(path: string, head: string, rest: string) {
    path == head + "/" + rest
  }

  /** The set of query-free paths a pattern stands for. */
  ghost predicate Denotes(pattern: string, path: string) {
    if pattern == "*" then true
    else if EndsWith(pattern, "/*") then
      var stem := pattern[..|pattern| - 2];
      if '*' in stem then
        exists head: string, rest: string :: Instance(head, stem) && SplitsAs(path, head, rest)
      else
        path == stem || exists rest: string :: SplitsAs(path, stem, rest)
    else if EndsWith(pattern, "*") && '*' !in pattern[..|pattern| - 1] then
      pattern[..|pattern| - 1] <= path
    else
      Instance(path, pattern)
  }

  // ── One segment ───────────────────────────────────────────────────────

  lemma {:induction false} FillLiteral(pattern: string, starred: bool)
    requires '/' !in pattern && ('*' !in pattern || starred)
    ensures Wilds(pattern, starred) == 0 && Fill(pattern, starred, []) == pattern
  {
    if pattern != "" {
      FillLiteral(pattern[1..], starred);
    }
  }

  lemma {:induction false} FillOneStar(pattern: string, fill: string)
    requires '/' !in pattern && '*' in pattern
    ensures Wilds(pattern, false) == 1
    ensures Fill(pattern, false, [fill])
         == Before(pattern, '*') + fill + pattern[|Before(pattern, '*')| + 1..]
  {
    if pattern[0] == '*' {
      FillLiteral(pattern[1..], true);
      assert [fill][1..] == [];
    } else {
      FillOneStar(pattern[1..], fill);
    }
  }

  lemma SegmentFilled(segment: string, pattern: string) returns (fills: seq<string>)
    requires '/' !in pattern && '/' !in segment && SegmentMatches(segment, pattern)
    ensures FilledBy(segment, pattern, fills)
  {
    if '*' !in pattern {
      FillLiteral(pattern, false);
      fills := [];
    } else {
      var prefix := Before(pattern, '*');
      var suffix := pattern[|prefix| + 1..];
      var fill := segment[|prefix|..|segment| - |suffix|];
      FillOneStar(pattern, fill);
      assert segment == prefix + fill + suffix;
      fills := [fill];
    }
  }

  lemma FilledSegment(segment: string, pattern: string, fills: seq<string>)
    requires '/' !in pattern && FilledBy(segment, pattern, fills)
    ensures SegmentMatches(segment, pattern) && '/' !in segment
  {
    if '*' !in pattern {
      FillLiteral(pattern, false);
      assert fills == [];
    } else {
      FillOneStar(pattern, "");
      assert fills == [fills[0]];
      FillOneStar(pattern, fills[0]);
      var prefix := Before(pattern, '*');
      var suffix := pattern[|prefix| + 1..];
      assert segment == prefix + fills[0] + suffix;
      assert fills[0] in fills;
    }
  }

  lemma SegmentInstance(segment: string, pattern: string)
    requires '/' !in pattern
    ensures SegmentMatches(segment, pattern) && '/' !in segment <==> Instance(segment, pattern)
  {
    if SegmentMatches(segment, pattern) && '/' !in segment {
      var fills := SegmentFilled(segment, pattern);
    }
    if Instance(segment, pattern) {
      var fills :| FilledBy(segment, pattern, fills);
      FilledSegment(segment, pattern, fills);
    }
  }

  // ── Segment after segment ─────────────────────────────────────────────

  lemma Regroup(a: string, b: string, c: string, d: string)
    ensures a + (b + c + d) == (a + b) + c + d
  {
  }

  lemma {:induction false} FillAcrossSlash(head: string, starred: bool, rest: string, fills: seq<string>)
    requires '/' !in head
    requires |fills| == Wilds(head, starred) + Wilds(rest, false)
    ensures Wilds(head + "/" + rest, starred) == |fills|
    ensures Fill(head + "/" + rest, starred, fills)
         == Fill(head, starred, fills[..Wilds(head, starred)]) + "/"
          + Fill(rest, false, fills[Wilds(head, starred)..])
  {
    var whole := head + "/" + rest;
    if head == "" {
      assert whole[1..] == rest;
      assert fills[0..] == fills;
    } else {
      assert whole[1..] == head[1..] + "/" + rest;
      var k := Wilds(head, starred);
      var tail := Fill(rest, false, fills[k..]);
      if head[0] == '*' && !starred {
        FillAcrossSlash(head[1..], true, rest, fills[1..]);
        assert fills[1..][..k - 1] == fills[..k][1..];
        assert fills[1..][k - 1..] == fills[k..];
        Regroup(fills[0], Fill(head[1..], true, fills[..k][1..]), "/", tail);
      } else {
        FillAcrossSlash(head[1..], starred, rest, fills);
        Regroup([head[0]], Fill(head[1..], starred, fills[..k]), "/", tail);
      }
    }
  }

  lemma InstanceCons(a: string, b: string, head: string, rest: string)
    requires '/' !in head && Instance(a, head) && Instance(b, rest)
    ensures Instance(a + "/" + b, head + "/" + rest)
  {
    var f :| FilledBy(a, head, f);
    var g :| FilledBy(b, rest, g);
    FillAcrossSlash(head, false, rest, f + g);
    assert (f + g)[..|f|] == f && (f + g)[|f|..] == g;
    assert FilledBy(a + "/" + b, head + "/" + rest, f + g);
  }

  lemma InstanceUncons(path: string, head: string, rest: string) returns (a: string, b: string)
    requires '/' !in head && Instance(path, head + "/" + rest)
    ensures path == a + "/" + b && Instance(a, head) && Instance(b, rest)
  {
    var fills :| FilledBy(path, head + "/" + rest, fills);
    var k := Wilds(head, false);
    var dummy := seq(k + Wilds(rest, false), _ => "");
    FillAcrossSlash(head, false, rest, dummy);
    FillAcrossSlash(head, false, rest, fills);
    a, b := Fill(head, false, fills[..k]), Fill(rest, false, fills[k..]);
    assert FilledBy(a, head, fills[..k]);
    assert FilledBy(b, rest, fills[k..]);
  }

  /** Instances of a pattern are exactly the texts whose segments match its segments. */
  lemma {:induction false} InstanceSegments(path: string, patterns: seq<string>)
    requires |patterns| >= 1
    requires forall p | p in patterns :: '/' !in p
    ensures Instance(path, Join(patterns, '/'))
       <==> |Split(path, '/')| == |patterns| && AllSegmentsMatch(Split(path, '/'), patterns)
    decreases |patterns|
  {
    var segments := Split(path, '/');
    JoinSplit(path, '/');
    if |patterns| == 1 {
      SegmentInstance(path, patterns[0]);
      if '/' !in path {
        SplitHead(path, '/', "");
      }
      if |segments| == 1 && AllSegmentsMatch(segments, patterns) {
        assert segments[0] in segments;
        assert SegmentMatches(segments[0], patterns[0]);
      }
    } else {
      var head, tail := patterns[0], patterns[1..];
      var rest := Join(tail, '/');
      assert Join(patterns, '/') == head + "/" + rest;
      if Instance(path, head + "/" + rest) {
        var a, b := InstanceUncons(path, head, rest);
        SegmentInstance(a, head);
        InstanceSegments(b, tail);
        SplitHead(a, '/', b);
        assert forall i | 0 < i < |patterns| :: patterns[i] == tail[i - 1] && segments[i] == Split(b, '/')[i - 1];
      }
      if |segments| == |patterns| && AllSegmentsMatch(segments, patterns) {
        var a, b := segments[0], Join(segments[1..], '/');
        SplitJoin(segments[1..], '/');
        assert SegmentMatches(a, head) && a in segments;
        assert AllSegmentsMatch(segments[1..], tail) by {
          forall i | 0 <= i < |tail| ensures SegmentMatches(segments[1..][i], tail[i]) {
            assert SegmentMatches(segments[i + 1], patterns[i + 1]);
          }
        }
        SegmentInstance(a, head);
        InstanceSegments(b, tail);
        InstanceCons(a, b, head, rest);
      }
    }
  }

  // ── A trailing standalone star ────────────────────────────────────────

  lemma {:induction false} SplitConcat(a: string, b: string)
    ensures Split(a + "/" + b, '/') == Split(a, '/') + Split(b, '/')
  {
    var parts := Split(a, '/') + Split(b, '/');
    JoinSplit(a, '/');
    JoinSplit(b, '/');
    JoinConcat(Split(a, '/'), Split(b, '/'));
    SplitJoin(parts, '/');
  }

  lemma {:induction false} JoinConcat(a: seq<string>, b: seq<string>)
    requires |a| >= 1 && |b| >= 1
    ensures Join(a + b, '/') == Join(a, '/') + "/" + Join(b, '/')
  {
    if |a| == 1 {
      assert (a + b)[1..] == b;
    } else {
      JoinConcat(a[1..], b);
      assert (a + b)[1..] == a[1..] + b;
    }
  }

  /** The last segment is a lone star exactly for "*" and for patterns ending in a slash and a star. */
  lemma LastSegment(pattern: string)
    requires pattern != "*"
    ensures var segs := Split(pattern, '/');
            segs[|segs| - 1] == "*" <==> EndsWith(pattern, "/*")
    ensures EndsWith(pattern, "/*") ==>
              Split(pattern, '/') == Split(pattern[..|pattern| - 2], '/') + ["*"]
  {
    var segs := Split(pattern, '/');
    if segs[|segs| - 1] == "*" {
      LoneStarLast(pattern);
    }
    if EndsWith(pattern, "/*") {
      StarBehindSlash(pattern);
    }
  }

  lemma LoneStarLast(pattern: string)
    requires pattern != "*" && Split(pattern, '/')[|Split(pattern, '/')| - 1] == "*"
    ensures EndsWith(pattern, "/*")
  {
    var segs := Split(pattern, '/');
    JoinSplit(pattern, '/');
    var front := segs[..|segs| - 1];
    assert segs == front + ["*"];
    if front != [] {
      JoinSnoc(front, "*", '/');
    }
  }

  lemma StarBehindSlash(pattern: string)
    requires EndsWith(pattern, "/*")
    ensures Split(pattern, '/') == Split(pattern[..|pattern| - 2], '/') + ["*"]
  {
    var stem := pattern[..|pattern| - 2];
    assert pattern == stem + "/" + "*";
    StarBehind(stem);
  }

  lemma StarBehind(stem: string)
    ensures Split(stem + "/" + "*", '/') == Split(stem, '/') + ["*"]
  {
    SplitConcat(stem, "*");
    SplitHead("*", '/', "");
  }

  /** With `patterns` in front of the last lone star: the first segments match `patterns`
      and something is left over. */
  ghost predicate StemThenMore(path: string, patterns: seq<string>) {
    |Split(path, '/')| >= |patterns| + 1 && AllSegmentsMatch(Split(path, '/'), patterns)
  }

  lemma CutAfterStem(path: string, stem: string) returns (head: string, rest: string)
    requires StemThenMore(path, Split(stem, '/'))
    ensures Instance(head, stem) && SplitsAs(path, head, rest)
  {
    var patterns, segments := Split(stem, '/'), Split(path, '/');
    var front, back := segments[..|patterns|], segments[|patterns|..];
    JoinSplit(stem, '/');
    JoinSplit(path, '/');
    assert front + back == segments;
    JoinConcat(front, back);
    SplitJoin(front, '/');
    head, rest := Join(front, '/'), Join(back, '/');
    assert AllSegmentsMatch(front, patterns) by {
      forall i | 0 <= i < |patterns| ensures SegmentMatches(front[i], patterns[i]) {
        assert SegmentMatches(segments[i], patterns[i]);
      }
    }
    InstanceSegments(head, patterns);
  }

  lemma StemExtended(head: string, stem: string, rest: string)
    requires Instance(head, stem)
    ensures StemThenMore(head + "/" + rest, Split(stem, '/'))
  {
    var patterns := Split(stem, '/');
    JoinSplit(stem, '/');
    InstanceSegments(head, patterns);
    SplitConcat(head, rest);
    forall i | 0 <= i < |patterns| ensures SegmentMatches((Split(head, '/') + Split(rest, '/'))[i], patterns[i]) {
      assert SegmentMatches(Split(head, '/')[i], patterns[i]);
    }
  }

  lemma TrailingWildcard(path: string, pattern: string)
    requires EndsWith(pattern, "/*") && '*' in pattern[..|pattern| - 2]
    ensures SegmentWildcardMatches(path, pattern) <==> Denotes(pattern, path)
  {
    LastSegment(pattern);
    var stem := pattern[..|pattern| - 2];
    var patterns := Split(stem, '/');
    assert (patterns + ["*"])[..|patterns|] == patterns;
    assert SegmentWildcardMatches(path, pattern) <==> StemThenMore(path, patterns);
    if StemThenMore(path, patterns) {
      var head, rest := CutAfterStem(path, stem);
    }
    if Denotes(pattern, path) {
      var head, rest :| Instance(head, stem) && SplitsAs(path, head, rest);
      StemExtended(head, stem, rest);
    }
  }

  // ── Main result ───────────────────────────────────────────────────────

  lemma BelowStem(path: string, stem: string)
    ensures (exists rest: string :: SplitsAs(path, stem, rest))
       <==> (stem <= path && |path| > |stem| && path[|stem|] == '/')
  {
    if stem <= path && |path| > |stem| && path[|stem|] == '/' {
      assert SplitsAs(path, stem, path[|stem| + 1..]);
    }
  }

  /** A pattern with stars in its segments and no trailing wildcard matches its instances. */
  lemma WildcardInstance(path: string, pattern: string)
    requires pattern != "*" && !EndsWith(pattern, "/*")
    ensures SegmentWildcardMatches(path, pattern) <==> Instance(path, pattern)
  {
    LastSegment(pattern);
    JoinSplit(pattern, '/');
    InstanceSegments(path, Split(pattern, '/'));
  }

  /** The matcher accepts a request path exactly when the pattern stands for its
      query-free part. */
  lemma PathMatchesIsDenotation(requestPath: string, pattern: string)
    ensures PathMatches(requestPath, pattern) <==> Denotes(pattern, PathOnly(requestPath))
  {
    var path := PathOnly(requestPath);
    if pattern == "*" {
    } else if EndsWith(pattern, "/*") {
      var stem := pattern[..|pattern| - 2];
      assert pattern[..|pattern| - 1] == stem + "/";
      if '*' in stem {
        TrailingWildcard(path, pattern);
      } else {
        BelowStem(path, stem);
      }
    } else if HasMidPathWildcard(pattern) {
      WildcardInstance(path, pattern);
    } else if EndsWith(pattern, "*") {
    } else {
      StarFreeInstance(path, pattern);
    }
  }

  lemma {:induction false} FillStarFree(pattern: string)
    requires '*' !in pattern
    ensures Wilds(pattern, false) == 0 && Fill(pattern, false, []) == pattern
  {
    if pattern != "" {
      FillStarFree(pattern[1..]);
    }
  }

  lemma StarFreeInstance(path: string, pattern: string)
    requires '*' !in pattern
    ensures Instance(path, pattern) <==> path == pattern
  {
    FillStarFree(pattern);
    assert FilledBy(pattern, pattern, []);
  }

  /** Only the text in front of the query decides. */
  lemma MatchDependsOnPathOnly(p: string, q: string, pattern: string)
    requires PathOnly(p) == PathOnly(q)
    ensures PathMatches(p, pattern) == PathMatches(q, pattern)
  {
  }

  // ── Every pattern stands for its own text ─────────────────────────────

  lemma {:induction false} SegmentMatchesItself(s: string)
    ensures SegmentMatches(s, s)
  {
    if '*' in s {
      var prefix := Before(s, '*');
      assert s[|s| - |s[|prefix| + 1..]|..] == s[|prefix| + 1..];
    }
  }

  lemma PatternMatchesItself(pattern: string)
    requires '?' !in pattern
    ensures PathMatches(pattern, pattern)
  {
    if HasMidPathWildcard(pattern) {
      forall s: string
        ensures SegmentMatches(s, s)
      {
        SegmentMatchesItself(s);
      }
    }
  }

  /** A character of the pattern other than '*' is in every path the pattern stands for,
      unless the pattern is "*". */
  lemma LiteralIsNeeded(requestPath: string, pattern: string, c: char)
    requires PathMatches(requestPath, pattern)
    requires c != '*' && c != '/' && c in pattern
    ensures c in PathOnly(requestPath)
  {
    var path := PathOnly(requestPath);
    if HasMidPathWildcard(pattern) {
      if c !in path {
        SegmentsKeepLiterals(path, pattern, c);
      }
    } else if EndsWith(pattern, "/*") {
      assert pattern == pattern[..|pattern| - 2] + "/*";
    } else if EndsWith(pattern, "*") {
      assert pattern == pattern[..|pattern| - 1] + "*";
    }
  }

  lemma SegmentsKeepLiterals(path: string, pattern: string, c: char)
    requires SegmentWildcardMatches(path, pattern) && c != '*' && c != '/' && c !in path
    ensures c !in pattern
  {
    var patSegs, pathSegs := Split(pattern, '/'), Split(path, '/');
    JoinSplit(pattern, '/');
    SplitPartsAvoid(path, '/', c);
    forall i | 0 <= i < |patSegs|
      ensures c !in patSegs[i]
    {
      if patSegs[i] != "*" || i < |patSegs| - 1 {
        assert SegmentMatches(pathSegs[i], patSegs[i]);
        SegmentKeepsLiterals(pathSegs[i], patSegs[i], c);
      }
    }
    JoinAvoids(patSegs, '/', c);
  }

  lemma SegmentKeepsLiterals(segment: string, pattern: string, c: char)
    requires SegmentMatches(segment, pattern) && c != '*' && c !in segment
    ensures c !in pattern
  {
    if '*' in pattern {
      var prefix := Before(pattern, '*');
      var suffix := pattern[|prefix| + 1..];
      assert pattern == prefix + "*" + suffix;
      assert segment[..|prefix|] == prefix && segment[|segment| - |suffix|..] == suffix;
    }
  }
}
