/** Applying injection rules to a forwarded request (inject.rs). */
module Inject {
  import opened Wrappers
  import opened Text
  import opened Globs
  import opened QueryParam

  datatype Injection =
    | SetHeader(name: string, value: string)
    | ReplaceHeader(name: string, value: string)
    | RemoveHeader(name: string)
    | SetQuery(name: string, value: string)

  datatype InjectionRule = InjectionRule(pathPattern: string, injections: seq<Injection>)

  /** The header syntax of the HTTP library: which names and values are well formed, and
      the canonical (lower-case) form of a name. */
  datatype HeaderSyntax = HeaderSyntax(parseName: string -> Option<string>, validValue: string -> bool)

  type Headers = map<string, seq<string>>

  /** A request under injection: its headers, its path, and the actions applied so far. */
  datatype Draft = Draft(headers: Headers, path: string, count: nat)

  function Apply(syntax: HeaderSyntax, d: Draft, injection: Injection): Draft {
    match injection
    case SetHeader(name, value) =>
      (match syntax.parseName(name)
       case Some(h) =>
         if syntax.validValue(value) then Draft(d.headers[h := [value]], d.path, d.count + 1) else d
       case None => d)
    case ReplaceHeader(name, value) =>
      (match syntax.parseName(name)
       case Some(h) =>
         if h in d.headers && syntax.validValue(value)
         then Draft(d.headers[h := [value]], d.path, d.count + 1) else d
       case None => d)
    case RemoveHeader(name) =>
      (match syntax.parseName(name)
       case Some(h) => if h in d.headers then Draft(d.headers - {h}, d.path, d.count + 1) else d
       case None => d)
    case SetQuery(name, value) => Draft(d.headers, SetParam(d.path, name, value), d.count + 1)
  }

  function ApplyAll(syntax: HeaderSyntax, d: Draft, injections: seq<Injection>): Draft
    decreases |injections|
  {
    if injections == [] then d
    else ApplyAll(syntax, Apply(syntax, d, injections[0]), injections[1..])
  }

  /** Each rule is matched against the path as the rules before it left it. */
  function ApplyRules(syntax: HeaderSyntax, d: Draft, rules: seq<InjectionRule>): Draft
    decreases |rules|
  {
    if rules == [] then d
    else
      var next := if PathMatches(d.path, rules[0].pathPattern)
                  then ApplyAll(syntax, d, rules[0].injections) else d;
      ApplyRules(syntax, next, rules[1..])
  }

  /** The injections of the rules matching one fixed path, in rule order. */
  function Selected(path: string, rules: seq<InjectionRule>): seq<Injection> {
    if rules == [] then []
    else (if PathMatches(path, rules[0].pathPattern) then rules[0].injections else [])
         + Selected(path, rules[1..])
  }

  /** The pieces still to be written. */
  function Unwritten(rest: seq<string>, replaced: bool, name: string, pair: string): seq<string> {
    if replaced then rest else ReplaceFirst(rest, name, pair)
  }

  lemma WritePiece(written: seq<string>, rest: seq<string>, replaced: bool, name: string, pair: string)
    requires rest != []
    ensures var fires := SegmentName(rest[0]) == name && !replaced;
            written + Unwritten(rest, replaced, name, pair)
            == written + [if fires then pair else rest[0]] + Unwritten(rest[1..], replaced || fires, name, pair)
  {
    var fires := SegmentName(rest[0]) == name && !replaced;
    var piece, later := if fires then pair else rest[0], Unwritten(rest[1..], replaced || fires, name, pair);
    assert Unwritten(rest, replaced, name, pair) == [piece] + later;
    assert written + ([piece] + later) == written + [piece] + later;
  }

  /** `prefix` and the pieces written behind it. */
  function Written(prefix: string, pieces: seq<string>): string {
    if pieces == [] then prefix else prefix + Join(pieces, '&')
  }

  lemma WriteOn(prefix: string, pieces: seq<string>, piece: string)
    ensures Written(prefix, pieces + [piece])
         == Written(prefix, pieces) + (if pieces == [] then "" else "&") + piece
  {
    if pieces == [] {
      assert pieces + [piece] == [piece];
    } else {
      JoinSnoc(pieces, piece, '&');
    }
  }

  /** The loop of `apply_set_param` over the pieces of a non-empty query. */
  method EditQuery(prefix: string, query: string, encodedName: string, encodedPair: string) returns (result: string)
    ensures result == prefix + Join(ReplaceFirst(Split(query, '&'), encodedName, encodedPair), '&')
  {
    var segments := Split(query, '&');
    result := prefix;
    var replaced := false;
    ghost var written: seq<string> := [];
    assert segments[0..] == segments;
    for i := 0 to |segments|
      invariant |written| == i
      invariant result == Written(prefix, written)
      invariant written + Unwritten(segments[i..], replaced, encodedName, encodedPair)
             == ReplaceFirst(segments, encodedName, encodedPair)
    {
      var segment := segments[i];
      WritePiece(written, segments[i..], replaced, encodedName, encodedPair);
      assert segments[i..][0] == segment && segments[i..][1..] == segments[i + 1..];
      if i > 0 {
        result := result + "&";
      }
      var piece := segment;
      if SegmentName(segment) == encodedName && !replaced {
        piece := encodedPair;
        replaced := true;
      }
      WriteOn(prefix, written, piece);
      result := result + piece;
      written := written + [piece];
    }
    assert segments[|segments|..] == [];
    assert written + [] == written;
    if !replaced {
      WriteOn(prefix, written, encodedPair);
      result := result + "&" + encodedPair;
    }
  }

  /** The three shapes of the text in front of the fragment. */
  lemma SetParamCases(path: string, name: string, value: string)
    ensures var body, base, pair := BeforeFragment(path), Base(path), EncodedPair(name, value);
            SetParam(path, name, value) ==
              (if base == body then body + "?" + pair
               else if body[|base| + 1..] == "" then body + pair
               else
                 body[..|base| + 1]
                 + Join(ReplaceFirst(Split(body[|base| + 1..], '&'), FormEncode(name), pair), '&'))
              + Fragment(path)
  {
    var body, base, pair := BeforeFragment(path), Base(path), EncodedPair(name, value);
    assert base != body ==> |body| >= |base| + 1;
    if |body| <= |base| + 1 {
      assert ReplaceFirst(RawSegments(path), FormEncode(name), pair) == [pair];
      assert Join([pair], '&') == pair;
    }
    assert base != body ==> body[..|base| + 1] == base + "?";
    assert |body| == |base| + 1 ==> body == base + "?";
  }

  /** A forwarded request, changed in place. */
  class ForwardedRequest {
    var headers: Headers
    var path: string

    constructor (headers: Headers, path: string)
      ensures this.headers == headers && this.path == path
    {
      this.headers := headers;
      this.path := path;
    }

    method ApplySetParam(name: string, value: string)
      modifies this`path
      ensures path == SetParam(old(path), name, value)
    {
      var encodedPair := EncodedPair(name, value);
      var encodedName := Before(encodedPair, '=');
      PairShape(name, value);
      SetParamCases(path, name, value);

      var fragment := Fragment(path);
      path := BeforeFragment(path);
      var base := Before(path, '?');
      if base == path {
        path := path + "?" + encodedPair;
      } else {
        var query := path[|base| + 1..];
        if query == "" {
          path := path + encodedPair;
        } else {
          path := EditQuery(path[..|base| + 1], query, encodedName, encodedPair);
        }
      }
      path := path + fragment;
    }

    /** One injection, counted if it did something. */
    method Perform(syntax: HeaderSyntax, injection: Injection, count: nat) returns (counted: nat)
      modifies this
      ensures Draft(headers, path, counted) == Apply(syntax, Draft(old(headers), old(path), count), injection)
    {
      counted := count;
      match injection {
        case SetHeader(name, value) =>
          match syntax.parseName(name) {
            case Some(h) =>
              if syntax.validValue(value) {
                headers := headers[h := [value]];
                counted := count + 1;
              }
            case None =>
          }
        case ReplaceHeader(name, value) =>
          match syntax.parseName(name) {
            case Some(h) =>
              if h in headers && syntax.validValue(value) {
                headers := headers[h := [value]];
                counted := count + 1;
              }
            case None =>
          }
        case RemoveHeader(name) =>
          match syntax.parseName(name) {
            case Some(h) =>
              if h in headers {
                headers := headers - {h};
                counted := count + 1;
              }
            case None =>
          }
        case SetQuery(name, value) =>
          ApplySetParam(name, value);
          counted := count + 1;
      }
    }

    method ApplyInjections(syntax: HeaderSyntax, rules: seq<InjectionRule>) returns (count: nat)
      modifies this
      ensures Draft(headers, path, count) == ApplyRules(syntax, Draft(old(headers), old(path), 0), rules)
    {
      count := 0;
      for r := 0 to |rules|
        invariant ApplyRules(syntax, Draft(headers, path, count), rules[r..])
               == ApplyRules(syntax, Draft(old(headers), old(path), 0), rules)
      {
        var rule := rules[r];
        ghost var before := Draft(headers, path, count);
        assert rules[r..][1..] == rules[r + 1..];
        if PathMatches(path, rule.pathPattern) {
          for i := 0 to |rule.injections|
            invariant ApplyAll(syntax, Draft(headers, path, count), rule.injections[i..])
                   == ApplyAll(syntax, before, rule.injections)
          {
            assert rule.injections[i..][1..] == rule.injections[i + 1..];
            count := Perform(syntax, rule.injections[i], count);
          }
        }
      }
    }
  }

  // ── Re-matching a changing path ───────────────────────────────────────

  /** As long as no '#' precedes the query, setting a parameter leaves the matched text alone. */
  lemma SetParamKeepsPathOnly(path: string, name: string, value: string)
    requires '#' !in PathOnly(path)
    ensures PathOnly(SetParam(path, name, value)) == PathOnly(path)
  {
    BeforeBefore(path, '#', '?');
    PathOnlyOfSetParam(path, name, value);
  }

  lemma Regroup(a: string, b: string, c: string)
    ensures a + b + c == a + (b + c)
  {
  }

  lemma PathOnlyOfSetParam(path: string, name: string, value: string)
    ensures PathOnly(SetParam(path, name, value)) == Base(path)
  {
    var query := Join(ReplaceFirst(RawSegments(path), FormEncode(name), EncodedPair(name, value)), '&');
    Regroup(Base(path) + "?", query, Fragment(path));
    BeforeIs(Base(path), '?', query + Fragment(path));
  }

  lemma {:induction false} ApplyAllKeepsPathOnly(syntax: HeaderSyntax, d: Draft, injections: seq<Injection>)
    requires '#' !in PathOnly(d.path)
    ensures PathOnly(ApplyAll(syntax, d, injections).path) == PathOnly(d.path)
    decreases |injections|
  {
    if injections != [] {
      if injections[0].SetQuery? {
        SetParamKeepsPathOnly(d.path, injections[0].name, injections[0].value);
      }
      ApplyAllKeepsPathOnly(syntax, Apply(syntax, d, injections[0]), injections[1..]);
    }
  }

  lemma {:induction false} ApplyAllConcat(syntax: HeaderSyntax, d: Draft, a: seq<Injection>, b: seq<Injection>)
    ensures ApplyAll(syntax, d, a + b) == ApplyAll(syntax, ApplyAll(syntax, d, a), b)
    decreases |a|
  {
    if a == [] {
      assert a + b == b;
    } else {
      assert (a + b)[1..] == a[1..] + b;
      ApplyAllConcat(syntax, Apply(syntax, d, a[0]), a[1..], b);
    }
  }

  lemma {:induction false} SelectedDependsOnPathOnly(p: string, q: string, rules: seq<InjectionRule>)
    requires PathOnly(p) == PathOnly(q)
    ensures Selected(p, rules) == Selected(q, rules)
  {
    if rules != [] {
      SelectedDependsOnPathOnly(p, q, rules[1..]);
    }
  }

  /** Matching once, against the original path, gives the same request and count. */
  lemma {:induction false} SelectOnce(syntax: HeaderSyntax, d: Draft, rules: seq<InjectionRule>)
    requires '#' !in PathOnly(d.path)
    ensures ApplyRules(syntax, d, rules) == ApplyAll(syntax, d, Selected(d.path, rules))
    decreases |rules|
  {
    if rules != [] {
      var chosen := if PathMatches(d.path, rules[0].pathPattern) then rules[0].injections else [];
      var next := ApplyAll(syntax, d, chosen);
      ApplyAllKeepsPathOnly(syntax, d, chosen);
      SelectOnce(syntax, next, rules[1..]);
      SelectedDependsOnPathOnly(next.path, d.path, rules[1..]);
      ApplyAllConcat(syntax, d, chosen, Selected(d.path, rules[1..]));
    }
  }

  /** Two rules that disagree with matching once, for any path with a '#' before its query. */
  function Disagreeing(path: string): seq<InjectionRule> {
    var once := [SetQuery("k", "v")];
    [InjectionRule("*", once), InjectionRule(PathOnly(path), once)]
  }

  lemma SelectedBoth(path: string, first: InjectionRule, second: InjectionRule)
    requires PathMatches(path, first.pathPattern) && PathMatches(path, second.pathPattern)
    ensures Selected(path, [first, second]) == first.injections + second.injections
  {
    var last := [second];
    assert [first, second][1..] == last && last[1..] == [];
    assert Selected(path, last) == second.injections + [];
  }

  lemma DisagreeingSelected(path: string)
    ensures Selected(path, Disagreeing(path)) == [SetQuery("k", "v")] + [SetQuery("k", "v")]
  {
    PatternMatchesItself(PathOnly(path));
    MatchDependsOnPathOnly(PathOnly(path), path, PathOnly(path));
    SelectedBoth(path, Disagreeing(path)[0], Disagreeing(path)[1]);
  }

  lemma AppliedFirstOnly(syntax: HeaderSyntax, d: Draft, first: InjectionRule, second: InjectionRule)
    requires PathMatches(d.path, first.pathPattern)
    requires !PathMatches(ApplyAll(syntax, d, first.injections).path, second.pathPattern)
    ensures ApplyRules(syntax, d, [first, second]) == ApplyAll(syntax, d, first.injections)
  {
    var last := [second];
    assert [first, second][1..] == last && last[1..] == [];
    var next := ApplyAll(syntax, d, first.injections);
    assert ApplyRules(syntax, next, last) == next;
    assert ApplyRules(syntax, d, [first, second]) == ApplyRules(syntax, next, last);
  }

  lemma ApplyOne(syntax: HeaderSyntax, d: Draft, injection: Injection)
    ensures ApplyAll(syntax, d, [injection]) == Apply(syntax, d, injection)
  {
    assert [injection][1..] == [];
  }

  lemma EditedMatchesNoMore(path: string, name: string, value: string)
    requires '#' in PathOnly(path)
    ensures !PathMatches(SetParam(path, name, value), PathOnly(path))
  {
    PathOnlyOfSetParam(path, name, value);
    if PathMatches(SetParam(path, name, value), PathOnly(path)) {
      LiteralIsNeeded(SetParam(path, name, value), PathOnly(path), '#');
    }
  }

  /** Once the query parameter stands in front of the fragment, the second rule no longer matches. */
  lemma DisagreeingRematched(syntax: HeaderSyntax, d: Draft)
    requires '#' in PathOnly(d.path)
    ensures ApplyRules(syntax, d, Disagreeing(d.path)) == Apply(syntax, d, SetQuery("k", "v"))
  {
    ApplyOne(syntax, d, SetQuery("k", "v"));
    EditedMatchesNoMore(d.path, "k", "v");
    AppliedFirstOnly(syntax, d, Disagreeing(d.path)[0], Disagreeing(d.path)[1]);
  }

  lemma FragmentBreaksSelection(syntax: HeaderSyntax, d: Draft)
    requires '#' in PathOnly(d.path)
    ensures ApplyRules(syntax, d, Disagreeing(d.path)).count == d.count + 1
    ensures ApplyAll(syntax, d, Selected(d.path, Disagreeing(d.path))).count == d.count + 2
  {
    var inject := SetQuery("k", "v");
    DisagreeingSelected(d.path);
    DisagreeingRematched(syntax, d);
    ApplyAllConcat(syntax, d, [inject], [inject]);
    ApplyOne(syntax, d, inject);
    ApplyOne(syntax, Apply(syntax, d, inject), inject);
  }

  /** Re-matching a path under edit agrees with matching once, for every rule list, exactly
      when no '#' stands before the query. */
  lemma RematchingAgreesIff(syntax: HeaderSyntax, d: Draft)
    ensures (forall rules: seq<InjectionRule> ::
               ApplyRules(syntax, d, rules) == ApplyAll(syntax, d, Selected(d.path, rules)))
       <==> '#' !in PathOnly(d.path)
  {
    if '#' !in PathOnly(d.path) {
      forall rules: seq<InjectionRule>
        ensures ApplyRules(syntax, d, rules) == ApplyAll(syntax, d, Selected(d.path, rules))
      {
        SelectOnce(syntax, d, rules);
      }
    } else {
      FragmentBreaksSelection(syntax, d);
      var rules := Disagreeing(d.path);
      assert ApplyRules(syntax, d, rules) != ApplyAll(syntax, d, Selected(d.path, rules));
    }
  }

  // ── The last header wins ──────────────────────────────────────────────

  /** The header an injection may change. */
  function Touches(syntax: HeaderSyntax, injection: Injection): Option<string> {
    if injection.SetQuery? then None else syntax.parseName(injection.name)
  }

  lemma {:induction false} UntouchedHeader(syntax: HeaderSyntax, d: Draft, injections: seq<Injection>, h: string)
    requires forall i | 0 <= i < |injections| :: Touches(syntax, injections[i]) != Some(h)
    ensures var r := ApplyAll(syntax, d, injections);
            (h in r.headers <==> h in d.headers) && (h in d.headers ==> r.headers[h] == d.headers[h])
    decreases |injections|
  {
    if injections != [] {
      UntouchedHeader(syntax, Apply(syntax, d, injections[0]), injections[1..], h);
    }
  }

  predicate WritesHeader(syntax: HeaderSyntax, injection: Injection, h: string) {
    injection.SetHeader? && syntax.parseName(injection.name) == Some(h) && syntax.validValue(injection.value)
  }

  /** `all[i]` is the last injection that touches header `h`. */
  predicate LastTouch(syntax: HeaderSyntax, all: seq<Injection>, i: nat, h: string) {
    i < |all| && Touches(syntax, all[i]) == Some(h)
    && forall j | i < j < |all| :: Touches(syntax, all[j]) != Some(h)
  }

  /** All injections are those in front of one, that one, and those behind it. */
  lemma AppliedAround(syntax: HeaderSyntax, d: Draft, all: seq<Injection>, i: nat)
    requires i < |all|
    ensures ApplyAll(syntax, d, all)
         == ApplyAll(syntax, Apply(syntax, ApplyAll(syntax, d, all[..i]), all[i]), all[i + 1..])
  {
    var rest := all[i..];
    assert all == all[..i] + rest && rest[0] == all[i] && rest[1..] == all[i + 1..];
    ApplyAllConcat(syntax, d, all[..i], rest);
  }

  lemma LastWriteStays(syntax: HeaderSyntax, d: Draft, all: seq<Injection>, i: nat, h: string)
    requires LastTouch(syntax, all, i, h) && WritesHeader(syntax, all[i], h)
    ensures var r := ApplyAll(syntax, d, all);
            h in r.headers && r.headers[h] == [all[i].value]
  {
    AppliedAround(syntax, d, all, i);
    UntouchedHeader(syntax, Apply(syntax, ApplyAll(syntax, d, all[..i]), all[i]), all[i + 1..], h);
  }

  /** Among the injections of all matching rules, the last one that touches a header decides
      it: a well-formed `SetHeader` in that place is what the upstream sees. */
  lemma LastHeaderWins(syntax: HeaderSyntax, d: Draft, rules: seq<InjectionRule>, i: nat, h: string)
    requires '#' !in PathOnly(d.path)
    requires LastTouch(syntax, Selected(d.path, rules), i, h)
    requires WritesHeader(syntax, Selected(d.path, rules)[i], h)
    ensures var r := ApplyRules(syntax, d, rules);
            h in r.headers && r.headers[h] == [Selected(d.path, rules)[i].value]
  {
    SelectOnce(syntax, d, rules);
    LastWriteStays(syntax, d, Selected(d.path, rules), i, h);
  }

  // ── Every kind of injection ───────────────────────────────────────────

  /** The injection has something to do: a query parameter always, a header when it is well formed and,
      to be replaced or removed, there. */
  predicate Acts(syntax: HeaderSyntax, headers: Headers, injection: Injection) {
    match injection
    case SetQuery(_, _) => true
    case SetHeader(name, value) => syntax.parseName(name).Some? && syntax.validValue(value)
    case ReplaceHeader(name, value) =>
      syntax.parseName(name).Some? && syntax.parseName(name).value in headers && syntax.validValue(value)
    case RemoveHeader(name) => syntax.parseName(name).Some? && syntax.parseName(name).value in headers
  }

  /** What acts is counted, what does not changes nothing; a set query parameter leaves the headers alone
      and is read back from the path, everything else leaves the path alone. */
  lemma ActionsCount(syntax: HeaderSyntax, d: Draft, injection: Injection)
    ensures var r := Apply(syntax, d, injection);
            && (Acts(syntax, d.headers, injection) ==> r.count == d.count + 1)
            && (!Acts(syntax, d.headers, injection) ==> r == d)
            && (!injection.SetQuery? ==> r.path == d.path)
            && (injection.SetQuery? ==> r.headers == d.headers)
    ensures injection.SetQuery? && IsBytes(injection.name) && IsBytes(injection.value) ==>
              var piece := Param(Apply(syntax, d, injection).path, injection.name);
              && piece.Some? && NameRead(piece.value) == injection.name && ValueRead(piece.value) == injection.value
  {
    if injection.SetQuery? && IsBytes(injection.name) && IsBytes(injection.value) {
      SetPieceReads(d.path, injection.name, injection.value);
    }
  }

  /** The injection writes header `h` where it is there, or anyway. */
  predicate Writes(syntax: HeaderSyntax, injection: Injection, h: string) {
    (injection.SetHeader? || injection.ReplaceHeader?)
    && syntax.parseName(injection.name) == Some(h) && syntax.validValue(injection.value)
  }

  predicate Removes(syntax: HeaderSyntax, injection: Injection, h: string) {
    injection.RemoveHeader? && syntax.parseName(injection.name) == Some(h)
  }

  /** `all[i]` is the last injection that can change header `h`. */
  predicate LastChange(syntax: HeaderSyntax, all: seq<Injection>, i: nat, h: string) {
    && i < |all| && (Writes(syntax, all[i], h) || Removes(syntax, all[i], h))
    && forall j | i < j < |all| :: !Writes(syntax, all[j], h) && !Removes(syntax, all[j], h)
  }

  lemma {:induction false} HeaderKept(syntax: HeaderSyntax, d: Draft, injections: seq<Injection>, h: string)
    requires forall i | 0 <= i < |injections| :: !Writes(syntax, injections[i], h) && !Removes(syntax, injections[i], h)
    ensures var r := ApplyAll(syntax, d, injections);
            (h in r.headers <==> h in d.headers) && (h in d.headers ==> r.headers[h] == d.headers[h])
    decreases |injections|
  {
    if injections != [] {
      HeaderKept(syntax, Apply(syntax, d, injections[0]), injections[1..], h);
    }
  }

  /** The state right after the last change of a header, as far as that header goes. */
  lemma UpToLastChange(syntax: HeaderSyntax, d: Draft, all: seq<Injection>, i: nat, h: string)
    requires LastChange(syntax, all, i, h)
    ensures var r, u := ApplyAll(syntax, d, all), Apply(syntax, ApplyAll(syntax, d, all[..i]), all[i]);
            (h in r.headers <==> h in u.headers) && (h in u.headers ==> r.headers[h] == u.headers[h])
  {
    AppliedAround(syntax, d, all, i);
    HeaderKept(syntax, Apply(syntax, ApplyAll(syntax, d, all[..i]), all[i]), all[i + 1..], h);
  }

  /** The last injection that can change a header decides what it ends as: removed, it is gone; set, it
      has the new value; replaced, it has the new value exactly if it was there just before. A header no
      injection can change stays as it was. */
  lemma HeaderDecided(syntax: HeaderSyntax, d: Draft, all: seq<Injection>, i: nat, h: string)
    requires LastChange(syntax, all, i, h)
    ensures var r := ApplyAll(syntax, d, all).headers;
            && (Removes(syntax, all[i], h) ==> h !in r)
            && (all[i].SetHeader? ==> h in r)
            && (all[i].ReplaceHeader? ==> (h in r <==> h in ApplyAll(syntax, d, all[..i]).headers))
            && (h in r ==> r[h] == [all[i].value])
  {
    UpToLastChange(syntax, d, all, i, h);
  }

  predicate ByteNames(injections: seq<Injection>) {
    forall i | 0 <= i < |injections| && injections[i].SetQuery? ::
      IsBytes(injections[i].name) && IsBytes(injections[i].value)
  }

  lemma {:induction false} QueryKept(syntax: HeaderSyntax, d: Draft, injections: seq<Injection>, name: string)
    requires IsBytes(name) && ByteNames(injections)
    requires forall i | 0 <= i < |injections| && injections[i].SetQuery? :: injections[i].name != name
    ensures Param(ApplyAll(syntax, d, injections).path, name) == Param(d.path, name)
    decreases |injections|
  {
    if injections != [] {
      if injections[0].SetQuery? {
        SetParamLookup(d.path, injections[0].name, injections[0].value, name);
      }
      QueryKept(syntax, Apply(syntax, d, injections[0]), injections[1..], name);
    }
  }

  /** The last injection that sets a query parameter decides the piece found under its name. */
  lemma QueryDecided(syntax: HeaderSyntax, d: Draft, all: seq<Injection>, i: nat)
    requires i < |all| && all[i].SetQuery? && ByteNames(all)
    requires forall j | i < j < |all| && all[j].SetQuery? :: all[j].name != all[i].name
    ensures var piece := Param(ApplyAll(syntax, d, all).path, all[i].name);
            piece.Some? && NameRead(piece.value) == all[i].name && ValueRead(piece.value) == all[i].value
  {
    var before := ApplyAll(syntax, d, all[..i]);
    AppliedAround(syntax, d, all, i);
    SetPieceReads(before.path, all[i].name, all[i].value);
    QueryKept(syntax, Apply(syntax, before, all[i]), all[i + 1..], all[i].name);
  }
}
