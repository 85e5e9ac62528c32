/** Which app provider serves a request, and the injection rules built for it (apps.rs). */
module Apps {
  import opened Globs
  import opened Inject
  import opened Text
  import opened Wrappers

  datatype HostPattern = Exact(host: string) | Suffix(suffix: string)

  datatype AuthStrategy = Bearer | BasicXAccessToken | NoAuth

  datatype HostRule = HostRule(pattern: HostPattern, pathPrefix: Option<string>, strategy: AuthStrategy)

  datatype AppProvider = AppProvider(provider: string, hostRules: seq<HostRule>)

  predicate HostRuleMatches(rule: HostRule, hostname: string) {
    match rule.pattern
    case Exact(host) => host == hostname
    case Suffix(suffix) => EndsWith(hostname, suffix) && |hostname| > |suffix|
  }

  /** The first provider of that name in the table. */
  function FindProvider(table: seq<AppProvider>, provider: string): Option<AppProvider> {
    if table == [] then None
    else if table[0].provider == provider then Some(table[0])
    else FindProvider(table[1..], provider)
  }

  function PathPattern(rule: HostRule): string {
    match rule.pathPrefix
    case None => "*"
    case Some(prefix) => prefix + "*"
  }

  /** The headers a strategy sets; `base64` is the standard base64 encoding. */
  function StrategyInjections(strategy: AuthStrategy, token: string, base64: string -> string): seq<Injection> {
    match strategy
    case Bearer => [SetHeader("authorization", "Bearer " + token)]
    case BasicXAccessToken => [SetHeader("authorization", "Basic " + base64("x-access-token:" + token))]
    case NoAuth => []
  }

  function BuildRules(rules: seq<HostRule>, hostname: string, token: string, base64: string -> string)
      : seq<InjectionRule>
  {
    if rules == [] then []
    else
      var rest := BuildRules(rules[1..], hostname, token, base64);
      if HostRuleMatches(rules[0], hostname) then
        [InjectionRule(PathPattern(rules[0]), StrategyInjections(rules[0].strategy, token, base64))] + rest
      else
        rest
  }

  function BuildAppInjectionRules(table: seq<AppProvider>, provider: string, hostname: string,
                                  token: string, base64: string -> string): seq<InjectionRule>
  {
    match FindProvider(table, provider)
    case None => []
    case Some(app) => BuildRules(app.hostRules, hostname, token, base64)
  }

  predicate RuleServes(rule: HostRule, hostname: string, path: string) {
    HostRuleMatches(rule, hostname) && (rule.pathPrefix.Some? ==> rule.pathPrefix.value <= path)
  }

  predicate ProviderMatchesHostAndPath(table: seq<AppProvider>, provider: string, hostname: string, path: string) {
    match FindProvider(table, provider)
    case None => false
    case Some(app) => exists i | 0 <= i < |app.hostRules| :: RuleServes(app.hostRules[i], hostname, path)
  }

  // ── Routing against injection ─────────────────────────────────────────

  /** The prefix is plain text: no pattern or query character. */
  predicate PlainPrefix(rule: HostRule) {
    rule.pathPrefix.Some? ==> '*' !in rule.pathPrefix.value && '?' !in rule.pathPrefix.value
  }

  /** The query-free path is the prefix without its final slash. */
  predicate StopsAtSlash(rule: HostRule, path: string) {
    rule.pathPrefix.Some? && rule.pathPrefix.value == PathOnly(path) + "/"
  }

  lemma {:induction false} PrefixWithoutQuery(prefix: string, path: string)
    requires '?' !in prefix
    ensures prefix <= PathOnly(path) <==> prefix <= path
  {
    if prefix != "" && path != "" && prefix[0] == path[0] {
      PrefixWithoutQuery(prefix[1..], path[1..]);
      assert PathOnly(path) == [path[0]] + PathOnly(path[1..]);
      assert prefix <= PathOnly(path) <==> prefix[1..] <= PathOnly(path)[1..];
      assert prefix <= path <==> prefix[1..] <= path[1..];
    }
  }

  /** The built pattern is never of the segment-wildcard form. */
  lemma PlainPatternShape(prefix: string)
    requires '*' !in prefix && prefix != ""
    ensures !HasMidPathWildcard(prefix + "*") && EndsWith(prefix + "*", "*")
    ensures (prefix + "*")[..|prefix|] == prefix
    ensures EndsWith(prefix + "*", "/*") <==> prefix[|prefix| - 1] == '/'
  {
    var pattern := prefix + "*";
    assert pattern[..|pattern| - 1] == prefix;
    assert pattern[|pattern| - 2..] == [prefix[|prefix| - 1], '*'];
  }

  lemma BelowPrefix(prefix: string, stem: string, path: string)
    requires prefix == stem + "/"
    ensures prefix <= path <==> (stem <= path && |path| > |stem| && path[|stem|] == '/')
  {
    if stem <= path && |path| > |stem| && path[|stem|] == '/' {
      assert path[..|prefix|] == prefix;
    }
  }

  /** One rule's pattern matches exactly the paths the rule serves, and its prefix without
      the final slash. */
  lemma PatternAgreesIff(rule: HostRule, path: string)
    requires PlainPrefix(rule)
    ensures PathMatches(path, PathPattern(rule))
       <==> ((rule.pathPrefix.Some? ==> rule.pathPrefix.value <= path) || StopsAtSlash(rule, path))
  {
    if rule.pathPrefix.Some? && rule.pathPrefix.value != "" {
      var prefix := rule.pathPrefix.value;
      PrefixWithoutQuery(prefix, path);
      PlainPatternShape(prefix);
      var stem := prefix[..|prefix| - 1];
      if prefix[|prefix| - 1] == '/' {
        assert prefix == stem + "/";
        assert (prefix + "*")[..|prefix| - 1] == stem;
        BelowPrefix(prefix, stem, PathOnly(path));
        assert StopsAtSlash(rule, path) <==> PathOnly(path) == stem;
      } else {
        assert !StopsAtSlash(rule, path);
      }
    }
  }

  ghost predicate SomeRuleMatches(rules: seq<InjectionRule>, path: string) {
    exists i | 0 <= i < |rules| :: PathMatches(path, rules[i].pathPattern)
  }

  /** A rule is built for each host rule that matches, and for nothing else. */
  lemma {:induction false} BuiltFrom(rules: seq<HostRule>, hostname: string, token: string,
                                     base64: string -> string, path: string)
    ensures SomeRuleMatches(BuildRules(rules, hostname, token, base64), path)
       <==> SomeHostRule(rules, hostname, path)
  {
    if rules != [] {
      BuiltFrom(rules[1..], hostname, token, base64, path);
      SomeHostRuleCons(rules, hostname, path);
      if HostRuleMatches(rules[0], hostname) {
        var built := BuildRules(rules, hostname, token, base64);
        assert built[1..] == BuildRules(rules[1..], hostname, token, base64);
        SomeRuleCons(built, path);
      }
    }
  }

  lemma SomeRuleCons(rules: seq<InjectionRule>, path: string)
    requires rules != []
    ensures SomeRuleMatches(rules, path)
       <==> PathMatches(path, rules[0].pathPattern) || SomeRuleMatches(rules[1..], path)
  {
    assert forall i | 0 <= i < |rules| - 1 :: rules[1..][i] == rules[i + 1];
    assert forall i | 1 <= i < |rules| :: rules[i] == rules[1..][i - 1];
  }

  ghost predicate SomeHostRule(rules: seq<HostRule>, hostname: string, path: string) {
    exists i | 0 <= i < |rules| :: HostRuleMatches(rules[i], hostname) && PathMatches(path, PathPattern(rules[i]))
  }

  lemma SomeHostRuleCons(rules: seq<HostRule>, hostname: string, path: string)
    requires rules != []
    ensures SomeHostRule(rules, hostname, path)
       <==> ((HostRuleMatches(rules[0], hostname) && PathMatches(path, PathPattern(rules[0])))
             || SomeHostRule(rules[1..], hostname, path))
  {
    assert forall i | 0 <= i < |rules| - 1 :: rules[1..][i] == rules[i + 1];
    assert forall i | 1 <= i < |rules| :: rules[i] == rules[1..][i - 1];
  }

  /** A request gets one of a provider's injections exactly when the provider is judged to serve
      it, or its query-free path is a served prefix without the final slash. */
  lemma RoutingAgreesIff(table: seq<AppProvider>, provider: string, hostname: string, path: string,
                         token: string, base64: string -> string)
    requires FindProvider(table, provider).Some? ==>
               forall i | 0 <= i < |FindProvider(table, provider).value.hostRules| ::
                 PlainPrefix(FindProvider(table, provider).value.hostRules[i])
    ensures SomeRuleMatches(BuildAppInjectionRules(table, provider, hostname, token, base64), path)
       <==> (|| ProviderMatchesHostAndPath(table, provider, hostname, path)
             || (FindProvider(table, provider).Some?
                 && exists i | 0 <= i < |FindProvider(table, provider).value.hostRules| ::
                      var rule := FindProvider(table, provider).value.hostRules[i];
                      HostRuleMatches(rule, hostname) && StopsAtSlash(rule, path)))
  {
    match FindProvider(table, provider)
    case None =>
    case Some(app) =>
      var rules := app.hostRules;
      BuiltFrom(rules, hostname, token, base64, path);
      forall i | 0 <= i < |rules|
        ensures PathMatches(path, PathPattern(rules[i]))
           <==> ((rules[i].pathPrefix.Some? ==> rules[i].pathPrefix.value <= path)
                 || StopsAtSlash(rules[i], path))
      {
        PatternAgreesIff(rules[i], path);
      }
  }

  /** The disagreement is real: a rule never serves its prefix without the final slash, yet the
      pattern built from it matches. */
  lemma BarePrefixIsInjectedNotServed(rule: HostRule, hostname: string, path: string)
    requires PlainPrefix(rule) && StopsAtSlash(rule, path)
    ensures PathMatches(path, PathPattern(rule)) && !RuleServes(rule, hostname, path)
  {
    PatternAgreesIff(rule, path);
    PrefixWithoutQuery(rule.pathPrefix.value, path);
    assert |PathOnly(path)| < |rule.pathPrefix.value|;
  }

  // ── What reaches the service ──────────────────────────────────────────

  /** The `authorization` header of a strategy, if it has one. */
  function AuthText(strategy: AuthStrategy, token: string, base64: string -> string): Option<string> {
    match strategy
    case Bearer => Some("Bearer " + token)
    case BasicXAccessToken => Some("Basic " + base64("x-access-token:" + token))
    case NoAuth => None
  }

  /** A rule for the host whose pattern matches the path and which has a header to set. */
  predicate Authorizes(rule: HostRule, hostname: string, path: string) {
    HostRuleMatches(rule, hostname) && PathMatches(path, PathPattern(rule)) && rule.strategy != NoAuth
  }

  /** Header names and values as the HTTP library takes them. */
  ghost predicate TakesAuth(syntax: HeaderSyntax, token: string, base64: string -> string) {
    && syntax.parseName("authorization") == Some("authorization")
    && syntax.validValue("Bearer " + token) && syntax.validValue("Basic " + base64("x-access-token:" + token))
  }

  /** The built rule of one host rule, applied. */
  lemma OneHostRule(syntax: HeaderSyntax, d: Draft, rule: HostRule, token: string, base64: string -> string)
    requires TakesAuth(syntax, token, base64)
    ensures var r := ApplyAll(syntax, d, StrategyInjections(rule.strategy, token, base64));
            match AuthText(rule.strategy, token, base64)
            case Some(text) => r == Draft(d.headers["authorization" := [text]], d.path, d.count + 1)
            case None => r == d
  {
    if rule.strategy != NoAuth {
      ApplyOne(syntax, d, StrategyInjections(rule.strategy, token, base64)[0]);
    }
  }

  /** The built rules of a provider set the `authorization` header to the text of the last host rule that
      authorizes, and change nothing else. */
  lemma {:induction false} AuthorizationSet(
    syntax: HeaderSyntax, d: Draft, rules: seq<HostRule>, hostname: string, token: string, base64: string -> string)
    requires TakesAuth(syntax, token, base64)
    ensures var r := ApplyRules(syntax, d, BuildRules(rules, hostname, token, base64));
            && r.path == d.path
            && (forall h: string | h != "authorization" ::
                  (h in r.headers <==> h in d.headers) && (h in r.headers ==> r.headers[h] == d.headers[h]))
            && ((forall k | 0 <= k < |rules| :: !Authorizes(rules[k], hostname, d.path)) ==> r == d)
            && forall k | 0 <= k < |rules| && LastAuthorizes(rules, k, hostname, d.path) ::
                 "authorization" in r.headers
                 && r.headers["authorization"] == [AuthText(rules[k].strategy, token, base64).value]
    decreases |rules|
  {
    if rules != [] {
      var rule, rest := rules[0], rules[1..];
      var built := BuildRules(rules, hostname, token, base64);
      OneHostRule(syntax, d, rule, token, base64);
      var next := if HostRuleMatches(rule, hostname) && PathMatches(d.path, PathPattern(rule))
                  then ApplyAll(syntax, d, StrategyInjections(rule.strategy, token, base64)) else d;
      if HostRuleMatches(rule, hostname) {
        assert built[1..] == BuildRules(rest, hostname, token, base64);
      }
      assert ApplyRules(syntax, d, built) == ApplyRules(syntax, next, BuildRules(rest, hostname, token, base64));
      AuthorizationSet(syntax, next, rest, hostname, token, base64);
      LastAuthorizesTail(rules, hostname, d.path);
    }
  }

  /** `rules[k]` is the last rule that authorizes. */
  predicate LastAuthorizes(rules: seq<HostRule>, k: nat, hostname: string, path: string) {
    && k < |rules| && Authorizes(rules[k], hostname, path)
    && forall j | k < j < |rules| :: !Authorizes(rules[j], hostname, path)
  }

  lemma LastAuthorizesTail(rules: seq<HostRule>, hostname: string, path: string)
    requires rules != []
    ensures forall k | 0 < k < |rules| :: LastAuthorizes(rules, k, hostname, path)
              <==> LastAuthorizes(rules[1..], k - 1, hostname, path)
    ensures (forall k | 0 <= k < |rules| - 1 :: !Authorizes(rules[1..][k], hostname, path))
       <==> (forall k | 0 < k < |rules| :: !Authorizes(rules[k], hostname, path))
  {
    assert forall k | 0 < k < |rules| :: rules[k] == rules[1..][k - 1];
    assert forall k | 0 <= k < |rules| - 1 :: rules[1..][k] == rules[k + 1];
  }

  /** A suffix pattern covers the longer hosts that end with it. */
  lemma HostRuleIff(rule: HostRule, hostname: string)
    ensures HostRuleMatches(rule, hostname)
       <==> match rule.pattern
            case Exact(host) => hostname == host
            case Suffix(suffix) => exists front: string :: front != "" && hostname == front + suffix
  {
    if rule.pattern.Suffix? && HostRuleMatches(rule, hostname) {
      var suffix := rule.pattern.suffix;
      assert hostname == hostname[..|hostname| - |suffix|] + suffix;
    }
  }

  /** The provider of a name is the first of that name in the table. */
  lemma {:induction false} ProviderIsFirst(table: seq<AppProvider>, provider: string, k: nat)
    requires k < |table| && table[k].provider == provider
    requires forall j | 0 <= j < k :: table[j].provider != provider
    ensures FindProvider(table, provider) == Some(table[k])
  {
    if k > 0 {
      ProviderIsFirst(table[1..], provider, k - 1);
    }
  }

  /** A request to a provider goes out with the `authorization` header of the last of its host rules that
      authorizes host and path, whatever it carried before, and otherwise unchanged. */
  lemma ProviderAuthorizes(
    syntax: HeaderSyntax, d: Draft, table: seq<AppProvider>, p: nat, k: nat, hostname: string, token: string,
    base64: string -> string)
    requires TakesAuth(syntax, token, base64) && p < |table|
    requires forall j | 0 <= j < p :: table[j].provider != table[p].provider
    requires LastAuthorizes(table[p].hostRules, k, hostname, d.path)
    ensures var r := ApplyRules(syntax, d, BuildAppInjectionRules(table, table[p].provider, hostname, token, base64));
            && "authorization" in r.headers && r.path == d.path
            && r.headers["authorization"]
               == [match table[p].hostRules[k].strategy
                   case Bearer => "Bearer " + token
                   case _ => "Basic " + base64("x-access-token:" + token)]
            && forall h: string | h != "authorization" ::
                 (h in r.headers <==> h in d.headers) && (h in r.headers ==> r.headers[h] == d.headers[h])
  {
    ProviderIsFirst(table, table[p].provider, p);
    AuthorizationSet(syntax, d, table[p].hostRules, hostname, token, base64);
  }
}
