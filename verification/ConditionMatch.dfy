/** Body conditions of policy rules (condition_match.rs). */
module ConditionMatch {
  import opened Wrappers
  import opened Text
  import opened PolicyRules

  type Body = Option<string>

  /** An MCP JSON-RPC request: its method and, for a tool call, the tool's name. */
  datatype McpRequest = McpRequest(rpcMethod: string, toolName: Option<string>)

  /** The parsers of other libraries that conditions rely on. */
  datatype Parsers = Parsers(
    json: string -> Option<Json>, mcp: string -> Option<McpRequest>, regexMatch: (string, string) -> bool)

  datatype Condition = Condition(target: string, operator: string, value: string)

  function DecodeCondition(entry: Json): Option<Condition> {
    match (StringAt(entry, "target"), StringAt(entry, "value"))
    case (Some(target), Some(value)) =>
      Some(Condition(target, match StringAt(entry, "operator") case Some(op) => op case None => "eq", value))
    case _ => None
  }

  /** The well-formed entries, in order. */
  function DecodeAll(entries: seq<Json>): seq<Condition> {
    if entries == [] then []
    else (match DecodeCondition(entries[0]) case Some(c) => [c] case None => []) + DecodeAll(entries[1..])
  }

  function Conditions(rule: PolicyRule): seq<Condition> {
    match rule.conditionsRaw
    case Some(Arr(items)) => DecodeAll(items)
    case _ => []
  }

  const BODY_JSON := "body_json:"
  const MCP_TOOL := "mcp_tool:"

  predicate RuleNeedsBody(rule: PolicyRule) {
    exists i | 0 <= i < |Conditions(rule)| ::
      MCP_TOOL <= Conditions(rule)[i].target || BODY_JSON <= Conditions(rule)[i].target
  }

  predicate NeedsBodyBuffer(rules: seq<PolicyRule>) {
    exists i | 0 <= i < |rules| :: RuleNeedsBody(rules[i])
  }

  // ── Fields of a JSON body ─────────────────────────────────────────────

  /** Follow `keys` through nested objects; empty keys are skipped, a missing one gives null. */
  function Walk(v: Json, keys: seq<string>): Json
    decreases |keys|
  {
    if keys == [] then v
    else if keys[0] == "" then Walk(v, keys[1..])
    else match v.Get(keys[0])
      case Some(next) => Walk(next, keys[1..])
      case None => Null
  }

  function StripPrefixChar(s: string, c: char): string {
    if s != "" && s[0] == c then s[1..] else s
  }

  function FieldAt(body: Json, path: string): Json {
    Walk(body, Split(StripPrefixChar(StripPrefixChar(path, '$'), '.'), '.'))
  }

  method ExtractField(body: Json, path: string) returns (field: Json)
    ensures field == FieldAt(body, path)
  {
    var stripped := StripPrefixChar(StripPrefixChar(path, '$'), '.');
    if stripped == "" {
      assert Split(stripped, '.') == [""] && [""][1..] == [];
      return body;
    }
    var current := body;
    var keys := Split(stripped, '.');
    for i := 0 to |keys|
      invariant Walk(current, keys[i..]) == FieldAt(body, path)
    {
      assert keys[i..][1..] == keys[i + 1..];
      if keys[i] != "" {
        match current.Get(keys[i]) {
          case Some(next) => current := next;
          case None => return Null;
        }
      }
    }
    return current;
  }

  lemma {:induction false} WalkConcat(v: Json, a: seq<string>, b: seq<string>)
    ensures Walk(v, a + b) == Walk(Walk(v, a), b)
    decreases |a|
  {
    if a == [] {
      assert a + b == b;
    } else {
      assert (a + b)[1..] == a[1..] + b;
      if a[0] == "" {
        WalkConcat(v, a[1..], b);
      } else {
        match v.Get(a[0])
        case Some(next) => WalkConcat(next, a[1..], b);
        case None => WalkNull(b);
      }
    }
  }

  lemma {:induction false} WalkNull(keys: seq<string>)
    ensures Walk(Null, keys) == Null
  {
    if keys != [] {
      WalkNull(keys[1..]);
    }
  }

  /** A dotted path reads the field of the field. */
  lemma FieldPathComposes(body: Json, p: string, q: string)
    requires p != "" && p[0] != '$' && p[0] != '.'
    requires '.' !in p && q != "" && q[0] != '$' && q[0] != '.'
    ensures FieldAt(body, p + "." + q) == FieldAt(FieldAt(body, p), q)
    ensures FieldAt(body, "$." + p) == FieldAt(body, p)
  {
    SplitHead(p, '.', q);
    WalkConcat(body, [p], Split(q, '.'));
    assert ("$." + p)[1..] == "." + p && ("." + p)[1..] == p;
  }

  // ── Conditions against a body ─────────────────────────────────────────

  predicate ContainsText(s: string, part: string) {
    exists i | 0 <= i <= |s| :: part <= s[i..]
  }

  predicate ApplyOperator(parsers: Parsers, op: string, field: Json, expected: string) {
    if op == "eq" then field == Str(expected)
    else if op == "neq" then field != Str(expected)
    else if op == "contains" then
      (match field
       case Str(s) => ContainsText(s, expected)
       case Arr(items) => Str(expected) in items
       case _ => false)
    else if op == "exists" then field != Null
    else if op == "regex" then field.Str? && parsers.regexMatch(expected, field.s)
    else true
  }

  predicate BodyJsonMatches(parsers: Parsers, path: string, op: string, value: string, body: Body) {
    var parsed := if body.Some? then parsers.json(body.value) else None;
    match parsed
    case Some(v) => ApplyOperator(parsers, op, FieldAt(v, path), value)
    case None => op == "neq"
  }

  predicate McpToolMatches(parsers: Parsers, op: string, value: string, body: Body) {
    if body.None? then op == "ne"
    else
      var request := parsers.mcp(body.value);
      if request.None? || request.value.rpcMethod != "tools/call" then true
      else if request.value.toolName.None? then op == "ne"
      else if op == "ne" then request.value.toolName.value != value
      else request.value.toolName.value == value
  }

  predicate ConditionMatches(parsers: Parsers, c: Condition, body: Body) {
    if BODY_JSON <= c.target then
      BodyJsonMatches(parsers, c.target[|BODY_JSON|..], c.operator, c.value, body)
    else if MCP_TOOL <= c.target then McpToolMatches(parsers, c.operator, c.value, body)
    else true
  }

  predicate ConditionsMatch(parsers: Parsers, rule: PolicyRule, body: Body) {
    forall i | 0 <= i < |Conditions(rule)| :: ConditionMatches(parsers, Conditions(rule)[i], body)
  }

  /** A rule list that asks for no buffering cannot tell bodies apart. */
  lemma BodyIrrelevant(parsers: Parsers, rules: seq<PolicyRule>, rule: PolicyRule, a: Body, b: Body)
    requires !NeedsBodyBuffer(rules) && rule in rules
    ensures ConditionsMatch(parsers, rule, a) == ConditionsMatch(parsers, rule, b)
  {
    assert !RuleNeedsBody(rule);
    forall i | 0 <= i < |Conditions(rule)|
      ensures ConditionMatches(parsers, Conditions(rule)[i], a) == ConditionMatches(parsers, Conditions(rule)[i], b)
    {
    }
  }
}
