/** What each kind of condition asks of a body (condition_match.rs). */
module ConditionMeaning {
  import opened Wrappers
  import opened Text
  import opened PolicyRules
  import opened ConditionMatch

  // ── Paths ─────────────────────────────────────────────────────────────

  /** A key without dots, not to be mistaken for the `$` or `.` in front of a path. */
  predicate PlainKey(key: string) {
    key != "" && key[0] != '$' && '.' !in key
  }

  lemma FieldOfKey(v: Json, key: string)
    requires PlainKey(key)
    ensures FieldAt(v, key) == if v.Obj? && key in v.fields then v.fields[key] else Null
  {
    SplitHead(key, '.', "");
    assert key[0] in key;
    assert StripPrefixChar(StripPrefixChar(key, '$'), '.') == key;
    assert FieldAt(v, key) == Walk(v, [key]) && [key][1..] == [];
    if v.Obj? && key in v.fields {
      assert Walk(v, [key]) == Walk(v.fields[key], []);
    }
  }

  lemma WholeBody(v: Json)
    ensures FieldAt(v, "") == v && FieldAt(v, "$") == v && FieldAt(v, "$.") == v
  {
    assert "$"[1..] == "" && "$."[1..] == "." && "."[1..] == "";
    assert Split("", '.') == [""] && [""][1..] == [];
  }

  // ── Conditions on a JSON body ─────────────────────────────────────────

  /** The body is JSON, with this at the path. */
  ghost predicate Reads(parsers: Parsers, body: Body, path: string, field: Json) {
    body.Some? && parsers.json(body.value).Some? && FieldAt(parsers.json(body.value).value, path) == field
  }

  ghost predicate ParsesAsJson(parsers: Parsers, body: Body) {
    body.Some? && parsers.json(body.value).Some?
  }

  /** A condition on the body's field at `path`. */
  predicate Holds(parsers: Parsers, path: string, op: string, value: string, body: Body) {
    ConditionMatches(parsers, Condition("body_json:" + path, op, value), body)
  }

  ghost predicate Inside(part: string, s: string) {
    exists front: string, back: string :: s == front + part + back
  }

  lemma ContainsIff(s: string, part: string)
    ensures ContainsText(s, part) <==> Inside(part, s)
  {
    if i :| 0 <= i <= |s| && part <= s[i..] {
      assert s == s[..i] + part + s[i + |part|..];
    }
    if front: string, back: string :| s == front + part + back {
      assert s[|front|..] == part + back;
    }
  }

  lemma BodyTarget(parsers: Parsers, path: string, op: string, value: string, body: Body)
    ensures Holds(parsers, path, op, value, body) == BodyJsonMatches(parsers, path, op, value, body)
  {
    assert ("body_json:" + path)[|BODY_JSON|..] == path;
  }

  /** "eq" asks for the very text and "neq" is its negation, "exists" for anything but null. */
  lemma EqualityMeaning(parsers: Parsers, path: string, value: string, body: Body)
    ensures Holds(parsers, path, "eq", value, body) <==> Reads(parsers, body, path, Str(value))
    ensures Holds(parsers, path, "neq", value, body) <==> !Holds(parsers, path, "eq", value, body)
    ensures Holds(parsers, path, "exists", value, body)
       <==> exists field :: Reads(parsers, body, path, field) && field != Null
  {
    BodyTarget(parsers, path, "eq", value, body);
    BodyTarget(parsers, path, "neq", value, body);
    BodyTarget(parsers, path, "exists", value, body);
    if ParsesAsJson(parsers, body) {
      assert Reads(parsers, body, path, FieldAt(parsers.json(body.value).value, path));
    }
  }

  /** "contains" asks for a text around the value or an array with the value in it. */
  lemma ContainsMeaning(parsers: Parsers, path: string, value: string, body: Body)
    ensures Holds(parsers, path, "contains", value, body)
       <==> || (exists s :: Reads(parsers, body, path, Str(s)) && Inside(value, s))
            || (exists items :: Reads(parsers, body, path, Arr(items)) && Str(value) in items)
  {
    BodyTarget(parsers, path, "contains", value, body);
    if ParsesAsJson(parsers, body) {
      var field := FieldAt(parsers.json(body.value).value, path);
      assert Reads(parsers, body, path, field);
      if field.Str? {
        ContainsIff(field.s, value);
      }
    }
  }

  /** "regex" asks for a text the expression matches; an operator of another name asks for JSON only. */
  lemma RegexMeaning(parsers: Parsers, path: string, op: string, value: string, body: Body)
    requires op !in {"eq", "neq", "contains", "exists", "regex"}
    ensures Holds(parsers, path, "regex", value, body)
       <==> exists s :: Reads(parsers, body, path, Str(s)) && parsers.regexMatch(value, s)
    ensures Holds(parsers, path, op, value, body) <==> ParsesAsJson(parsers, body)
  {
    BodyTarget(parsers, path, "regex", value, body);
    BodyTarget(parsers, path, op, value, body);
    if ParsesAsJson(parsers, body) {
      assert Reads(parsers, body, path, FieldAt(parsers.json(body.value).value, path));
    }
  }

  // ── Conditions on a tool call ─────────────────────────────────────────

  /** The body calls this tool; without a name it is a call all the same. */
  ghost predicate CallsTool(parsers: Parsers, body: Body, tool: Option<string>) {
    body.Some? && parsers.mcp(body.value) == Some(McpRequest("tools/call", tool))
  }

  /** The body is there, and is no tool call. */
  ghost predicate OtherCall(parsers: Parsers, body: Body) {
    body.Some? && forall tool :: !CallsTool(parsers, body, tool)
  }

  /** "ne" asks for no call of the tool, every other operator for a call of exactly that tool; a body
      that is no tool call passes both, and none of the two can be told without a body or a name. */
  lemma ToolMeaning(parsers: Parsers, target: string, op: string, value: string, body: Body)
    requires "mcp_tool:" <= target && op != "ne"
    ensures ConditionMatches(parsers, Condition(target, op, value), body)
       <==> CallsTool(parsers, body, Some(value)) || OtherCall(parsers, body)
    ensures ConditionMatches(parsers, Condition(target, "ne", value), body) <==> !CallsTool(parsers, body, Some(value))
  {
    assert target[0] == 'm';
    if body.Some? && parsers.mcp(body.value).Some? {
      var request := parsers.mcp(body.value).value;
      assert request == McpRequest(request.rpcMethod, request.toolName);
      assert request.rpcMethod == "tools/call" ==> CallsTool(parsers, body, request.toolName);
    }
  }

  /** Conditions on anything but the body always hold here. */
  lemma OtherTargets(parsers: Parsers, c: Condition, body: Body)
    requires !("body_json:" <= c.target) && !("mcp_tool:" <= c.target)
    ensures ConditionMatches(parsers, c, body)
  {
  }
}
