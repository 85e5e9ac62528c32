/** The data of policy rules (policy.rs), shared by the matchers and the evaluator. */
module PolicyRules {
  import opened Wrappers

  /** A parsed JSON value. */
  datatype Json =
    | Null
    | Bool(b: bool)
    | Num(n: int)
    | Str(s: string)
    | Arr(items: seq<Json>)
    | Obj(fields: map<string, Json>)
  {
    /** Member lookup; anything but an object has no members. */
    function Get(key: string): Option<Json> {
      if Obj? && key in fields then Some(fields[key]) else None
    }

    function AsString(): Option<string> {
      if Str? then Some(s) else None
    }
  }

  /** The string member `key` of `j`, if there is one. */
  function StringAt(j: Json, key: string): Option<string> {
    match j.Get(key)
    case Some(v) => v.AsString()
    case None => None
  }

  datatype PolicyScope = Organization | Project | Agent

  datatype PolicyAction =
    | Block
    | RateLimit(ruleId: string, maxRequests: nat, windowSecs: nat)
    | ManualApproval(ruleId: string)
    | Allow

  datatype PolicyRule = PolicyRule(
    name: string, pathPattern: string, httpMethod: Option<string>,
    action: PolicyAction, conditionsRaw: Option<Json>, scope: PolicyScope)
}
