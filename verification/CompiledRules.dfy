/** Permission rules and the two-level index they are compiled into. */
module CompiledRules {
  import opened Json

  datatype Source = Preset | Direct

  // A normalised rule: it has an id, an action and a resource; "*" is the wildcard resource.
  datatype Rule = Rule(id: string, source: Source, action: string, resource: string,
                       whereValue: Json, inputValue: Json)

  // A content hash is the canonical form it is computed from; any other stored hash is a label.
  datatype Hash = Content(canonical: seq<Json>) | Label(text: string)

  // resource -> action -> rules, in the order of the permission list
  type Index = map<string, map<string, seq<Rule>>>

  function Bucket(ix: Index, resource: string, action: string): seq<Rule> {
    if resource in ix && action in ix[resource] then ix[resource][action] else []
  }

  predicate Selects(r: Rule, resource: string, action: string) {
    r.action == action && (resource == "*" || r.resource == resource)
  }

  // The rules of an action, and of a resource unless that is "*", in list order.
  function Select(rules: seq<Rule>, resource: string, action: string): seq<Rule> {
    if rules == [] then [] else
    var r := rules[|rules| - 1];
    Select(rules[..|rules| - 1], resource, action) + if Selects(r, resource, action) then [r] else []
  }

  method AddToBucket(ix: Index, resource: string, action: string, rule: Rule) returns (jx: Index)
    ensures forall r, a :: Bucket(jx, r, a)
              == Bucket(ix, r, a) + if r == resource && a == action then [rule] else []
  {
    var resourceBucket: map<string, seq<Rule>> := if resource in ix then ix[resource] else map[];
    var actionBucket := if action in resourceBucket then resourceBucket[action] else [];
    jx := ix[resource := resourceBucket[action := actionBucket + [rule]]];
  }

  method AddRule(ix: Index, rule: Rule) returns (jx: Index)
    ensures forall r, a :: Bucket(jx, r, a) == Bucket(ix, r, a) + if Selects(rule, r, a) then [rule] else []
  {
    jx := AddToBucket(ix, rule.resource, rule.action, rule);
    if rule.resource != "*" {
      jx := AddToBucket(jx, "*", rule.action, rule);
    }
  }

  // The rule with plain copies of its values.
  function SanitizedRule(r: Rule): Rule {
    r.(whereValue := Sanitize(r.whereValue), inputValue := Sanitize(r.inputValue))
  }

  function SanitizedRules(rules: seq<Rule>): (r: seq<Rule>)
    ensures |r| == |rules|
  {
    seq(|rules|, i requires 0 <= i < |rules| => SanitizedRule(rules[i]))
  }

  /**
   Every rule, sanitised, goes into its resource's bucket, and every rule of an action into the action's
   "*" bucket.
   */
  method CompilePermissions(permissions: seq<Rule>) returns (compiled: Index, rules: seq<Rule>)
    ensures rules == SanitizedRules(permissions)
    ensures forall r, a :: Bucket(compiled, r, a) == Select(rules, r, a)
  {
    compiled, rules := map[], [];
    for i := 0 to |permissions|
      invariant rules == SanitizedRules(permissions[..i])
      invariant forall r, a :: Bucket(compiled, r, a) == Select(rules, r, a)
    {
      var rule := SanitizedRule(permissions[i]);
      compiled := AddRule(compiled, rule);
      assert (rules + [rule])[..|rules|] == rules;
      rules := rules + [rule];
    }
    assert permissions[..|permissions|] == permissions;
  }

  /** What a request's rules are gathered from: its resource's bucket, then the "*" bucket. */
  function GatherBuckets(ix: Index, resource: string, action: string): seq<Rule> {
    Bucket(ix, resource, action) + Bucket(ix, "*", action)
  }

  lemma {:induction false} SelectedExactly(rules: seq<Rule>, resource: string, action: string, r: Rule)
    ensures r in Select(rules, resource, action) <==> r in rules && Selects(r, resource, action)
    decreases |rules|
  {
    if rules != [] {
      SelectedExactly(rules[..|rules| - 1], resource, action, r);
      assert rules == rules[..|rules| - 1] + [rules[|rules| - 1]];
    }
  }
}
