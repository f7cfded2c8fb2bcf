/** The rule helpers of a matrix task, and the check that runs them. */
module Rules {
  import opened Values

  /** The attributes a rule reads: axis name to value. */
  type Env = map<string, Value>

  datatype Outcome = Done | Prohibited

  /** One statement of `_check_allowed`, its arguments as expressions over the attributes. */
  datatype Rule =
    | Require(p: Env -> bool)
    | Prohibit(p: Env -> bool)
    | BothOrNeither(p: Env -> bool, q: Env -> bool)

  function RequireThat(rule: bool): Outcome {
    if !rule then Prohibited else Done
  }

  function ProhibitThat(rule: bool): Outcome {
    if rule then Prohibited else Done
  }

  function BothOrNeitherOf(rule0: bool, rule1: bool): (o: Outcome)
    ensures o.Done? <==> (rule0 <==> rule1)
  {
    if rule0 then RequireThat(rule1) else ProhibitThat(rule1)
  }

  function Run(rule: Rule, env: Env): Outcome {
    match rule
    case Require(p) => RequireThat(p(env))
    case Prohibit(p) => ProhibitThat(p(env))
    case BothOrNeither(p, q) => BothOrNeitherOf(p(env), q(env))
  }

  /** What a rule demands. */
  predicate Holds(rule: Rule, env: Env) {
    match rule
    case Require(p) => p(env)
    case Prohibit(p) => !p(env)
    case BothOrNeither(p, q) => p(env) == q(env)
  }

  predicate Allowed(rules: seq<Rule>, env: Env) {
    forall i :: 0 <= i < |rules| ==> Holds(rules[i], env)
  }

  /** Runs the rules until one raises; `ran` counts the rules that returned. */
  method CheckAllowed(rules: seq<Rule>, env: Env) returns (outcome: Outcome, ran: nat)
    ensures outcome.Done? <==> Allowed(rules, env)
    ensures outcome.Done? ==> ran == |rules|
    ensures outcome.Prohibited? ==> ran < |rules| && !Holds(rules[ran], env) && Allowed(rules[..ran], env)
  {
    ran := 0;
    while ran < |rules|
      invariant ran <= |rules|
      invariant Allowed(rules[..ran], env)
    {
      outcome := Run(rules[ran], env);
      if outcome.Prohibited? {
        return;
      }
      ran := ran + 1;
    }
    assert rules[..ran] == rules;
    outcome := Done;
  }

  /** The `allowed` property: the exception turned into an answer. */
  method IsAllowed(rules: seq<Rule>, env: Env) returns (allowed: bool)
    ensures allowed <==> Allowed(rules, env)
  {
    var outcome, _ := CheckAllowed(rules, env);
    allowed := outcome.Done?;
  }

  /** What each helper demands, and that `both_or_neither` is two prohibitions. */
  lemma RulesSay(p: Env -> bool, q: Env -> bool, env: Env)
    ensures Allowed([Require(p)], env) <==> p(env)
    ensures Allowed([Prohibit(p)], env) <==> !p(env)
    ensures Allowed([BothOrNeither(p, q)], env) <==>
            Allowed([Prohibit(e => p(e) && !q(e)), Prohibit(e => q(e) && !p(e))], env)
  {
    var fewer, more := Prohibit(e => p(e) && !q(e)), Prohibit(e => q(e) && !p(e));
    assert [Require(p)][0] == Require(p) && [Prohibit(p)][0] == Prohibit(p);
    assert [BothOrNeither(p, q)][0] == BothOrNeither(p, q);
    assert [fewer, more][0] == fewer && [fewer, more][1] == more;
  }

  lemma AllowedConcat(a: seq<Rule>, b: seq<Rule>, env: Env)
    ensures Allowed(a + b, env) <==> Allowed(a, env) && Allowed(b, env)
  {
    if Allowed(a + b, env) {
      assert forall i :: 0 <= i < |a| ==> (a + b)[i] == a[i];
      assert forall i :: 0 <= i < |b| ==> (a + b)[|a| + i] == b[i];
    }
  }

  /** Neither the order of the rules nor repeating one matters. */
  lemma AllowedSameRules(a: seq<Rule>, b: seq<Rule>, env: Env)
    requires forall r :: r in a <==> r in b
    ensures Allowed(a, env) <==> Allowed(b, env)
  {
    assert forall i :: 0 <= i < |a| ==> a[i] in b;
    assert forall i :: 0 <= i < |b| ==> b[i] in a;
  }
}
