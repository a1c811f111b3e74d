/**
 Declarative governance: deny rules, then the allow list, then the force list.
 */
module Policy {
  import opened Common
  import opened RateLimit

  datatype PolicyRule = PolicyRule(from: Option<string>, to: Option<string>, room: Option<string>)

  datatype MeshPolicy = MeshPolicy(allow: seq<PolicyRule>, deny: seq<PolicyRule>, forceAllowedFrom: seq<string>,
                                   forceDowngrade: bool, rateLimits: Limits)

  datatype Context = Context(from: string, to: string, room: string, priority: Priority)

  datatype Decision = Allow | Downgrade | Deny

  function MatchPattern(pattern: Option<string>, value: string): bool {
    if pattern.None? || pattern.value == "*" then true
    else if pattern.value != "" && pattern.value[|pattern.value| - 1] == '*' then
      pattern.value[..|pattern.value| - 1] <= value
    else pattern.value == value
  }

  function RuleMatches(rule: PolicyRule, ctx: Context): bool {
    MatchPattern(rule.from, ctx.from) && MatchPattern(rule.to, ctx.to) && MatchPattern(rule.room, ctx.room)
  }

  function AnyMatches(rules: seq<PolicyRule>, ctx: Context): bool {
    exists i :: 0 <= i < |rules| && RuleMatches(rules[i], ctx)
  }

  function EvaluatePolicy(policy: MeshPolicy, ctx: Context): Decision {
    if AnyMatches(policy.deny, ctx) then Deny
    else if !AnyMatches(policy.allow, ctx) then Deny
    else if ctx.priority == Force && ctx.from !in policy.forceAllowedFrom then
      if policy.forceDowngrade then Downgrade else Deny
    else Allow
  }

  /** `value` fits `pattern`: equal to it, or, when it ends in a star, extends what precedes the star. */
  ghost predicate Fits(pattern: string, value: string) {
    pattern == value || exists stem: string, tail: string {:trigger stem + tail} ::
      pattern == stem + "*" && value == stem + tail
  }

  lemma MatchIsFit(pattern: Option<string>, value: string)
    ensures MatchPattern(pattern, value) <==> pattern.None? || Fits(pattern.value, value)
  {
    if pattern.Some? {
      var p := pattern.value;
      if p != "" && p[|p| - 1] == '*' {
        var stem := p[..|p| - 1];
        assert p == stem + "*";
        if stem <= value {
          assert value == stem + value[|stem|..];
        }
      }
    }
  }

  ghost predicate Names(pattern: Option<string>, value: string) { pattern.None? || Fits(pattern.value, value) }

  /** The rule speaks of a message from `sender` to `recipient` in `room`. */
  ghost predicate Concerns(rule: PolicyRule, sender: string, recipient: string, room: string) {
    Names(rule.from, sender) && Names(rule.to, recipient) && Names(rule.room, room)
  }

  ghost predicate SomeConcerns(rules: seq<PolicyRule>, sender: string, recipient: string, room: string) {
    exists rule :: rule in rules && Concerns(rule, sender, recipient, room)
  }

  lemma AnyMatchesIff(rules: seq<PolicyRule>, ctx: Context)
    ensures AnyMatches(rules, ctx) <==> SomeConcerns(rules, ctx.from, ctx.to, ctx.room)
  {
    forall rule: PolicyRule ensures RuleMatches(rule, ctx) <==> Concerns(rule, ctx.from, ctx.to, ctx.room) {
      MatchIsFit(rule.from, ctx.from);
      MatchIsFit(rule.to, ctx.to);
      MatchIsFit(rule.room, ctx.room);
    }
    hide RuleMatches, Concerns;
    if AnyMatches(rules, ctx) {
      var i :| 0 <= i < |rules| && RuleMatches(rules[i], ctx);
      assert rules[i] in rules && Concerns(rules[i], ctx.from, ctx.to, ctx.room);
    }
    if SomeConcerns(rules, ctx.from, ctx.to, ctx.room) {
      var rule :| rule in rules && Concerns(rule, ctx.from, ctx.to, ctx.room);
      var i :| 0 <= i < |rules| && rules[i] == rule;
      assert RuleMatches(rules[i], ctx);
    }
  }

  /** The rules let `sender` write to `recipient` in `room`: some allow rule concerns them, and no deny rule. */
  ghost predicate RulesAdmit(policy: MeshPolicy, sender: string, recipient: string, room: string) {
    SomeConcerns(policy.allow, sender, recipient, room) && !SomeConcerns(policy.deny, sender, recipient, room)
  }

  /**
   The decision, in terms of the rules: denied if and only if a deny rule concerns sender,
   recipient and room, or no allow rule does, or force is neither authorized nor downgraded.
   */
  lemma DecisionIff(policy: MeshPolicy, sender: string, recipient: string, room: string, priority: Priority)
    ensures
      var decision := EvaluatePolicy(policy, Context(sender, recipient, room, priority));
      var unauthorized := priority == Force && sender !in policy.forceAllowedFrom;
      && (decision == Deny <==>
            || SomeConcerns(policy.deny, sender, recipient, room)
            || !SomeConcerns(policy.allow, sender, recipient, room)
            || (unauthorized && !policy.forceDowngrade))
      && (decision == Downgrade <==>
            RulesAdmit(policy, sender, recipient, room) && unauthorized && policy.forceDowngrade)
      && (decision == Allow <==> RulesAdmit(policy, sender, recipient, room) && !unauthorized)
  {
    hide AnyMatches, SomeConcerns;
    var ctx := Context(sender, recipient, room, priority);
    AnyMatchesIff(policy.deny, ctx);
    AnyMatchesIff(policy.allow, ctx);
  }

  /** A deny rule that does not name the sender changes no decision on its messages. */
  lemma UnnamedSenderIsSpared(policy: MeshPolicy, rule: PolicyRule, ctx: Context)
    requires !Names(rule.from, ctx.from)
    ensures EvaluatePolicy(policy.(deny := policy.deny + [rule]), ctx) == EvaluatePolicy(policy, ctx)
  {
    var all := policy.deny + [rule];
    AnyMatchesIff(policy.deny, ctx);
    AnyMatchesIff(all, ctx);
    hide AnyMatches, Names;
    assert forall r :: r in all <==> r in policy.deny || r == rule;
  }

  /** Adding deny rules never admits more, and downgrading concerns unauthorized force only. */
  lemma DenyIsMonotone(policy: MeshPolicy, more: seq<PolicyRule>, ctx: Context)
    ensures
      var stricter := policy.(deny := policy.deny + more);
      && (EvaluatePolicy(stricter, ctx) != Deny ==> EvaluatePolicy(stricter, ctx) == EvaluatePolicy(policy, ctx))
      && (EvaluatePolicy(policy, ctx) == Downgrade ==>
        ctx.priority == Force && EvaluatePolicy(policy, ctx.(priority := Urgent)) == Allow)
  {
    var all := policy.deny + more;
    if AnyMatches(policy.deny, ctx) {
      var i :| 0 <= i < |policy.deny| && RuleMatches(policy.deny[i], ctx);
      assert RuleMatches(all[i], ctx);
    }
  }
}
