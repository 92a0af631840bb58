/** The descriptor's rule language as the launcher evaluates it
    (`evaluate_rules`, `evaluate_os_rule` in launcher.rs): rules are read in
    order, the first matching "allow" or "disallow" decides, and when none
    decides the answer is "allow". Only the operating-system name can keep a
    rule from matching; versions, architectures and features never do. */
module Rules {
  import opened Wrappers
  import opened Platform
  import opened Version

  /** The name descriptors use for the operating system. */
  function OsName(os: Os): string
  {
    match os
    case Windows => "windows"
    case MacOs => "osx"
    case Linux => "linux"
  }

  /** `evaluate_os_rule`: a named system must be the current one. */
  predicate OsRuleMatches(r: OsRule, os: Os)
  {
    r.name.None? || r.name.value == OsName(os)
  }

  /** A rule matches unless its `os` part names another system. */
  predicate RuleMatches(rule: Rule, os: Os)
  {
    rule.os.None? || OsRuleMatches(rule.os.value, os)
  }

  /** A rule that ends the evaluation when it is reached. */
  predicate Decides(rule: Rule, os: Os)
  {
    RuleMatches(rule, os) && (rule.action == "allow" || rule.action == "disallow")
  }

  /** What `evaluate_rules` answers, read rule by rule. */
  function RulesAllow(rules: seq<Rule>, os: Os): bool
  {
    if rules == [] then true
    else if Decides(rules[0], os) then rules[0].action == "allow"
    else RulesAllow(rules[1..], os)
  }

  /** `evaluate_rules`, walking the list with an early return. */
  method EvaluateRules(rules: seq<Rule>, os: Os) returns (allowed: bool)
    ensures allowed == RulesAllow(rules, os)
  {
    var i := 0;
    while i < |rules|
      invariant 0 <= i <= |rules|
      invariant RulesAllow(rules, os) == RulesAllow(rules[i..], os)
    {
      var rule := rules[i];
      var matches := true;
      if rule.os.Some? {
        matches := matches && OsRuleMatches(rule.os.value, os);
      }
      if rule.features.Some? {
        matches := matches && true;
      }
      assert rules[i..][1..] == rules[i + 1..];
      if rule.action == "allow" && matches {
        return true;
      } else if rule.action == "disallow" && matches {
        return false;
      }
      i := i + 1;
    }
    return true;
  }

  /** Rule `i` decides with "disallow" and no rule before it decides. */
  predicate FirstDisallows(rules: seq<Rule>, os: Os, i: int)
  {
    && 0 <= i < |rules|
    && Decides(rules[i], os) && rules[i].action == "disallow"
    && forall j :: 0 <= j < i ==> !Decides(rules[j], os)
  }

  /** A refused list has a rule that refuses first. */
  lemma {:induction false} DisallowedHasWitness(rules: seq<Rule>, os: Os) returns (i: int)
    requires !RulesAllow(rules, os)
    ensures FirstDisallows(rules, os, i)
  {
    if Decides(rules[0], os) {
      i := 0;
    } else {
      var k := DisallowedHasWitness(rules[1..], os);
      i := k + 1;
      assert rules[i] == rules[1..][k];
      forall j | 0 < j < i
        ensures !Decides(rules[j], os)
      {
        assert rules[j] == rules[1..][j - 1];
      }
    }
  }

  /** A rule that refuses first makes the list refused. */
  lemma {:induction false} WitnessDisallows(rules: seq<Rule>, os: Os, i: int)
    requires FirstDisallows(rules, os, i)
    ensures !RulesAllow(rules, os)
  {
    if i > 0 {
      assert !Decides(rules[0], os);
      forall j | 0 <= j < i - 1
        ensures !Decides(rules[1..][j], os)
      {
        assert rules[1..][j] == rules[j + 1];
      }
      WitnessDisallows(rules[1..], os, i - 1);
    }
  }

  /** The evaluation forbids exactly when some rule forbids and no rule
      before it decides: the first deciding rule wins. */
  lemma RulesAllowFirstDecides(rules: seq<Rule>, os: Os)
    ensures !RulesAllow(rules, os) <==> exists i :: FirstDisallows(rules, os, i)
  {
    if !RulesAllow(rules, os) {
      var i := DisallowedHasWitness(rules, os);
    }
    if exists i :: FirstDisallows(rules, os, i) {
      var i :| FirstDisallows(rules, os, i);
      WitnessDisallows(rules, os, i);
    }
  }

  /** With no deciding rule the answer is "allow". */
  lemma {:induction false} NoDeciderAllows(rules: seq<Rule>, os: Os)
    requires forall i :: 0 <= i < |rules| ==> !Decides(rules[i], os)
    ensures RulesAllow(rules, os)
  {
    if rules != [] {
      assert !Decides(rules[0], os);
      forall i | 0 <= i < |rules[1..]|
        ensures !Decides(rules[1..][i], os)
      {
        assert rules[1..][i] == rules[i + 1];
      }
      NoDeciderAllows(rules[1..], os);
    }
  }

  /** Two rule lists that agree on every action and every operating-system
      name are evaluated alike, whatever their versions, architectures and
      features say. */
  lemma {:induction false} RulesIgnoreVersionArchFeatures(a: seq<Rule>, b: seq<Rule>, os: Os)
    requires |a| == |b|
    requires forall i :: 0 <= i < |a| ==>
      && a[i].action == b[i].action
      && a[i].os.Some? == b[i].os.Some?
      && (a[i].os.Some? ==> a[i].os.value.name == b[i].os.value.name)
    ensures RulesAllow(a, os) == RulesAllow(b, os)
  {
    if a != [] {
      RulesIgnoreVersionArchFeatures(a[1..], b[1..], os);
    }
  }
}
