/** The rule-scoring risk engine: an ordered list of configured rules is walked once, the
    score impacts of the rules whose condition holds are added up, the total is clamped to
    0..100 and mapped to a risk bin and a decision, and the rationale of every fired rule is
    collected (or a single default line when none fired).

    Conditions are expressions evaluated against the request data; the model takes the
    evaluator as a parameter whose answer is one of three outcomes. A rule is skipped, as if
    its condition were false, whenever anything in its step raises: a missing condition
    (evaluating `None` raises), an evaluation that raises, or an impact that cannot be added
    to the score. */
module RiskEngine {
  import opened Wrappers

  /** What evaluating one condition against the data produced: a truthy value, a falsy
      value, or an exception. */
  datatype Outcome = Holds | DoesNotHold | Raises

  /** A condition evaluator over request data of type `D`. */
  type Evaluator<-D> = (string, D) -> Outcome

  /** The `score_impact` entry of a rule: absent (the default 0 is added), an integer (a
      boolean adds as 1 or 0), or a value that `score += ...` refuses (null, text, a list or
      a mapping). */
  datatype ScoreImpact = Absent | Whole(n: int) | Unaddable

  /** One configured rule. The condition is `None` when the rule has no `condition` entry or
      the entry is not text; the rationale is `None` when the rule has no `rationale` entry. */
  datatype Rule = Rule(
    name: Option<string>,
    condition: Option<string>,
    scoreImpact: ScoreImpact,
    rationale: Option<string>)

  /** `RiskEngineOutput`; the schema constrains `score` to 0..100. */
  datatype RiskEngineOutput = RiskEngineOutput(
    score: int,
    bin: string,
    decision: string,
    rationale: seq<string>)

  const BaseAssessment := "No specific rules triggered. Base assessment."

  /** `rule.get("score_impact", 0)` as added to the score; a rule with an unaddable impact
      never fires, so its 0 here is never used. */
  function Impact(rule: Rule): int {
    match rule.scoreImpact
    case Whole(n) => n
    case _ => 0
  }

  /** `rule.get("rationale", "")` */
  function RationaleOf(rule: Rule): string {
    rule.rationale.GetOr("")
  }

  /** A rule takes effect: it has a condition, the condition evaluates to a truthy value, and
      its impact can be added to the score. */
  predicate Fires<D>(rule: Rule, data: D, eval: Evaluator<D>) {
    rule.condition.Some? && eval(rule.condition.value, data) == Holds && !rule.scoreImpact.Unaddable?
  }

  /** The rules that take effect, in rule order. */
  function Triggered<D>(rules: seq<Rule>, data: D, eval: Evaluator<D>): (r: seq<Rule>)
    ensures |r| <= |rules|
    decreases |rules|
  {
    if rules == [] then []
    else
      var last := rules[|rules| - 1];
      Triggered(rules[..|rules| - 1], data, eval) + (if Fires(last, data, eval) then [last] else [])
  }

  /** The sum of the score impacts of `rules`, added in order. */
  function TotalImpact(rules: seq<Rule>): int
    decreases |rules|
  {
    if rules == [] then 0 else TotalImpact(rules[..|rules| - 1]) + Impact(rules[|rules| - 1])
  }

  /** The rationale line of each rule, in order. */
  function Rationales(rules: seq<Rule>): (r: seq<string>)
    ensures |r| == |rules|
    ensures forall i :: 0 <= i < |rules| ==> r[i] == RationaleOf(rules[i])
  {
    seq(|rules|, i requires 0 <= i < |rules| => RationaleOf(rules[i]))
  }

  /** `max(0, min(100, score))` */
  function Clamp(score: int): (r: int)
    ensures 0 <= r <= 100
    ensures 0 <= score <= 100 ==> r == score
    ensures score < 0 ==> r == 0
    ensures score > 100 ==> r == 100
  {
    if 100 < score then 100 else if score < 0 then 0 else score
  }

  /** The bin of a clamped score: cut-offs at 30 and 70. */
  function BinFor(score: int): (r: string)
    ensures r == "low" <==> score < 30
    ensures r == "medium" <==> 30 <= score < 70
    ensures r == "high" <==> 70 <= score
  {
    if score < 30 then "low" else if score < 70 then "medium" else "high"
  }

  /** The decision that goes with the bin of a clamped score. */
  function DecisionFor(score: int): (r: string)
    ensures r == "Approved" <==> BinFor(score) == "low"
    ensures r == "Review Required" <==> BinFor(score) == "medium"
    ensures r == "Rejected" <==> BinFor(score) == "high"
  {
    if score < 30 then "Approved" else if score < 70 then "Review Required" else "Rejected"
  }

  /** The assessment the engine returns for `rules` on `data`. */
  function Assess<D>(rules: seq<Rule>, data: D, eval: Evaluator<D>): (r: RiskEngineOutput)
    ensures r.score == Clamp(TotalImpact(Triggered(rules, data, eval)))
    ensures 0 <= r.score <= 100
    ensures r.bin == "low" <==> r.score < 30
    ensures r.bin == "medium" <==> 30 <= r.score < 70
    ensures r.bin == "high" <==> 70 <= r.score
    ensures r.decision == "Approved" <==> r.bin == "low"
    ensures r.decision == "Review Required" <==> r.bin == "medium"
    ensures r.decision == "Rejected" <==> r.bin == "high"
    ensures |r.rationale| >= 1
    ensures Triggered(rules, data, eval) == [] ==> r.rationale == [BaseAssessment]
    ensures Triggered(rules, data, eval) != [] ==> r.rationale == Rationales(Triggered(rules, data, eval))
  {
    var fired := Triggered(rules, data, eval);
    var score := Clamp(TotalImpact(fired));
    RiskEngineOutput(
      score, BinFor(score), DecisionFor(score),
      if fired == [] then [BaseAssessment] else Rationales(fired))
  }

  class RiskEngine {
    /** The rule list, loaded once when the engine is built. */
    var rules: seq<Rule>

    constructor(loaded: seq<Rule>)
      ensures rules == loaded
    {
      rules := loaded;
    }

    /** Scores `data`. The method has no `modifies` clause: scoring never changes `rules`. */
    method ComputeRiskScore<D>(data: D, eval: Evaluator<D>) returns (out: RiskEngineOutput)
      ensures out == Assess(rules, data, eval)
    {
      var score := 0;
      var rationale: seq<string> := [];
      for i := 0 to |rules|
        invariant score == TotalImpact(Triggered(rules[..i], data, eval))
        invariant rationale == Rationales(Triggered(rules[..i], data, eval))
      {
        var rule := rules[i];
        ScoreStep(rules, i, data, eval);
        if rule.condition.Some? {
          // evaluating a missing condition raises and the rule is skipped
          match eval(rule.condition.value, data)
          case Holds =>
            match rule.scoreImpact {
              case Unaddable =>
                // `score += ...` raises before the rationale is appended; the rule is skipped
              case Absent =>
                rationale := rationale + [rule.rationale.GetOr("")];
              case Whole(n) =>
                score := score + n;
                rationale := rationale + [rule.rationale.GetOr("")];
            }
          case DoesNotHold =>
          case Raises =>
            // the exception is caught and the rule is skipped
        }
      }
      assert rules[..|rules|] == rules;
      ghost var fired := Triggered(rules, data, eval);

      score := if score < 100 then score else 100;  // min(100, score)
      score := if 0 < score then score else 0;      // max(0, ...)

      var bin, decision;
      if score < 30 {
        bin, decision := "low", "Approved";
      } else if 30 <= score < 70 {
        bin, decision := "medium", "Review Required";
      } else {
        bin, decision := "high", "Rejected";
      }
      if rationale == [] {
        rationale := rationale + [BaseAssessment];
      }
      out := RiskEngineOutput(score, bin, decision, rationale);
    }
  }

  // ---------------------------------------------------------------------------------------
  // Properties of the specification

  /** The score and the rationale after one more rule: its impact and rationale line are
      added when it takes effect. */
  lemma ScoreStep<D>(rules: seq<Rule>, i: nat, data: D, eval: Evaluator<D>)
    requires i < |rules|
    ensures var before, after := Triggered(rules[..i], data, eval), Triggered(rules[..i + 1], data, eval);
      && TotalImpact(after) == TotalImpact(before) + (if Fires(rules[i], data, eval) then Impact(rules[i]) else 0)
      && Rationales(after) == Rationales(before) + (if Fires(rules[i], data, eval) then [RationaleOf(rules[i])] else [])
  {
    var before := Triggered(rules[..i], data, eval);
    TriggeredPrefix(rules, i, data, eval);
    if Fires(rules[i], data, eval) {
      assert [rules[i]][..0] == [];
      assert TotalImpact([rules[i]]) == Impact(rules[i]);
      TotalImpactAppend(before, [rules[i]]);
      RationalesAppend(before, [rules[i]]);
    } else {
      assert before + [] == before;
    }
  }

  /** One more rule of the list is evaluated: it is appended to the fired rules when it takes
      effect. */
  lemma TriggeredPrefix<D>(rules: seq<Rule>, i: nat, data: D, eval: Evaluator<D>)
    requires i < |rules|
    ensures Triggered(rules[..i + 1], data, eval)
            == Triggered(rules[..i], data, eval) + if Fires(rules[i], data, eval) then [rules[i]] else []
  {
    assert rules[..i + 1][..i] == rules[..i];
  }

  lemma {:induction false} TotalImpactAppend(a: seq<Rule>, b: seq<Rule>)
    ensures TotalImpact(a + b) == TotalImpact(a) + TotalImpact(b)
    decreases |b|
  {
    if b == [] {
      assert a + b == a;
    } else {
      var b' := b[..|b| - 1];
      assert (a + b)[..|a + b| - 1] == a + b';
      TotalImpactAppend(a, b');
    }
  }

  /** Impacts that all raise the score (or all lower it) add up to a total that does too. */
  lemma {:induction false} TotalImpactSign(rules: seq<Rule>)
    ensures (forall i :: 0 <= i < |rules| ==> Impact(rules[i]) >= 0) ==> TotalImpact(rules) >= 0
    ensures (forall i :: 0 <= i < |rules| ==> Impact(rules[i]) <= 0) ==> TotalImpact(rules) <= 0
    decreases |rules|
  {
    if rules != [] {
      var front := rules[..|rules| - 1];
      assert forall i :: 0 <= i < |front| ==> front[i] == rules[i];
      TotalImpactSign(front);
    }
  }

  /** The fired rules are rules of the list that take effect, and every rule of the list that
      takes effect is among them. */
  lemma {:induction false} TriggeredMembers<D>(rules: seq<Rule>, data: D, eval: Evaluator<D>)
    ensures forall rule :: rule in Triggered(rules, data, eval) <==> rule in rules && Fires(rule, data, eval)
    decreases |rules|
  {
    if rules != [] {
      var front := rules[..|rules| - 1];
      assert rules == front + [rules[|rules| - 1]];
      TriggeredMembers(front, data, eval);
    }
  }

  /** Rule evaluation is independent per rule: the rules that fire in `a + b` are those that
      fire in `a` followed by those that fire in `b`. */
  lemma {:induction false} TriggeredAppend<D>(a: seq<Rule>, b: seq<Rule>, data: D, eval: Evaluator<D>)
    ensures Triggered(a + b, data, eval) == Triggered(a, data, eval) + Triggered(b, data, eval)
    decreases |b|
  {
    if b == [] {
      assert a + b == a;
    } else {
      var b' := b[..|b| - 1];
      assert (a + b)[..|a + b| - 1] == a + b';
      TriggeredAppend(a, b', data, eval);
    }
  }

  lemma RationalesAppend(a: seq<Rule>, b: seq<Rule>)
    ensures Rationales(a + b) == Rationales(a) + Rationales(b)
  {
  }

  /** When `b` is a permutation of `a`, the last rule of `a` sits at some index `k` of `b`,
      and the rest of `a` is a permutation of `b` without that index. */
  lemma PermutationLast(a: seq<Rule>, b: seq<Rule>) returns (k: nat)
    requires |a| > 0 && multiset(a) == multiset(b)
    ensures k < |b| && b[k] == a[|a| - 1]
    ensures multiset(a[..|a| - 1]) == multiset(b[..k] + b[k + 1..])
  {
    var x := a[|a| - 1];
    assert a == a[..|a| - 1] + [x];
    assert x in multiset(b);
    k :| 0 <= k < |b| && b[k] == x;
    assert b == b[..k] + [x] + b[k + 1..];
    assert multiset(a[..|a| - 1]) == multiset(a) - multiset{x};
    assert multiset(b[..k] + b[k + 1..]) == multiset(b) - multiset{x};
  }

  /** The pre-clamp score does not depend on the order of the rules. */
  lemma {:induction false} TotalImpactPermutation(a: seq<Rule>, b: seq<Rule>)
    requires multiset(a) == multiset(b)
    ensures TotalImpact(a) == TotalImpact(b)
    decreases |a|
  {
    if a == [] {
      assert |b| == |multiset(b)| == 0;
    } else {
      var k := PermutationLast(a, b);
      TotalImpactPermutation(a[..|a| - 1], b[..k] + b[k + 1..]);
      TotalImpactAppend(b[..k], b[k + 1..]);
      TotalImpactAppend(b[..k], [b[k]] + b[k + 1..]);
      TotalImpactAppend([b[k]], b[k + 1..]);
      assert b == b[..k] + ([b[k]] + b[k + 1..]);
      assert [b[k]][..0] == [];
    }
  }

  /** The rationale lines of a permutation of `a` are a permutation of those of `a`. */
  lemma {:induction false} RationalesPermutation(a: seq<Rule>, b: seq<Rule>)
    requires multiset(a) == multiset(b)
    ensures multiset(Rationales(a)) == multiset(Rationales(b))
    decreases |a|
  {
    if a == [] {
      assert |b| == |multiset(b)| == 0;
    } else {
      var k := PermutationLast(a, b);
      RationalesPermutation(a[..|a| - 1], b[..k] + b[k + 1..]);
      RationalesAppend(a[..|a| - 1], [a[|a| - 1]]);
      assert a == a[..|a| - 1] + [a[|a| - 1]];
      RationalesAppend(b[..k], b[k + 1..]);
      RationalesAppend(b[..k], [b[k]] + b[k + 1..]);
      RationalesAppend([b[k]], b[k + 1..]);
      assert b == b[..k] + ([b[k]] + b[k + 1..]);
    }
  }

  /** A rule occurs among the fired rules as often as in the rule list if its condition
      holds, and not at all otherwise. */
  lemma {:induction false} TriggeredCount<D>(rules: seq<Rule>, rule: Rule, data: D, eval: Evaluator<D>)
    ensures multiset(Triggered(rules, data, eval))[rule]
            == if Fires(rule, data, eval) then multiset(rules)[rule] else 0
    decreases |rules|
  {
    if rules != [] {
      var front := rules[..|rules| - 1];
      assert rules == front + [rules[|rules| - 1]];
      TriggeredCount(front, rule, data, eval);
    }
  }

  lemma TriggeredPermutation<D>(a: seq<Rule>, b: seq<Rule>, data: D, eval: Evaluator<D>)
    requires multiset(a) == multiset(b)
    ensures multiset(Triggered(a, data, eval)) == multiset(Triggered(b, data, eval))
  {
    forall rule: Rule
      ensures multiset(Triggered(a, data, eval))[rule] == multiset(Triggered(b, data, eval))[rule]
    {
      TriggeredCount(a, rule, data, eval);
      TriggeredCount(b, rule, data, eval);
    }
  }

  /** Reordering the rule list can reorder the rationale but changes neither the score nor
      the bin nor the decision. */
  lemma AssessPermutation<D>(a: seq<Rule>, b: seq<Rule>, data: D, eval: Evaluator<D>)
    requires multiset(a) == multiset(b)
    ensures Assess(a, data, eval).score == Assess(b, data, eval).score
    ensures Assess(a, data, eval).bin == Assess(b, data, eval).bin
    ensures Assess(a, data, eval).decision == Assess(b, data, eval).decision
    ensures multiset(Assess(a, data, eval).rationale) == multiset(Assess(b, data, eval).rationale)
  {
    var fa, fb := Triggered(a, data, eval), Triggered(b, data, eval);
    TriggeredPermutation(a, b, data, eval);
    TotalImpactPermutation(fa, fb);
    RationalesPermutation(fa, fb);
    assert |fa| == |multiset(fa)| == |multiset(fb)| == |fb|;
  }

  /** A rule that does not take effect (its condition is missing, false or raises, or its
      impact cannot be added) adds nothing and appends no rationale, and the rules after it
      are still evaluated: the result is that of the rule list without it. */
  lemma SkippedRuleIsInert<D>(before: seq<Rule>, rule: Rule, after: seq<Rule>, data: D, eval: Evaluator<D>)
    requires !Fires(rule, data, eval)
    ensures Triggered(before + [rule] + after, data, eval)
            == Triggered(before, data, eval) + Triggered(after, data, eval)
  {
    TriggeredSingleton(rule, data, eval);
    TriggeredAppend(before + [rule], after, data, eval);
    TriggeredAppend(before, [rule], data, eval);
    TriggeredAppend(before, after, data, eval);
  }

  lemma SkippedRuleLeavesAssessment<D>(before: seq<Rule>, rule: Rule, after: seq<Rule>, data: D, eval: Evaluator<D>)
    requires !Fires(rule, data, eval)
    ensures Assess(before + [rule] + after, data, eval) == Assess(before + after, data, eval)
  {
    var all, kept := before + [rule] + after, before + after;
    SkippedRuleIsInert(before, rule, after, data, eval);
    TriggeredAppend(before, after, data, eval);
    SameFiredSameAssessment(all, kept, data, eval);
  }

  lemma TriggeredSingleton<D>(rule: Rule, data: D, eval: Evaluator<D>)
    ensures Triggered([rule], data, eval) == if Fires(rule, data, eval) then [rule] else []
  {
    assert [rule][..0] == [];
  }

  /** A rule without a condition, or whose impact cannot be added, is skipped whatever the
      data. */
  lemma MalformedRuleIsSkipped<D>(before: seq<Rule>, rule: Rule, after: seq<Rule>, data: D, eval: Evaluator<D>)
    requires rule.condition.None? || rule.scoreImpact.Unaddable?
    ensures Assess(before + [rule] + after, data, eval) == Assess(before + after, data, eval)
  {
    SkippedRuleLeavesAssessment(before, rule, after, data, eval);
  }

  lemma SameFiredSameAssessment<D>(a: seq<Rule>, b: seq<Rule>, data: D, eval: Evaluator<D>)
    requires Triggered(a, data, eval) == Triggered(b, data, eval)
    ensures Assess(a, data, eval) == Assess(b, data, eval)
  {
  }
}
