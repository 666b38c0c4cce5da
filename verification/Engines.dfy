/**
 The risk engine (`internal/risk/engine.go`) and the intervention engine
 (`internal/intervention/engine.go`).
 */
module Engines {
  import opened Domain
  import opened Text

  // ---------- risk ----------

  datatype RiskConfig = RiskConfig(overdue: real, dueSoon: real, dueSoonWindow: int, confidence: real, signal: real)

  function Seconds(nanos: int): real { nanos as real / 1_000_000_000.0 }

  /** The snapshot of the policy that is stored with every decision. */
  function Weights(cfg: RiskConfig): map<WeightKey, real> {
    map[Overdue := cfg.overdue,
        DueSoon := cfg.dueSoon,
        DueSoonWindowSeconds := Seconds(cfg.dueSoonWindow),
        Confidence := cfg.confidence,
        Signal := cfg.signal]
  }

  datatype Assessment = Assessment(score: real, factors: seq<Factor>, confidence: real)

  function Clamp(x: real): real { if x > 1.0 then 1.0 else if x < 0.0 then 0.0 else x }

  function Total(factors: seq<Factor>): real {
    if factors == [] then 0.0 else Total(factors[..|factors| - 1]) + factors[|factors| - 1].weight
  }

  function DueFactors(cfg: RiskConfig, c: Commitment, now: int): seq<Factor> {
    if c.dueAt.None? then []
    else if now > c.dueAt.value then [Factor(OverdueFactor, cfg.overdue, PastDue)]
    else if c.dueAt.value - now <= cfg.dueSoonWindow then [Factor(DueSoonFactor, cfg.dueSoon, DueWithinWindow)]
    else []
  }

  function ConfidenceShare(cfg: RiskConfig, c: Commitment): real { c.confidence * cfg.confidence }

  function AllFactors(cfg: RiskConfig, c: Commitment, signals: nat, now: int): seq<Factor> {
    var tracked := AddFactor(DueFactors(cfg, c, now), c.confidence > 0.0,
                             Factor(ConfidenceFactor, ConfidenceShare(cfg, c), TrackedStrictly));
    AddFactor(tracked, signals > 0, Factor(SignalFactor, cfg.signal, PatternDetected))
  }

  function AddFactor(factors: seq<Factor>, when: bool, f: Factor): seq<Factor> {
    if when then factors + [f] else factors
  }

  /** The score is the clamped sum of what the reported factors weigh. */
  function Assess(cfg: RiskConfig, c: Commitment, signals: nat, now: int): Assessment {
    var factors := AllFactors(cfg, c, signals, now);
    Assessment(Clamp(Total(factors)), factors, c.confidence)
  }

  lemma TotalAdds(factors: seq<Factor>, when: bool, f: Factor)
    ensures Total(AddFactor(factors, when, f)) == Total(factors) + if when then f.weight else 0.0
  {
    assert (factors + [f])[..|factors|] == factors;
  }

  method EvaluateCommitment(cfg: RiskConfig, c: Commitment, signals: nat, now: int) returns (a: Assessment)
    ensures a == Assess(cfg, c, signals, now)
  {
    var factors, score := EvaluateDue(cfg, c, now);
    if c.confidence > 0.0 {
      factors, score := Contribute(factors, score, Factor(ConfidenceFactor, ConfidenceShare(cfg, c), TrackedStrictly));
    }
    if signals > 0 {
      factors, score := Contribute(factors, score, Factor(SignalFactor, cfg.signal, PatternDetected));
    }
    if score > 1.0 {
      score := 1.0;
    }
    if score < 0.0 {
      score := 0.0;
    }
    a := Assessment(score, factors, c.confidence);
  }

  method Contribute(factors: seq<Factor>, score: real, f: Factor) returns (factors': seq<Factor>, score': real)
    requires score == Total(factors)
    ensures factors' == factors + [f] && score' == Total(factors')
  {
    TotalAdds(factors, true, f);
    factors', score' := factors + [f], score + f.weight;
  }

  method EvaluateDue(cfg: RiskConfig, c: Commitment, now: int) returns (factors: seq<Factor>, score: real)
    ensures factors == DueFactors(cfg, c, now) && score == Total(factors)
  {
    factors, score := [], 0.0;
    if c.dueAt.Some? {
      if now > c.dueAt.value {
        score, factors := score + cfg.overdue, [Factor(OverdueFactor, cfg.overdue, PastDue)];
      } else if c.dueAt.value - now <= cfg.dueSoonWindow {
        score, factors := score + cfg.dueSoon, [Factor(DueSoonFactor, cfg.dueSoon, DueWithinWindow)];
      }
    }
  }

  // ---------- replaying a decision from its own record ----------

  function Kinds(factors: seq<Factor>): seq<FactorKind> {
    if factors == [] then [] else Kinds(factors[..|factors| - 1]) + [factors[|factors| - 1].kind]
  }

  function Lookup(weights: map<WeightKey, real>, key: WeightKey): real { if key in weights then weights[key] else 0.0 }

  /** What a kind of factor contributed, judged by the recorded weights and confidence alone. */
  function Contribution(weights: map<WeightKey, real>, confidence: real, kind: FactorKind): real {
    match kind
    case OverdueFactor => Lookup(weights, Overdue)
    case DueSoonFactor => Lookup(weights, DueSoon)
    case ConfidenceFactor => confidence * Lookup(weights, Confidence)
    case SignalFactor => Lookup(weights, Signal)
  }

  function Contributions(weights: map<WeightKey, real>, confidence: real, kinds: seq<FactorKind>): real {
    if kinds == [] then 0.0
    else Contributions(weights, confidence, kinds[..|kinds| - 1]) + Contribution(weights, confidence, kinds[|kinds| - 1])
  }

  function Replay(weights: map<WeightKey, real>, confidence: real, kinds: seq<FactorKind>): real {
    Clamp(Contributions(weights, confidence, kinds))
  }

  ghost predicate Accounted(weights: map<WeightKey, real>, confidence: real, factors: seq<Factor>) {
    forall i :: 0 <= i < |factors| ==> factors[i].weight == Contribution(weights, confidence, factors[i].kind)
  }

  lemma {:induction false} FactorsReplay(weights: map<WeightKey, real>, confidence: real, factors: seq<Factor>)
    requires Accounted(weights, confidence, factors)
    ensures Contributions(weights, confidence, Kinds(factors)) == Total(factors)
    decreases factors
  {
    if factors != [] {
      var front := factors[..|factors| - 1];
      FactorsReplay(weights, confidence, front);
      assert Kinds(factors)[..|Kinds(factors)| - 1] == Kinds(front);
    }
  }

  lemma AssessmentReplays(cfg: RiskConfig, c: Commitment, signals: nat, now: int)
    ensures var a := Assess(cfg, c, signals, now);
            a.score == Replay(Weights(cfg), a.confidence, Kinds(a.factors)) && 0.0 <= a.score <= 1.0
  {
    DueAccounted(cfg, c, now);
    var tracked := Factor(ConfidenceFactor, ConfidenceShare(cfg, c), TrackedStrictly);
    AddAccounted(cfg, c.confidence, DueFactors(cfg, c, now), c.confidence > 0.0, tracked);
    AddAccounted(cfg, c.confidence, AddFactor(DueFactors(cfg, c, now), c.confidence > 0.0, tracked),
                 signals > 0, Factor(SignalFactor, cfg.signal, PatternDetected));
    FactorsReplay(Weights(cfg), c.confidence, AllFactors(cfg, c, signals, now));
  }

  lemma DueAccounted(cfg: RiskConfig, c: Commitment, now: int)
    ensures Accounted(Weights(cfg), c.confidence, DueFactors(cfg, c, now))
  {}

  lemma AddAccounted(cfg: RiskConfig, confidence: real, factors: seq<Factor>, when: bool, f: Factor)
    requires Accounted(Weights(cfg), confidence, factors)
    requires f.weight == Contribution(Weights(cfg), confidence, f.kind)
    ensures Accounted(Weights(cfg), confidence, AddFactor(factors, when, f))
  {}

  predicate Blames(factors: seq<Factor>, kind: FactorKind) {
    exists i :: 0 <= i < |factors| && factors[i].kind == kind
  }

  lemma AddBlames(factors: seq<Factor>, when: bool, f: Factor, kind: FactorKind)
    ensures Blames(AddFactor(factors, when, f), kind) <==> Blames(factors, kind) || (when && f.kind == kind)
  {
    var all := AddFactor(factors, when, f);
    if Blames(factors, kind) {
      var i :| 0 <= i < |factors| && factors[i].kind == kind;
      assert all[i].kind == kind;
    }
    if when {
      assert all[|factors|] == f;
    }
  }

  /** Which factors are reported, read off the commitment, the clock and the signals. */
  lemma FactorsReportedIff(cfg: RiskConfig, c: Commitment, signals: nat, now: int)
    ensures var f := Assess(cfg, c, signals, now).factors;
            && (Blames(f, OverdueFactor) <==> c.dueAt.Some? && c.dueAt.value < now)
            && (Blames(f, DueSoonFactor) <==> c.dueAt.Some? && now <= c.dueAt.value <= now + cfg.dueSoonWindow)
            && (Blames(f, ConfidenceFactor) <==> c.confidence > 0.0)
            && (Blames(f, SignalFactor) <==> signals > 0)
  {
    DueReportedIff(cfg, c, now);
    ReportedByPart(cfg, c, signals, now, OverdueFactor);
    ReportedByPart(cfg, c, signals, now, DueSoonFactor);
    ReportedByPart(cfg, c, signals, now, ConfidenceFactor);
    ReportedByPart(cfg, c, signals, now, SignalFactor);
  }

  lemma ReportedByPart(cfg: RiskConfig, c: Commitment, signals: nat, now: int, kind: FactorKind)
    ensures Blames(AllFactors(cfg, c, signals, now), kind) <==>
              || Blames(DueFactors(cfg, c, now), kind)
              || (c.confidence > 0.0 && kind == ConfidenceFactor)
              || (signals > 0 && kind == SignalFactor)
  {
    var due, tracked := DueFactors(cfg, c, now), Factor(ConfidenceFactor, ConfidenceShare(cfg, c), TrackedStrictly);
    AddBlames(due, c.confidence > 0.0, tracked, kind);
    AddBlames(AddFactor(due, c.confidence > 0.0, tracked), signals > 0, Factor(SignalFactor, cfg.signal, PatternDetected), kind);
  }

  lemma DueReportedIff(cfg: RiskConfig, c: Commitment, now: int)
    ensures var due := DueFactors(cfg, c, now);
            && (Blames(due, OverdueFactor) <==> c.dueAt.Some? && c.dueAt.value < now)
            && (Blames(due, DueSoonFactor) <==> c.dueAt.Some? && now <= c.dueAt.value <= now + cfg.dueSoonWindow)
            && !Blames(due, ConfidenceFactor) && !Blames(due, SignalFactor)
  {
    var due := DueFactors(cfg, c, now);
    assert due != [] ==> Blames(due, due[0].kind);
  }

  // ---------- the assessment in the policy's own terms ----------

  /** When a kind of factor is to be reported. */
  predicate Warranted(c: Commitment, signals: nat, window: int, now: int, kind: FactorKind) {
    match kind
    case OverdueFactor => c.dueAt.Some? && c.dueAt.value < now
    case DueSoonFactor => c.dueAt.Some? && now <= c.dueAt.value <= now + window
    case ConfidenceFactor => c.confidence > 0.0
    case SignalFactor => signals > 0
  }

  /** What it then weighs. */
  function Weight(cfg: RiskConfig, c: Commitment, kind: FactorKind): real {
    match kind
    case OverdueFactor => cfg.overdue
    case DueSoonFactor => cfg.dueSoon
    case ConfidenceFactor => c.confidence * cfg.confidence
    case SignalFactor => cfg.signal
  }

  function Share(cfg: RiskConfig, c: Commitment, signals: nat, now: int, kind: FactorKind): real {
    if Warranted(c, signals, cfg.dueSoonWindow, now, kind) then Weight(cfg, c, kind) else 0.0
  }

  /** The risk formula: the shares of all factors, cut off at 0 and 1. */
  function RiskOf(cfg: RiskConfig, c: Commitment, signals: nat, now: int): real {
    var sum := Share(cfg, c, signals, now, OverdueFactor) + Share(cfg, c, signals, now, DueSoonFactor)
               + Share(cfg, c, signals, now, ConfidenceFactor) + Share(cfg, c, signals, now, SignalFactor);
    if sum < 0.0 then 0.0 else if sum > 1.0 then 1.0 else sum
  }

  function TextFor(kind: FactorKind): string {
    match kind
    case OverdueFactor => "Commitment is past its due time."
    case DueSoonFactor => "Commitment is due within the soon-window."
    case ConfidenceFactor => "Commitment is high-confidence; tracked strictly."
    case SignalFactor => "Chronos detected a temporal pattern matching this commitment."
  }

  /** Due times come first, then the confidence, then the signals. */
  function Rank(kind: FactorKind): nat {
    match kind
    case OverdueFactor => 0
    case DueSoonFactor => 1
    case ConfidenceFactor => 2
    case SignalFactor => 3
  }

  /** Each kind is reported at most once, in this order, with its own weight and reason. */
  ghost predicate Explained(cfg: RiskConfig, c: Commitment, factors: seq<Factor>) {
    && (forall i :: 0 <= i < |factors| ==>
          factors[i].weight == Weight(cfg, c, factors[i].kind) && Wording(factors[i].reason) == TextFor(factors[i].kind))
    && (forall i, j :: 0 <= i < j < |factors| ==> Rank(factors[i].kind) < Rank(factors[j].kind))
  }

  lemma DueShare(cfg: RiskConfig, c: Commitment, signals: nat, now: int)
    ensures Total(DueFactors(cfg, c, now)) == Share(cfg, c, signals, now, OverdueFactor) + Share(cfg, c, signals, now, DueSoonFactor)
  {}

  lemma TotalInParts(cfg: RiskConfig, c: Commitment, signals: nat, now: int)
    ensures Total(AllFactors(cfg, c, signals, now))
         == Total(DueFactors(cfg, c, now)) + (if c.confidence > 0.0 then ConfidenceShare(cfg, c) else 0.0)
            + (if signals > 0 then cfg.signal else 0.0)
  {
    var due, tracked := DueFactors(cfg, c, now), Factor(ConfidenceFactor, ConfidenceShare(cfg, c), TrackedStrictly);
    TotalAdds(due, c.confidence > 0.0, tracked);
    TotalAdds(AddFactor(due, c.confidence > 0.0, tracked), signals > 0, Factor(SignalFactor, cfg.signal, PatternDetected));
  }

  /** The score is the formula. */
  lemma ScoreIsFormula(cfg: RiskConfig, c: Commitment, signals: nat, now: int)
    ensures Assess(cfg, c, signals, now).score == RiskOf(cfg, c, signals, now)
    ensures Assess(cfg, c, signals, now).confidence == c.confidence
  {
    TotalInParts(cfg, c, signals, now);
    DueShare(cfg, c, signals, now);
  }

  /** The factors are exactly those that are warranted. */
  lemma FactorsAreWarranted(cfg: RiskConfig, c: Commitment, signals: nat, now: int, kind: FactorKind)
    ensures Blames(Assess(cfg, c, signals, now).factors, kind) <==> Warranted(c, signals, cfg.dueSoonWindow, now, kind)
  {
    FactorsReportedIff(cfg, c, signals, now);
    match kind
    case OverdueFactor =>
    case DueSoonFactor =>
    case ConfidenceFactor =>
    case SignalFactor =>
  }

  lemma DueExplained(cfg: RiskConfig, c: Commitment, now: int)
    ensures Explained(cfg, c, DueFactors(cfg, c, now))
    ensures forall i :: 0 <= i < |DueFactors(cfg, c, now)| ==> Rank(DueFactors(cfg, c, now)[i].kind) < 2
  {}

  lemma FactorsExplained(cfg: RiskConfig, c: Commitment, signals: nat, now: int)
    ensures Explained(cfg, c, Assess(cfg, c, signals, now).factors)
  {
    var due, tracked := DueFactors(cfg, c, now), Factor(ConfidenceFactor, ConfidenceShare(cfg, c), TrackedStrictly);
    DueExplained(cfg, c, now);
    AddExplained(cfg, c, due, c.confidence > 0.0, tracked);
    AddExplained(cfg, c, AddFactor(due, c.confidence > 0.0, tracked), signals > 0, Factor(SignalFactor, cfg.signal, PatternDetected));
  }

  lemma AddExplained(cfg: RiskConfig, c: Commitment, factors: seq<Factor>, when: bool, f: Factor)
    requires Explained(cfg, c, factors) && forall i :: 0 <= i < |factors| ==> Rank(factors[i].kind) < Rank(f.kind)
    requires f.weight == Weight(cfg, c, f.kind) && Wording(f.reason) == TextFor(f.kind)
    ensures Explained(cfg, c, AddFactor(factors, when, f))
  {}

  /** The policy snapshot names every coefficient, the window in seconds. */
  ghost predicate IsSnapshot(weights: map<WeightKey, real>, cfg: RiskConfig) {
    && weights.Keys == {Overdue, DueSoon, DueSoonWindowSeconds, Confidence, Signal}
    && weights[Overdue] == cfg.overdue && weights[DueSoon] == cfg.dueSoon
    && weights[Confidence] == cfg.confidence && weights[Signal] == cfg.signal
    && weights[DueSoonWindowSeconds] * 1_000_000_000.0 == cfg.dueSoonWindow as real
  }

  lemma WeightsAreSnapshot(cfg: RiskConfig)
    ensures IsSnapshot(Weights(cfg), cfg)
  {
    assert Weights(cfg).Keys == {Overdue, DueSoon, DueSoonWindowSeconds, Confidence, Signal};
  }

  // ---------- interventions ----------

  datatype InterventionConfig = InterventionConfig(nudge: real, escalate: real, automation: real)

  function TopFactor(factors: seq<Factor>): Factor
    requires factors != []
  {
    if |factors| == 1 then factors[0] else
    var top, last := TopFactor(factors[..|factors| - 1]), factors[|factors| - 1];
    if last.weight > top.weight then last else top
  }

  function TopReason(factors: seq<Factor>): Reason {
    if factors == [] then ThresholdExceeded else TopFactor(factors).reason
  }

  function Wording(r: Reason): string {
    match r
    case PastDue => "Commitment is past its due time."
    case DueWithinWindow => "Commitment is due within the soon-window."
    case TrackedStrictly => "Commitment is high-confidence; tracked strictly."
    case PatternDetected => "Chronos detected a temporal pattern matching this commitment."
    case ThresholdExceeded => "Risk threshold exceeded."
  }

  /** The factor blamed is one that weighs the most, and the first of those. */
  lemma {:induction false} TopFactorIsFirstHeaviest(factors: seq<Factor>) returns (k: nat)
    requires factors != []
    ensures k < |factors| && factors[k] == TopFactor(factors)
    ensures forall i :: 0 <= i < |factors| ==> factors[i].weight <= factors[k].weight
    ensures forall i :: 0 <= i < k ==> factors[i].weight < factors[k].weight
    decreases factors
  {
    if |factors| == 1 {
      k := 0;
    } else {
      k := TopFactorIsFirstHeaviest(factors[..|factors| - 1]);
      if factors[|factors| - 1].weight > factors[k].weight {
        k := |factors| - 1;
      }
    }
  }

  method FindTopReason(factors: seq<Factor>) returns (reason: Reason)
    ensures reason == TopReason(factors)
  {
    if |factors| == 0 {
      return ThresholdExceeded;
    }
    var top := factors[0];
    for i := 1 to |factors|
      invariant top == TopFactor(factors[..i])
    {
      assert factors[..i + 1][..i] == factors[..i];
      if factors[i].weight > top.weight {
        top := factors[i];
      }
    }
    assert factors[..|factors|] == factors;
    return top.reason;
  }

  function Message(c: Commitment, a: Assessment): string {
    "\"" + c.description + "\" is at risk of being missed. " + Wording(TopReason(a.factors))
  }

  function KindFor(cfg: InterventionConfig, a: Assessment): string {
    if a.score >= cfg.escalate then "escalation"
    else if a.confidence >= cfg.automation then "automation"
    else "nudge"
  }

  /** The engine's draft, with `id` the identifier drawn for it. */
  function MaybeIntervene(cfg: InterventionConfig, c: Commitment, a: Assessment, id: Id, now: int): (r: Option<Intervention>)
    ensures r.Some? ==> ValidIntervention(r.value) && r.value.id == id && r.value.commitmentID == Some(c.id)
    ensures r.Some? <==> a.score >= cfg.nudge && id != NIL
    ensures r.Some? ==> r.value.kind == (if a.score >= cfg.escalate then "escalation"
                                         else if a.confidence >= cfg.automation then "automation" else "nudge")
  {
    if a.score < cfg.nudge then None else
    var iv := Intervention(id, Some(c.id), None, KindFor(cfg, a), TrimSpace(Message(c, a)), None, "pending", now, None);
    assert iv.message != "" by { TrimKeepsText(Message(c, a)); }
    if ValidIntervention(iv) then Some(iv) else None
  }

  lemma WordingEndsInStop(r: Reason)
    ensures Wording(r) != "" && Wording(r)[|Wording(r)| - 1] == '.'
  {}

  lemma QuoteToStop(head: string, tail: string)
    requires head != "" && head[0] == '"' && tail != "" && tail[|tail| - 1] == '.'
    ensures TrimSpace(head + tail) == head + tail
  {
    assert TrimLeft(head + tail, IsSpace) == head + tail;
  }

  /** Nothing is trimmed off the message: it begins with a quote and ends with a full stop. */
  lemma MessageUntrimmed(c: Commitment, a: Assessment)
    ensures TrimSpace(Message(c, a)) == Message(c, a)
  {
    var reason := TopReason(a.factors);
    WordingEndsInStop(reason);
    QuoteToStop("\"" + c.description + "\" is at risk of being missed. ", Wording(reason));
  }

  /** The message quotes the commitment and gives the reason of the first of its heaviest factors. */
  lemma MessageTold(cfg: InterventionConfig, c: Commitment, a: Assessment, id: Id, now: int) returns (k: nat)
    requires a.score >= cfg.nudge && id != NIL && a.factors != []
    ensures k < |a.factors|
    ensures MaybeIntervene(cfg, c, a, id, now).value.message
         == "\"" + c.description + "\" is at risk of being missed. " + Wording(a.factors[k].reason)
    ensures forall i :: 0 <= i < |a.factors| ==> a.factors[i].weight <= a.factors[k].weight
    ensures forall i :: 0 <= i < k ==> a.factors[i].weight < a.factors[k].weight
  {
    k := TopFactorIsFirstHeaviest(a.factors);
    MessageUntrimmed(c, a);
  }

  /** A drafted intervention is new, pending, about this commitment alone and dated now. */
  lemma DraftTold(cfg: InterventionConfig, c: Commitment, a: Assessment, id: Id, now: int)
    requires a.score >= cfg.nudge && id != NIL
    ensures var iv := MaybeIntervene(cfg, c, a, id, now);
            && iv.Some? && iv.value.taskID == None && iv.value.suggestedAction == None
            && iv.value.status == "pending" && iv.value.triggeredAt == now && iv.value.resolvedAt == None
  {}

  lemma TrimKeepsText(s: string)
    requires s != "" && !IsSpace(s[0])
    ensures TrimSpace(s) != ""
  {
    assert TrimLeft(s, IsSpace) == s;
    TrimRightStops(s, IsSpace, 0);
  }
}
