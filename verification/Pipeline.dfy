/**
 The extraction and evaluation workflows (`internal/pipeline/extract.go`,
 `internal/pipeline/evaluate.go`) over the in-memory repositories, and what every run of them keeps.

 Identifiers, clock readings, signal counts and repository failures are inputs.  A failing
 repository call writes nothing.
 */
module Pipeline {
  import opened Domain
  import opened Engines
  import opened Selecting
  import opened Sorting
  import opened SqlQueries
  import opened Stores

  // ---------- evaluating one commitment ----------

  datatype Faults = Faults(update: bool, decision: bool, intervention: bool)

  /** What the outside world supplies for one commitment of a pass. */
  datatype Draw = Draw(decisionID: Id, interventionID: Id, faults: Faults)

  /** `signals` gives the number of matching signals for a list of entities. */
  datatype Setting = Setting(risk: RiskConfig, policy: InterventionConfig, now: int, signals: seq<string> -> nat)

  datatype Progress = Progress(tables: Tables, updated: nat, decisions: seq<Id>, interventions: seq<Id>)

  function Judge(e: Setting, c: Commitment): Assessment {
    Assess(e.risk, c, e.signals(c.entities), e.now)
  }

  function EvaluateDecision(e: Setting, c: Commitment, id: Id): Decision {
    var a := Judge(e, c);
    Decision(id, "commitment.evaluate", c.sourceRefs,
             Evaluated(c.id, e.signals(c.entities), a.score, a.factors), Weights(e.risk),
             "Risk evaluated against current signals.", a.confidence, e.now)
  }

  predicate Updates(t: Tables, c: Commitment, draw: Draw) { !draw.faults.update && c.id in t.commitments }

  predicate Decides(e: Setting, c: Commitment, draw: Draw) {
    !draw.faults.decision && ValidDecision(EvaluateDecision(e, c, draw.decisionID))
  }

  predicate Intervenes(e: Setting, c: Commitment, draw: Draw) {
    !draw.faults.intervention && Raised(e, c, draw).Some?
  }

  function Raised(e: Setting, c: Commitment, draw: Draw): Option<Intervention> {
    MaybeIntervene(e.policy, c, Judge(e, c), draw.interventionID, e.now)
  }

  function AfterUpdate(e: Setting, p: Progress, c: Commitment): Progress
    requires c.id in p.tables.commitments
  {
    var row := WithRisk(p.tables.commitments[c.id], Judge(e, c).score, e.now);
    p.(tables := p.tables.(commitments := p.tables.commitments[c.id := row]), updated := p.updated + 1)
  }

  function AfterDecision(e: Setting, p: Progress, c: Commitment, draw: Draw): Progress {
    if !Decides(e, c, draw) then p else
    var id := draw.decisionID;
    p.(tables := p.tables.(decisions := p.tables.decisions[id := EvaluateDecision(e, c, id)]),
       decisions := p.decisions + [id])
  }

  function AfterIntervention(e: Setting, p: Progress, c: Commitment, draw: Draw): Progress {
    if !Intervenes(e, c, draw) then p else
    var id := draw.interventionID;
    p.(tables := p.tables.(interventions := p.tables.interventions[id := Raised(e, c, draw).value]),
       interventions := p.interventions + [id])
  }

  function AfterOne(e: Setting, p: Progress, c: Commitment, draw: Draw): Progress {
    if !Updates(p.tables, c, draw) then p
    else AfterIntervention(e, AfterDecision(e, AfterUpdate(e, p, c), c, draw), c, draw)
  }

  /** The pass over the first `n` of the commitments found active. */
  function AfterMany(e: Setting, t: Tables, cs: seq<Commitment>, draws: seq<Draw>, n: nat): Progress
    requires n <= |cs| == |draws|
  {
    if n == 0 then Progress(t, 0, [], [])
    else AfterOne(e, AfterMany(e, t, cs, draws, n - 1), cs[n - 1], draws[n - 1])
  }

  /** What `FindActive` may have returned from these tables. */
  ghost predicate Found(t: Tables, limit: int, cs: seq<Commitment>) {
    Answers(MoreUrgent, cs, ActiveCommitments(t.commitments.Values), limit)
  }

  method RecordDecision(store: MemoryStore, e: Setting, p: Progress, c: Commitment, draw: Draw) returns (q: Progress)
    requires store.View() == p.tables
    modifies store
    ensures q == AfterDecision(e, p, c, draw) && store.View() == q.tables
  {
    var failed := Some(Unavailable);
    if !draw.faults.decision {
      failed := store.SaveDecision(EvaluateDecision(e, c, draw.decisionID));
    }
    q := p.(tables := store.View());
    if failed.None? {
      q := q.(decisions := q.decisions + [draw.decisionID]);
    }
  }

  method RaiseIntervention(store: MemoryStore, e: Setting, p: Progress, c: Commitment, a: Assessment, draw: Draw)
    returns (q: Progress)
    requires store.View() == p.tables && a == Judge(e, c)
    modifies store
    ensures q == AfterIntervention(e, p, c, draw) && store.View() == q.tables
  {
    q := p;
    var iv := MaybeIntervene(e.policy, c, a, draw.interventionID, e.now);
    if iv.None? {
      return;
    }
    var failed := Some(Unavailable);
    if !draw.faults.intervention {
      failed := store.SaveIntervention(iv.value);
    }
    q := p.(tables := store.View());
    if failed.None? {
      q := q.(interventions := q.interventions + [draw.interventionID]);
    }
  }

  /** The body of the loop. */
  method EvaluateOne(store: MemoryStore, e: Setting, p: Progress, c: Commitment, draw: Draw) returns (q: Progress)
    requires store.View() == p.tables
    modifies store
    ensures q == AfterOne(e, p, c, draw) && store.View() == q.tables
  {
    q := p;
    var a := EvaluateCommitment(e.risk, c, e.signals(c.entities), e.now);
    var failed := Some(Unavailable);
    if !draw.faults.update {
      failed := store.UpdateRisk(c.id, a.score, e.now);
    }
    if failed.Some? {
      return;
    }
    q := p.(tables := store.View(), updated := p.updated + 1);
    q := RecordDecision(store, e, q, c, draw);
    q := RaiseIntervention(store, e, q, c, a, draw);
  }

  /**
   One pass.  `draws` must supply something for every commitment there could be; `cancelledAt` is
   how many commitments are processed before the context is cancelled.
   */
  method Evaluate(store: MemoryStore, e: Setting, limit: int, draws: seq<Draw>, cancelledAt: nat)
    returns (evaluated: nat, p: Progress, ghost cs: seq<Commitment>)
    requires Keyed(store.View()) && |draws| >= |store.commitments|
    modifies store
    ensures Found(old(store.View()), limit, cs) && evaluated == |cs| <= |draws|
    ensures p == AfterMany(e, old(store.View()), cs, draws[..|cs|], if cancelledAt < |cs| then cancelledAt else |cs|)
    ensures store.View() == p.tables
  {
    var found := store.FindActive(limit);
    cs := found;
    FoundFits(store.View(), limit, cs);
    evaluated := |found|;
    p := Progress(store.View(), 0, [], []);
    ghost var t, used := store.View(), draws[..|cs|];
    for i := 0 to |found|
      invariant i <= cancelledAt
      invariant p == AfterMany(e, t, cs, used, i) && store.View() == p.tables
    {
      if i == cancelledAt {
        return;
      }
      assert used[i] == draws[i];
      p := EvaluateOne(store, e, p, found[i], draws[i]);
    }
  }

  /** What is found are distinct stored rows, at most as many as there are. */
  lemma FoundFits(t: Tables, limit: int, cs: seq<Commitment>)
    requires Keyed(t) && Found(t, limit, cs)
    ensures |cs| <= |t.commitments|
    ensures forall i :: 0 <= i < |cs| ==> cs[i].id in t.commitments && t.commitments[cs[i].id] == cs[i]
    ensures forall i, j :: 0 <= i < j < |cs| ==> cs[i].id != cs[j].id
    ensures limit <= 0 ==> forall id :: id in t.commitments && IsActive(t.commitments[id].status) ==> t.commitments[id] in cs
  {
    var s :| Arranges(MoreUrgent, s, ActiveCommitments(t.commitments.Values)) && cs == Cut(s, limit);
    assert forall i :: 0 <= i < |cs| ==> cs[i] == s[i] && s[i] in s;
    DistinctCount(cs);
    var ids := set i | 0 <= i < |cs| :: cs[i].id;
    forall i, j | 0 <= i < j < |cs|
      ensures cs[i].id != cs[j].id
    {
      assert cs[i] in t.commitments.Values && cs[j] in t.commitments.Values;
    }
    IdsCount(cs);
    assert IdsOf(cs) <= t.commitments.Keys;
    SubsetCount(IdsOf(cs), t.commitments.Keys);
  }

  function IdsOf(cs: seq<Commitment>): set<Id> { set c | c in cs :: c.id }

  lemma {:induction false} IdsCount(cs: seq<Commitment>)
    requires forall i, j :: 0 <= i < j < |cs| ==> cs[i].id != cs[j].id
    ensures |IdsOf(cs)| == |cs|
    decreases cs
  {
    if cs != [] {
      var front := cs[..|cs| - 1];
      IdsCount(front);
      assert cs == front + [cs[|cs| - 1]];
      assert IdsOf(cs) == IdsOf(front) + {cs[|cs| - 1].id};
    }
  }

  // ---------- accounting of a pass ----------

  /** However the repositories fail: no decision without an update, no update without an evaluation. */
  lemma {:induction false} PassAccounts(e: Setting, t: Tables, cs: seq<Commitment>, draws: seq<Draw>, n: nat)
    requires n <= |cs| == |draws|
    ensures var p := AfterMany(e, t, cs, draws, n);
            |p.decisions| <= p.updated <= n && |p.interventions| <= p.updated
    decreases n
  {
    if n > 0 {
      PassAccounts(e, t, cs, draws, n - 1);
    }
  }

  /** The row as a completed evaluation leaves it. */
  function Rated(e: Setting, c: Commitment): Commitment { WithRisk(c, Judge(e, c).score, e.now) }

  /** Distinct rows of the tables, as `FindActive` returns them. */
  ghost predicate Snapshot(t: Tables, cs: seq<Commitment>) {
    && (forall i :: 0 <= i < |cs| ==> cs[i].id in t.commitments && t.commitments[cs[i].id] == cs[i])
    && (forall i, j :: 0 <= i < j < |cs| ==> cs[i].id != cs[j].id)
  }

  ghost predicate Visited(cs: seq<Commitment>, draws: seq<Draw>, n: nat, id: Id)
    requires n <= |cs| == |draws|
  {
    exists j :: 0 <= j < n && cs[j].id == id && !draws[j].faults.update
  }

  /** Exactly the visited rows are rated. */
  ghost predicate RatesVisited(rate: Commitment -> Commitment, before: map<Id, Commitment>, after: map<Id, Commitment>,
                               cs: seq<Commitment>, draws: seq<Draw>, n: nat)
    requires n <= |cs| == |draws|
  {
    && after.Keys == before.Keys
    && forall id :: id in before ==>
         after[id] == if Visited(cs, draws, n, id) then rate(before[id]) else before[id]
  }

  lemma RatesOneMore(rate: Commitment -> Commitment, t: Tables, m: map<Id, Commitment>,
                     cs: seq<Commitment>, draws: seq<Draw>, n: nat)
    requires 0 < n <= |cs| == |draws| && Snapshot(t, cs)
    requires RatesVisited(rate, t.commitments, m, cs, draws, n - 1)
    ensures m[cs[n - 1].id] == cs[n - 1]
    ensures var m' := if draws[n - 1].faults.update then m else m[cs[n - 1].id := rate(cs[n - 1])];
            RatesVisited(rate, t.commitments, m', cs, draws, n)
  {
    var c := cs[n - 1];
    assert !Visited(cs, draws, n - 1, c.id);
    VisitedStep(cs, draws, n);
  }

  lemma CommitmentsAfterOne(e: Setting, p: Progress, c: Commitment, draw: Draw)
    requires c.id in p.tables.commitments && p.tables.commitments[c.id] == c
    ensures AfterOne(e, p, c, draw).tables.commitments
         == if draw.faults.update then p.tables.commitments else p.tables.commitments[c.id := Rated(e, c)]
  {}

  /** A pass rates exactly the commitments it visits and touches no other. */
  lemma {:induction false} PassRatesVisited(e: Setting, t: Tables, cs: seq<Commitment>, draws: seq<Draw>, n: nat)
    requires n <= |cs| == |draws| && Snapshot(t, cs)
    ensures RatesVisited(c => Rated(e, c), t.commitments, AfterMany(e, t, cs, draws, n).tables.commitments, cs, draws, n)
    decreases n
  {
    if n > 0 {
      PassRatesVisited(e, t, cs, draws, n - 1);
      var p := AfterMany(e, t, cs, draws, n - 1);
      RatesOneMore(c => Rated(e, c), t, p.tables.commitments, cs, draws, n);
      CommitmentsAfterOne(e, p, cs[n - 1], draws[n - 1]);
    }
  }

  lemma VisitedStep(cs: seq<Commitment>, draws: seq<Draw>, n: nat)
    requires 0 < n <= |cs| == |draws|
    ensures forall id :: Visited(cs, draws, n, id) <==>
                           Visited(cs, draws, n - 1, id) || (id == cs[n - 1].id && !draws[n - 1].faults.update)
  {
    forall id
      ensures Visited(cs, draws, n, id) <==>
              Visited(cs, draws, n - 1, id) || (id == cs[n - 1].id && !draws[n - 1].faults.update)
    {
      if id == cs[n - 1].id && !draws[n - 1].faults.update {
        assert 0 <= n - 1 < n;
        assert cs[n - 1].id == id;
      }
      if Visited(cs, draws, n - 1, id) {
        var j :| 0 <= j < n - 1 && cs[j].id == id && !draws[j].faults.update;
        assert 0 <= j < n;
      }
    }
  }

  lemma RatingIsStable(e: Setting, c: Commitment)
    ensures Judge(e, Rated(e, c)) == Judge(e, c) && Rated(e, Rated(e, c)) == Rated(e, c)
  {
    assert Rated(e, c).dueAt == c.dueAt && Rated(e, c).confidence == c.confidence && Rated(e, c).entities == c.entities;
    assert DueFactors(e.risk, Rated(e, c), e.now) == DueFactors(e.risk, c, e.now);
    assert ConfidenceShare(e.risk, Rated(e, c)) == ConfidenceShare(e.risk, c);
    assert AllFactors(e.risk, Rated(e, c), e.signals(c.entities), e.now) == AllFactors(e.risk, c, e.signals(c.entities), e.now);
  }

  /**
   After an unlimited, uninterrupted pass whose updates succeed, another pass at the same clock with
   the same signals and policy changes no commitment, whatever else goes wrong in either of them.
   */
  lemma SecondPassChangesNothing(e: Setting, t: Tables, cs: seq<Commitment>, draws: seq<Draw>,
                                 limit: int, cs': seq<Commitment>, draws': seq<Draw>, n: nat)
    requires Keyed(t) && Found(t, 0, cs) && |draws| == |cs|
    requires forall i :: 0 <= i < |draws| ==> !draws[i].faults.update
    requires var t' := AfterMany(e, t, cs, draws, |cs|).tables;
             Found(t', limit, cs') && n <= |cs'| == |draws'|
    ensures var t' := AfterMany(e, t, cs, draws, |cs|).tables;
            AfterMany(e, t', cs', draws', n).tables.commitments == t'.commitments
  {
    var t' := AfterMany(e, t, cs, draws, |cs|).tables;
    var t'' := AfterMany(e, t', cs', draws', n).tables;
    var rate := (c: Commitment) => Rated(e, c);
    PassKeepsKeyed(e, t, cs, draws, |cs|);
    FoundFits(t, 0, cs);
    FoundFits(t', limit, cs');
    PassRatesVisited(e, t, cs, draws, |cs|);
    PassRatesVisited(e, t', cs', draws', n);
    forall id | id in t.commitments && IsActive(t.commitments[id].status)
      ensures Visited(cs, draws, |cs|, id)
    {
      var j :| 0 <= j < |cs| && cs[j] == t.commitments[id];
      assert cs[j].id == id && !draws[j].faults.update;
    }
    forall id | Visited(cs', draws', n, id)
      ensures id in t'.commitments && IsActive(t'.commitments[id].status)
    {
      FoundAreActive(t', limit, cs', id);
    }
    forall c
      ensures rate(rate(c)) == rate(c) && rate(c).status == c.status
    {
      RatingIsStable(e, c);
    }
    RatingTwiceIsOnce(rate, t.commitments, t'.commitments, t''.commitments, cs, draws, cs', draws', n);
  }

  lemma RatingTwiceIsOnce(rate: Commitment -> Commitment,
                          m: map<Id, Commitment>, m': map<Id, Commitment>, m'': map<Id, Commitment>,
                          cs: seq<Commitment>, draws: seq<Draw>, cs': seq<Commitment>, draws': seq<Draw>, n: nat)
    requires |cs| == |draws| && n <= |cs'| == |draws'|
    requires forall c {:trigger rate(rate(c))} :: rate(rate(c)) == rate(c)
    requires forall c {:trigger rate(c)} :: rate(c).status == c.status
    requires RatesVisited(rate, m, m', cs, draws, |cs|) && RatesVisited(rate, m', m'', cs', draws', n)
    requires forall id :: id in m && IsActive(m[id].status) ==> Visited(cs, draws, |cs|, id)
    requires forall id :: Visited(cs', draws', n, id) ==> id in m' && IsActive(m'[id].status)
    ensures m'' == m'
  {
    forall id | id in m'
      ensures m''[id] == m'[id]
    {
      if Visited(cs', draws', n, id) {
        assert m'[id] == rate(m[id]);
        assert rate(rate(m[id])) == rate(m[id]);
      }
    }
  }

  lemma FoundAreActive(t: Tables, limit: int, cs: seq<Commitment>, id: Id)
    requires Keyed(t) && Found(t, limit, cs) && exists j :: 0 <= j < |cs| && cs[j].id == id
    ensures id in t.commitments && IsActive(t.commitments[id].status)
  {
    FoundFits(t, limit, cs);
    var s :| Arranges(MoreUrgent, s, ActiveCommitments(t.commitments.Values)) && cs == Cut(s, limit);
    var j :| 0 <= j < |cs| && cs[j].id == id;
    assert cs[j] == s[j] && s[j] in s;
  }

  lemma {:induction false} PassKeepsKeyed(e: Setting, t: Tables, cs: seq<Commitment>, draws: seq<Draw>, n: nat)
    requires n <= |cs| == |draws| && Keyed(t)
    ensures Keyed(AfterMany(e, t, cs, draws, n).tables)
    decreases n
  {
    if n > 0 {
      PassKeepsKeyed(e, t, cs, draws, n - 1);
      OneKeepsKeyed(e, AfterMany(e, t, cs, draws, n - 1), cs[n - 1], draws[n - 1]);
    }
  }

  lemma OneKeepsKeyed(e: Setting, p: Progress, c: Commitment, draw: Draw)
    requires Keyed(p.tables)
    ensures Keyed(AfterOne(e, p, c, draw).tables)
  {}

  /** An intervention was there before, or concerns a commitment that was visited and judged to need it. */
  ghost predicate Justified(e: Setting, t: Tables, p: Tables, cs: seq<Commitment>, draws: seq<Draw>, n: nat, id: Id)
    requires n <= |cs| == |draws| && id in p.interventions
  {
    || (id in t.interventions && p.interventions[id] == t.interventions[id])
    || (var anchor := p.interventions[id].commitmentID;
        && anchor.Some? && anchor.value in t.commitments && Visited(cs, draws, n, anchor.value)
        && Judge(e, t.commitments[anchor.value]).score >= e.policy.nudge)
  }

  lemma {:induction false} PassJustifies(e: Setting, t: Tables, cs: seq<Commitment>, draws: seq<Draw>, n: nat, id: Id)
    requires n <= |cs| == |draws| && Snapshot(t, cs)
    requires id in AfterMany(e, t, cs, draws, n).tables.interventions
    ensures Justified(e, t, AfterMany(e, t, cs, draws, n).tables, cs, draws, n, id)
    decreases n
  {
    if n > 0 {
      var before, after := AfterMany(e, t, cs, draws, n - 1).tables, AfterMany(e, t, cs, draws, n).tables;
      var c := cs[n - 1];
      if id in before.interventions && after.interventions[id] == before.interventions[id] {
        PassJustifies(e, t, cs, draws, n - 1, id);
      }
      VisitedStep(cs, draws, n);
    }
  }

  /**
   No intervention without a risk update: whatever fails, every intervention a pass leaves behind
   was there before or concerns a commitment whose stored risk this pass has just set, at or above
   the nudge threshold.
   */
  lemma InterventionsFollowUpdates(e: Setting, t: Tables, limit: int, cs: seq<Commitment>, draws: seq<Draw>, n: nat, id: Id)
    requires Keyed(t) && Found(t, limit, cs) && n <= |cs| == |draws|
    requires id in AfterMany(e, t, cs, draws, n).tables.interventions
    ensures var p := AfterMany(e, t, cs, draws, n).tables;
            || (id in t.interventions && p.interventions[id] == t.interventions[id])
            || (var anchor := p.interventions[id].commitmentID;
                && anchor.Some? && anchor.value in p.commitments
                && p.commitments[anchor.value].lastEvaluatedAt == Some(e.now)
                && p.commitments[anchor.value].riskScore >= e.policy.nudge)
  {
    FoundFits(t, limit, cs);
    PassJustifies(e, t, cs, draws, n, id);
    PassRatesVisited(e, t, cs, draws, n);
  }

  // ---------- what a pass owes to each commitment ----------

  /** Identifiers drawn for a pass are new. */
  ghost predicate FreshDraws(t: Tables, draws: seq<Draw>) {
    && (forall k :: 0 <= k < |draws| ==>
          draws[k].decisionID !in t.decisions && draws[k].interventionID !in t.interventions)
    && (forall j, k :: 0 <= j < k < |draws| ==>
          draws[j].decisionID != draws[k].decisionID && draws[j].interventionID != draws[k].interventionID)
  }

  /** The risk of a commitment by the formula. */
  function RiskNow(e: Setting, c: Commitment): real { RiskOf(e.risk, c, e.signals(c.entities), e.now) }

  /** A decision is owed once the risk was stored, unless its repository fails or it would be invalid. */
  predicate OwesDecision(c: Commitment, draw: Draw) {
    !draw.faults.update && !draw.faults.decision && draw.decisionID != NIL && 0.0 <= c.confidence <= 1.0
  }

  /** An intervention is owed once the risk was stored and is at the threshold, unless its repository fails. */
  predicate OwesIntervention(policy: InterventionConfig, risk: real, draw: Draw) {
    !draw.faults.update && !draw.faults.intervention && draw.interventionID != NIL && risk >= policy.nudge
  }

  /** The record says what was judged, when, on what evidence, by which policy and with which result. */
  ghost predicate Documents(e: Setting, c: Commitment, d: Decision) {
    && d.subject == "commitment.evaluate" && d.contextRefs == c.sourceRefs && d.createdAt == e.now
    && d.confidence == c.confidence && IsSnapshot(d.weights, e.risk)
    && d.matter.Evaluated? && d.matter.commitmentID == c.id && d.matter.signalCount == e.signals(c.entities)
    && d.matter.riskScore == RiskNow(e, c)
    && Explained(e.risk, c, d.matter.factors)
    && forall kind :: Blames(d.matter.factors, kind) <==>
                      Warranted(c, d.matter.signalCount, e.risk.dueSoonWindow, d.createdAt, kind)
  }

  predicate NamesCommitment(d: Decision, id: Id) { d.matter.Evaluated? && d.matter.commitmentID == id }

  /** The intervention is a new one about this commitment, as urgent as the thresholds say. */
  predicate Announces(e: Setting, c: Commitment, risk: real, iv: Intervention) {
    && iv.commitmentID == Some(c.id) && iv.taskID == None && iv.suggestedAction == None
    && iv.status == "pending" && iv.triggeredAt == e.now && iv.resolvedAt == None
    && iv.kind == (if risk >= e.policy.escalate then "escalation"
                   else if c.confidence >= e.policy.automation then "automation" else "nudge")
  }

  lemma DecisionDocuments(e: Setting, c: Commitment, id: Id)
    ensures Documents(e, c, EvaluateDecision(e, c, id))
  {
    var n := e.signals(c.entities);
    ScoreIsFormula(e.risk, c, n, e.now);
    FactorsExplained(e.risk, c, n, e.now);
    WeightsAreSnapshot(e.risk);
    forall kind
      ensures Blames(Judge(e, c).factors, kind) <==> Warranted(c, n, e.risk.dueSoonWindow, e.now, kind)
    {
      FactorsAreWarranted(e.risk, c, n, e.now, kind);
    }
  }

  lemma DecidesWhenOwed(e: Setting, c: Commitment, draw: Draw)
    ensures OwesDecision(c, draw) <==> !draw.faults.update && Decides(e, c, draw)
  {}

  lemma IntervenesWhenOwed(e: Setting, c: Commitment, draw: Draw)
    ensures OwesIntervention(e.policy, Judge(e, c).score, draw) <==> !draw.faults.update && Intervenes(e, c, draw)
    ensures Intervenes(e, c, draw) ==> Announces(e, c, Judge(e, c).score, Raised(e, c, draw).value)
  {
    if Judge(e, c).score >= e.policy.nudge && draw.interventionID != NIL {
      DraftTold(e.policy, c, Judge(e, c), draw.interventionID, e.now);
    }
  }

  lemma UpdateAfterOne(e: Setting, p: Progress, c: Commitment, draw: Draw)
    requires c.id in p.tables.commitments
    ensures AfterOne(e, p, c, draw).updated == p.updated + if draw.faults.update then 0 else 1
  {}

  lemma DecisionAfterOne(e: Setting, p: Progress, c: Commitment, draw: Draw)
    requires c.id in p.tables.commitments
    ensures var q := AfterOne(e, p, c, draw);
            && Gains(p.tables.decisions, q.tables.decisions, draw.decisionID, OwesDecision(c, draw))
            && (OwesDecision(c, draw) ==> Documents(e, c, q.tables.decisions[draw.decisionID]))
            && q.decisions == Listed(p.decisions, draw.decisionID, OwesDecision(c, draw))
  {
    DecisionDocuments(e, c, draw.decisionID);
    DecidesWhenOwed(e, c, draw);
  }

  lemma InterventionAfterOne(e: Setting, p: Progress, c: Commitment, draw: Draw)
    requires c.id in p.tables.commitments
    ensures var q := AfterOne(e, p, c, draw);
            && Gains(p.tables.interventions, q.tables.interventions, draw.interventionID,
                     OwesIntervention(e.policy, Judge(e, c).score, draw))
            && (OwesIntervention(e.policy, Judge(e, c).score, draw) ==>
                  Announces(e, c, Judge(e, c).score, q.tables.interventions[draw.interventionID]))
            && q.interventions == Listed(p.interventions, draw.interventionID, OwesIntervention(e.policy, Judge(e, c).score, draw))
  {
    if !draw.faults.update {
      var decided := AfterDecision(e, AfterUpdate(e, p, c), c, draw);
      assert decided.tables.interventions == p.tables.interventions && decided.interventions == p.interventions;
      AfterInterventionTold(e, decided, c, draw);
    }
  }

  lemma AfterInterventionTold(e: Setting, p: Progress, c: Commitment, draw: Draw)
    requires !draw.faults.update
    ensures var q, owed := AfterIntervention(e, p, c, draw), OwesIntervention(e.policy, Judge(e, c).score, draw);
            && Gains(p.tables.interventions, q.tables.interventions, draw.interventionID, owed)
            && (owed ==> Announces(e, c, Judge(e, c).score, q.tables.interventions[draw.interventionID]))
            && q.interventions == Listed(p.interventions, draw.interventionID, owed)
  {
    IntervenesWhenOwed(e, c, draw);
  }

  lemma StillStored(e: Setting, t: Tables, cs: seq<Commitment>, draws: seq<Draw>, n: nat, k: nat)
    requires n <= |cs| == |draws| && k < |cs| && Snapshot(t, cs)
    ensures cs[k].id in AfterMany(e, t, cs, draws, n).tables.commitments
  {
    PassRatesVisited(e, t, cs, draws, n);
  }

  function Updated(draws: seq<Draw>): seq<bool> { seq(|draws|, i requires 0 <= i < |draws| => !draws[i].faults.update) }

  function DecisionsOwed(cs: seq<Commitment>, draws: seq<Draw>): seq<bool>
    requires |cs| == |draws|
  {
    seq(|draws|, i requires 0 <= i < |draws| => OwesDecision(cs[i], draws[i]))
  }

  function InterventionsOwed(e: Setting, cs: seq<Commitment>, draws: seq<Draw>): seq<bool>
    requires |cs| == |draws|
  {
    seq(|draws|, i requires 0 <= i < |draws| => OwesIntervention(e.policy, Judge(e, cs[i]).score, draws[i]))
  }

  function DecisionIDs(draws: seq<Draw>): seq<Id> { seq(|draws|, i requires 0 <= i < |draws| => draws[i].decisionID) }

  function InterventionIDs(draws: seq<Draw>): seq<Id> { seq(|draws|, i requires 0 <= i < |draws| => draws[i].interventionID) }

  /** The progress after each visit. */
  function Stages(e: Setting, t: Tables, cs: seq<Commitment>, draws: seq<Draw>): (stages: seq<Progress>)
    requires |cs| == |draws|
    ensures |stages| == |cs| + 1 && forall i :: 0 <= i <= |cs| ==> stages[i] == AfterMany(e, t, cs, draws, i)
  {
    seq(|cs| + 1, i requires 0 <= i <= |cs| => AfterMany(e, t, cs, draws, i))
  }

  function UpdateCounts(ps: seq<Progress>): seq<nat> { seq(|ps|, i requires 0 <= i < |ps| => ps[i].updated) }

  function DecisionLists(ps: seq<Progress>): seq<seq<Id>> { seq(|ps|, i requires 0 <= i < |ps| => ps[i].decisions) }

  function InterventionLists(ps: seq<Progress>): seq<seq<Id>> { seq(|ps|, i requires 0 <= i < |ps| => ps[i].interventions) }

  function DecisionTables(ps: seq<Progress>): seq<map<Id, Decision>> { seq(|ps|, i requires 0 <= i < |ps| => ps[i].tables.decisions) }

  function InterventionTables(ps: seq<Progress>): seq<map<Id, Intervention>> {
    seq(|ps|, i requires 0 <= i < |ps| => ps[i].tables.interventions)
  }

  /** Whatever fails, a pass counts exactly the updates that succeeded … */
  lemma PassCountsUpdates(e: Setting, t: Tables, cs: seq<Commitment>, draws: seq<Draw>, n: nat) returns (ks: seq<nat>)
    requires n <= |cs| == |draws| && Snapshot(t, cs)
    ensures Picks(ks, Updated(draws), n) && AfterMany(e, t, cs, draws, n).updated == |ks|
  {
    var counts := UpdateCounts(Stages(e, t, cs, draws));
    forall i | 0 <= i < n
      ensures counts[i + 1] == counts[i] + if Updated(draws)[i] then 1 else 0
    {
      StillStored(e, t, cs, draws, i, i);
      UpdateAfterOne(e, AfterMany(e, t, cs, draws, i), cs[i], draws[i]);
    }
    ks := CountsAll(counts, Updated(draws), n);
  }

  /** One visit after the other, decisions are listed and stored exactly where they are owed. */
  lemma DecisionStages(e: Setting, t: Tables, cs: seq<Commitment>, draws: seq<Draw>)
    requires |cs| == |draws| && Snapshot(t, cs)
    ensures var ps, ids, owed := Stages(e, t, cs, draws), DecisionIDs(draws), DecisionsOwed(cs, draws);
            && GainsAll(DecisionTables(ps), ids, owed)
            && (forall i :: 0 <= i < |cs| ==> DecisionLists(ps)[i + 1] == Listed(DecisionLists(ps)[i], ids[i], owed[i]))
            && (forall i :: 0 <= i < |cs| && owed[i] ==> Documents(e, cs[i], DecisionTables(ps)[i + 1][ids[i]]))
  {
    forall i | 0 <= i < |cs|
      ensures var p, q, owed := AfterMany(e, t, cs, draws, i), AfterMany(e, t, cs, draws, i + 1), OwesDecision(cs[i], draws[i]);
              && Gains(p.tables.decisions, q.tables.decisions, draws[i].decisionID, owed)
              && q.decisions == Listed(p.decisions, draws[i].decisionID, owed)
              && (owed ==> Documents(e, cs[i], q.tables.decisions[draws[i].decisionID]))
    {
      StillStored(e, t, cs, draws, i, i);
      DecisionAfterOne(e, AfterMany(e, t, cs, draws, i), cs[i], draws[i]);
    }
  }

  lemma InterventionStages(e: Setting, t: Tables, cs: seq<Commitment>, draws: seq<Draw>)
    requires |cs| == |draws| && Snapshot(t, cs)
    ensures var ps, ids, owed := Stages(e, t, cs, draws), InterventionIDs(draws), InterventionsOwed(e, cs, draws);
            && GainsAll(InterventionTables(ps), ids, owed)
            && (forall i :: 0 <= i < |cs| ==> InterventionLists(ps)[i + 1] == Listed(InterventionLists(ps)[i], ids[i], owed[i]))
            && (forall i :: 0 <= i < |cs| && owed[i] ==>
                  Announces(e, cs[i], Judge(e, cs[i]).score, InterventionTables(ps)[i + 1][ids[i]]))
  {
    forall i | 0 <= i < |cs|
      ensures var p, q := AfterMany(e, t, cs, draws, i), AfterMany(e, t, cs, draws, i + 1);
              var owed := OwesIntervention(e.policy, Judge(e, cs[i]).score, draws[i]);
              && Gains(p.tables.interventions, q.tables.interventions, draws[i].interventionID, owed)
              && q.interventions == Listed(p.interventions, draws[i].interventionID, owed)
              && (owed ==> Announces(e, cs[i], Judge(e, cs[i]).score, q.tables.interventions[draws[i].interventionID]))
    {
      StillStored(e, t, cs, draws, i, i);
      InterventionAfterOne(e, AfterMany(e, t, cs, draws, i), cs[i], draws[i]);
    }
  }

  /** … and reports, in the order of the visit, exactly the decisions that were owed … */
  lemma PassReportsDecisions(e: Setting, t: Tables, cs: seq<Commitment>, draws: seq<Draw>, n: nat) returns (ks: seq<nat>)
    requires n <= |cs| == |draws| && Snapshot(t, cs)
    ensures Picks(ks, DecisionsOwed(cs, draws), n)
    ensures Lists(AfterMany(e, t, cs, draws, n).decisions, ks, DecisionIDs(draws))
  {
    DecisionStages(e, t, cs, draws);
    ks := ListsAll(DecisionLists(Stages(e, t, cs, draws)), DecisionIDs(draws), DecisionsOwed(cs, draws), n);
  }

  /** … and interventions. */
  lemma PassReportsInterventions(e: Setting, t: Tables, cs: seq<Commitment>, draws: seq<Draw>, n: nat) returns (ks: seq<nat>)
    requires n <= |cs| == |draws| && Snapshot(t, cs)
    ensures Picks(ks, InterventionsOwed(e, cs, draws), n)
    ensures Lists(AfterMany(e, t, cs, draws, n).interventions, ks, InterventionIDs(draws))
  {
    InterventionStages(e, t, cs, draws);
    ks := ListsAll(InterventionLists(Stages(e, t, cs, draws)), InterventionIDs(draws), InterventionsOwed(e, cs, draws), n);
  }

  lemma DecisionOfVisit(e: Setting, t: Tables, cs: seq<Commitment>, draws: seq<Draw>, n: nat, k: nat)
    requires k < n <= |cs| == |draws| && Snapshot(t, cs) && FreshDraws(t, draws)
    ensures var after, id := AfterMany(e, t, cs, draws, n).tables.decisions, draws[k].decisionID;
            && (id in after <==> OwesDecision(cs[k], draws[k]))
            && (id in after ==> Documents(e, cs[k], after[id]))
  {
    DecisionStages(e, t, cs, draws);
    GainedIffMarked(DecisionTables(Stages(e, t, cs, draws)), DecisionIDs(draws), DecisionsOwed(cs, draws), n, k);
  }

  lemma InterventionOfVisit(e: Setting, t: Tables, cs: seq<Commitment>, draws: seq<Draw>, n: nat, k: nat)
    requires k < n <= |cs| == |draws| && Snapshot(t, cs) && FreshDraws(t, draws)
    ensures var after, id := AfterMany(e, t, cs, draws, n).tables.interventions, draws[k].interventionID;
            && (id in after <==> OwesIntervention(e.policy, Judge(e, cs[k]).score, draws[k]))
            && (id in after ==> Announces(e, cs[k], Judge(e, cs[k]).score, after[id]))
  {
    InterventionStages(e, t, cs, draws);
    GainedIffMarked(InterventionTables(Stages(e, t, cs, draws)), InterventionIDs(draws), InterventionsOwed(e, cs, draws), n, k);
  }

  /** Every decision a pass adds was drawn for one of its visits. */
  lemma DrawnForVisit(e: Setting, t: Tables, cs: seq<Commitment>, draws: seq<Draw>, n: nat, id: Id) returns (k: nat)
    requires n <= |cs| == |draws| && Snapshot(t, cs)
    requires id !in t.decisions && id in AfterMany(e, t, cs, draws, n).tables.decisions
    ensures k < n && draws[k].decisionID == id
  {
    DecisionStages(e, t, cs, draws);
    k := GainedSomewhere(DecisionTables(Stages(e, t, cs, draws)), DecisionIDs(draws), DecisionsOwed(cs, draws), n, id);
  }

  /**
   An intervention is raised exactly for the visited commitments whose risk, as this pass has just
   stored it, is at or above the nudge threshold, unless the update or the save fails; the row is new
   and about that commitment.
   */
  lemma PassRaisesExactly(e: Setting, t: Tables, limit: int, cs: seq<Commitment>, draws: seq<Draw>, n: nat, k: nat)
    requires Keyed(t) && Found(t, limit, cs) && k < n <= |cs| == |draws| && FreshDraws(t, draws)
    ensures var p, id := AfterMany(e, t, cs, draws, n), draws[k].interventionID;
            var rows := p.tables.interventions;
            && cs[k].id in p.tables.commitments
            && (id in rows <==>
                  && !draws[k].faults.update && !draws[k].faults.intervention && id != NIL
                  && p.tables.commitments[cs[k].id].riskScore >= e.policy.nudge)
            && (id in rows <==> id in p.interventions)
            && (id in rows ==> Announces(e, cs[k], p.tables.commitments[cs[k].id].riskScore, rows[id]))
  {
    FoundFits(t, limit, cs);
    InterventionOfVisit(e, t, cs, draws, n, k);
    StoredRisk(e, t, cs, draws, n, k);
    var ks := PassReportsInterventions(e, t, cs, draws, n);
    ListedIffMarked(ks, InterventionsOwed(e, cs, draws), n, k, AfterMany(e, t, cs, draws, n).interventions, InterventionIDs(draws));
  }

  lemma JudgedByFormula(e: Setting, c: Commitment)
    ensures Judge(e, c).score == RiskNow(e, c)
    ensures Rated(e, c) == c.(riskScore := RiskNow(e, c), lastEvaluatedAt := Some(e.now), updatedAt := e.now)
  {
    ScoreIsFormula(e.risk, c, e.signals(c.entities), e.now);
  }

  /** The risk a pass stores is the formula's. */
  lemma StoredRisk(e: Setting, t: Tables, cs: seq<Commitment>, draws: seq<Draw>, n: nat, k: nat)
    requires k < n <= |cs| == |draws| && Snapshot(t, cs)
    ensures var rows := AfterMany(e, t, cs, draws, n).tables.commitments;
            && cs[k].id in rows
            && rows[cs[k].id] == (if draws[k].faults.update then cs[k] else
                 cs[k].(riskScore := RiskNow(e, cs[k]), lastEvaluatedAt := Some(e.now), updatedAt := e.now))
            && Judge(e, cs[k]).score == RiskNow(e, cs[k])
  {
    RowAfterPass(e, t, cs, draws, n, k);
    JudgedByFormula(e, cs[k]);
  }

  lemma RowAfterPass(e: Setting, t: Tables, cs: seq<Commitment>, draws: seq<Draw>, n: nat, k: nat)
    requires k < n <= |cs| == |draws| && Snapshot(t, cs)
    ensures var rows := AfterMany(e, t, cs, draws, n).tables.commitments;
            cs[k].id in rows && rows[cs[k].id] == if draws[k].faults.update then cs[k] else Rated(e, cs[k])
  {
    PassRatesVisited(e, t, cs, draws, n);
    VisitedIffUpdated(t, cs, draws, n, k);
  }

  lemma VisitedIffUpdated(t: Tables, cs: seq<Commitment>, draws: seq<Draw>, n: nat, k: nat)
    requires k < n <= |cs| == |draws| && Snapshot(t, cs)
    ensures Visited(cs, draws, n, cs[k].id) <==> !draws[k].faults.update
  {
    if !draws[k].faults.update {
      assert cs[k].id == cs[k].id;
    }
  }

  /**
   Every commitment whose risk was stored gets exactly one new decision, unless the save fails or
   its confidence is out of range, and the decision documents the risk stored.
   */
  lemma PassDecidesExactly(e: Setting, t: Tables, limit: int, cs: seq<Commitment>, draws: seq<Draw>, n: nat, k: nat)
    requires Keyed(t) && Found(t, limit, cs) && k < n <= |cs| == |draws| && FreshDraws(t, draws)
    ensures var p, id := AfterMany(e, t, cs, draws, n), draws[k].decisionID;
            var rows := p.tables.decisions;
            && (id in rows <==> OwesDecision(cs[k], draws[k]))
            && (id in rows <==> id in p.decisions)
            && (id in rows ==>
                  && Documents(e, cs[k], rows[id])
                  && cs[k].id in p.tables.commitments
                  && rows[id].matter.riskScore == p.tables.commitments[cs[k].id].riskScore)
            && (forall other :: other in rows && other !in t.decisions && NamesCommitment(rows[other], cs[k].id) ==> other == id)
  {
    FoundFits(t, limit, cs);
    DecisionOfVisit(e, t, cs, draws, n, k);
    StoredRisk(e, t, cs, draws, n, k);
    var ks := PassReportsDecisions(e, t, cs, draws, n);
    ListedIffMarked(ks, DecisionsOwed(cs, draws), n, k, AfterMany(e, t, cs, draws, n).decisions, DecisionIDs(draws));
    forall other | other in AfterMany(e, t, cs, draws, n).tables.decisions && other !in t.decisions
                   && NamesCommitment(AfterMany(e, t, cs, draws, n).tables.decisions[other], cs[k].id)
      ensures other == draws[k].decisionID
    {
      OnlyDecisionOfVisit(e, t, cs, draws, n, k, other);
    }
  }

  lemma OnlyDecisionOfVisit(e: Setting, t: Tables, cs: seq<Commitment>, draws: seq<Draw>, n: nat, k: nat, id: Id)
    requires k < n <= |cs| == |draws| && Snapshot(t, cs) && FreshDraws(t, draws)
    requires id in AfterMany(e, t, cs, draws, n).tables.decisions && id !in t.decisions
    requires NamesCommitment(AfterMany(e, t, cs, draws, n).tables.decisions[id], cs[k].id)
    ensures id == draws[k].decisionID
  {
    var j := DrawnForVisit(e, t, cs, draws, n, id);
    DecisionOfVisit(e, t, cs, draws, n, j);
  }
}
