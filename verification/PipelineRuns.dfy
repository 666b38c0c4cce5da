/**
 Whole runs of the service over an in-memory store: extractions, evaluation passes and resolutions
 in any order, under policies that may change from one event to the next.
 */
module PipelineRuns {
  import opened Domain
  import opened Engines
  import opened Stores
  import opened Pipeline
  import opened Selecting
  import Extraction

  datatype Event =
    | Extracts(input: Extraction.Input)
    | Evaluates(setting: Setting, limit: int, found: seq<Commitment>, draws: seq<Draw>, processed: nat)
    | Resolves(id: Id, target: string, now: int)

  /** What the store and the identifier source guarantee about an event. */
  ghost predicate Possible(t: Tables, e: Event) {
    match e
    case Extracts(i) =>
      |i.draws| == |i.drafts| && i.decisionID !in t.decisions
    case Evaluates(setting, limit, found, draws, n) =>
      && Found(t, limit, found) && n <= |found| == |draws|
      && FreshDraws(t, draws)
    case Resolves(_, _, _) => true
  }

  /** A resolution reads the intervention, moves it and saves it; any error leaves the store alone. */
  function AfterResolve(t: Tables, id: Id, target: string, now: int): Tables {
    if id in t.interventions && Resolve(t.interventions[id], target, now).Ok?
    then OnMemory(t, SaveIntervention(Resolve(t.interventions[id], target, now).value)).tables
    else t
  }

  /** An event that is not possible does not happen. */
  ghost function AfterEvent(t: Tables, e: Event): Tables {
    if !Possible(t, e) then t else
    match e
    case Extracts(i) => Extraction.AfterExtract(t, i)
    case Evaluates(setting, _, found, draws, n) => AfterMany(setting, t, found, draws, n).tables
    case Resolves(id, target, now) => AfterResolve(t, id, target, now)
  }

  ghost function TablesAfter(events: seq<Event>): Tables {
    if events == [] then EMPTY else AfterEvent(TablesAfter(events[..|events| - 1]), events[|events| - 1])
  }

  // ---------- what every run keeps ----------

  /** The recorded score follows from the record itself. */
  predicate Replayable(d: Decision) {
    d.matter.Evaluated? ==> d.matter.riskScore == Replay(d.weights, d.confidence, Kinds(d.matter.factors))
  }

  ghost predicate CommitmentsSound(t: Tables) {
    forall id :: id in t.commitments ==> ValidCommitment(t.commitments[id]) && t.commitments[id].id == id
  }

  ghost predicate InterventionsSound(t: Tables) {
    forall id :: id in t.interventions ==>
      var iv := t.interventions[id];
      ValidIntervention(iv) && iv.id == id && iv.commitmentID.Some? && iv.commitmentID.value in t.commitments
  }

  ghost predicate DecisionsSound(t: Tables) {
    forall id :: id in t.decisions ==>
      ValidDecision(t.decisions[id]) && t.decisions[id].id == id && Replayable(t.decisions[id])
  }

  ghost predicate Sound(t: Tables) { CommitmentsSound(t) && InterventionsSound(t) && DecisionsSound(t) }

  ghost predicate Extends(before: map<Id, Decision>, after: map<Id, Decision>) {
    forall id :: id in before ==> id in after && after[id] == before[id]
  }

  /** Interventions stay, keep what they are about, and only move forward. */
  ghost predicate Evolves(before: map<Id, Intervention>, after: map<Id, Intervention>) {
    forall id :: id in before ==>
      && id in after && Progressed(before[id].status, after[id].status)
      && after[id].(status := before[id].status, resolvedAt := before[id].resolvedAt) == before[id]
  }

  lemma UpdateKeepsSound(e: Setting, p: Progress, c: Commitment)
    requires Sound(p.tables) && c.id in p.tables.commitments
    ensures Sound(AfterUpdate(e, p, c).tables)
  {
    AssessmentReplays(e.risk, c, e.signals(c.entities), e.now);
    var t' := AfterUpdate(e, p, c).tables;
    assert t'.commitments.Keys == p.tables.commitments.Keys;
  }

  lemma DecisionKeepsSound(e: Setting, p: Progress, c: Commitment, draw: Draw)
    requires Sound(p.tables)
    ensures Sound(AfterDecision(e, p, c, draw).tables)
  {
    AssessmentReplays(e.risk, c, e.signals(c.entities), e.now);
    var d := EvaluateDecision(e, c, draw.decisionID);
    assert Replayable(d);
  }

  lemma InterventionKeepsSound(e: Setting, p: Progress, c: Commitment, draw: Draw)
    requires Sound(p.tables) && c.id in p.tables.commitments
    ensures Sound(AfterIntervention(e, p, c, draw).tables)
  {}

  lemma {:induction false} PassKeepsSound(e: Setting, t: Tables, cs: seq<Commitment>, draws: seq<Draw>, n: nat)
    requires n <= |cs| == |draws| && Sound(t)
    ensures Sound(AfterMany(e, t, cs, draws, n).tables)
    decreases n
  {
    if n > 0 {
      PassKeepsSound(e, t, cs, draws, n - 1);
      OneKeepsSound(e, AfterMany(e, t, cs, draws, n - 1), cs[n - 1], draws[n - 1]);
    }
  }

  lemma OneKeepsSound(e: Setting, p: Progress, c: Commitment, draw: Draw)
    requires Sound(p.tables)
    ensures Sound(AfterOne(e, p, c, draw).tables)
  {
    if Updates(p.tables, c, draw) {
      var u := AfterUpdate(e, p, c);
      UpdateKeepsSound(e, p, c);
      DecisionKeepsSound(e, u, c, draw);
      InterventionKeepsSound(e, AfterDecision(e, u, c, draw), c, draw);
    }
  }

  /** With fresh identifiers a pass only adds decisions … */
  lemma PassOnlyAddsDecisions(e: Setting, t: Tables, cs: seq<Commitment>, draws: seq<Draw>, n: nat)
    requires n <= |cs| == |draws| && Snapshot(t, cs) && FreshDraws(t, draws)
    ensures Extends(t.decisions, AfterMany(e, t, cs, draws, n).tables.decisions)
  {
    DecisionStages(e, t, cs, draws);
    forall id | id in t.decisions
      ensures var after := AfterMany(e, t, cs, draws, n).tables.decisions; id in after && after[id] == t.decisions[id]
    {
      KeepsOthers(DecisionTables(Stages(e, t, cs, draws)), DecisionIDs(draws), DecisionsOwed(cs, draws), 0, n, id);
    }
  }

  /** … and interventions. */
  lemma PassOnlyAddsInterventions(e: Setting, t: Tables, cs: seq<Commitment>, draws: seq<Draw>, n: nat)
    requires n <= |cs| == |draws| && Snapshot(t, cs) && FreshDraws(t, draws)
    ensures Evolves(t.interventions, AfterMany(e, t, cs, draws, n).tables.interventions)
  {
    InterventionStages(e, t, cs, draws);
    forall id | id in t.interventions
      ensures var after := AfterMany(e, t, cs, draws, n).tables.interventions; id in after && after[id] == t.interventions[id]
    {
      KeepsOthers(InterventionTables(Stages(e, t, cs, draws)), InterventionIDs(draws), InterventionsOwed(e, cs, draws), 0, n, id);
    }
  }

  lemma ExtractKeepsSound(t: Tables, i: Extraction.Input)
    requires Sound(t) && |i.draws| == |i.drafts|
    ensures Sound(Extraction.AfterExtract(t, i))
  {
    Extraction.DraftsAccounted(t.commitments, i.drafts, i.draws, i.minConfidence, i.now, |i.drafts|);
  }

  lemma ResolveKeepsSound(t: Tables, id: Id, target: string, now: int)
    requires Sound(t)
    ensures Sound(AfterResolve(t, id, target, now)) && AfterResolve(t, id, target, now).decisions == t.decisions
    ensures Evolves(t.interventions, AfterResolve(t, id, target, now).interventions)
  {}

  /** A resolution that the lifecycle allows sets status and time of that one row; any other changes nothing. */
  lemma ResolutionTold(t: Tables, id: Id, target: string, now: int)
    requires Sound(t)
    ensures var after := AfterResolve(t, id, target, now);
            if id in t.interventions && CanResolve(t.interventions[id].status, target)
            then after == t.(interventions := t.interventions[id := t.interventions[id].(status := target, resolvedAt := Some(now))])
            else after == t
  {}

  lemma EventKeepsSound(t: Tables, e: Event)
    requires Sound(t)
    ensures Sound(AfterEvent(t, e)) && Extends(t.decisions, AfterEvent(t, e).decisions)
    ensures Evolves(t.interventions, AfterEvent(t, e).interventions)
  {
    if Possible(t, e) {
      match e
      case Extracts(i) => ExtractKeepsSound(t, i);
      case Evaluates(setting, limit, found, draws, n) =>
        FoundFits(t, limit, found);
        PassKeepsSound(setting, t, found, draws, n);
        PassOnlyAddsDecisions(setting, t, found, draws, n);
        PassOnlyAddsInterventions(setting, t, found, draws, n);
      case Resolves(id, target, now) => ResolveKeepsSound(t, id, target, now);
    }
  }

  /**
   Over every run from an empty store: every commitment is valid, its risk within [0, 1] although
   `UpdateRisk` checks nothing; every intervention points at a stored commitment; and every recorded
   evaluation can be replayed from its own weights, confidence and factors, whatever the policy is now.
   */
  lemma {:induction false} StoreIsAlwaysSound(events: seq<Event>)
    ensures Sound(TablesAfter(events))
    decreases events
  {
    if events != [] {
      StoreIsAlwaysSound(events[..|events| - 1]);
      EventKeepsSound(TablesAfter(events[..|events| - 1]), events[|events| - 1]);
    }
  }

  /** What that means for each row. */
  lemma RowsInBounds(events: seq<Event>, id: Id)
    ensures var t := TablesAfter(events);
            && (id in t.commitments ==>
                  var c := t.commitments[id];
                  && c.id == id != 0 && c.ownerID != "" && c.description != "" && 0.0 <= c.confidence <= 1.0
                  && 0.0 <= c.riskScore <= 1.0 && c.status in ["pending", "in_progress", "completed", "missed", "cancelled"])
            && (id in t.interventions ==>
                  var iv := t.interventions[id];
                  && iv.id == id != 0 && iv.message != "" && iv.kind in ["nudge", "escalation", "automation", "suggestion"]
                  && iv.commitmentID.Some? && iv.commitmentID.value in t.commitments)
            && (id in t.decisions ==> t.decisions[id].id == id != 0 && 0.0 <= t.decisions[id].confidence <= 1.0)
  {
    StoreIsAlwaysSound(events);
  }

  /** No stored decision is ever altered or lost, and interventions only ever move forward. */
  lemma {:induction false} HistoryIsNeverRewritten(events: seq<Event>, k: nat)
    requires k <= |events|
    ensures Extends(TablesAfter(events[..k]).decisions, TablesAfter(events).decisions)
    ensures Evolves(TablesAfter(events[..k]).interventions, TablesAfter(events).interventions)
    decreases events
  {
    if k == |events| {
      assert events[..k] == events;
    } else {
      var front := events[..|events| - 1];
      HistoryIsNeverRewritten(front, k);
      assert front[..k] == events[..k];
      StoreIsAlwaysSound(front);
      EventKeepsSound(TablesAfter(front), events[|events| - 1]);
    }
  }

  // ---------- where a decision comes from ----------

  /** The event is a pass that visited `found[k]`, stored its risk and documented that as decision `id`. */
  ghost predicate MadeBy(t: Tables, e: Event, k: nat, id: Id, d: Decision) {
    && e.Evaluates? && Possible(t, e) && k < e.processed
    && e.draws[k].decisionID == id && !e.draws[k].faults.update
    && e.found[k].id in t.commitments && t.commitments[e.found[k].id] == e.found[k]
    && Documents(e.setting, e.found[k], d)
  }

  lemma NewDecisionMadeByPass(t: Tables, e: Event, id: Id) returns (k: nat)
    requires Sound(t) && id !in t.decisions
    requires id in AfterEvent(t, e).decisions && AfterEvent(t, e).decisions[id].matter.Evaluated?
    ensures MadeBy(t, e, k, id, AfterEvent(t, e).decisions[id])
  {
    match e
    case Evaluates(setting, limit, found, draws, n) =>
      FoundFits(t, limit, found);
      k := DrawnForVisit(setting, t, found, draws, n, id);
      DecisionOfVisit(setting, t, found, draws, n, k);
    case Extracts(_) => assert false;
    case Resolves(_, _, _) => assert false;
  }

  /**
   Over every run: a recorded evaluation was made by one pass of the run, for a commitment as it was
   then stored, and says when that was, on which sources and signals, by which policy, which factors
   were found and why, and what risk came out.
   */
  lemma {:induction false} DecisionHasItsVisit(events: seq<Event>, id: Id) returns (i: nat, k: nat)
    requires id in TablesAfter(events).decisions && TablesAfter(events).decisions[id].matter.Evaluated?
    ensures i < |events| && MadeBy(TablesAfter(events[..i]), events[i], k, id, TablesAfter(events).decisions[id])
    decreases events
  {
    var front, last := events[..|events| - 1], events[|events| - 1];
    StoreIsAlwaysSound(front);
    if id in TablesAfter(front).decisions {
      EventKeepsSound(TablesAfter(front), last);
      i, k := DecisionHasItsVisit(front, id);
      assert front[..i] == events[..i];
    } else {
      i := |events| - 1;
      k := NewDecisionMadeByPass(TablesAfter(front), last, id);
    }
  }
}
