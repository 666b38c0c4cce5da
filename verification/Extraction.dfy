/**
 The extraction workflow (`internal/pipeline/extract.go`): drafts in, commitments and one decision out.
 */
module Extraction {
  import opened Domain
  import opened Selecting
  import opened Text
  import opened Stores

  /** Identifier drawn for a draft, and whether saving it fails. */
  datatype Draw = Draw(id: Id, fault: bool)

  datatype Gathered = Gathered(commitments: map<Id, Commitment>, saved: seq<Id>, dropped: nat)

  /** The draft is confident enough, makes a valid commitment, and the repository takes it. */
  predicate Keeps(d: Draft, draw: Draw, minConfidence: real, now: int) {
    d.confidence >= minConfidence && ToCommitment(d, draw.id, now).Ok? && !draw.fault
  }

  function AfterDrafts(m: map<Id, Commitment>, drafts: seq<Draft>, draws: seq<Draw>, minConfidence: real, now: int, n: nat): Gathered
    requires n <= |drafts| == |draws|
  {
    if n == 0 then Gathered(m, [], 0) else
    var g, d, draw := AfterDrafts(m, drafts, draws, minConfidence, now, n - 1), drafts[n - 1], draws[n - 1];
    if Keeps(d, draw, minConfidence, now)
    then Gathered(g.commitments[draw.id := ToCommitment(d, draw.id, now).value], g.saved + [draw.id], g.dropped)
    else g.(dropped := g.dropped + 1)
  }

  function ExtractDecision(id: Id, ownerID: string, refs: seq<string>, considered: nat, minConfidence: real,
                           g: Gathered, now: int): Decision
  {
    Decision(id, "commitment.extract", refs, Extracted(ownerID, considered, minConfidence, g.saved, g.dropped),
             map[], "Saved drafts above confidence.", 1.0, now)
  }

  datatype Input = Input(ownerID: string, refs: seq<string>, drafts: seq<Draft>, draws: seq<Draw>,
                         minConfidence: real, decisionID: Id, decisionFault: bool, now: int)

  function Drafted(t: Tables, i: Input): Gathered
    requires |i.draws| == |i.drafts|
  {
    AfterDrafts(t.commitments, i.drafts, i.draws, i.minConfidence, i.now, |i.drafts|)
  }

  predicate Records(i: Input) { !i.decisionFault && i.decisionID != NIL }

  /** The tables after one extraction. */
  function AfterExtract(t: Tables, i: Input): Tables
    requires |i.draws| == |i.drafts|
  {
    var g := Drafted(t, i);
    var d := ExtractDecision(i.decisionID, i.ownerID, i.refs, |i.drafts|, i.minConfidence, g, i.now);
    t.(commitments := g.commitments, decisions := if Records(i) then t.decisions[d.id := d] else t.decisions)
  }

  /** The body of the loop: whether this draft ended up in the store. */
  method Keep(store: MemoryStore, d: Draft, draw: Draw, minConfidence: real, now: int) returns (kept: bool)
    modifies store
    ensures kept == Keeps(d, draw, minConfidence, now)
    ensures store.View() == if kept
      then old(store.View()).(commitments := old(store.commitments)[draw.id := ToCommitment(d, draw.id, now).value])
      else old(store.View())
  {
    if d.confidence < minConfidence {
      return false;
    }
    var c := ToCommitment(d, draw.id, now);
    if c.Err? {
      return false;
    }
    var failed := Some(Unavailable);
    if !draw.fault {
      failed := store.SaveCommitment(c.value);
    }
    return failed.None?;
  }

  method Extract(store: MemoryStore, i: Input) returns (considered: nat, saved: seq<Id>, dropped: nat, decisionID: Option<Id>)
    requires |i.draws| == |i.drafts|
    modifies store
    ensures store.View() == AfterExtract(old(store.View()), i)
    ensures considered == |i.drafts| == |saved| + dropped
    ensures saved == Drafted(old(store.View()), i).saved
    ensures decisionID == if Records(i) then Some(i.decisionID) else None
  {
    considered, saved, dropped := |i.drafts|, [], 0;
    ghost var t := store.View();
    for n := 0 to |i.drafts|
      invariant |saved| + dropped == n
      invariant AfterDrafts(t.commitments, i.drafts, i.draws, i.minConfidence, i.now, n)
             == Gathered(store.commitments, saved, dropped)
      invariant store.interventions == t.interventions && store.decisions == t.decisions
    {
      var kept := Keep(store, i.drafts[n], i.draws[n], i.minConfidence, i.now);
      if kept {
        saved := saved + [i.draws[n].id];
      } else {
        dropped := dropped + 1;
      }
    }
    decisionID := RecordExtraction(store, i, Gathered(store.commitments, saved, dropped));
  }

  method RecordExtraction(store: MemoryStore, i: Input, g: Gathered) returns (decisionID: Option<Id>)
    modifies store
    ensures decisionID == if Records(i) then Some(i.decisionID) else None
    ensures var d := ExtractDecision(i.decisionID, i.ownerID, i.refs, |i.drafts|, i.minConfidence, g, i.now);
            store.View() == if Records(i) then old(store.View()).(decisions := old(store.decisions)[d.id := d])
                            else old(store.View())
  {
    var dec := ExtractDecision(i.decisionID, i.ownerID, i.refs, |i.drafts|, i.minConfidence, g, i.now);
    decisionID := None;
    if !i.decisionFault {
      var failed := store.SaveDecision(dec);
      if failed.None? {
        decisionID := Some(dec.id);
      }
    }
  }

  /** Every draft is saved or dropped, and what is saved is stored, valid, pending and confident enough. */
  lemma {:induction false} DraftsAccounted(m: map<Id, Commitment>, drafts: seq<Draft>, draws: seq<Draw>,
                                           minConfidence: real, now: int, n: nat)
    requires n <= |drafts| == |draws|
    ensures var g := AfterDrafts(m, drafts, draws, minConfidence, now, n);
            && |g.saved| + g.dropped == n
            && m.Keys <= g.commitments.Keys
            && (forall id :: id in g.saved ==>
                  && id in g.commitments && ValidCommitment(g.commitments[id]) && g.commitments[id].id == id
                  && g.commitments[id].status == "pending" && g.commitments[id].confidence >= minConfidence)
            && (forall id :: id in g.commitments && id !in g.saved ==> id in m && g.commitments[id] == m[id])
            && (forall k :: 0 <= k < n && Keeps(drafts[k], draws[k], minConfidence, now) ==> draws[k].id in g.saved)
    decreases n
  {
    if n > 0 {
      DraftsAccounted(m, drafts, draws, minConfidence, now, n - 1);
    }
  }

  // ---------- what becomes of each draft ----------

  /** The reasons for dropping a draft. */
  predicate Unfit(d: Draft, draw: Draw, minConfidence: real) {
    || d.confidence < minConfidence || d.confidence < 0.0 || d.confidence > 1.0
    || AllSpace(d.ownerID) || AllSpace(d.description) || draw.id == NIL || draw.fault
  }

  /** The row holds what the draft said, its owner and description without the white space around them. */
  ghost predicate Holds(c: Commitment, d: Draft, id: Id, now: int) {
    && c.id == id && VisiblePart(c.ownerID, d.ownerID) && VisiblePart(c.description, d.description)
    && c.dueAt == d.dueAt && c.entities == d.entities && c.sourceRefs == d.sourceRefs && c.confidence == d.confidence
    && c.status == "pending" && c.riskScore == 0.0 && c.lastEvaluatedAt == None && c.createdAt == c.updatedAt == now
  }

  lemma KeptUnlessUnfit(d: Draft, draw: Draw, minConfidence: real, now: int)
    ensures Keeps(d, draw, minConfidence, now) <==> !Unfit(d, draw, minConfidence)
  {
    TrimSpaceIsVisiblePart(d.ownerID);
    TrimSpaceIsVisiblePart(d.description);
  }

  lemma SavedStep(m: map<Id, Commitment>, drafts: seq<Draft>, draws: seq<Draw>, minConfidence: real, now: int, n: nat)
    requires n < |drafts| == |draws|
    ensures AfterDrafts(m, drafts, draws, minConfidence, now, n + 1).saved
         == Listed(AfterDrafts(m, drafts, draws, minConfidence, now, n).saved, draws[n].id, !Unfit(drafts[n], draws[n], minConfidence))
  {
    KeptUnlessUnfit(drafts[n], draws[n], minConfidence, now);
  }

  lemma PromotedOrUnfit(d: Draft, draw: Draw, minConfidence: real, now: int)
    ensures Keeps(d, draw, minConfidence, now) <==> !Unfit(d, draw, minConfidence)
    ensures Keeps(d, draw, minConfidence, now) ==> Holds(ToCommitment(d, draw.id, now).value, d, draw.id, now)
  {
    TrimSpaceIsVisiblePart(d.ownerID);
    TrimSpaceIsVisiblePart(d.description);
  }

  function Fit(drafts: seq<Draft>, draws: seq<Draw>, minConfidence: real): seq<bool>
    requires |drafts| == |draws|
  {
    seq(|drafts|, k requires 0 <= k < |drafts| => !Unfit(drafts[k], draws[k], minConfidence))
  }

  function DrawnIDs(draws: seq<Draw>): seq<Id> { seq(|draws|, k requires 0 <= k < |draws| => draws[k].id) }

  function SavedStages(m: map<Id, Commitment>, drafts: seq<Draft>, draws: seq<Draw>, minConfidence: real, now: int, n: nat)
    : (stages: seq<seq<Id>>)
    requires n <= |drafts| == |draws|
    ensures |stages| == n + 1 && forall i :: 0 <= i <= n ==> stages[i] == AfterDrafts(m, drafts, draws, minConfidence, now, i).saved
  {
    seq(n + 1, i requires 0 <= i <= n => AfterDrafts(m, drafts, draws, minConfidence, now, i).saved)
  }

  lemma {:induction false} SavedPlusDropped(m: map<Id, Commitment>, drafts: seq<Draft>, draws: seq<Draw>,
                                            minConfidence: real, now: int, n: nat)
    requires n <= |drafts| == |draws|
    ensures var g := AfterDrafts(m, drafts, draws, minConfidence, now, n); |g.saved| + g.dropped == n
    decreases n
  {
    if n > 0 {
      SavedPlusDropped(m, drafts, draws, minConfidence, now, n - 1);
    }
  }

  /** The saved identifiers are those drawn for the drafts that are fit, in the order of the drafts; the others are dropped. */
  lemma SavedAreTheFit(m: map<Id, Commitment>, drafts: seq<Draft>, draws: seq<Draw>,
                       minConfidence: real, now: int, n: nat) returns (ks: seq<nat>)
    requires n <= |drafts| == |draws|
    ensures Picks(ks, Fit(drafts, draws, minConfidence), n)
    ensures var g := AfterDrafts(m, drafts, draws, minConfidence, now, n);
            Lists(g.saved, ks, DrawnIDs(draws)) && g.dropped == n - |ks|
  {
    var stages := SavedStages(m, drafts, draws, minConfidence, now, n);
    forall i | 0 <= i < n
      ensures stages[i + 1] == Listed(stages[i], DrawnIDs(draws)[i], Fit(drafts, draws, minConfidence)[i])
    {
      SavedStep(m, drafts, draws, minConfidence, now, i);
    }
    ks := ListsAll(stages, DrawnIDs(draws), Fit(drafts, draws, minConfidence), n);
    SavedPlusDropped(m, drafts, draws, minConfidence, now, n);
  }

  lemma {:induction false} RowOfDraft(m: map<Id, Commitment>, drafts: seq<Draft>, draws: seq<Draw>,
                                      minConfidence: real, now: int, n: nat, k: nat)
    requires k < n <= |drafts| == |draws|
    requires forall j :: 0 <= j < n && j != k ==> draws[j].id != draws[k].id
    ensures var after, id := AfterDrafts(m, drafts, draws, minConfidence, now, n).commitments, draws[k].id;
            if Unfit(drafts[k], draws[k], minConfidence) then (id in after <==> id in m) && (id in m ==> after[id] == m[id])
            else id in after && Holds(after[id], drafts[k], id, now)
    decreases n
  {
    PromotedOrUnfit(drafts[n - 1], draws[n - 1], minConfidence, now);
    if n - 1 > k {
      RowOfDraft(m, drafts, draws, minConfidence, now, n - 1, k);
    } else {
      NotDrawnYet(m, drafts, draws, minConfidence, now, n - 1, draws[k].id);
    }
  }

  lemma {:induction false} NotDrawnYet(m: map<Id, Commitment>, drafts: seq<Draft>, draws: seq<Draw>,
                                       minConfidence: real, now: int, n: nat, id: Id)
    requires n <= |drafts| == |draws| && forall j :: 0 <= j < n ==> draws[j].id != id
    ensures var after := AfterDrafts(m, drafts, draws, minConfidence, now, n).commitments;
            (id in after <==> id in m) && (id in m ==> after[id] == m[id])
    decreases n
  {
    if n > 0 {
      NotDrawnYet(m, drafts, draws, minConfidence, now, n - 1, id);
    }
  }

  /**
   What an extraction stores: under its own identifier a draft that is not unfit is found as it was
   said, and an unfit one leaves there what was there.
   */
  lemma DraftStoredAsSaid(t: Tables, i: Input, k: nat)
    requires k < |i.drafts| == |i.draws|
    requires forall j :: 0 <= j < |i.draws| && j != k ==> i.draws[j].id != i.draws[k].id
    ensures var after, id := AfterExtract(t, i).commitments, i.draws[k].id;
            if Unfit(i.drafts[k], i.draws[k], i.minConfidence)
            then (id in after <==> id in t.commitments) && (id in t.commitments ==> after[id] == t.commitments[id])
            else id in after && Holds(after[id], i.drafts[k], id, i.now)
  {
    RowOfDraft(t.commitments, i.drafts, i.draws, i.minConfidence, i.now, |i.drafts|, k);
  }

  /** The one decision of an extraction says who asked, what was considered, what was saved, in order, and how many were dropped. */
  lemma ExtractionRecorded(t: Tables, i: Input) returns (ks: seq<nat>)
    requires |i.draws| == |i.drafts|
    ensures Picks(ks, Fit(i.drafts, i.draws, i.minConfidence), |i.drafts|)
    ensures AfterExtract(t, i).interventions == t.interventions
    ensures i.decisionFault || i.decisionID == NIL ==> AfterExtract(t, i).decisions == t.decisions
    ensures !i.decisionFault && i.decisionID != NIL ==>
            && i.decisionID in AfterExtract(t, i).decisions
            && var d := AfterExtract(t, i).decisions[i.decisionID];
            && AfterExtract(t, i).decisions == t.decisions[i.decisionID := d]
            && d.id == i.decisionID && d.subject == "commitment.extract" && d.contextRefs == i.refs
            && d.confidence == 1.0 && d.createdAt == i.now && d.matter.Extracted?
            && d.matter.ownerID == i.ownerID && d.matter.considered == |i.drafts| && d.matter.minConfidence == i.minConfidence
            && Lists(d.matter.saved, ks, DrawnIDs(i.draws)) && d.matter.dropped == |i.drafts| - |ks|
  {
    ks := SavedAreTheFit(t.commitments, i.drafts, i.draws, i.minConfidence, i.now, |i.drafts|);
  }
}
