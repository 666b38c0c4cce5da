/**
 The repositories: the in-memory maps (`internal/store/memory`) as a class, and the write
 statements of the SQL backends (`internal/store/sqlite`, `internal/store/postgres`) with their
 upsert, insert-or-ignore and foreign keys.
 */
module Stores {
  import opened Domain
  import opened Sorting
  import opened SqlQueries

  // ---------- writes ----------

  datatype Op =
    | SaveCommitment(c: Commitment)
    | UpdateRisk(id: Id, score: real, at: int)
    | SaveIntervention(iv: Intervention)
    | SaveDecision(d: Decision)

  /** The tables after a write, and the error it reported. */
  datatype Effect = Effect(tables: Tables, error: Option<Error>)

  /** In memory a write replaces the whole row and nothing else is looked at. */
  function OnMemory(t: Tables, op: Op): Effect {
    match op
    case SaveCommitment(c) =>
      if !ValidCommitment(c) then Effect(t, Some(Validation))
      else Effect(t.(commitments := t.commitments[c.id := c]), None)
    case UpdateRisk(id, score, at) =>
      if id !in t.commitments then Effect(t, Some(NotFound))
      else Effect(t.(commitments := t.commitments[id := WithRisk(t.commitments[id], score, at)]), None)
    case SaveIntervention(iv) =>
      if !ValidIntervention(iv) then Effect(t, Some(Validation))
      else Effect(t.(interventions := t.interventions[iv.id := iv]), None)
    case SaveDecision(d) =>
      if !ValidDecision(d) then Effect(t, Some(Validation))
      else Effect(t.(decisions := t.decisions[d.id := d]), None)
  }

  predicate RefersTo<T>(id: Option<Id>, table: map<Id, T>) { id.Some? ==> id.value in table }

  /** ON CONFLICT DO UPDATE keeps the columns it does not list; ON CONFLICT DO NOTHING keeps them all. */
  function OnSql(tasks: map<Id, ()>, t: Tables, op: Op): Effect {
    match op
    case SaveCommitment(c) =>
      if !ValidCommitment(c) then Effect(t, Some(Validation))
      else if c.id in t.commitments then
        Effect(t.(commitments := t.commitments[c.id := c.(createdAt := t.commitments[c.id].createdAt)]), None)
      else Effect(t.(commitments := t.commitments[c.id := c]), None)
    case UpdateRisk(id, score, at) =>
      if id !in t.commitments then Effect(t, Some(NotFound))
      else
        var row := t.commitments[id];
        Effect(t.(commitments := t.commitments[id := row.(riskScore := score, lastEvaluatedAt := Some(at), updatedAt := at)]), None)
    case SaveIntervention(iv) =>
      if !ValidIntervention(iv) then Effect(t, Some(Validation))
      else if iv.id in t.interventions then
        var row := t.interventions[iv.id];
        Effect(t.(interventions := t.interventions[iv.id :=
          row.(kind := iv.kind, message := iv.message, suggestedAction := iv.suggestedAction,
               status := iv.status, resolvedAt := iv.resolvedAt)]), None)
      else if RefersTo(iv.commitmentID, t.commitments) && RefersTo(iv.taskID, tasks) then
        Effect(t.(interventions := t.interventions[iv.id := iv]), None)
      else Effect(t, Some(ForeignKey))
    case SaveDecision(d) =>
      if !ValidDecision(d) then Effect(t, Some(Validation))
      else if d.id in t.decisions then Effect(t, None)
      else Effect(t.(decisions := t.decisions[d.id := d]), None)
  }

  // ---------- the in-memory repositories ----------

  class MemoryStore {
    var commitments: map<Id, Commitment>
    var interventions: map<Id, Intervention>
    var decisions: map<Id, Decision>

    function View(): Tables
      reads this
    {
      Tables(commitments, interventions, decisions)
    }

    constructor ()
      ensures View() == EMPTY
    {
      commitments, interventions, decisions := map[], map[], map[];
    }

    method SaveCommitment(c: Commitment) returns (error: Option<Error>)
      modifies this
      ensures Effect(View(), error) == OnMemory(old(View()), Op.SaveCommitment(c))
    {
      if !ValidCommitment(c) {
        return Some(Validation);
      }
      commitments := commitments[c.id := c];
      return None;
    }

    method UpdateRisk(id: Id, score: real, at: int) returns (error: Option<Error>)
      modifies this
      ensures Effect(View(), error) == OnMemory(old(View()), Op.UpdateRisk(id, score, at))
    {
      if id !in commitments {
        return Some(NotFound);
      }
      var c := commitments[id];
      c := c.(riskScore := score);
      c := c.(lastEvaluatedAt := Some(at));
      c := c.(updatedAt := at);
      commitments := commitments[id := c];
      return None;
    }

    method SaveIntervention(iv: Intervention) returns (error: Option<Error>)
      modifies this
      ensures Effect(View(), error) == OnMemory(old(View()), Op.SaveIntervention(iv))
    {
      if !ValidIntervention(iv) {
        return Some(Validation);
      }
      interventions := interventions[iv.id := iv];
      return None;
    }

    method SaveDecision(d: Decision) returns (error: Option<Error>)
      modifies this
      ensures Effect(View(), error) == OnMemory(old(View()), Op.SaveDecision(d))
    {
      if !ValidDecision(d) {
        return Some(Validation);
      }
      decisions := decisions[d.id := d];
      return None;
    }

    /** Rows come out of the map in any order; sorting and cutting make them an answer. */
    method ListCommitments(f: CommitmentFilter) returns (out: seq<Commitment>)
      requires Keyed(View())
      ensures Answers(CreatedBefore, out, MatchingCommitments(commitments.Values, f), f.limit)
    {
      var todo := commitments.Keys;
      out := [];
      while todo != {}
        invariant todo <= commitments.Keys
        invariant Collects(out, commitments, todo, (c: Commitment) => MatchesCommitment(c, f))
        decreases todo
      {
        var id :| id in todo;
        CollectsNext(out, commitments, todo, (c: Commitment) => MatchesCommitment(c, f), id);
        var matches := CommitmentMatches(commitments[id], f);
        if matches {
          out := out + [commitments[id]];
        }
        todo := todo - {id};
      }
      MemoryOrdersAreWeak();
      assert Elements(out) == MatchingCommitments(commitments.Values, f);
      out := SortSlice(out, CreatedBefore);
      ghost var all := out;
      if f.limit > 0 && |out| > f.limit {
        out := out[..f.limit];
      }
      assert out == Cut(all, f.limit);
    }

    method FindActive(limit: int) returns (out: seq<Commitment>)
      requires Keyed(View())
      ensures Answers(MoreUrgent, out, ActiveCommitments(commitments.Values), limit)
    {
      var todo := commitments.Keys;
      out := [];
      while todo != {}
        invariant todo <= commitments.Keys
        invariant Collects(out, commitments, todo, (c: Commitment) => IsActive(c.status))
        decreases todo
      {
        var id :| id in todo;
        CollectsNext(out, commitments, todo, (c: Commitment) => IsActive(c.status), id);
        if IsActive(commitments[id].status) {
          out := out + [commitments[id]];
        }
        todo := todo - {id};
      }
      MemoryOrdersAreWeak();
      assert Elements(out) == ActiveCommitments(commitments.Values);
      out := SortSlice(out, MoreUrgent);
      ghost var all := out;
      if limit > 0 && |out| > limit {
        out := out[..limit];
      }
      assert out == Cut(all, limit);
    }

    method ListInterventions(f: InterventionFilter) returns (out: seq<Intervention>)
      requires Keyed(View())
      ensures Answers(TriggeredAfter, out, MatchingInterventions(interventions.Values, f), f.limit)
    {
      var todo := interventions.Keys;
      out := [];
      while todo != {}
        invariant todo <= interventions.Keys
        invariant Collects(out, interventions, todo, (iv: Intervention) => MatchesIntervention(iv, f))
        decreases todo
      {
        var id :| id in todo;
        CollectsNext(out, interventions, todo, (iv: Intervention) => MatchesIntervention(iv, f), id);
        var matches := InterventionMatches(interventions[id], f);
        if matches {
          out := out + [interventions[id]];
        }
        todo := todo - {id};
      }
      MemoryOrdersAreWeak();
      assert Elements(out) == MatchingInterventions(interventions.Values, f);
      out := SortSlice(out, TriggeredAfter);
      ghost var all := out;
      if f.limit > 0 && |out| > f.limit {
        out := out[..f.limit];
      }
      assert out == Cut(all, f.limit);
    }
  }

  /** `out` holds, once each, the wanted rows whose keys are no longer to do. */
  ghost predicate Collects<T(!new)>(out: seq<T>, table: map<Id, T>, todo: set<Id>, wanted: T -> bool) {
    && Distinct(out)
    && (forall r :: r in out ==> wanted(r) && exists id :: id in table && id !in todo && table[id] == r)
    && (forall id :: id in table && id !in todo && wanted(table[id]) ==> table[id] in out)
  }

  lemma CollectsNext<T(!new)>(out: seq<T>, table: map<Id, T>, todo: set<Id>, wanted: T -> bool, id: Id)
    requires Collects(out, table, todo, wanted) && id in todo && id in table
    requires forall a, b :: a in table && b in table && table[a] == table[b] ==> a == b
    ensures Collects(if wanted(table[id]) then out + [table[id]] else out, table, todo - {id}, wanted)
  {
    var r := table[id];
    assert r !in out;
    forall x | x in out + [r]
      ensures x in out || (x == r && id in table && id !in todo - {id})
    {}
  }

  method CommitmentMatches(c: Commitment, f: CommitmentFilter) returns (ok: bool)
    ensures ok == MatchesCommitment(c, f)
  {
    if f.ownerID != "" && c.ownerID != f.ownerID {
      return false;
    }
    if |f.statuses| > 0 {
      var found := HasStatus(c.status, f.statuses);
      if !found {
        return false;
      }
    }
    if f.dueBy.Some? {
      if c.dueAt.None? || c.dueAt.value > f.dueBy.value {
        return false;
      }
    }
    return true;
  }

  method InterventionMatches(iv: Intervention, f: InterventionFilter) returns (ok: bool)
    ensures ok == MatchesIntervention(iv, f)
  {
    if f.commitmentID.Some? {
      if iv.commitmentID.None? || iv.commitmentID.value != f.commitmentID.value {
        return false;
      }
    }
    if f.taskID.Some? {
      if iv.taskID.None? || iv.taskID.value != f.taskID.value {
        return false;
      }
    }
    if |f.statuses| > 0 {
      var found := HasStatus(iv.status, f.statuses);
      if !found {
        return false;
      }
    }
    if f.since.Some? && iv.triggeredAt < f.since.value {
      return false;
    }
    return true;
  }

  method HasStatus(status: string, statuses: seq<string>) returns (found: bool)
    ensures found <==> status in statuses
  {
    found := false;
    for i := 0 to |statuses|
      invariant !found && status !in statuses[..i]
    {
      if status == statuses[i] {
        found := true;
        break;
      }
    }
  }

  // ---------- the backends agree, write by write ----------

  /** The write does not run into anything the SQL backends treat differently. */
  predicate Compatible(tasks: map<Id, ()>, t: Tables, op: Op) {
    match op
    case SaveCommitment(c) =>
      ValidCommitment(c) && c.id in t.commitments ==> c.createdAt == t.commitments[c.id].createdAt
    case UpdateRisk(_, _, _) => true
    case SaveIntervention(iv) =>
      ValidIntervention(iv) ==>
        if iv.id in t.interventions then
          var row := t.interventions[iv.id];
          iv.commitmentID == row.commitmentID && iv.taskID == row.taskID && iv.triggeredAt == row.triggeredAt
        else RefersTo(iv.commitmentID, t.commitments) && RefersTo(iv.taskID, tasks)
    case SaveDecision(d) =>
      ValidDecision(d) && d.id in t.decisions ==> d == t.decisions[d.id]
  }

  lemma WriteAgreesIffCompatible(tasks: map<Id, ()>, t: Tables, op: Op)
    requires Keyed(t)
    ensures OnMemory(t, op) == OnSql(tasks, t, op) <==> Compatible(tasks, t, op)
  {
    var m, q := OnMemory(t, op).tables, OnSql(tasks, t, op).tables;
    match op
    case SaveCommitment(c) =>
      assert ValidCommitment(c) ==> m.commitments[c.id] == c;
      assert ValidCommitment(c) && c.id in t.commitments ==>
               q.commitments[c.id].createdAt == t.commitments[c.id].createdAt;
    case SaveIntervention(iv) =>
      assert ValidIntervention(iv) ==> m.interventions[iv.id] == iv;
      if ValidIntervention(iv) && iv.id in t.interventions {
        var row := t.interventions[iv.id];
        assert q.interventions[iv.id].commitmentID == row.commitmentID && q.interventions[iv.id].taskID == row.taskID
               && q.interventions[iv.id].triggeredAt == row.triggeredAt && q.interventions[iv.id].id == iv.id;
      }
    case SaveDecision(d) =>
      assert ValidDecision(d) ==> m.decisions[d.id] == d;
      if ValidDecision(d) && d.id in t.decisions && d == t.decisions[d.id] {
        assert t.decisions[d.id := d] == t.decisions;
      }
    case UpdateRisk(_, _, _) =>
  }

  function MemoryAfter(ops: seq<Op>): Tables {
    if ops == [] then EMPTY else OnMemory(MemoryAfter(ops[..|ops| - 1]), ops[|ops| - 1]).tables
  }

  function SqlAfter(tasks: map<Id, ()>, ops: seq<Op>): Tables {
    if ops == [] then EMPTY else OnSql(tasks, SqlAfter(tasks, ops[..|ops| - 1]), ops[|ops| - 1]).tables
  }

  /** After every write so far both hold the same rows and have reported the same errors. */
  ghost predicate InStep(tasks: map<Id, ()>, ops: seq<Op>) {
    ops != [] ==>
      && InStep(tasks, ops[..|ops| - 1])
      && OnMemory(MemoryAfter(ops[..|ops| - 1]), ops[|ops| - 1])
         == OnSql(tasks, SqlAfter(tasks, ops[..|ops| - 1]), ops[|ops| - 1])
  }

  ghost predicate AllCompatible(tasks: map<Id, ()>, ops: seq<Op>) {
    ops != [] ==>
      && AllCompatible(tasks, ops[..|ops| - 1])
      && Compatible(tasks, MemoryAfter(ops[..|ops| - 1]), ops[|ops| - 1])
  }

  lemma {:induction false} MemoryKeyed(ops: seq<Op>)
    ensures Keyed(MemoryAfter(ops))
    decreases ops
  {
    if ops != [] {
      MemoryKeyed(ops[..|ops| - 1]);
    }
  }

  /** Over every run from empty stores: the backends stay in step exactly when every write is compatible. */
  lemma {:induction false} BackendsInStepIffCompatible(tasks: map<Id, ()>, ops: seq<Op>)
    ensures InStep(tasks, ops) <==> AllCompatible(tasks, ops)
    ensures InStep(tasks, ops) ==> MemoryAfter(ops) == SqlAfter(tasks, ops)
    decreases ops
  {
    if ops != [] {
      var before := ops[..|ops| - 1];
      BackendsInStepIffCompatible(tasks, before);
      MemoryKeyed(before);
      WriteAgreesIffCompatible(tasks, MemoryAfter(before), ops[|ops| - 1]);
    }
  }

  // ---------- what the service asks of its repositories ----------

  datatype Request =
    | Create(c: Commitment)
    | Move(commitmentID: Id, target: string, now: int)
    | Rescore(commitmentID: Id, score: real, now: int)
    | Intervene(iv: Intervention)
    | Settle(interventionID: Id, target: string, now: int)
    | Record(d: Decision)

  /** The write a request leads to; `Move` and `Settle` read the row, change it and save it. */
  function Issued(t: Tables, r: Request): seq<Op> {
    match r
    case Create(c) => [SaveCommitment(c)]
    case Move(id, target, now) =>
      if id in t.commitments && Transition(t.commitments[id], target, now).Ok?
      then [SaveCommitment(Transition(t.commitments[id], target, now).value)] else []
    case Rescore(id, score, now) => [UpdateRisk(id, score, now)]
    case Intervene(iv) => [SaveIntervention(iv)]
    case Settle(id, target, now) =>
      if id in t.interventions && Resolve(t.interventions[id], target, now).Ok?
      then [SaveIntervention(Resolve(t.interventions[id], target, now).value)] else []
    case Record(d) => [SaveDecision(d)]
  }

  /** New rows carry new identifiers, and interventions point at rows that exist. */
  predicate Disciplined(tasks: map<Id, ()>, t: Tables, r: Request) {
    match r
    case Create(c) => c.id !in t.commitments
    case Intervene(iv) =>
      iv.id !in t.interventions && RefersTo(iv.commitmentID, t.commitments) && RefersTo(iv.taskID, tasks)
    case Record(d) => d.id !in t.decisions
    case _ => true
  }

  function Writes(requests: seq<Request>): seq<Op> {
    if requests == [] then [] else
    var before := Writes(requests[..|requests| - 1]);
    before + Issued(MemoryAfter(before), requests[|requests| - 1])
  }

  ghost predicate AllDisciplined(tasks: map<Id, ()>, requests: seq<Request>) {
    requests != [] ==>
      && AllDisciplined(tasks, requests[..|requests| - 1])
      && Disciplined(tasks, MemoryAfter(Writes(requests[..|requests| - 1])), requests[|requests| - 1])
  }

  lemma IssuedIsCompatible(tasks: map<Id, ()>, t: Tables, r: Request)
    requires Keyed(t) && Disciplined(tasks, t, r)
    ensures forall op :: op in Issued(t, r) ==> Compatible(tasks, t, op)
  {}

  /** A disciplined service cannot tell the backends apart, whatever it does and for however long. */
  lemma {:induction false} ServiceCannotTellBackendsApart(tasks: map<Id, ()>, requests: seq<Request>)
    requires AllDisciplined(tasks, requests)
    ensures InStep(tasks, Writes(requests))
    ensures MemoryAfter(Writes(requests)) == SqlAfter(tasks, Writes(requests))
    decreases requests
  {
    BackendsInStepIffCompatible(tasks, Writes(requests));
    if requests != [] {
      var before, r := Writes(requests[..|requests| - 1]), requests[|requests| - 1];
      ServiceCannotTellBackendsApart(tasks, requests[..|requests| - 1]);
      BackendsInStepIffCompatible(tasks, before);
      MemoryKeyed(before);
      IssuedIsCompatible(tasks, MemoryAfter(before), r);
      var issued := Issued(MemoryAfter(before), r);
      if issued == [] {
        assert Writes(requests) == before;
      } else {
        assert issued == [issued[0]] && issued[0] in issued;
        assert Writes(requests)[..|before|] == before;
      }
    }
  }

  // ---------- what becomes of a commitment ----------

  /** The row stays, keeps what it is about, and its status only goes forward. */
  ghost predicate Advances(before: map<Id, Commitment>, after: map<Id, Commitment>) {
    forall id :: id in before ==>
      && id in after
      && (after[id].status == before[id].status || 0 <= Stage(before[id].status) < Stage(after[id].status))
      && after[id].(status := before[id].status, updatedAt := before[id].updatedAt,
                    riskScore := before[id].riskScore, lastEvaluatedAt := before[id].lastEvaluatedAt) == before[id]
  }

  lemma RequestAdvances(tasks: map<Id, ()>, t: Tables, r: Request)
    requires Keyed(t) && Disciplined(tasks, t, r)
    ensures forall op :: op in Issued(t, r) ==> Advances(t.commitments, OnMemory(t, op).tables.commitments)
  {
    if r.Move? && r.commitmentID in t.commitments {
      TransitionsGoForward(t.commitments[r.commitmentID], r.target, r.now);
    }
  }

  /** Over every disciplined run, between any two points of it, commitments only ever move forward. */
  lemma {:induction false} CommitmentsOnlyAdvance(tasks: map<Id, ()>, requests: seq<Request>, k: nat)
    requires AllDisciplined(tasks, requests) && k <= |requests|
    ensures Advances(MemoryAfter(Writes(requests[..k])).commitments, MemoryAfter(Writes(requests)).commitments)
    decreases requests
  {
    if k == |requests| {
      assert requests[..k] == requests;
    } else {
      var front, r := requests[..|requests| - 1], requests[|requests| - 1];
      CommitmentsOnlyAdvance(tasks, front, k);
      assert front[..k] == requests[..k];
      MemoryKeyed(Writes(front));
      LastRequestAdvances(tasks, requests);
      AdvancesOn(MemoryAfter(Writes(requests[..k])).commitments, MemoryAfter(Writes(front)).commitments,
                 MemoryAfter(Writes(requests)).commitments);
    }
  }

  lemma AdvancesOn(a: map<Id, Commitment>, b: map<Id, Commitment>, c: map<Id, Commitment>)
    requires Advances(a, b) && Advances(b, c)
    ensures Advances(a, c)
  {}

  lemma LastRequestAdvances(tasks: map<Id, ()>, requests: seq<Request>)
    requires requests != [] && Keyed(MemoryAfter(Writes(requests[..|requests| - 1])))
    requires Disciplined(tasks, MemoryAfter(Writes(requests[..|requests| - 1])), requests[|requests| - 1])
    ensures Advances(MemoryAfter(Writes(requests[..|requests| - 1])).commitments, MemoryAfter(Writes(requests)).commitments)
  {
    var before, r := Writes(requests[..|requests| - 1]), requests[|requests| - 1];
    var t := MemoryAfter(before);
    RequestAdvances(tasks, t, r);
    var issued := Issued(t, r);
    if issued == [] {
      assert Writes(requests) == before;
    } else {
      assert issued == [issued[0]] && issued[0] in issued;
      assert Writes(requests)[..|before|] == before;
    }
  }
}
