/**
 The records of the tracker and their rules: `internal/domain/commitment.go`,
 `internal/domain/intervention.go` and `internal/domain/decision.go`.

 Identifiers are naturals with 0 for the nil UUID; references and entities are carried opaquely.
 */
module Domain {
  import opened Text

  datatype Option<+T> = None | Some(value: T)

  datatype Error = Validation | NotFound | InvalidTransition | ForeignKey | Unavailable

  datatype Result<+T> = Ok(value: T) | Err(error: Error)

  type Id = nat

  const NIL: Id := 0

  // ---------- commitments ----------

  datatype Commitment = Commitment(
    id: Id, ownerID: string, description: string, sourceRefs: seq<string>, entities: seq<string>,
    dueAt: Option<int>, status: string, confidence: real, riskScore: real,
    lastEvaluatedAt: Option<int>, createdAt: int, updatedAt: int)

  predicate IsActive(status: string) { status in ["pending", "in_progress"] }

  predicate KnownCommitmentStatus(status: string) {
    status in ["pending", "in_progress", "completed", "missed", "cancelled"]
  }

  predicate CanTransition(from: string, target: string) {
    || from == target
    || (from == "pending" && target in ["in_progress", "completed", "missed", "cancelled"])
    || (from == "in_progress" && target in ["completed", "missed", "cancelled"])
  }

  /** `Commitment.Validate` reports no error. */
  predicate ValidCommitment(c: Commitment) {
    && c.id != NIL && c.ownerID != "" && c.description != ""
    && 0.0 <= c.confidence <= 1.0 && 0.0 <= c.riskScore <= 1.0
    && KnownCommitmentStatus(c.status)
  }

  function Transition(c: Commitment, target: string, now: int): Result<Commitment> {
    if CanTransition(c.status, target) then Ok(c.(status := target, updatedAt := now))
    else Err(InvalidTransition)
  }

  /** How far a commitment has come; the three outcomes are equally far. */
  function Stage(status: string): int {
    if status == "pending" then 0 else if status == "in_progress" then 1
    else if status in ["completed", "missed", "cancelled"] then 2 else -1
  }

  /** A status can change exactly to one that is further along; an unknown one not at all. */
  lemma TransitionsGoForward(c: Commitment, target: string, now: int)
    ensures Transition(c, target, now).Ok? <==> c.status == target || 0 <= Stage(c.status) < Stage(target)
    ensures var r := Transition(c, target, now);
            r.Ok? ==> && r.value.status == target && r.value.updatedAt == now
                      && r.value.(status := c.status, updatedAt := c.updatedAt) == c
  {}

  datatype Draft = Draft(
    ownerID: string, description: string, dueAt: Option<int>, entities: seq<string>,
    sourceRefs: seq<string>, confidence: real)

  /** `ToCommitment`, with `id` the identifier drawn for it. */
  function ToCommitment(d: Draft, id: Id, now: int): (r: Result<Commitment>)
    ensures r.Ok? ==> ValidCommitment(r.value) && r.value.id == id
  {
    var c := Commitment(id, TrimSpace(d.ownerID), TrimSpace(d.description), d.sourceRefs, d.entities,
                        d.dueAt, "pending", d.confidence, 0.0, None, now, now);
    if ValidCommitment(c) then Ok(c) else Err(Validation)
  }

  // ---------- interventions ----------

  datatype Intervention = Intervention(
    id: Id, commitmentID: Option<Id>, taskID: Option<Id>, kind: string, message: string,
    suggestedAction: Option<string>, status: string, triggeredAt: int, resolvedAt: Option<int>)

  predicate KnownKind(kind: string) { kind in ["nudge", "suggestion", "escalation", "automation"] }

  predicate KnownInterventionStatus(status: string) {
    status in ["pending", "accepted", "rejected", "expired", "executed"]
  }

  predicate CanResolve(from: string, target: string) {
    || from == target
    || (from == "pending" && target in ["accepted", "rejected", "expired"])
    || (from == "accepted" && target == "executed")
  }

  /** `Intervention.Validate` reports no error. */
  predicate ValidIntervention(iv: Intervention) {
    && iv.id != NIL && KnownKind(iv.kind) && KnownInterventionStatus(iv.status) && iv.message != ""
    && (iv.commitmentID.Some? || iv.taskID.Some?)
  }

  function Resolve(iv: Intervention, target: string, now: int): Result<Intervention> {
    if CanResolve(iv.status, target) then Ok(iv.(status := target, resolvedAt := Some(now)))
    else Err(InvalidTransition)
  }

  /** Where an intervention may have got to: pending ones anywhere, accepted ones to executed, others nowhere. */
  predicate Progressed(from: string, to: string) {
    from == to || from == "pending" || (from == "accepted" && to == "executed")
  }

  /** What can be reached by resolving, in two steps at most, is exactly that. */
  lemma ResolutionsProgress(from: string, to: string)
    requires KnownInterventionStatus(from) && KnownInterventionStatus(to)
    ensures Progressed(from, to) <==> exists mid :: CanResolve(from, mid) && CanResolve(mid, to)
    ensures CanResolve("pending", to) <==> to != "executed"
  {
    if Progressed(from, to) {
      if from == to || to != "executed" {
        assert CanResolve(from, to) && CanResolve(to, to);
      } else {
        assert CanResolve(from, "accepted") && CanResolve("accepted", to);
      }
    }
  }

  // ---------- decisions ----------

  /** The factor types "overdue", "due_soon", "confidence" and "chronos_signal". */
  datatype FactorKind = OverdueFactor | DueSoonFactor | ConfidenceFactor | SignalFactor

  datatype Reason = PastDue | DueWithinWindow | TrackedStrictly | PatternDetected | ThresholdExceeded

  datatype Factor = Factor(kind: FactorKind, weight: real, reason: Reason)

  /** The keys "overdue", "due_soon", "due_soon_window_seconds", "confidence" and "signal". */
  datatype WeightKey = Overdue | DueSoon | DueSoonWindowSeconds | Confidence | Signal

  /** Inputs and outcome of the two decisions the pipeline takes. */
  datatype Matter =
    | Evaluated(commitmentID: Id, signalCount: nat, riskScore: real, factors: seq<Factor>)
    | Extracted(ownerID: string, considered: nat, minConfidence: real, saved: seq<Id>, dropped: nat)

  datatype Decision = Decision(
    id: Id, subject: string, contextRefs: seq<string>, matter: Matter, weights: map<WeightKey, real>,
    reason: string, confidence: real, createdAt: int)

  /** `Decision.Validate` reports no error. */
  predicate ValidDecision(d: Decision) {
    d.id != NIL && d.subject != "" && d.reason != "" && 0.0 <= d.confidence <= 1.0
  }

  // ---------- the three tables ----------

  datatype Tables = Tables(
    commitments: map<Id, Commitment>,
    interventions: map<Id, Intervention>,
    decisions: map<Id, Decision>)

  const EMPTY := Tables(map[], map[], map[])

  /** Every row is stored under its own identifier. */
  ghost predicate Keyed(t: Tables) {
    && (forall id :: id in t.commitments ==> t.commitments[id].id == id)
    && (forall id :: id in t.interventions ==> t.interventions[id].id == id)
    && (forall id :: id in t.decisions ==> t.decisions[id].id == id)
  }

  function WithRisk(c: Commitment, score: real, evaluatedAt: int): Commitment {
    c.(riskScore := score, lastEvaluatedAt := Some(evaluatedAt), updatedAt := evaluatedAt)
  }
}
