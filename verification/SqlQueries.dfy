/**
 The filter-to-query builders of the SQLite and Postgres repositories
 (`internal/store/sqlite/commitment_repo.go`, `internal/store/postgres/commitment_repo.go` and the
 two `intervention_repo.go`), the fragment of SQL they emit, and the filters themselves as the
 in-memory repositories interpret them.

 SQLite queries hold anonymous `?` placeholders, bound from left to right; Postgres queries hold
 numbered `$n` ones.  Conditions evaluate in SQL's three-valued logic.
 */
module SqlQueries {
  import opened Domain
  import opened Sorting

  // ---------- the fragment of SQL ----------

  datatype Value = Null | Text(s: string) | Key(id: Id) | Time(t: int) | Number(x: real) | Count(n: int)

  datatype Column = OwnerId | Status | DueAt | CreatedAt | RiskScore | CommitmentId | TaskId | TriggeredAt

  datatype Placeholder = Anonymous | Numbered(n: nat) | Constant(v: Value)

  datatype Comparison = Eq | Le | Ge

  datatype Atom =
    | Compare(col: Column, op: Comparison, arg: Placeholder)
    | In(col: Column, args: seq<Placeholder>)
    | NotNull(col: Column)

  datatype Nulls = First | Last

  datatype SortKey =
    | Asc(col: Column, nulls: Nulls)
    | Desc(col: Column, nulls: Nulls)
    | NullFlag(col: Column)  // CASE WHEN col IS NULL THEN 1 ELSE 0 END

  /** The conditions are joined by AND; without any of them there is no WHERE. */
  datatype Query = Query(where: seq<Atom>, order: seq<SortKey>, limit: Option<Placeholder>)

  type Row = Column -> Value

  datatype Truth = True | False | Unknown

  function And(a: Truth, b: Truth): Truth {
    if a == False || b == False then False else if a == True && b == True then True else Unknown
  }

  function Or(a: Truth, b: Truth): Truth {
    if a == True || b == True then True else if a == False && b == False then False else Unknown
  }

  function Known(b: bool): Truth { if b then True else False }

  /** Order of two values of one type; -1, 0 or 1. */
  function Order(v: Value, w: Value): int {
    match (v, w)
    case (Time(a), Time(b)) => if a < b then -1 else if a > b then 1 else 0
    case (Number(a), Number(b)) => if a < b then -1 else if a > b then 1 else 0
    case _ => 0
  }

  function Test(op: Comparison, v: Value, w: Value): Truth {
    if v.Null? || w.Null? then Unknown else
    match op
    case Eq => Known(v == w)
    case Le => Known(Order(v, w) <= 0)
    case Ge => Known(Order(v, w) >= 0)
  }

  /** The value bound to a placeholder; anonymous ones must have been numbered first. */
  function Bound(p: Placeholder, args: seq<Value>): Value {
    match p
    case Constant(v) => v
    case Numbered(n) => if 1 <= n <= |args| then args[n - 1] else Null
    case Anonymous => Null
  }

  /** `v` IN the first `k` of the list. */
  function EvalIn(v: Value, ps: seq<Placeholder>, args: seq<Value>, k: nat): Truth
    requires k <= |ps|
  {
    if k == 0 then False else Or(EvalIn(v, ps, args, k - 1), Test(Eq, v, Bound(ps[k - 1], args)))
  }

  function EvalAtom(a: Atom, args: seq<Value>, row: Row): Truth {
    match a
    case Compare(col, op, p) => Test(op, row(col), Bound(p, args))
    case In(col, ps) => EvalIn(row(col), ps, args, |ps|)
    case NotNull(col) => Known(!row(col).Null?)
  }

  function EvalWhere(atoms: seq<Atom>, args: seq<Value>, row: Row): Truth {
    if atoms == [] then True
    else And(EvalWhere(atoms[..|atoms| - 1], args, row), EvalAtom(atoms[|atoms| - 1], args, row))
  }

  function KeyOrder(k: SortKey, r: Row, s: Row): int {
    match k
    case NullFlag(col) => (if r(col).Null? then 1 else 0) - (if s(col).Null? then 1 else 0)
    case Asc(col, nulls) => OrderWithNulls(r(col), s(col), nulls, 1)
    case Desc(col, nulls) => OrderWithNulls(r(col), s(col), nulls, -1)
  }

  function OrderWithNulls(v: Value, w: Value, nulls: Nulls, sign: int): int {
    if v.Null? && w.Null? then 0
    else if v.Null? then (if nulls.First? then -1 else 1)
    else if w.Null? then (if nulls.First? then 1 else -1)
    else sign * Order(v, w)
  }

  /** ORDER BY: lexicographic in its keys. */
  predicate Precedes(keys: seq<SortKey>, r: Row, s: Row) {
    keys != [] && (KeyOrder(keys[0], r, s) < 0 || (KeyOrder(keys[0], r, s) == 0 && Precedes(keys[1..], r, s)))
  }

  function LimitOf(q: Query, args: seq<Value>): int {
    if q.limit.Some? && Bound(q.limit.value, args).Count? then Bound(q.limit.value, args).n else 0
  }

  /** `out` is a result the database may return for a numbered query over these rows. */
  ghost predicate Returns<T(!new)>(q: Query, args: seq<Value>, rows: set<T>, columns: T -> Row, out: seq<T>) {
    Answers((a, b) => Precedes(q.order, columns(a), columns(b)), out,
            (set r | r in rows && EvalWhere(q.where, args, columns(r)) == True), LimitOf(q, args))
  }

  // ---------- numbering anonymous placeholders from left to right ----------

  /** Anonymous placeholders among the first `k`. */
  function CountAll(ps: seq<Placeholder>, k: nat): nat
    requires k <= |ps|
  {
    if k == 0 then 0 else CountAll(ps, k - 1) + if ps[k - 1].Anonymous? then 1 else 0
  }

  function NumberAll(ps: seq<Placeholder>, next: nat): seq<Placeholder> {
    seq(|ps|, i requires 0 <= i < |ps| => if ps[i].Anonymous? then Numbered(next + CountAll(ps, i)) else ps[i])
  }

  function CountAtom(a: Atom): nat {
    match a
    case Compare(_, _, p) => if p.Anonymous? then 1 else 0
    case In(_, ps) => CountAll(ps, |ps|)
    case NotNull(_) => 0
  }

  function NumberAtom(a: Atom, next: nat): Atom {
    match a
    case Compare(col, op, p) => if p.Anonymous? then Compare(col, op, Numbered(next)) else a
    case In(col, ps) => In(col, NumberAll(ps, next))
    case NotNull(_) => a
  }

  function CountWhere(atoms: seq<Atom>): nat {
    if atoms == [] then 0 else CountWhere(atoms[..|atoms| - 1]) + CountAtom(atoms[|atoms| - 1])
  }

  function NumberWhere(atoms: seq<Atom>): seq<Atom> {
    if atoms == [] then [] else
    var front := atoms[..|atoms| - 1];
    NumberWhere(front) + [NumberAtom(atoms[|atoms| - 1], 1 + CountWhere(front))]
  }

  /** The query as SQLite binds it: every `?` numbered in the order of the text. */
  function NumberQuery(q: Query): Query {
    Query(NumberWhere(q.where), q.order,
          if q.limit == Some(Anonymous) then Some(Numbered(1 + CountWhere(q.where))) else q.limit)
  }

  /** How many arguments the query takes. */
  function CountQuery(q: Query): nat {
    CountWhere(q.where) + if q.limit == Some(Anonymous) then 1 else 0
  }

  // ---------- building a query clause by clause ----------

  datatype Dialect = Sqlite | Postgres

  /** How a dialect writes the placeholder of its n-th argument. */
  function Mark(d: Dialect, n: nat): Placeholder { if d.Sqlite? then Anonymous else Numbered(n) }

  datatype Clauses = Clauses(where: seq<Atom>, args: seq<Value>)

  const BLANK := Clauses([], [])

  function AddCompare(d: Dialect, b: Clauses, when: bool, col: Column, op: Comparison, v: Value): Clauses {
    if when then Clauses(b.where + [Compare(col, op, Mark(d, |b.args| + 1))], b.args + [v]) else b
  }

  function AddNotNull(b: Clauses, when: bool, col: Column): Clauses {
    if when then b.(where := b.where + [NotNull(col)]) else b
  }

  function Texts(ss: seq<string>): seq<Value> { seq(|ss|, i requires 0 <= i < |ss| => Text(ss[i])) }

  function Holes(n: nat): seq<Placeholder> { seq(n, i => Anonymous) }

  function Numbers(from: nat, n: nat): seq<Placeholder> { seq(n, i requires 0 <= i => Numbered(from + i)) }

  function Marks(d: Dialect, from: nat, n: nat): seq<Placeholder> {
    if d.Sqlite? then Holes(n) else Numbers(from, n)
  }

  function AddIn(d: Dialect, b: Clauses, col: Column, choices: seq<string>): Clauses {
    if choices == [] then b
    else Clauses(b.where + [In(col, Marks(d, |b.args| + 1, |choices|))], b.args + Texts(choices))
  }

  function KeyColumn(id: Option<Id>): Value { if id.Some? then Key(id.value) else Null }

  function TimeColumn(t: Option<int>): Value { if t.Some? then Time(t.value) else Null }

  function Finished(d: Dialect, b: Clauses, order: seq<SortKey>, limit: int): Query {
    Query(b.where, order, if limit > 0 then Some(Mark(d, |b.args| + 1)) else None)
  }

  function LimitArgs(limit: int): seq<Value> { if limit > 0 then [Count(limit)] else [] }

  // ---------- commitments: filter, builders ----------

  datatype CommitmentFilter = CommitmentFilter(
    ownerID: string, statuses: seq<string>, dueBy: Option<int>, limit: int)

  function CommitmentColumns(c: Commitment): Row {
    (col: Column) => match col
      case OwnerId => Text(c.ownerID)
      case Status => Text(c.status)
      case DueAt => TimeColumn(c.dueAt)
      case CreatedAt => Time(c.createdAt)
      case RiskScore => Number(c.riskScore)
      case _ => Null
  }

  predicate MatchesCommitment(c: Commitment, f: CommitmentFilter) {
    && (f.ownerID == "" || c.ownerID == f.ownerID)
    && (f.statuses == [] || c.status in f.statuses)
    && (f.dueBy.None? || (c.dueAt.Some? && c.dueAt.value <= f.dueBy.value))
  }

  function CommitmentClauses(d: Dialect, f: CommitmentFilter): Clauses {
    var owned := AddCompare(d, BLANK, f.ownerID != "", OwnerId, Eq, Text(f.ownerID));
    var chosen := AddIn(d, owned, Status, f.statuses);
    AddCompare(d, AddNotNull(chosen, f.dueBy.Some?, DueAt), f.dueBy.Some?, DueAt, Le, TimeColumn(f.dueBy))
  }

  function CommitmentQuery(d: Dialect, f: CommitmentFilter): Query {
    Finished(d, CommitmentClauses(d, f), [Asc(CreatedAt, First)], f.limit)
  }

  function CommitmentArgs(d: Dialect, f: CommitmentFilter): seq<Value> {
    CommitmentClauses(d, f).args + LimitArgs(f.limit)
  }

  method AddSqliteStatuses(statuses: seq<string>, given: seq<Value>) returns (ph: seq<Placeholder>, args: seq<Value>)
    ensures ph == Holes(|statuses|) && args == given + Texts(statuses)
  {
    ph, args := [], given;
    for i := 0 to |statuses|
      invariant |ph| == i && forall k :: 0 <= k < i ==> ph[k] == Anonymous
      invariant args == given + Texts(statuses)[..i]
    {
      ph := ph + [Anonymous];
      args := args + [Text(statuses[i])];
    }
    assert Texts(statuses)[..|statuses|] == Texts(statuses);
  }

  method AddPostgresStatuses(statuses: seq<string>, given: seq<Value>) returns (ph: seq<Placeholder>, args: seq<Value>)
    ensures ph == Numbers(|given| + 1, |statuses|) && args == given + Texts(statuses)
  {
    ph, args := [], given;
    for i := 0 to |statuses|
      invariant |ph| == i && forall k :: 0 <= k < i ==> ph[k] == Numbered(|given| + 1 + k)
      invariant args == given + Texts(statuses)[..i]
    {
      args := args + [Text(statuses[i])];
      ph := ph + [Numbered(|args|)];
    }
    assert Texts(statuses)[..|statuses|] == Texts(statuses);
  }

  method BuildSqliteCommitmentList(f: CommitmentFilter) returns (q: Query, args: seq<Value>)
    ensures q == CommitmentQuery(Sqlite, f) && args == CommitmentArgs(Sqlite, f)
  {
    var clauses: seq<Atom> := [];
    args := [];
    if f.ownerID != "" {
      clauses := clauses + [Compare(OwnerId, Eq, Anonymous)];
      args := args + [Text(f.ownerID)];
    }
    if |f.statuses| > 0 {
      var placeholders;
      placeholders, args := AddSqliteStatuses(f.statuses, args);
      clauses := clauses + [In(Status, placeholders)];
    }
    if f.dueBy.Some? {
      clauses := clauses + [NotNull(DueAt)] + [Compare(DueAt, Le, Anonymous)];
      args := args + [Time(f.dueBy.value)];
    }
    assert Clauses(clauses, args) == CommitmentClauses(Sqlite, f);
    q := Query(clauses, [Asc(CreatedAt, First)], None);
    if f.limit > 0 {
      q := q.(limit := Some(Anonymous));
      args := args + [Count(f.limit)];
    }
  }

  method BuildPostgresCommitmentList(f: CommitmentFilter) returns (q: Query, args: seq<Value>)
    ensures q == CommitmentQuery(Postgres, f) && args == CommitmentArgs(Postgres, f)
  {
    var clauses: seq<Atom> := [];
    args := [];
    if f.ownerID != "" {
      args := args + [Text(f.ownerID)];
      clauses := clauses + [Compare(OwnerId, Eq, Numbered(|args|))];
    }
    if |f.statuses| > 0 {
      var ph;
      ph, args := AddPostgresStatuses(f.statuses, args);
      clauses := clauses + [In(Status, ph)];
    }
    if f.dueBy.Some? {
      args := args + [Time(f.dueBy.value)];
      clauses := clauses + [NotNull(DueAt)] + [Compare(DueAt, Le, Numbered(|args|))];
    }
    assert Clauses(clauses, args) == CommitmentClauses(Postgres, f);
    q := Query(clauses, [Asc(CreatedAt, First)], None);
    if f.limit > 0 {
      args := args + [Count(f.limit)];
      q := q.(limit := Some(Numbered(|args|)));
    }
  }

  // ---------- interventions: filter, builders ----------

  datatype InterventionFilter = InterventionFilter(
    commitmentID: Option<Id>, taskID: Option<Id>, statuses: seq<string>, since: Option<int>, limit: int)

  function InterventionColumns(iv: Intervention): Row {
    (col: Column) => match col
      case CommitmentId => KeyColumn(iv.commitmentID)
      case TaskId => KeyColumn(iv.taskID)
      case Status => Text(iv.status)
      case TriggeredAt => Time(iv.triggeredAt)
      case _ => Null
  }

  predicate MatchesIntervention(iv: Intervention, f: InterventionFilter) {
    && (f.commitmentID.None? || iv.commitmentID == f.commitmentID)
    && (f.taskID.None? || iv.taskID == f.taskID)
    && (f.statuses == [] || iv.status in f.statuses)
    && (f.since.None? || iv.triggeredAt >= f.since.value)
  }

  function AnchorClauses(d: Dialect, f: InterventionFilter): Clauses {
    var anchored := AddCompare(d, BLANK, f.commitmentID.Some?, CommitmentId, Eq, KeyColumn(f.commitmentID));
    AddCompare(d, anchored, f.taskID.Some?, TaskId, Eq, KeyColumn(f.taskID))
  }

  function InterventionClauses(d: Dialect, f: InterventionFilter): Clauses {
    var chosen := AddIn(d, AnchorClauses(d, f), Status, f.statuses);
    AddCompare(d, chosen, f.since.Some?, TriggeredAt, Ge, TimeColumn(f.since))
  }

  function InterventionQuery(d: Dialect, f: InterventionFilter): Query {
    Finished(d, InterventionClauses(d, f), [Desc(TriggeredAt, Last)], f.limit)
  }

  function InterventionArgs(d: Dialect, f: InterventionFilter): seq<Value> {
    InterventionClauses(d, f).args + LimitArgs(f.limit)
  }

  method BuildSqliteInterventionList(f: InterventionFilter) returns (q: Query, args: seq<Value>)
    ensures q == InterventionQuery(Sqlite, f) && args == InterventionArgs(Sqlite, f)
  {
    var clauses: seq<Atom> := [];
    args := [];
    if f.commitmentID.Some? {
      clauses := clauses + [Compare(CommitmentId, Eq, Anonymous)];
      args := args + [Key(f.commitmentID.value)];
    }
    if f.taskID.Some? {
      clauses := clauses + [Compare(TaskId, Eq, Anonymous)];
      args := args + [Key(f.taskID.value)];
    }
    assert Clauses(clauses, args) == AnchorClauses(Sqlite, f);
    if |f.statuses| > 0 {
      var placeholders;
      placeholders, args := AddSqliteStatuses(f.statuses, args);
      clauses := clauses + [In(Status, placeholders)];
    }
    if f.since.Some? {
      clauses := clauses + [Compare(TriggeredAt, Ge, Anonymous)];
      args := args + [Time(f.since.value)];
    }
    assert Clauses(clauses, args) == InterventionClauses(Sqlite, f);
    q := Query(clauses, [Desc(TriggeredAt, Last)], None);
    if f.limit > 0 {
      q := q.(limit := Some(Anonymous));
      args := args + [Count(f.limit)];
    }
  }

  method BuildPostgresInterventionList(f: InterventionFilter) returns (q: Query, args: seq<Value>)
    ensures q == InterventionQuery(Postgres, f) && args == InterventionArgs(Postgres, f)
  {
    var clauses: seq<Atom> := [];
    args := [];
    if f.commitmentID.Some? {
      args := args + [Key(f.commitmentID.value)];
      clauses := clauses + [Compare(CommitmentId, Eq, Numbered(|args|))];
    }
    if f.taskID.Some? {
      args := args + [Key(f.taskID.value)];
      clauses := clauses + [Compare(TaskId, Eq, Numbered(|args|))];
    }
    assert Clauses(clauses, args) == AnchorClauses(Postgres, f);
    if |f.statuses| > 0 {
      var ph;
      ph, args := AddPostgresStatuses(f.statuses, args);
      clauses := clauses + [In(Status, ph)];
    }
    if f.since.Some? {
      args := args + [Time(f.since.value)];
      clauses := clauses + [Compare(TriggeredAt, Ge, Numbered(|args|))];
    }
    assert Clauses(clauses, args) == InterventionClauses(Postgres, f);
    q := Query(clauses, [Desc(TriggeredAt, Last)], None);
    if f.limit > 0 {
      args := args + [Count(f.limit)];
      q := q.(limit := Some(Numbered(|args|)));
    }
  }

  // ---------- SQLite's left-to-right binding is Postgres's numbering ----------

  /** A positional draft and a numbered one that say the same. */
  ghost predicate Twins(s: Clauses, p: Clauses) {
    NumberWhere(s.where) == p.where && CountWhere(s.where) == |s.args| && s.args == p.args
  }

  lemma NumberSnoc(atoms: seq<Atom>, a: Atom)
    ensures NumberWhere(atoms + [a]) == NumberWhere(atoms) + [NumberAtom(a, 1 + CountWhere(atoms))]
    ensures CountWhere(atoms + [a]) == CountWhere(atoms) + CountAtom(a)
  {
    assert (atoms + [a])[..|atoms|] == atoms;
  }

  lemma {:induction false} HolesCount(n: nat, k: nat)
    requires k <= n
    ensures CountAll(Holes(n), k) == k
    decreases k
  {
    if k > 0 {
      HolesCount(n, k - 1);
    }
  }

  lemma HolesNumber(next: nat, n: nat)
    ensures NumberAll(Holes(n), next) == Numbers(next, n) && CountAll(Holes(n), n) == n
  {
    forall k | 0 <= k <= n
      ensures CountAll(Holes(n), k) == k
    {
      HolesCount(n, k);
    }
  }

  lemma TwinsCompare(s: Clauses, p: Clauses, when: bool, col: Column, op: Comparison, v: Value)
    requires Twins(s, p)
    ensures Twins(AddCompare(Sqlite, s, when, col, op, v), AddCompare(Postgres, p, when, col, op, v))
  {
    NumberSnoc(s.where, Compare(col, op, Anonymous));
  }

  lemma TwinsNotNull(s: Clauses, p: Clauses, when: bool, col: Column)
    requires Twins(s, p)
    ensures Twins(AddNotNull(s, when, col), AddNotNull(p, when, col))
  {
    NumberSnoc(s.where, NotNull(col));
  }

  lemma TwinsIn(s: Clauses, p: Clauses, col: Column, choices: seq<string>)
    requires Twins(s, p)
    ensures Twins(AddIn(Sqlite, s, col, choices), AddIn(Postgres, p, col, choices))
  {
    NumberSnoc(s.where, In(col, Holes(|choices|)));
    HolesNumber(|s.args| + 1, |choices|);
  }

  lemma TwinsFinish(s: Clauses, p: Clauses, order: seq<SortKey>, limit: int)
    requires Twins(s, p)
    ensures NumberQuery(Finished(Sqlite, s, order, limit)) == Finished(Postgres, p, order, limit)
    ensures CountQuery(Finished(Sqlite, s, order, limit)) == |s.args + LimitArgs(limit)|
  {}

  lemma CommitmentNumbering(f: CommitmentFilter)
    ensures NumberQuery(CommitmentQuery(Sqlite, f)) == CommitmentQuery(Postgres, f)
    ensures CommitmentArgs(Sqlite, f) == CommitmentArgs(Postgres, f)
    ensures CountQuery(CommitmentQuery(Sqlite, f)) == |CommitmentArgs(Sqlite, f)|
  {
    var isOwned, isDue, owner, due := f.ownerID != "", f.dueBy.Some?, Text(f.ownerID), TimeColumn(f.dueBy);
    TwinsCompare(BLANK, BLANK, isOwned, OwnerId, Eq, owner);
    var s, p := AddCompare(Sqlite, BLANK, isOwned, OwnerId, Eq, owner), AddCompare(Postgres, BLANK, isOwned, OwnerId, Eq, owner);
    TwinsIn(s, p, Status, f.statuses);
    s, p := AddIn(Sqlite, s, Status, f.statuses), AddIn(Postgres, p, Status, f.statuses);
    TwinsNotNull(s, p, isDue, DueAt);
    TwinsCompare(AddNotNull(s, isDue, DueAt), AddNotNull(p, isDue, DueAt), isDue, DueAt, Le, due);
    TwinsFinish(CommitmentClauses(Sqlite, f), CommitmentClauses(Postgres, f), [Asc(CreatedAt, First)], f.limit);
  }

  lemma InterventionNumbering(f: InterventionFilter)
    ensures NumberQuery(InterventionQuery(Sqlite, f)) == InterventionQuery(Postgres, f)
    ensures InterventionArgs(Sqlite, f) == InterventionArgs(Postgres, f)
    ensures CountQuery(InterventionQuery(Sqlite, f)) == |InterventionArgs(Sqlite, f)|
  {
    var c, t := KeyColumn(f.commitmentID), KeyColumn(f.taskID);
    TwinsCompare(BLANK, BLANK, f.commitmentID.Some?, CommitmentId, Eq, c);
    var s := AddCompare(Sqlite, BLANK, f.commitmentID.Some?, CommitmentId, Eq, c);
    var p := AddCompare(Postgres, BLANK, f.commitmentID.Some?, CommitmentId, Eq, c);
    TwinsCompare(s, p, f.taskID.Some?, TaskId, Eq, t);
    s, p := AddCompare(Sqlite, s, f.taskID.Some?, TaskId, Eq, t), AddCompare(Postgres, p, f.taskID.Some?, TaskId, Eq, t);
    TwinsIn(s, p, Status, f.statuses);
    s, p := AddIn(Sqlite, s, Status, f.statuses), AddIn(Postgres, p, Status, f.statuses);
    TwinsCompare(s, p, f.since.Some?, TriggeredAt, Ge, TimeColumn(f.since));
    TwinsFinish(InterventionClauses(Sqlite, f), InterventionClauses(Postgres, f), [Desc(TriggeredAt, Last)], f.limit);
  }

  // ---------- the conditions mean what the filters mean ----------

  /** Whatever arguments are appended later, the conditions hold of the row just when `truth`. */
  ghost predicate Means(b: Clauses, row: Row, truth: bool) {
    forall more :: Holds(b, more, row) <==> truth
  }

  predicate Holds(b: Clauses, more: seq<Value>, row: Row) {
    EvalWhere(b.where, b.args + more, row) == True
  }

  lemma WhereSnoc(atoms: seq<Atom>, a: Atom, args: seq<Value>, row: Row)
    ensures EvalWhere(atoms + [a], args, row) == True <==>
            EvalWhere(atoms, args, row) == True && EvalAtom(a, args, row) == True
  {
    assert (atoms + [a])[..|atoms|] == atoms;
  }

  lemma MeansCompare(b: Clauses, row: Row, truth: bool, when: bool, col: Column, op: Comparison, v: Value)
    requires Means(b, row, truth)
    ensures Means(AddCompare(Postgres, b, when, col, op, v), row, truth && (when ==> Test(op, row(col), v) == True))
  {
    var b' := AddCompare(Postgres, b, true, col, op, v);
    forall more
      ensures Holds(b', more, row) <==> truth && Test(op, row(col), v) == True
    {
      WhereSnoc(b.where, Compare(col, op, Numbered(|b.args| + 1)), b'.args + more, row);
      assert b'.args + more == b.args + ([v] + more);
      assert Holds(b, [v] + more, row) <==> truth;
      assert Bound(Numbered(|b.args| + 1), b'.args + more) == v;
    }
  }

  lemma MeansNotNull(b: Clauses, row: Row, truth: bool, when: bool, col: Column)
    requires Means(b, row, truth)
    ensures Means(AddNotNull(b, when, col), row, truth && (when ==> !row(col).Null?))
  {
    var b' := AddNotNull(b, true, col);
    forall more
      ensures Holds(b', more, row) <==> truth && !row(col).Null?
    {
      WhereSnoc(b.where, NotNull(col), b.args + more, row);
      assert Holds(b, more, row) <==> truth;
    }
  }

  lemma {:induction false} InMeansMember(v: Value, ps: seq<Placeholder>, args: seq<Value>, k: nat)
    requires k <= |ps|
    ensures EvalIn(v, ps, args, k) == True <==>
            exists i :: 0 <= i < k && Test(Eq, v, Bound(ps[i], args)) == True
    decreases k
  {
    if k > 0 {
      InMeansMember(v, ps, args, k - 1);
    }
  }

  lemma ChoiceMeansMember(choice: string, choices: seq<string>, before: seq<Value>, more: seq<Value>)
    ensures EvalIn(Text(choice), Numbers(|before| + 1, |choices|), before + Texts(choices) + more, |choices|) == True
       <==> choice in choices
  {
    var ps, args := Numbers(|before| + 1, |choices|), before + Texts(choices) + more;
    InMeansMember(Text(choice), ps, args, |choices|);
    forall i | 0 <= i < |ps|
      ensures Test(Eq, Text(choice), Bound(ps[i], args)) == Known(choice == choices[i])
    {
      assert args[|before| + i] == Texts(choices)[i];
      assert Bound(ps[i], args) == Text(choices[i]);
    }
  }

  lemma MeansIn(b: Clauses, row: Row, truth: bool, col: Column, choice: string, choices: seq<string>)
    requires Means(b, row, truth) && row(col) == Text(choice)
    ensures Means(AddIn(Postgres, b, col, choices), row, truth && (choices == [] || choice in choices))
  {
    var b' := AddIn(Postgres, b, col, choices);
    forall more | choices != []
      ensures Holds(b', more, row) <==> truth && choice in choices
    {
      WhereSnoc(b.where, In(col, Numbers(|b.args| + 1, |choices|)), b'.args + more, row);
      assert b'.args + more == b.args + (Texts(choices) + more);
      assert Holds(b, Texts(choices) + more, row) <==> truth;
      ChoiceMeansMember(choice, choices, b.args, more);
    }
  }

  lemma CommitmentWhereMeansFilter(f: CommitmentFilter, c: Commitment)
    ensures Means(CommitmentClauses(Postgres, f), CommitmentColumns(c), MatchesCommitment(c, f))
  {
    var row, isOwned, isDue, owner := CommitmentColumns(c), f.ownerID != "", f.dueBy.Some?, Text(f.ownerID);
    assert Means(BLANK, row, true);
    MeansCompare(BLANK, row, true, isOwned, OwnerId, Eq, owner);
    var b, truth := AddCompare(Postgres, BLANK, isOwned, OwnerId, Eq, owner), isOwned ==> c.ownerID == f.ownerID;
    MeansIn(b, row, truth, Status, c.status, f.statuses);
    b, truth := AddIn(Postgres, b, Status, f.statuses), truth && (f.statuses == [] || c.status in f.statuses);
    MeansNotNull(b, row, truth, isDue, DueAt);
    MeansCompare(AddNotNull(b, isDue, DueAt), row, truth && (isDue ==> c.dueAt.Some?), isDue, DueAt, Le, TimeColumn(f.dueBy));
  }

  predicate MatchesAnchors(iv: Intervention, f: InterventionFilter) {
    && (f.commitmentID.Some? ==> iv.commitmentID == f.commitmentID)
    && (f.taskID.Some? ==> iv.taskID == f.taskID)
  }

  lemma KeyTest(id: Option<Id>, want: Option<Id>)
    ensures want.Some? ==> (Test(Eq, KeyColumn(id), KeyColumn(want)) == True <==> id == want)
  {}

  /** A NULL anchor compares as unknown, which a WHERE treats like false. */
  lemma AnchorsMeanFilter(f: InterventionFilter, iv: Intervention)
    ensures Means(AnchorClauses(Postgres, f), InterventionColumns(iv), MatchesAnchors(iv, f))
  {
    var row, isAnchored := InterventionColumns(iv), f.commitmentID.Some?;
    assert Means(BLANK, row, true);
    KeyTest(iv.commitmentID, f.commitmentID);
    KeyTest(iv.taskID, f.taskID);
    MeansCompare(BLANK, row, true, isAnchored, CommitmentId, Eq, KeyColumn(f.commitmentID));
    var b := AddCompare(Postgres, BLANK, isAnchored, CommitmentId, Eq, KeyColumn(f.commitmentID));
    var truth := isAnchored ==> iv.commitmentID == f.commitmentID;
    MeansCompare(b, row, truth, f.taskID.Some?, TaskId, Eq, KeyColumn(f.taskID));
  }

  lemma InterventionWhereMeansFilter(f: InterventionFilter, iv: Intervention)
    ensures Means(InterventionClauses(Postgres, f), InterventionColumns(iv), MatchesIntervention(iv, f))
  {
    var row, b, truth := InterventionColumns(iv), AnchorClauses(Postgres, f), MatchesAnchors(iv, f);
    AnchorsMeanFilter(f, iv);
    MeansIn(b, row, truth, Status, iv.status, f.statuses);
    b, truth := AddIn(Postgres, b, Status, f.statuses), truth && (f.statuses == [] || iv.status in f.statuses);
    MeansCompare(b, row, truth, f.since.Some?, TriggeredAt, Ge, TimeColumn(f.since));
    SinceTest(iv.triggeredAt, f.since);
    assert row(TriggeredAt) == Time(iv.triggeredAt);
    MatchesByParts(iv, f);
  }

  lemma SinceTest(t: int, since: Option<int>)
    ensures since.Some? ==> (Test(Ge, Time(t), TimeColumn(since)) == True <==> t >= since.value)
  {}

  lemma MatchesByParts(iv: Intervention, f: InterventionFilter)
    ensures MatchesIntervention(iv, f) <==>
              && MatchesAnchors(iv, f) && (f.statuses == [] || iv.status in f.statuses)
              && (f.since.Some? ==> iv.triggeredAt >= f.since.value)
  {}

  // ---------- the orders ----------

  predicate CreatedBefore(a: Commitment, b: Commitment) { a.createdAt < b.createdAt }

  predicate TriggeredAfter(a: Intervention, b: Intervention) { a.triggeredAt > b.triggeredAt }

  /** The comparator of the in-memory `FindActive`. */
  predicate MoreUrgent(a: Commitment, b: Commitment) {
    if a.riskScore != b.riskScore then a.riskScore > b.riskScore
    else if a.dueAt.Some? && b.dueAt.None? then true
    else if a.dueAt.None? && b.dueAt.Some? then false
    else if a.dueAt.Some? && b.dueAt.Some? && a.dueAt.value != b.dueAt.value then a.dueAt.value < b.dueAt.value
    else a.createdAt < b.createdAt
  }

  const ACTIVE := [In(Status, [Constant(Text("pending")), Constant(Text("in_progress"))])]

  function SqliteActiveQuery(limit: int): Query {
    Query(ACTIVE,
          [Desc(RiskScore, Last), NullFlag(DueAt), Asc(DueAt, First), Asc(CreatedAt, First)],
          if limit > 0 then Some(Anonymous) else None)
  }

  function PostgresActiveQuery(limit: int): Query {
    Query(ACTIVE,
          [Desc(RiskScore, First), Asc(DueAt, Last), Asc(CreatedAt, Last)],
          if limit > 0 then Some(Numbered(1)) else None)
  }

  lemma MemoryOrdersAreWeak()
    ensures StrictWeakOrder(CreatedBefore) && StrictWeakOrder(TriggeredAfter) && StrictWeakOrder(MoreUrgent)
  {}

  lemma PrecedesHead(k: SortKey, keys: seq<SortKey>, r: Row, s: Row)
    ensures Precedes([k] + keys, r, s) <==>
            KeyOrder(k, r, s) < 0 || (KeyOrder(k, r, s) == 0 && Precedes(keys, r, s))
  {
    assert ([k] + keys)[1..] == keys;
  }

  /** Both ORDER BY clauses of `FindActive`, one with a CASE and one with NULLS LAST, are the comparator. */
  lemma ActiveOrdersAreUrgency(a: Commitment, b: Commitment, limit: int)
    ensures Precedes(SqliteActiveQuery(limit).order, CommitmentColumns(a), CommitmentColumns(b)) <==> MoreUrgent(a, b)
    ensures Precedes(PostgresActiveQuery(limit).order, CommitmentColumns(a), CommitmentColumns(b)) <==> MoreUrgent(a, b)
  {
    SqliteOrderIsUrgency(a, b);
    PostgresOrderIsUrgency(a, b);
  }

  lemma SqliteOrderIsUrgency(a: Commitment, b: Commitment)
    ensures MoreUrgent(a, b) == Precedes([Desc(RiskScore, Last), NullFlag(DueAt), Asc(DueAt, First), Asc(CreatedAt, First)],
                                         CommitmentColumns(a), CommitmentColumns(b))
  {
    var r, s := CommitmentColumns(a), CommitmentColumns(b);
    PrecedesHead(Asc(CreatedAt, First), [], r, s);
    PrecedesHead(Asc(DueAt, First), [Asc(CreatedAt, First)], r, s);
    PrecedesHead(NullFlag(DueAt), [Asc(DueAt, First), Asc(CreatedAt, First)], r, s);
    PrecedesHead(Desc(RiskScore, Last), [NullFlag(DueAt), Asc(DueAt, First), Asc(CreatedAt, First)], r, s);
  }

  lemma PostgresOrderIsUrgency(a: Commitment, b: Commitment)
    ensures MoreUrgent(a, b) == Precedes([Desc(RiskScore, First), Asc(DueAt, Last), Asc(CreatedAt, Last)],
                                         CommitmentColumns(a), CommitmentColumns(b))
  {
    var r, s := CommitmentColumns(a), CommitmentColumns(b);
    PrecedesHead(Asc(CreatedAt, Last), [], r, s);
    PrecedesHead(Asc(DueAt, Last), [Asc(CreatedAt, Last)], r, s);
    PrecedesHead(Desc(RiskScore, First), [Asc(DueAt, Last), Asc(CreatedAt, Last)], r, s);
  }

  // ---------- the three backends agree ----------

  lemma SameAnswers<T(!new)>(less: (T, T) -> bool, less': (T, T) -> bool, out: seq<T>, rows: set<T>, limit: int)
    requires forall a, b :: less(a, b) == less'(a, b)
    ensures Answers(less, out, rows, limit) <==> Answers(less', out, rows, limit)
  {
    forall s
      ensures Arranges(less, s, rows) <==> Arranges(less', s, rows)
    {}
  }

  lemma LimitOnlyIfPositive<T(!new)>(less: (T, T) -> bool, out: seq<T>, rows: set<T>, n: int, m: int)
    requires n > 0 || m > 0 ==> n == m
    ensures Answers(less, out, rows, n) <==> Answers(less, out, rows, m)
  {
    forall s: seq<T>
      ensures Cut(s, n) == Cut(s, m)
    {}
  }

  /** A query whose condition, order and limit are known returns just the corresponding selections. */
  lemma ReturnsSelections<T(!new)>(q: Query, args: seq<Value>, rows: set<T>, columns: T -> Row, out: seq<T>,
                                   kept: set<T>, less: (T, T) -> bool, limit: int)
    requires forall r :: r in rows ==> (EvalWhere(q.where, args, columns(r)) == True <==> r in kept)
    requires kept <= rows
    requires forall a, b :: Precedes(q.order, columns(a), columns(b)) == less(a, b)
    requires LimitOf(q, args) > 0 || limit > 0 ==> LimitOf(q, args) == limit
    ensures Returns(q, args, rows, columns, out) <==> Answers(less, out, kept, limit)
  {
    assert (set r | r in rows && EvalWhere(q.where, args, columns(r)) == True) == kept;
    SameAnswers((a, b) => Precedes(q.order, columns(a), columns(b)), less, out, kept, LimitOf(q, args));
    LimitOnlyIfPositive(less, out, kept, LimitOf(q, args), limit);
  }

  function MatchingCommitments(rows: set<Commitment>, f: CommitmentFilter): set<Commitment> {
    set c | c in rows && MatchesCommitment(c, f)
  }

  function MatchingInterventions(rows: set<Intervention>, f: InterventionFilter): set<Intervention> {
    set iv | iv in rows && MatchesIntervention(iv, f)
  }

  function ActiveCommitments(rows: set<Commitment>): set<Commitment> {
    set c | c in rows && IsActive(c.status)
  }

  lemma ListReturnsSelections<T(!new)>(b: Clauses, order: seq<SortKey>, limit: int, rows: set<T>, columns: T -> Row,
                                       out: seq<T>, kept: set<T>, less: (T, T) -> bool)
    requires kept <= rows && forall r :: r in rows ==> Means(b, columns(r), r in kept)
    requires forall x, y :: Precedes(order, columns(x), columns(y)) == less(x, y)
    ensures Returns(Finished(Postgres, b, order, limit), b.args + LimitArgs(limit), rows, columns, out)
       <==> Answers(less, out, kept, limit)
  {
    var q, args := Finished(Postgres, b, order, limit), b.args + LimitArgs(limit);
    forall r | r in rows
      ensures EvalWhere(q.where, args, columns(r)) == True <==> r in kept
    {
      assert Holds(b, LimitArgs(limit), columns(r)) <==> r in kept;
    }
    assert limit > 0 ==> Bound(Numbered(|b.args| + 1), args) == Count(limit);
    ReturnsSelections(q, args, rows, columns, out, kept, less, limit);
  }

  /**
   `List` on commitments: SQLite's positional query, Postgres's numbered query and the in-memory
   filter, sort and cut allow exactly the same results.
   */
  lemma CommitmentListsAgree(f: CommitmentFilter, rows: set<Commitment>, out: seq<Commitment>)
    ensures CountQuery(CommitmentQuery(Sqlite, f)) == |CommitmentArgs(Sqlite, f)|
    ensures Returns(NumberQuery(CommitmentQuery(Sqlite, f)), CommitmentArgs(Sqlite, f), rows, CommitmentColumns, out)
       <==> Answers(CreatedBefore, out, MatchingCommitments(rows, f), f.limit)
    ensures Returns(CommitmentQuery(Postgres, f), CommitmentArgs(Postgres, f), rows, CommitmentColumns, out)
       <==> Answers(CreatedBefore, out, MatchingCommitments(rows, f), f.limit)
  {
    CommitmentNumbering(f);
    var b, kept := CommitmentClauses(Postgres, f), MatchingCommitments(rows, f);
    forall c | c in rows
      ensures Means(b, CommitmentColumns(c), c in kept)
    {
      CommitmentWhereMeansFilter(f, c);
    }
    forall x, y
      ensures Precedes([Asc(CreatedAt, First)], CommitmentColumns(x), CommitmentColumns(y)) == CreatedBefore(x, y)
    {
      PrecedesHead(Asc(CreatedAt, First), [], CommitmentColumns(x), CommitmentColumns(y));
    }
    ListReturnsSelections(b, [Asc(CreatedAt, First)], f.limit, rows, CommitmentColumns, out, kept, CreatedBefore);
  }

  /** `List` on interventions, likewise, newest first. */
  lemma InterventionListsAgree(f: InterventionFilter, rows: set<Intervention>, out: seq<Intervention>)
    ensures CountQuery(InterventionQuery(Sqlite, f)) == |InterventionArgs(Sqlite, f)|
    ensures Returns(NumberQuery(InterventionQuery(Sqlite, f)), InterventionArgs(Sqlite, f), rows, InterventionColumns, out)
       <==> Answers(TriggeredAfter, out, MatchingInterventions(rows, f), f.limit)
    ensures Returns(InterventionQuery(Postgres, f), InterventionArgs(Postgres, f), rows, InterventionColumns, out)
       <==> Answers(TriggeredAfter, out, MatchingInterventions(rows, f), f.limit)
  {
    InterventionNumbering(f);
    var b, kept := InterventionClauses(Postgres, f), MatchingInterventions(rows, f);
    forall iv | iv in rows
      ensures Means(b, InterventionColumns(iv), iv in kept)
    {
      InterventionWhereMeansFilter(f, iv);
    }
    forall x, y
      ensures Precedes([Desc(TriggeredAt, Last)], InterventionColumns(x), InterventionColumns(y)) == TriggeredAfter(x, y)
    {
      PrecedesHead(Desc(TriggeredAt, Last), [], InterventionColumns(x), InterventionColumns(y));
    }
    ListReturnsSelections(b, [Desc(TriggeredAt, Last)], f.limit, rows, InterventionColumns, out, kept, TriggeredAfter);
  }

  /**
   `FindActive`: the statement with a CASE, the one with NULLS LAST and the in-memory comparator
   allow exactly the same sorted selections of the active rows.
   */
  lemma FindActiveAgrees(limit: int, rows: set<Commitment>, out: seq<Commitment>)
    ensures CountQuery(SqliteActiveQuery(limit)) == |LimitArgs(limit)|
    ensures Returns(NumberQuery(SqliteActiveQuery(limit)), LimitArgs(limit), rows, CommitmentColumns, out)
       <==> Answers(MoreUrgent, out, ActiveCommitments(rows), limit)
    ensures Returns(PostgresActiveQuery(limit), LimitArgs(limit), rows, CommitmentColumns, out)
       <==> Answers(MoreUrgent, out, ActiveCommitments(rows), limit)
  {
    var args, active := LimitArgs(limit), ActiveCommitments(rows);
    ActiveNumbering(limit);
    forall c | c in rows
      ensures EvalWhere(ACTIVE, args, CommitmentColumns(c)) == True <==> c in active
    {
      ActiveMeansActive(c, args);
    }
    forall a, b
      ensures Precedes(SqliteActiveQuery(limit).order, CommitmentColumns(a), CommitmentColumns(b)) == MoreUrgent(a, b)
      ensures Precedes(PostgresActiveQuery(limit).order, CommitmentColumns(a), CommitmentColumns(b)) == MoreUrgent(a, b)
    {
      ActiveOrdersAreUrgency(a, b, limit);
    }
    ReturnsSelections(NumberQuery(SqliteActiveQuery(limit)), args, rows, CommitmentColumns, out, active, MoreUrgent, limit);
    ReturnsSelections(PostgresActiveQuery(limit), args, rows, CommitmentColumns, out, active, MoreUrgent, limit);
  }

  lemma ActiveNumbering(limit: int)
    ensures CountQuery(SqliteActiveQuery(limit)) == |LimitArgs(limit)|
    ensures NumberQuery(SqliteActiveQuery(limit))
         == SqliteActiveQuery(limit).(limit := if limit > 0 then Some(Numbered(1)) else None)
  {
    var ps := [Constant(Text("pending")), Constant(Text("in_progress"))];
    ConstantsStay(ps, 1, |ps|);
    NumberSnoc([], In(Status, ps));
    assert [] + [In(Status, ps)] == ACTIVE;
  }

  lemma {:induction false} ConstantsStay(ps: seq<Placeholder>, next: nat, k: nat)
    requires k <= |ps| && forall i :: 0 <= i < |ps| ==> ps[i].Constant?
    ensures NumberAll(ps, next) == ps && CountAll(ps, k) == 0
    decreases k
  {
    if k > 0 {
      ConstantsStay(ps, next, k - 1);
    }
  }

  lemma ActiveMeansActive(c: Commitment, args: seq<Value>)
    ensures EvalWhere(ACTIVE, args, CommitmentColumns(c)) == True <==> IsActive(c.status)
  {
    var ps := [Constant(Text("pending")), Constant(Text("in_progress"))];
    WhereSnoc([], In(Status, ps), args, CommitmentColumns(c));
    assert [] + [In(Status, ps)] == ACTIVE;
    InMeansMember(Text(c.status), ps, args, |ps|);
    assert Bound(ps[0], args) == Text("pending") && Bound(ps[1], args) == Text("in_progress");
  }

  /**
   What two such results can still differ in: only which of the rows tying with the last one they
   hold, and the order among ties.  No row left out by the limit precedes one returned.
   */
  lemma ResultsDifferOnlyInTies(f: CommitmentFilter, g: InterventionFilter, limit: int,
                                cs: set<Commitment>, ivs: set<Intervention>,
                                l: seq<Commitment>, l': seq<Commitment>,
                                i: seq<Intervention>, i': seq<Intervention>,
                                u: seq<Commitment>, u': seq<Commitment>)
    requires Answers(CreatedBefore, l, MatchingCommitments(cs, f), f.limit)
    requires Answers(CreatedBefore, l', MatchingCommitments(cs, f), f.limit)
    requires Answers(TriggeredAfter, i, MatchingInterventions(ivs, g), g.limit)
    requires Answers(TriggeredAfter, i', MatchingInterventions(ivs, g), g.limit)
    requires Answers(MoreUrgent, u, ActiveCommitments(cs), limit)
    requires Answers(MoreUrgent, u', ActiveCommitments(cs), limit)
    ensures |l| == |l'| && forall k :: 0 <= k < |l| ==> l[k].createdAt == l'[k].createdAt
    ensures forall c :: c in l && c !in l' ==> c.createdAt == l[|l| - 1].createdAt
    ensures |i| == |i'| && forall k :: 0 <= k < |i| ==> i[k].triggeredAt == i'[k].triggeredAt
    ensures forall iv :: iv in i && iv !in i' ==> iv.triggeredAt == i[|i| - 1].triggeredAt
    ensures |u| == |u'| && forall k :: 0 <= k < |u| ==>
              u[k].riskScore == u'[k].riskScore && u[k].dueAt == u'[k].dueAt && u[k].createdAt == u'[k].createdAt
    ensures forall c, kept :: c in ActiveCommitments(cs) && c !in u && kept in u ==> !MoreUrgent(c, kept)
  {
    MemoryOrdersAreWeak();
    AnswersAgree(CreatedBefore, l, l', MatchingCommitments(cs, f), f.limit);
    AnswersAgree(TriggeredAfter, i, i', MatchingInterventions(ivs, g), g.limit);
    AnswersAgree(MoreUrgent, u, u', ActiveCommitments(cs), limit);
  }

  /** The lists in plain words: oldest first, newest first, and by risk, then due time with none last, then age. */
  lemma ResultsInOrder(f: CommitmentFilter, g: InterventionFilter, limit: int, cs: set<Commitment>, ivs: set<Intervention>,
                       l: seq<Commitment>, i: seq<Intervention>, u: seq<Commitment>, a: nat, b: nat)
    requires Answers(CreatedBefore, l, MatchingCommitments(cs, f), f.limit)
    requires Answers(TriggeredAfter, i, MatchingInterventions(ivs, g), g.limit)
    requires Answers(MoreUrgent, u, ActiveCommitments(cs), limit)
    requires a < b
    ensures b < |l| ==> l[a] in cs && l[b] in cs && l[a] != l[b] && l[a].createdAt <= l[b].createdAt
    ensures b < |i| ==> i[a] in ivs && i[b] in ivs && i[a] != i[b] && i[a].triggeredAt >= i[b].triggeredAt
    ensures b < |u| ==>
              && u[a] in cs && u[b] in cs && u[a] != u[b] && u[a].status in ["pending", "in_progress"]
              && u[a].riskScore >= u[b].riskScore
              && (u[a].riskScore == u[b].riskScore && u[b].dueAt.Some? ==>
                    u[a].dueAt.Some? && u[a].dueAt.value <= u[b].dueAt.value)
              && (u[a].riskScore == u[b].riskScore && u[a].dueAt == u[b].dueAt ==> u[a].createdAt <= u[b].createdAt)
  {
    if b < |l| {
      var s :| Arranges(CreatedBefore, s, MatchingCommitments(cs, f)) && l == Cut(s, f.limit);
      assert l[a] == s[a] && l[b] == s[b] && s[a] in s && s[b] in s;
    }
    if b < |i| {
      var s :| Arranges(TriggeredAfter, s, MatchingInterventions(ivs, g)) && i == Cut(s, g.limit);
      assert i[a] == s[a] && i[b] == s[b] && s[a] in s && s[b] in s;
    }
    if b < |u| {
      var s :| Arranges(MoreUrgent, s, ActiveCommitments(cs)) && u == Cut(s, limit);
      assert u[a] == s[a] && u[b] == s[b] && s[a] in s && s[b] in s;
    }
  }
}
