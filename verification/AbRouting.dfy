/**
 The A/B prompt router (`internal/llm/ab_prompt.go`).  The hash of an owner is an input; prompt
 builders are opaque and `DEFAULT_BUILDER` is what `NewPromptBuilder()` makes.
 */
module AbRouting {

  type BuilderId = nat

  const DEFAULT_BUILDER: BuilderId := 0

  datatype Builder = NoBuilder | Given(id: BuilderId)

  /** `tag` is the experiment label. */
  datatype Variant = Variant(tag: string, weight: int, builder: Builder)

  // ---------- order of labels ----------

  predicate Before(a: string, b: string) {
    b != "" && (a == "" || a[0] < b[0] || (a[0] == b[0] && Before(a[1..], b[1..])))
  }

  lemma {:induction false} BeforeTotal(a: string, b: string)
    ensures Before(a, b) || Before(b, a) || a == b
    ensures !(Before(a, b) && Before(b, a)) && !Before(a, a)
    decreases |a| + |b|
  {
    if a != "" && b != "" && a[0] == b[0] {
      BeforeTotal(a[1..], b[1..]);
      assert a[1..] == b[1..] ==> a == [a[0]] + a[1..] == [b[0]] + b[1..] == b;
    }
    NotBeforeSelf(a);
  }

  lemma {:induction false} NotBeforeSelf(a: string)
    ensures !Before(a, a)
    decreases a
  {
    if a != "" {
      NotBeforeSelf(a[1..]);
    }
  }

  lemma {:induction false} BeforeTransitive(a: string, b: string, c: string)
    requires Before(a, b) && Before(b, c)
    ensures Before(a, c)
    decreases a
  {
    if a != "" && a[0] == b[0] == c[0] {
      BeforeTransitive(a[1..], b[1..], c[1..]);
    }
  }

  lemma NotBeforeEarlier(a: string, b: string, c: string)
    requires Before(b, c) && !Before(a, c)
    ensures !Before(a, b)
  {
    if Before(a, b) {
      BeforeTransitive(a, b, c);
    }
  }

  // ---------- setting and picking variants ----------

  function Normalized(v: Variant): Variant {
    if v.builder.NoBuilder? then v.(builder := Given(DEFAULT_BUILDER)) else v
  }

  function Kept(vs: seq<Variant>): seq<Variant> {
    if vs == [] then [] else
    var front, v := Kept(vs[..|vs| - 1]), vs[|vs| - 1];
    if v.weight <= 0 then front else front + [Normalized(v)]
  }

  function Total(vs: seq<Variant>): int {
    if vs == [] then 0 else vs[0].weight + Total(vs[1..])
  }

  /** Behind everything that does not come after it: a stable insertion. */
  function Insert(s: seq<Variant>, v: Variant): seq<Variant> {
    if s != [] && !Before(v.tag, s[0].tag) then [s[0]] + Insert(s[1..], v) else [v] + s
  }

  /** `sort.SliceStable` by label. */
  function Arranged(vs: seq<Variant>): seq<Variant> {
    if vs == [] then [] else Insert(Arranged(vs[..|vs| - 1]), vs[|vs| - 1])
  }

  datatype Choice = Fell | Chose(v: Variant)

  /** The bucket walk; `Fell` is the fall-through at its end. */
  function Walk(vs: seq<Variant>, bucket: int): Choice {
    if vs == [] then Fell
    else if bucket < vs[0].weight then Chose(vs[0])
    else Walk(vs[1..], bucket - vs[0].weight)
  }

  datatype Error = NoVariants | ZeroWeight | Fine

  function Check(vs: seq<Variant>): Error {
    if vs == [] then NoVariants else if Total(Kept(vs)) == 0 then ZeroWeight else Fine
  }

  class Router {
    var variants: seq<Variant>
    var total: int

    /** A router exists only once its variants were accepted. */
    ghost predicate Valid()
      reads this
    {
      exists vs :: Check(vs) == Fine && variants == Arranged(Kept(vs)) && total == Total(Kept(vs))
    }

    constructor (vs: seq<Variant>)
      requires Check(vs) == Fine
      ensures variants == Arranged(Kept(vs)) && total == Total(Kept(vs))
    {
      variants, total := [], 0;
      new;
      var error := SetVariants(vs);
    }

    method SetVariants(vs: seq<Variant>) returns (error: Error)
      modifies this
      ensures error == Check(vs)
      ensures error == Fine ==> variants == Arranged(Kept(vs)) && total == Total(Kept(vs))
      ensures error != Fine ==> variants == old(variants) && total == old(total)
    {
      if |vs| == 0 {
        return NoVariants;
      }
      var cp, sum := KeepWeighted(vs);
      if sum == 0 {
        return ZeroWeight;
      }
      var sorted := SortByLabel(cp);
      variants, total := sorted, sum;
      return Fine;
    }

    method Pick(hash: nat) returns (v: Variant)
      requires Valid()
      ensures total > 0 && Walk(variants, hash % total) == Chose(v)
    {
      WalkNeverFalls(this, hash);
      if |variants| == 1 {
        return variants[0];
      }
      var bucket := hash % total;
      v := variants[|variants| - 1];
      for i := 0 to |variants|
        invariant Walk(variants[i..], bucket) == Walk(variants, hash % total)
      {
        assert variants[i..][1..] == variants[i + 1..];
        if bucket < variants[i].weight {
          return variants[i];
        }
        bucket := bucket - variants[i].weight;
      }
    }
  }

  lemma WalkNeverFalls(router: Router, hash: nat)
    requires router.Valid()
    ensures router.total > 0 && router.variants != [] && Walk(router.variants, hash % router.total).Chose?
    ensures |router.variants| == 1 ==> Walk(router.variants, hash % router.total) == Chose(router.variants[0])
  {
    var vs :| Check(vs) == Fine && router.variants == Arranged(Kept(vs)) && router.total == Total(Kept(vs));
    KeptPositive(vs);
    ArrangedKeeps(Kept(vs));
    TotalPositive(Kept(vs));
    WalkLands(router.variants, hash % router.total);
    assert Total(router.variants) == router.variants[0].weight + Total(router.variants[1..]);
  }

  method KeepWeighted(vs: seq<Variant>) returns (cp: seq<Variant>, total: int)
    ensures cp == Kept(vs) && total == Total(cp)
  {
    cp, total := [], 0;
    for i := 0 to |vs|
      invariant cp == Kept(vs[..i]) && total == Total(cp)
    {
      assert vs[..i + 1][..i] == vs[..i];
      var v := vs[i];
      if v.weight <= 0 {
        continue;
      }
      if v.builder.NoBuilder? {
        v := v.(builder := Given(DEFAULT_BUILDER));
      }
      TotalSnoc(cp, v);
      cp := cp + [v];
      total := total + v.weight;
    }
    assert vs[..|vs|] == vs;
  }

  method SortByLabel(vs: seq<Variant>) returns (r: seq<Variant>)
    ensures r == Arranged(vs)
  {
    r := [];
    for i := 0 to |vs|
      invariant r == Arranged(vs[..i])
    {
      assert vs[..i + 1][..i] == vs[..i];
      r := Insert(r, vs[i]);
    }
    assert vs[..|vs|] == vs;
  }

  // ---------- weights ----------

  predicate Positive(vs: seq<Variant>) { forall i :: 0 <= i < |vs| ==> vs[i].weight > 0 && vs[i].builder.Given? }

  predicate Ordered(vs: seq<Variant>) { forall i, j :: 0 <= i < j < |vs| ==> !Before(vs[j].tag, vs[i].tag) }

  lemma {:induction false} KeptPositive(vs: seq<Variant>)
    ensures Positive(Kept(vs))
    decreases vs
  {
    if vs != [] {
      KeptPositive(vs[..|vs| - 1]);
    }
  }

  lemma {:induction false} TotalSnoc(vs: seq<Variant>, v: Variant)
    ensures Total(vs + [v]) == Total(vs) + v.weight
    decreases vs
  {
    if vs == [] {
      assert [v][1..] == [] && vs + [v] == [v];
    } else {
      TotalSnoc(vs[1..], v);
      assert (vs + [v])[1..] == vs[1..] + [v];
    }
  }

  lemma {:induction false} TotalPositive(vs: seq<Variant>)
    requires Positive(vs)
    ensures Total(vs) >= 0 && (vs != [] ==> Total(vs) > 0)
    decreases vs
  {
    if vs != [] {
      TotalPositive(vs[1..]);
    }
  }

  /** The combined weight of the variants whose label is `label`, or sorts before it. */
  function WeightOf(vs: seq<Variant>, tag: string): int {
    if vs == [] then 0 else (if vs[0].tag == tag then vs[0].weight else 0) + WeightOf(vs[1..], tag)
  }

  function WeightBelow(vs: seq<Variant>, tag: string): int {
    if vs == [] then 0 else (if Before(vs[0].tag, tag) then vs[0].weight else 0) + WeightBelow(vs[1..], tag)
  }

  lemma {:induction false} InsertAdds(s: seq<Variant>, v: Variant)
    ensures multiset(Insert(s, v)) == multiset(s) + multiset{v}
    decreases s
  {
    if s != [] && !Before(v.tag, s[0].tag) {
      InsertAdds(s[1..], v);
      assert s == [s[0]] + s[1..];
    }
  }

  lemma FromInsert(s: seq<Variant>, v: Variant, j: nat)
    requires j < |Insert(s, v)|
    ensures Insert(s, v)[j] == v || Insert(s, v)[j] in s
  {
    InsertAdds(s, v);
    assert Insert(s, v)[j] in multiset(Insert(s, v));
  }

  lemma {:induction false} InsertOrdered(s: seq<Variant>, v: Variant)
    requires Ordered(s)
    ensures Ordered(Insert(s, v))
    decreases s
  {
    if s != [] && !Before(v.tag, s[0].tag) {
      var rest := Insert(s[1..], v);
      InsertOrdered(s[1..], v);
      forall j | 0 <= j < |rest|
        ensures !Before(rest[j].tag, s[0].tag)
      {
        FromInsert(s[1..], v, j);
      }
    } else if s != [] {
      forall j | 0 <= j < |s|
        ensures !Before(s[j].tag, v.tag)
      {
        NotBeforeSelf(s[0].tag);
        NotBeforeEarlier(s[j].tag, v.tag, s[0].tag);
      }
    }
  }

  lemma {:induction false} ArrangedSorts(vs: seq<Variant>)
    ensures Ordered(Arranged(vs)) && multiset(Arranged(vs)) == multiset(vs)
    decreases vs
  {
    if vs != [] {
      var front, v := vs[..|vs| - 1], vs[|vs| - 1];
      ArrangedSorts(front);
      InsertOrdered(Arranged(front), v);
      InsertAdds(Arranged(front), v);
      assert vs == front + [v];
    }
  }

  lemma ArrangedKeeps(vs: seq<Variant>)
    requires Positive(vs)
    ensures Ordered(Arranged(vs)) && Positive(Arranged(vs))
    ensures multiset(Arranged(vs)) == multiset(vs) && Total(Arranged(vs)) == Total(vs)
  {
    ArrangedSorts(vs);
    WeightsIgnoreOrder(Arranged(vs), vs, "");
    forall i | 0 <= i < |Arranged(vs)|
      ensures Arranged(vs)[i] in vs
    {
      assert Arranged(vs)[i] in multiset(Arranged(vs));
    }
  }

  /** The fall-through return is unreachable. */
  lemma {:induction false} WalkLands(vs: seq<Variant>, bucket: int)
    requires Positive(vs) && 0 <= bucket < Total(vs)
    ensures Walk(vs, bucket).Chose? && Walk(vs, bucket).v in vs
    decreases vs
  {
    if bucket >= vs[0].weight {
      WalkLands(vs[1..], bucket - vs[0].weight);
    }
  }

  lemma {:induction false} WeightsOfLater(vs: seq<Variant>, tag: string)
    requires Positive(vs)
    requires forall i :: 0 <= i < |vs| ==> !Before(vs[i].tag, tag)
    ensures WeightBelow(vs, tag) == 0
    decreases vs
  {
    if vs != [] {
      WeightsOfLater(vs[1..], tag);
    }
  }

  lemma {:induction false} WeightsNonNegative(vs: seq<Variant>, tag: string)
    requires Positive(vs)
    ensures WeightOf(vs, tag) >= 0 && WeightBelow(vs, tag) >= 0
    decreases vs
  {
    if vs != [] {
      WeightsNonNegative(vs[1..], tag);
    }
  }

  /** The walk lands on the label whose share of the line of buckets holds this bucket. */
  lemma {:induction false} WalkFindsShare(vs: seq<Variant>, bucket: int)
    requires Positive(vs) && Ordered(vs) && 0 <= bucket < Total(vs)
    ensures Walk(vs, bucket).Chose?
    ensures var l := Walk(vs, bucket).v.tag;
            WeightBelow(vs, l) <= bucket < WeightBelow(vs, l) + WeightOf(vs, l)
    decreases vs
  {
    WalkLands(vs, bucket);
    var first, rest := vs[0], vs[1..];
    var l := Walk(vs, bucket).v.tag;
    BeforeTotal(first.tag, l);
    if bucket < first.weight {
      WeightsOfLater(rest, l);
      WeightsNonNegative(rest, l);
    } else {
      WalkFindsShare(rest, bucket - first.weight);
      WalkLands(rest, bucket - first.weight);
      if first.tag == l {
        WeightsOfLater(rest, l);
      }
    }
  }

  /** Shares of different labels lie side by side. */
  lemma {:induction false} SharesStack(vs: seq<Variant>, a: string, b: string)
    requires Positive(vs) && Before(a, b)
    ensures WeightBelow(vs, a) + WeightOf(vs, a) <= WeightBelow(vs, b)
    decreases vs
  {
    if vs != [] {
      SharesStack(vs[1..], a, b);
      BeforeTotal(vs[0].tag, a);
      if Before(vs[0].tag, a) {
        BeforeTransitive(vs[0].tag, a, b);
      }
    }
  }

  lemma ShareIsUnique(vs: seq<Variant>, a: string, b: string, bucket: int)
    requires Positive(vs)
    requires WeightBelow(vs, a) <= bucket < WeightBelow(vs, a) + WeightOf(vs, a)
    requires WeightBelow(vs, b) <= bucket < WeightBelow(vs, b) + WeightOf(vs, b)
    ensures a == b
  {
    BeforeTotal(a, b);
    if Before(a, b) {
      SharesStack(vs, a, b);
    } else if Before(b, a) {
      SharesStack(vs, b, a);
    }
  }

  // ---------- weights do not depend on the order of the variants ----------

  lemma {:induction false} WeightsConcat(a: seq<Variant>, b: seq<Variant>, tag: string)
    ensures WeightOf(a + b, tag) == WeightOf(a, tag) + WeightOf(b, tag)
    ensures WeightBelow(a + b, tag) == WeightBelow(a, tag) + WeightBelow(b, tag)
    ensures Total(a + b) == Total(a) + Total(b)
    decreases a
  {
    if a == [] {
      assert a + b == b;
    } else {
      WeightsConcat(a[1..], b, tag);
      assert (a + b)[1..] == a[1..] + b;
    }
  }

  lemma TakeOut(a: seq<Variant>, b: seq<Variant>) returns (left: seq<Variant>, right: seq<Variant>)
    requires a != [] && multiset(a) == multiset(b)
    ensures b == left + ([a[0]] + right) && multiset(a[1..]) == multiset(left + right)
  {
    var x := a[0];
    assert x in multiset(b);
    var k :| 0 <= k < |b| && b[k] == x;
    left, right := b[..k], b[k + 1..];
    assert b == left + ([x] + right);
    WithoutOne(left, x, right);
    WithoutOne([], x, a[1..]);
    assert [] + ([x] + a[1..]) == a && [] + a[1..] == a[1..];
  }

  lemma WithoutOne(left: seq<Variant>, x: Variant, right: seq<Variant>)
    ensures multiset(left + right) == multiset(left + ([x] + right)) - multiset{x}
  {
    assert multiset([x] + right) == multiset{x} + multiset(right);
  }

  lemma {:induction false} WeightsIgnoreOrder(a: seq<Variant>, b: seq<Variant>, tag: string)
    requires multiset(a) == multiset(b)
    ensures WeightOf(a, tag) == WeightOf(b, tag) && WeightBelow(a, tag) == WeightBelow(b, tag)
    ensures Total(a) == Total(b)
    decreases a
  {
    if a == [] {
      assert |b| == |multiset(b)| == |multiset(a)| == 0;
    } else {
      var left, right := TakeOut(a, b);
      WeightsIgnoreOrder(a[1..], left + right, tag);
      WeightsTakenOut(left, a[0], right, tag);
    }
  }

  lemma WeightsTakenOut(left: seq<Variant>, x: Variant, right: seq<Variant>, tag: string)
    ensures WeightOf(left + ([x] + right), tag) == WeightOf(left + right, tag) + if x.tag == tag then x.weight else 0
    ensures WeightBelow(left + ([x] + right), tag)
         == WeightBelow(left + right, tag) + if Before(x.tag, tag) then x.weight else 0
    ensures Total(left + ([x] + right)) == Total(left + right) + x.weight
  {
    WeightsConcat(left, right, tag);
    WeightsConcat(left, [x] + right, tag);
    assert ([x] + right)[1..] == right;
  }

  lemma {:induction false} KeptIgnoresOrder(vs: seq<Variant>, v: Variant)
    ensures multiset(Kept(vs))[v] == if v.weight <= 0 || v.builder.NoBuilder? then 0
                                     else multiset(vs)[v] + if v.builder == Given(DEFAULT_BUILDER)
                                                           then multiset(vs)[v.(builder := NoBuilder)] else 0
    decreases vs
  {
    if vs != [] {
      var front, last := vs[..|vs| - 1], vs[|vs| - 1];
      KeptIgnoresOrder(front, v);
      assert vs == front + [last];
      CountSnoc(front, last, v);
      CountSnoc(front, last, v.(builder := NoBuilder));
      CountSnoc(Kept(front), Normalized(last), v);
    }
  }

  lemma CountSnoc(s: seq<Variant>, x: Variant, v: Variant)
    ensures multiset(s + [x])[v] == multiset(s)[v] + if x == v then 1 else 0
  {}

  lemma KeptPermutes(vs: seq<Variant>, vs': seq<Variant>)
    requires multiset(vs) == multiset(vs')
    ensures multiset(Kept(vs)) == multiset(Kept(vs'))
  {
    forall v: Variant
      ensures multiset(Kept(vs))[v] == multiset(Kept(vs'))[v]
    {
      KeptIgnoresOrder(vs, v);
      KeptIgnoresOrder(vs', v);
    }
  }

  // ---------- main results ----------

  function Routed(vs: seq<Variant>, hash: nat): Choice
    requires Check(vs) == Fine && Total(Kept(vs)) != 0
  {
    Walk(Arranged(Kept(vs)), hash % Total(Kept(vs)))
  }

  lemma RoutedShare(vs: seq<Variant>, hash: nat)
    requires Check(vs) == Fine
    ensures Total(Kept(vs)) > 0 && Routed(vs, hash).Chose? && Routed(vs, hash).v in Kept(vs)
    ensures var l, bucket := Routed(vs, hash).v.tag, hash % Total(Kept(vs));
            WeightBelow(Kept(vs), l) <= bucket < WeightBelow(Kept(vs), l) + WeightOf(Kept(vs), l)
  {
    var kept := Kept(vs);
    KeptPositive(vs);
    TotalPositive(kept);
    ArrangedKeeps(kept);
    WalkFindsShare(Arranged(kept), hash % Total(kept));
    WalkLands(Arranged(kept), hash % Total(kept));
    assert Routed(vs, hash).v in multiset(Arranged(kept));
    WeightsIgnoreOrder(Arranged(kept), kept, Routed(vs, hash).v.tag);
  }

  /** Every permutation of the variants is accepted alike and routes every hash to the same label. */
  lemma LabelIgnoresOrder(vs: seq<Variant>, vs': seq<Variant>, hash: nat)
    requires multiset(vs) == multiset(vs')
    ensures Check(vs) == Check(vs')
    ensures Check(vs) == Fine ==> Routed(vs, hash).Chose? && Routed(vs', hash).Chose?
                                  && Routed(vs, hash).v.tag == Routed(vs', hash).v.tag
  {
    assert |vs| == |multiset(vs)| == |multiset(vs')| == |vs'|;
    KeptPermutes(vs, vs');
    WeightsIgnoreOrder(Kept(vs), Kept(vs'), "");
    if Check(vs) == Fine {
      RoutedShare(vs, hash);
      RoutedShare(vs', hash);
      var a, b := Routed(vs, hash).v.tag, Routed(vs', hash).v.tag;
      WeightsIgnoreOrder(Kept(vs), Kept(vs'), b);
      KeptPositive(vs);
      ShareIsUnique(Kept(vs), a, b, hash % Total(Kept(vs)));
    }
  }

  /** The buckets, out of `Total`, that go to a label. */
  function BucketsOf(vs: seq<Variant>, tag: string): set<int>
    requires Check(vs) == Fine && Total(Kept(vs)) > 0
  {
    set b | 0 <= b < Total(Kept(vs)) && Routed(vs, b).Chose? && Routed(vs, b).v.tag == tag
  }

  lemma {:induction false} RangeCount(lo: int, hi: int, s: set<int>)
    requires lo <= hi && forall b :: b in s <==> lo <= b < hi
    ensures |s| == hi - lo
    decreases hi - lo
  {
    if lo < hi {
      RangeCount(lo, hi - 1, s - {hi - 1});
    } else {
      assert forall b :: b !in s;
      assert s == {};
    }
  }

  lemma {:induction false} SharesWithinTotal(vs: seq<Variant>, tag: string)
    requires Positive(vs)
    ensures WeightBelow(vs, tag) + WeightOf(vs, tag) <= Total(vs)
    decreases vs
  {
    if vs != [] {
      SharesWithinTotal(vs[1..], tag);
      BeforeTotal(vs[0].tag, tag);
    }
  }

  lemma SmallBucket(b: int, total: int)
    requires 0 <= b < total
    ensures b % total == b
  {}

  lemma RoutedBucket(vs: seq<Variant>, b: nat)
    requires Check(vs) == Fine && b < Total(Kept(vs))
    ensures Routed(vs, b).Chose?
    ensures var l := Routed(vs, b).v.tag;
            WeightBelow(Kept(vs), l) <= b < WeightBelow(Kept(vs), l) + WeightOf(Kept(vs), l)
  {
    RoutedShare(vs, b);
    SmallBucket(b, Total(Kept(vs)));
  }

  lemma RoutesInShare(vs: seq<Variant>, tag: string, b: int)
    requires Check(vs) == Fine && Total(Kept(vs)) > 0
    ensures b in BucketsOf(vs, tag) <==>
            WeightBelow(Kept(vs), tag) <= b < WeightBelow(Kept(vs), tag) + WeightOf(Kept(vs), tag)
  {
    var kept := Kept(vs);
    KeptPositive(vs);
    WeightsNonNegative(kept, tag);
    SharesWithinTotal(kept, tag);
    if 0 <= b < Total(kept) {
      RoutedBucket(vs, b);
      var chosen := Routed(vs, b).v.tag;
      if WeightBelow(kept, tag) <= b < WeightBelow(kept, tag) + WeightOf(kept, tag) {
        ShareIsUnique(kept, chosen, tag, b);
      }
      assert b in BucketsOf(vs, tag) <==> chosen == tag;
    }
  }

  /** The positive weights of the variants as they were given, of all of them or of those with one label. */
  function PositiveWeight(vs: seq<Variant>): nat {
    if vs == [] then 0 else
    var v := vs[|vs| - 1];
    PositiveWeight(vs[..|vs| - 1]) + if v.weight > 0 then v.weight else 0
  }

  function PositiveWeightOf(vs: seq<Variant>, tag: string): nat {
    if vs == [] then 0 else
    var v := vs[|vs| - 1];
    PositiveWeightOf(vs[..|vs| - 1], tag) + if v.tag == tag && v.weight > 0 then v.weight else 0
  }

  lemma {:induction false} KeptWeights(vs: seq<Variant>, tag: string)
    ensures Total(Kept(vs)) == PositiveWeight(vs) && WeightOf(Kept(vs), tag) == PositiveWeightOf(vs, tag)
    decreases vs
  {
    if vs != [] {
      var front, v := vs[..|vs| - 1], vs[|vs| - 1];
      KeptWeights(front, tag);
      WeightsConcat(Kept(front), [Normalized(v)], tag);
    }
  }

  lemma {:induction false} SomeWeight(vs: seq<Variant>)
    ensures PositiveWeight(vs) > 0 <==> exists i :: 0 <= i < |vs| && vs[i].weight > 0
    decreases vs
  {
    if vs != [] {
      var front, n := vs[..|vs| - 1], |vs| - 1;
      SomeWeight(front);
      if vs[n].weight <= 0 && exists i :: 0 <= i < |vs| && vs[i].weight > 0 {
        var i :| 0 <= i < |vs| && vs[i].weight > 0;
        assert front[i].weight > 0;
      }
    }
  }

  /** Variants are refused when there are none, and when none of them has a positive weight. */
  lemma AcceptedIff(vs: seq<Variant>)
    ensures Check(vs) == NoVariants <==> vs == []
    ensures Check(vs) == Fine <==> exists i :: 0 <= i < |vs| && vs[i].weight > 0
  {
    KeptWeights(vs, "");
    SomeWeight(vs);
  }

  /** Each label receives exactly its combined positive weight out of the total. */
  lemma LabelGetsItsWeight(vs: seq<Variant>, tag: string)
    requires Check(vs) == Fine
    ensures Total(Kept(vs)) == PositiveWeight(vs) > 0
    ensures |BucketsOf(vs, tag)| == PositiveWeightOf(vs, tag)
  {
    KeptWeights(vs, tag);
    BucketsCounted(vs, tag);
  }

  lemma BucketsCounted(vs: seq<Variant>, tag: string)
    requires Check(vs) == Fine
    ensures Total(Kept(vs)) > 0 && |BucketsOf(vs, tag)| == WeightOf(Kept(vs), tag)
  {
    var kept := Kept(vs);
    RoutedShare(vs, 0);
    KeptPositive(vs);
    WeightsNonNegative(kept, tag);
    var lo, hi, buckets := WeightBelow(kept, tag), WeightBelow(kept, tag) + WeightOf(kept, tag), BucketsOf(vs, tag);
    forall b
      ensures b in buckets <==> lo <= b < hi
    {
      RoutesInShare(vs, tag, b);
    }
    RangeCount(lo, hi, buckets);
  }

  // ---------- when the order of the variants can be noticed after all ----------

  predicate Uses(vs: seq<Variant>, tag: string) { exists i :: 0 <= i < |vs| && vs[i].tag == tag }

  function FirstWith(vs: seq<Variant>, tag: string): Variant
    requires Uses(vs, tag)
  {
    if vs[0].tag == tag then vs[0] else UsesLater(vs, tag); FirstWith(vs[1..], tag)
  }

  lemma UsesLater(vs: seq<Variant>, tag: string)
    requires Uses(vs, tag) && vs[0].tag != tag
    ensures Uses(vs[1..], tag)
  {
    var i :| 0 <= i < |vs| && vs[i].tag == tag;
    assert vs[1..][i - 1] == vs[i];
  }

  /** A stable insertion never overtakes a variant with the same label. */
  lemma {:induction false} InsertKeepsFirst(s: seq<Variant>, v: Variant, tag: string)
    requires Ordered(s) && Uses(s, tag)
    ensures Uses(Insert(s, v), tag) && FirstWith(Insert(s, v), tag) == FirstWith(s, tag)
    decreases s
  {
    var r := Insert(s, v);
    if !Before(v.tag, s[0].tag) {
      assert r[0] == s[0] && r[1..] == Insert(s[1..], v);
      if s[0].tag != tag {
        UsesLater(s, tag);
        InsertKeepsFirst(s[1..], v, tag);
        var i :| 0 <= i < |r[1..]| && r[1..][i].tag == tag;
        assert r[i + 1].tag == tag;
      }
    } else {
      assert r[0] == v && r[1..] == s;
      var i :| 0 <= i < |s| && s[i].tag == tag;
      assert r[i + 1].tag == tag;
      NotBeforeSelf(s[0].tag);
      assert !Before(s[i].tag, s[0].tag);
    }
  }

  lemma {:induction false} ArrangedKeepsFirst(first: Variant, rest: seq<Variant>)
    ensures Uses(Arranged([first] + rest), first.tag) && FirstWith(Arranged([first] + rest), first.tag) == first
    decreases rest
  {
    var vs := [first] + rest;
    if rest == [] {
      assert vs[..0] == [] && Arranged(vs) == [first];
      assert Arranged(vs)[0].tag == first.tag;
    } else {
      var front := rest[..|rest| - 1];
      ArrangedKeepsFirst(first, front);
      assert vs[..|vs| - 1] == [first] + front;
      ArrangedSorts([first] + front);
      InsertKeepsFirst(Arranged([first] + front), vs[|vs| - 1], first.tag);
    }
  }

  /** The first bucket of a label's share goes to its first variant. */
  lemma {:induction false} WalkAtShareStart(vs: seq<Variant>, tag: string)
    requires Positive(vs) && Ordered(vs) && Uses(vs, tag)
    ensures Walk(vs, WeightBelow(vs, tag)) == Chose(FirstWith(vs, tag))
    decreases vs
  {
    WeightsNonNegative(vs[1..], tag);
    if vs[0].tag == tag {
      WeightsOfLater(vs, tag) by { NotBeforeSelf(tag); }
    } else {
      UsesLater(vs, tag);
      var i :| 0 <= i < |vs| && vs[i].tag == tag;
      BeforeTotal(vs[0].tag, tag);
      assert !Before(vs[i].tag, vs[0].tag);
      WalkAtShareStart(vs[1..], tag);
    }
  }

  lemma {:induction false} KeptHead(x: Variant, rest: seq<Variant>)
    requires x.weight > 0
    ensures Kept([x] + rest) == [Normalized(x)] + Kept(rest)
    decreases rest
  {
    var vs := [x] + rest;
    if rest == [] {
      assert vs[..0] == [] && Kept(vs) == [Normalized(x)];
    } else {
      KeptHead(x, rest[..|rest| - 1]);
      assert vs[..|vs| - 1] == [x] + rest[..|rest| - 1];
    }
  }

  lemma {:induction false} KeptFrom(vs: seq<Variant>, v: Variant) returns (k: nat)
    requires v in Kept(vs)
    ensures k < |vs| && vs[k].weight > 0 && Normalized(vs[k]) == v
    decreases vs
  {
    var n := |vs| - 1;
    if vs[n].weight > 0 && Normalized(vs[n]) == v {
      k := n;
    } else {
      k := KeptFrom(vs[..n], v);
    }
  }

  lemma FavouredByOrder(v: Variant, rest: seq<Variant>)
    requires Positive([v] + rest)
    ensures var vs := [v] + rest;
            && 0 <= WeightBelow(vs, v.tag) < Total(vs)
            && Walk(Arranged(vs), WeightBelow(vs, v.tag)) == Chose(v)
  {
    var vs := [v] + rest;
    assert vs[1..] == rest;
    WeightsNonNegative(vs, v.tag);
    WeightsNonNegative(rest, v.tag);
    SharesWithinTotal(vs, v.tag);
    ArrangedKeeps(vs);
    ArrangedKeepsFirst(v, rest);
    WeightsIgnoreOrder(Arranged(vs), vs, v.tag);
    WalkAtShareStart(Arranged(vs), v.tag);
  }

  lemma Promoted(vs: seq<Variant>, k: nat)
    requires k < |vs|
    ensures multiset([vs[k]] + (vs[..k] + vs[k + 1..])) == multiset(vs)
  {
    assert vs == vs[..k] + [vs[k]] + vs[k + 1..];
  }

  /** Some order of the variants routes the start of the share of `v`'s label to `v` itself. */
  lemma SomeOrderFavours(vs: seq<Variant>, v: Variant) returns (vs': seq<Variant>)
    requires Check(vs) == Fine && v in Kept(vs)
    ensures multiset(vs') == multiset(vs) && Check(vs') == Fine
    ensures WeightBelow(Kept(vs), v.tag) >= 0 && Total(Kept(vs')) != 0
    ensures Routed(vs', WeightBelow(Kept(vs), v.tag)) == Chose(v)
  {
    var k := KeptFrom(vs, v);
    var rest := vs[..k] + vs[k + 1..];
    vs' := [vs[k]] + rest;
    Promoted(vs, k);
    LabelIgnoresOrder(vs, vs', 0);
    KeptPermutes(vs, vs');
    WeightsIgnoreOrder(Kept(vs), Kept(vs'), v.tag);
    RoutedToFirst(vs[k], rest);
  }

  lemma RoutedToFirst(x: Variant, rest: seq<Variant>)
    requires x.weight > 0 && Check([x] + rest) == Fine
    ensures var vs := [x] + rest;
            && 0 <= WeightBelow(Kept(vs), x.tag) && Total(Kept(vs)) != 0
            && Routed(vs, WeightBelow(Kept(vs), x.tag)) == Chose(Normalized(x))
  {
    KeptHead(x, rest);
    KeptPositive([x] + rest);
    FavouredByOrder(Normalized(x), Kept(rest));
    var kept, bucket := Kept([x] + rest), WeightBelow(Kept([x] + rest), x.tag);
    SmallBucket(bucket, Total(kept));
    assert Routed([x] + rest, bucket) == Walk(Arranged(kept), bucket);
  }

  /** The two orders send this hash to variants with the same prompt builder. */
  ghost predicate SameBuilder(vs: seq<Variant>, vs': seq<Variant>, hash: nat)
    requires Check(vs) == Fine == Check(vs')
  {
    && Routed(vs, hash).Chose? && Routed(vs', hash).Chose?
    && Routed(vs, hash).v.builder == Routed(vs', hash).v.builder
  }

  predicate LabelsFixBuilders(vs: seq<Variant>) {
    forall a, b :: a in vs && b in vs && a.tag == b.tag ==> a.builder == b.builder
  }

  /**
   The comment in `SetVariants` promises the same routing for every order of the variants.  For
   labels that holds; for the prompt actually used it holds exactly when no two weighted variants
   share a label with different builders.
   */
  lemma BuilderIgnoresOrderIff(vs: seq<Variant>)
    requires Check(vs) == Fine
    ensures LabelsFixBuilders(Kept(vs)) <==>
            forall vs', hash :: multiset(vs') == multiset(vs) && Check(vs') == Fine ==> SameBuilder(vs, vs', hash)
  {
    if LabelsFixBuilders(Kept(vs)) {
      forall vs', hash | multiset(vs') == multiset(vs) && Check(vs') == Fine
        ensures SameBuilder(vs, vs', hash)
      {
        LabelIgnoresOrder(vs, vs', hash);
        RoutedShare(vs, hash);
        RoutedShare(vs', hash);
        KeptPermutes(vs, vs');
        assert Routed(vs', hash).v in multiset(Kept(vs'));
      }
    } else {
      var a, b :| a in Kept(vs) && b in Kept(vs) && a.tag == b.tag && a.builder != b.builder;
      var p := SomeOrderFavours(vs, a);
      var q := SomeOrderFavours(vs, b);
      assert !SameBuilder(vs, p, WeightBelow(Kept(vs), a.tag)) || !SameBuilder(vs, q, WeightBelow(Kept(vs), a.tag));
    }
  }
}
