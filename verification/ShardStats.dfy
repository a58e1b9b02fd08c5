/**
 The two aggregations over shards in packages/shell-api/src/collection.ts, in exact arithmetic:
 `_aggregateAndScaleCollStats` and `getShardDistribution`.
 */
module ShardStats {
  import opened Prelude
  import opened Folds

  datatype SumField = Count | Size | StorageSize | TotalIndexSize | TotalSize | NumOrphanDocs

  /** The keys and values of a nested object, in its order. */
  type Entries<T> = seq<(string, T)>

  datatype Stat = Numeric(x: real) | Textual(text: string)

  /** One field of the storage statistics; `Ignored` are those that are skipped or copied. */
  datatype Field =
    | Number(field: SumField, amount: real)
    | AvgObjSize(average: real)
    | MaxSize(size: real)
    | IndexSizes(sizes: Entries<real>)
    | NIndexes(n: nat)
    | Timeseries(stats: Entries<Stat>)
    | Ignored(name: string)

  datatype Name =
    | NumberName(field: SumField)
    | AvgObjSizeName
    | MaxSizeName
    | IndexSizesName
    | NIndexesName
    | TimeseriesName
    | IgnoredName(name: string)

  /** The storage statistics of one shard: its fields, in the order in which they are visited. */
  type Shard = seq<Field>

  function NameOf(f: Field): Name {
    match f
    case Number(g, _) => NumberName(g)
    case AvgObjSize(_) => AvgObjSizeName
    case MaxSize(_) => MaxSizeName
    case IndexSizes(_) => IndexSizesName
    case NIndexes(_) => NIndexesName
    case Timeseries(_) => TimeseriesName
    case Ignored(name) => IgnoredName(name)
  }

  // ---------- looking up what a shard reports ----------

  function Find<X>(xs: seq<X>, p: X -> bool): (r: Option<X>)
    ensures r.Some? ==> r.value in xs && p(r.value)
    ensures r.None? ==> forall x :: x in xs ==> !p(x)
  {
    if xs == [] then None else if p(xs[0]) then Some(xs[0]) else Find(xs[1..], p)
  }

  function HasName(name: Name): Field -> bool {
    (f: Field) => NameOf(f) == name
  }

  function HasKey<T>(key: string): ((string, T)) -> bool {
    (e: (string, T)) => e.0 == key
  }

  const BUCKET_COUNT := "bucketCount"
  const AVG_BUCKET_SIZE := "avgBucketSize"

  function Times(x: real, y: real): real { x * y }

  function OrZero(x: Option<real>): real {
    if x.Some? then x.value else 0.0
  }

  function NumericEntry(stats: Entries<Stat>, key: string): Option<real> {
    match Find<(string, Stat)>(stats, HasKey(key))
    case Some((_, Numeric(x))) => Some(x)
    case _ => None
  }

  /** A field that is summed, or zero when the shard does not report it. */
  function Value(f: SumField): Shard -> real {
    (s: Shard) => match Find<Field>(s, HasName(NumberName(f)))
                  case Some(Number(_, x)) => x
                  case _ => 0.0
  }

  function Average(s: Shard): Option<real> {
    match Find<Field>(s, HasName(AvgObjSizeName))
    case Some(AvgObjSize(x)) => Some(x)
    case _ => None
  }

  function Sizes(s: Shard): Entries<real> {
    match Find<Field>(s, HasName(IndexSizesName))
    case Some(IndexSizes(sizes)) => sizes
    case _ => []
  }

  function Stats(s: Shard): Entries<Stat> {
    match Find<Field>(s, HasName(TimeseriesName))
    case Some(Timeseries(stats)) => stats
    case _ => []
  }

  function ObjectCount(s: Shard): real { Value(Count)(s) }

  function ObjectSize(s: Shard): real { Times(OrZero(Average(s)), ObjectCount(s)) }

  function BucketCount(s: Shard): real { OrZero(NumericEntry(Stats(s), "bucketCount")) }

  function BucketSize(s: Shard): real {
    Times(BucketCount(s), OrZero(NumericEntry(Stats(s), "avgBucketSize")))
  }

  function IndexSize(index: string): Shard -> real {
    (s: Shard) => match Find<(string, real)>(Sizes(s), HasKey(index))
                  case Some((_, x)) => x
                  case None => 0.0
  }

  function StatValue(name: string): Shard -> real {
    (s: Shard) => OrZero(NumericEntry(Stats(s), name))
  }

  /** The keys of an object are distinct. */
  predicate DistinctKeys<T>(es: Entries<T>) {
    forall i, j :: 0 <= i < j < |es| ==> es[i].0 != es[j].0
  }

  predicate WellFormed(s: Shard) {
    && (forall i, j :: 0 <= i < j < |s| ==> NameOf(s[i]) != NameOf(s[j]))
    && (forall f :: f in s && f.IndexSizes? ==> DistinctKeys(f.sizes))
    && (forall f :: f in s && f.Timeseries? ==> DistinctKeys(f.stats))
  }

  // ---------- what a visit to a field does ----------

  datatype Update =
    | Add(field: SumField, amount: real)
    | AddIndexSize(index: string, amount: real)
    | AddObjects(amount: real)
    | Raise(amount: real)
    | RaiseIndexes(n: nat)
    | AddTimeseries(name: string, amount: real)
    | AddBuckets(amount: real)

  datatype Totals = Totals(
    counts: map<SumField, real>,
    indexSizes: map<string, real>,
    unscaledCollSize: real,
    maxSize: real,
    nindexes: nat,
    timeseries: map<string, real>,
    totalBucketSize: real)

  const NOTHING := Totals(map[], map[], 0.0, 0.0, 0, map[], 0.0)

  function Get<K>(m: map<K, real>, k: K): real {
    if k in m then m[k] else 0.0
  }

  function Sum<K>(m: map<K, real>, k: K, amount: real): map<K, real> {
    m[k := Get(m, k) + amount]
  }

  function Max(a: real, b: real): real {
    if a < b then b else a
  }

  function Perform(t: Totals, u: Update): Totals {
    match u
    case Add(f, x) => t.(counts := Sum(t.counts, f, x))
    case AddIndexSize(i, x) => t.(indexSizes := Sum(t.indexSizes, i, x))
    case AddObjects(x) => t.(unscaledCollSize := t.unscaledCollSize + x)
    case Raise(x) => t.(maxSize := Max(t.maxSize, x))
    case RaiseIndexes(n) => t.(nindexes := if t.nindexes == 0 || n > t.nindexes then n else t.nindexes)
    case AddTimeseries(name, x) => t.(timeseries := Sum(t.timeseries, name, x))
    case AddBuckets(x) => t.(totalBucketSize := t.totalBucketSize + x)
  }

  function Gather<X>(of: X -> seq<Update>, xs: seq<X>): seq<Update> {
    if xs == [] then [] else of(xs[0]) + Gather(of, xs[1..])
  }

  function IndexUpdates(e: (string, real)): seq<Update> {
    [AddIndexSize(e.0, e.1)]
  }

  /** Text is skipped, the average is weighted with the bucket count, everything else is summed. */
  function StatUpdate(buckets: real, e: (string, Stat)): seq<Update> {
    if e.1.Textual? then []
    else if e.0 == AVG_BUCKET_SIZE then [AddBuckets(Times(buckets, e.1.x))]
    else [AddTimeseries(e.0, e.1.x)]
  }

  function StatUpdates(buckets: real): ((string, Stat)) -> seq<Update> {
    (e: (string, Stat)) => StatUpdate(buckets, e)
  }

  function FieldUpdate(objects: real, f: Field): seq<Update> {
    match f
    case Number(g, x) => [Add(g, x)]
    case AvgObjSize(x) => [AddObjects(Times(x, objects))]
    case MaxSize(x) => [Raise(x)]
    case IndexSizes(sizes) => Gather(IndexUpdates, sizes)
    case NIndexes(n) => [RaiseIndexes(n)]
    case Timeseries(stats) => Gather(StatUpdates(OrZero(NumericEntry(stats, BUCKET_COUNT))), stats)
    case Ignored(_) => []
  }

  function FieldUpdates(objects: real): Field -> seq<Update> {
    (f: Field) => FieldUpdate(objects, f)
  }

  function Updates(s: Shard): seq<Update> {
    Gather(FieldUpdates(ObjectCount(s)), s)
  }

  function AllUpdates(shards: seq<Shard>): seq<Update> {
    Gather(Updates, shards)
  }

  function Aggregate(shards: seq<Shard>): Totals {
    Fold(Perform, NOTHING, AllUpdates(shards))
  }

  // ---------- the order of shards and fields ----------

  lemma UpdatesCommute(u: Update, v: Update)
    ensures Commute(Perform, u, v)
  {
    forall t ensures Perform(Perform(t, u), v) == Perform(Perform(t, v), u) {
      match (u, v) {
        case (Add(f, x), Add(g, y)) => SumsCommute(t.counts, f, x, g, y);
        case (AddIndexSize(f, x), AddIndexSize(g, y)) => SumsCommute(t.indexSizes, f, x, g, y);
        case (AddTimeseries(f, x), AddTimeseries(g, y)) => SumsCommute(t.timeseries, f, x, g, y);
        case _ =>
      }
    }
  }

  lemma SumsCommute<K>(m: map<K, real>, k: K, x: real, l: K, y: real)
    ensures Sum(Sum(m, k, x), l, y) == Sum(Sum(m, l, y), k, x)
  {}

  lemma UpdateOrderDoesNotMatter(us: seq<Update>, vs: seq<Update>)
    requires multiset(us) == multiset(vs)
    ensures Fold(Perform, NOTHING, us) == Fold(Perform, NOTHING, vs)
  {
    forall u, v | u in us && v in us ensures Commute(Perform, u, v) {
      UpdatesCommute(u, v);
    }
    FoldPermutation(Perform, NOTHING, us, vs);
  }

  function Pour<X>(of: X -> seq<Update>): (multiset<Update>, X) -> multiset<Update> {
    (m: multiset<Update>, x: X) => m + multiset(of(x))
  }

  lemma {:induction false} GatherAsMultiset<X>(of: X -> seq<Update>, xs: seq<X>, m: multiset<Update>)
    ensures Fold(Pour(of), m, xs) == m + multiset(Gather(of, xs))
    decreases |xs|
  {
    if xs != [] {
      GatherAsMultiset(of, xs[1..], m + multiset(of(xs[0])));
    }
  }

  lemma PourCommutes<X(!new)>(of: X -> seq<Update>, xs: seq<X>)
    ensures AllCommute(Pour(of), xs)
  {
    forall x, y ensures Commute(Pour(of), x, y) {
      forall m: multiset<Update>
        ensures Pour(of)(Pour(of)(m, x), y) == Pour(of)(Pour(of)(m, y), x)
      {}
    }
  }

  lemma GatherPermutation<X(!new)>(of: X -> seq<Update>, xs: seq<X>, ys: seq<X>)
    requires multiset(xs) == multiset(ys)
    ensures multiset(Gather(of, xs)) == multiset(Gather(of, ys))
  {
    var none: multiset<Update> := multiset{};
    GatherAsMultiset(of, xs, none);
    GatherAsMultiset(of, ys, none);
    PourCommutes(of, xs);
    FoldPermutation(Pour(of), none, xs, ys);
    assert none + multiset(Gather(of, xs)) == multiset(Gather(of, xs));
    assert none + multiset(Gather(of, ys)) == multiset(Gather(of, ys));
  }

  lemma SameFound(s: Shard, r: Shard, name: Name)
    requires WellFormed(s) && multiset(s) == multiset(r)
    ensures Find(s, HasName(name)) == Find(r, HasName(name))
  {
    var a, b := Find(s, HasName(name)), Find(r, HasName(name));
    assert forall f :: f in s <==> f in multiset(s);
    assert forall f :: f in r <==> f in multiset(r);
    if a.Some? && b.Some? {
      var i :| 0 <= i < |s| && s[i] == a.value;
      var j :| 0 <= j < |s| && s[j] == b.value;
      assert NameOf(s[i]) == NameOf(s[j]);
    }
  }

  /** The same field, perhaps with the entries of its nested object in another order. */
  predicate SameField(f: Field, g: Field) {
    match (f, g)
    case (IndexSizes(xs), IndexSizes(ys)) => multiset(xs) == multiset(ys)
    case (Timeseries(xs), Timeseries(ys)) => multiset(xs) == multiset(ys)
    case _ => f == g
  }

  predicate SameFields(s: Shard, r: Shard) {
    |s| == |r| && forall i :: 0 <= i < |s| ==> SameField(s[i], r[i])
  }

  /** The fields of a document in another order, and the entries of its nested objects in another order. */
  ghost predicate Reordered(s: Shard, r: Shard) {
    exists m :: multiset(s) == multiset(m) && SameFields(m, r)
  }

  lemma SameEntry(xs: Entries<Stat>, ys: Entries<Stat>, key: string)
    requires DistinctKeys(xs) && multiset(xs) == multiset(ys)
    ensures NumericEntry(xs, key) == NumericEntry(ys, key)
  {
    var a, b := Find<(string, Stat)>(xs, HasKey(key)), Find<(string, Stat)>(ys, HasKey(key));
    assert forall e :: e in xs <==> e in multiset(xs);
    assert forall e :: e in ys <==> e in multiset(ys);
    if a.Some? && b.Some? {
      var i :| 0 <= i < |xs| && xs[i] == a.value;
      var j :| 0 <= j < |xs| && xs[j] == b.value;
      assert xs[i].0 == xs[j].0;
    }
  }

  lemma SameFieldUpdates(objects: real, f: Field, g: Field)
    requires SameField(f, g) && (f.Timeseries? ==> DistinctKeys(f.stats))
    ensures multiset(FieldUpdates(objects)(f)) == multiset(FieldUpdates(objects)(g))
  {
    match (f, g)
    case (IndexSizes(xs), IndexSizes(ys)) => GatherPermutation(IndexUpdates, xs, ys);
    case (Timeseries(xs), Timeseries(ys)) =>
      SameEntry(xs, ys, BUCKET_COUNT);
      GatherPermutation(StatUpdates(OrZero(NumericEntry(xs, BUCKET_COUNT))), xs, ys);
    case _ =>
  }

  lemma {:induction false} GatherPointwise<X>(of: X -> seq<Update>, xs: seq<X>, ys: seq<X>)
    requires |xs| == |ys| && forall i :: 0 <= i < |xs| ==> multiset(of(xs[i])) == multiset(of(ys[i]))
    ensures multiset(Gather(of, xs)) == multiset(Gather(of, ys))
    decreases |xs|
  {
    if xs != [] {
      assert forall i :: 0 <= i < |xs| - 1 ==> xs[1..][i] == xs[i + 1] && ys[1..][i] == ys[i + 1];
      GatherPointwise(of, xs[1..], ys[1..]);
      assert multiset(of(xs[0])) == multiset(of(ys[0]));
    }
  }

  lemma {:induction false} SameCount(s: Shard, r: Shard)
    requires SameFields(s, r)
    ensures Find(s, HasName(NumberName(Count))) == Find(r, HasName(NumberName(Count)))
    decreases |s|
  {
    if s != [] {
      assert SameField(s[0], r[0]);
      assert forall i :: 0 <= i < |s| - 1 ==> s[1..][i] == s[i + 1] && r[1..][i] == r[i + 1];
      SameCount(s[1..], r[1..]);
    }
  }

  lemma ReorderedUpdates(s: Shard, r: Shard)
    requires WellFormed(s) && Reordered(s, r)
    ensures multiset(Updates(s)) == multiset(Updates(r))
  {
    var m :| multiset(s) == multiset(m) && SameFields(m, r);
    SameFound(s, m, NumberName(Count));
    SameCount(m, r);
    var objects := ObjectCount(s);
    assert ObjectCount(r) == objects;
    GatherPermutation(FieldUpdates(objects), s, m);
    forall i | 0 <= i < |m| ensures multiset(FieldUpdates(objects)(m[i])) == multiset(FieldUpdates(objects)(r[i])) {
      assert m[i] in multiset(m) && m[i] in s;
      SameFieldUpdates(objects, m[i], r[i]);
    }
    GatherPointwise(FieldUpdates(objects), m, r);
  }

  /** Whatever the order of the fields within each shard, and of the entries within these, the totals are the same. */
  lemma FieldOrderDoesNotMatter(shards: seq<Shard>, others: seq<Shard>)
    requires |shards| == |others|
    requires forall i :: 0 <= i < |shards| ==> WellFormed(shards[i]) && Reordered(shards[i], others[i])
    ensures Aggregate(shards) == Aggregate(others)
  {
    forall i | 0 <= i < |shards| ensures multiset(Updates(shards[i])) == multiset(Updates(others[i])) {
      ReorderedUpdates(shards[i], others[i]);
    }
    GatherPointwise(Updates, shards, others);
    UpdateOrderDoesNotMatter(AllUpdates(shards), AllUpdates(others));
  }

  /** The order of the shards does not matter. */
  lemma ShardOrderDoesNotMatter(shards: seq<Shard>, others: seq<Shard>)
    requires multiset(shards) == multiset(others)
    ensures Aggregate(shards) == Aggregate(others)
  {
    GatherPermutation(Updates, shards, others);
    UpdateOrderDoesNotMatter(AllUpdates(shards), AllUpdates(others));
  }

  // ---------- what the totals are ----------

  /** The sum of a weight over a list of updates. */
  function Measure(us: seq<Update>, w: Update -> real): real {
    if us == [] then 0.0 else w(us[0]) + Measure(us[1..], w)
  }

  function FieldWeight(f: SumField): Update -> real {
    (u: Update) => if u.Add? && u.field == f then u.amount else 0.0
  }

  function IndexWeight(index: string): Update -> real {
    (u: Update) => if u.AddIndexSize? && u.index == index then u.amount else 0.0
  }

  function StatWeight(name: string): Update -> real {
    (u: Update) => if u.AddTimeseries? && u.name == name then u.amount else 0.0
  }

  function ObjectWeight(u: Update): real {
    if u.AddObjects? then u.amount else 0.0
  }

  function BucketWeight(u: Update): real {
    if u.AddBuckets? then u.amount else 0.0
  }

  lemma {:induction false} CountsAreSums(t: Totals, us: seq<Update>, f: SumField)
    ensures var r := Fold(Perform, t, us);
            && Get(r.counts, f) == Get(t.counts, f) + Measure(us, FieldWeight(f))
            && (f in r.counts <==> f in t.counts || exists u :: u in us && u.Add? && u.field == f)
    decreases |us|
  {
    if us != [] {
      CountsAreSums(Perform(t, us[0]), us[1..], f);
      assert us == [us[0]] + us[1..];
    }
  }

  lemma {:induction false} IndexSizesAreSums(t: Totals, us: seq<Update>, index: string)
    ensures var r := Fold(Perform, t, us);
            && Get(r.indexSizes, index) == Get(t.indexSizes, index) + Measure(us, IndexWeight(index))
            && (index in r.indexSizes <==>
                  index in t.indexSizes || exists u :: u in us && u.AddIndexSize? && u.index == index)
    decreases |us|
  {
    if us != [] {
      IndexSizesAreSums(Perform(t, us[0]), us[1..], index);
      assert us == [us[0]] + us[1..];
    }
  }

  lemma {:induction false} StatsAreSums(t: Totals, us: seq<Update>, name: string)
    ensures var r := Fold(Perform, t, us);
            && Get(r.timeseries, name) == Get(t.timeseries, name) + Measure(us, StatWeight(name))
            && (name in r.timeseries <==>
                  name in t.timeseries || exists u :: u in us && u.AddTimeseries? && u.name == name)
    decreases |us|
  {
    if us != [] {
      StatsAreSums(Perform(t, us[0]), us[1..], name);
      assert us == [us[0]] + us[1..];
    }
  }

  lemma {:induction false} SizesAreSums(t: Totals, us: seq<Update>)
    ensures var r := Fold(Perform, t, us);
            && r.unscaledCollSize == t.unscaledCollSize + Measure(us, ObjectWeight)
            && r.totalBucketSize == t.totalBucketSize + Measure(us, BucketWeight)
    decreases |us|
  {
    if us != [] {
      SizesAreSums(Perform(t, us[0]), us[1..]);
    }
  }

  lemma {:induction false} IndexesAreMaximum(t: Totals, us: seq<Update>)
    ensures var n := Fold(Perform, t, us).nindexes;
            && n >= t.nindexes
            && (forall u :: u in us && u.RaiseIndexes? ==> u.n <= n)
            && (n == t.nindexes || RaiseIndexes(n) in us)
    decreases |us|
  {
    if us != [] {
      IndexesAreMaximum(Perform(t, us[0]), us[1..]);
      assert us == [us[0]] + us[1..];
    }
  }

  lemma {:induction false} MaxSizeIsMaximum(t: Totals, us: seq<Update>)
    ensures var m := Fold(Perform, t, us).maxSize;
            && m >= t.maxSize
            && (forall u :: u in us && u.Raise? ==> u.amount <= m)
            && (m == t.maxSize || Raise(m) in us)
    decreases |us|
  {
    if us != [] {
      MaxSizeIsMaximum(Perform(t, us[0]), us[1..]);
      assert us == [us[0]] + us[1..];
    }
  }

  // ---------- from updates to what the shards report ----------

  function Total<X>(xs: seq<X>, part: X -> real): real {
    if xs == [] then 0.0 else part(xs[0]) + Total(xs[1..], part)
  }

  function MeasureOf<X>(of: X -> seq<Update>, w: Update -> real): X -> real {
    (x: X) => Measure(of(x), w)
  }

  lemma {:induction false} MeasureAppend(a: seq<Update>, b: seq<Update>, w: Update -> real)
    ensures Measure(a + b, w) == Measure(a, w) + Measure(b, w)
    decreases |a|
  {
    if a == [] {
      assert a + b == b;
    } else {
      assert (a + b)[0] == a[0] && (a + b)[1..] == a[1..] + b;
      MeasureAppend(a[1..], b, w);
    }
  }

  lemma {:induction false} MeasureGather<X>(of: X -> seq<Update>, xs: seq<X>, w: Update -> real)
    ensures Measure(Gather(of, xs), w) == Total(xs, MeasureOf(of, w))
    decreases |xs|
  {
    if xs != [] {
      MeasureAppend(of(xs[0]), Gather(of, xs[1..]), w);
      MeasureGather(of, xs[1..], w);
    }
  }

  lemma {:induction false} InGather<X>(of: X -> seq<Update>, xs: seq<X>, u: Update)
    ensures u in Gather(of, xs) <==> exists i :: 0 <= i < |xs| && u in of(xs[i])
    decreases |xs|
  {
    if xs != [] {
      InGather(of, xs[1..], u);
      assert forall i :: 1 <= i < |xs| ==> xs[i] == xs[1..][i - 1];
      assert u in Gather(of, xs) <==> u in of(xs[0]) || u in Gather(of, xs[1..]);
      if i :| 0 <= i < |xs[1..]| && u in of(xs[1..][i]) {
        assert u in of(xs[i + 1]);
      }
    }
  }

  lemma {:induction false} TotalSame<X>(xs: seq<X>, a: X -> real, b: X -> real)
    requires forall i :: 0 <= i < |xs| ==> a(xs[i]) == b(xs[i])
    ensures Total(xs, a) == Total(xs, b)
    decreases |xs|
  {
    if xs != [] {
      assert forall i :: 0 <= i < |xs| - 1 ==> xs[1..][i] == xs[i + 1];
      TotalSame(xs[1..], a, b);
    }
  }

  lemma {:induction false} TotalZero<X>(xs: seq<X>, part: X -> real)
    requires forall x :: x in xs ==> part(x) == 0.0
    ensures Total(xs, part) == 0.0
    decreases |xs|
  {
    if xs != [] {
      assert forall x :: x in xs[1..] ==> x in xs;
      TotalZero(xs[1..], part);
    }
  }

  /** When only elements of one kind weigh anything, and there is one of them at most. */
  lemma {:induction false} TotalFound<X>(xs: seq<X>, p: X -> bool, part: X -> real)
    requires forall i, j :: 0 <= i < j < |xs| ==> !p(xs[i]) || !p(xs[j])
    requires forall x :: x in xs && !p(x) ==> part(x) == 0.0
    ensures Total(xs, part) == if Find(xs, p).Some? then part(Find(xs, p).value) else 0.0
    decreases |xs|
  {
    if xs != [] {
      assert forall i :: 0 <= i < |xs| - 1 ==> xs[1..][i] == xs[i + 1];
      assert forall x :: x in xs[1..] ==> x in xs;
      if p(xs[0]) {
        forall x | x in xs[1..] ensures part(x) == 0.0 {
          var i :| 0 <= i < |xs| - 1 && xs[1..][i] == x;
          assert !p(xs[0]) || !p(xs[i + 1]);
        }
        TotalZero(xs[1..], part);
      } else {
        TotalFound(xs[1..], p, part);
      }
    }
  }

  lemma OneUpdate(u: Update, w: Update -> real)
    ensures Measure([u], w) == w(u) && Measure([], w) == 0.0
  {
    assert [u][1..] == [];
  }

  /** A nested object weighs nothing when none of its entries does. */
  lemma NestedZero<T>(of: ((string, T)) -> seq<Update>, es: Entries<T>, w: Update -> real)
    requires forall e :: e in es ==> Measure(of(e), w) == 0.0
    ensures Measure(Gather(of, es), w) == 0.0
  {
    MeasureGather(of, es, w);
    TotalZero(es, MeasureOf(of, w));
  }

  lemma IndexEntry(e: (string, real), w: Update -> real)
    ensures Measure(IndexUpdates(e), w) == w(AddIndexSize(e.0, e.1))
  {
    OneUpdate(AddIndexSize(e.0, e.1), w);
  }

  lemma StatEntry(buckets: real, e: (string, Stat), w: Update -> real)
    ensures Measure(StatUpdates(buckets)(e), w) ==
            if e.1.Textual? then 0.0
            else if e.0 == AVG_BUCKET_SIZE then w(AddBuckets(Times(buckets, e.1.x)))
            else w(AddTimeseries(e.0, e.1.x))
  {
    if e.1.Numeric? {
      OneUpdate(if e.0 == AVG_BUCKET_SIZE then AddBuckets(Times(buckets, e.1.x)) else AddTimeseries(e.0, e.1.x), w);
    }
  }

  /** The plain fields weigh what their one update weighs. */
  lemma PlainField(objects: real, f: Field, w: Update -> real)
    requires !f.IndexSizes? && !f.Timeseries?
    ensures Measure(FieldUpdates(objects)(f), w) ==
            match f
            case Number(g, x) => w(Add(g, x))
            case AvgObjSize(x) => w(AddObjects(Times(x, objects)))
            case MaxSize(x) => w(Raise(x))
            case NIndexes(n) => w(RaiseIndexes(n))
            case _ => 0.0
  {
    match f
    case Number(g, x) => OneUpdate(Add(g, x), w);
    case AvgObjSize(x) => OneUpdate(AddObjects(Times(x, objects)), w);
    case MaxSize(x) => OneUpdate(Raise(x), w);
    case NIndexes(n) => OneUpdate(RaiseIndexes(n), w);
    case _ =>
  }

  lemma IndexSizesWeighNothing(sizes: Entries<real>, w: Update -> real)
    requires forall index, x :: w(AddIndexSize(index, x)) == 0.0
    ensures Measure(Gather(IndexUpdates, sizes), w) == 0.0
  {
    forall e | e in sizes ensures Measure(IndexUpdates(e), w) == 0.0 {
      IndexEntry(e, w);
    }
    NestedZero(IndexUpdates, sizes, w);
  }

  lemma StatsWeighNothing(buckets: real, stats: Entries<Stat>, w: Update -> real)
    requires forall name, x :: w(AddTimeseries(name, x)) == 0.0
    requires forall x :: w(AddBuckets(x)) == 0.0
    ensures Measure(Gather(StatUpdates(buckets), stats), w) == 0.0
  {
    forall e | e in stats ensures Measure(StatUpdates(buckets)(e), w) == 0.0 {
      StatEntry(buckets, e, w);
    }
    NestedZero(StatUpdates(buckets), stats, w);
  }

  /** When only the field of one name weighs anything, a shard weighs what this field does. */
  lemma OneFieldWeighs(s: Shard, name: Name, w: Update -> real)
    requires WellFormed(s)
    requires forall f :: f in s && NameOf(f) != name ==> Measure(FieldUpdates(ObjectCount(s))(f), w) == 0.0
    ensures var found := Find(s, HasName(name));
            Measure(Updates(s), w)
            == if found.Some? then Measure(FieldUpdates(ObjectCount(s))(found.value), w) else 0.0
  {
    MeasureGather(FieldUpdates(ObjectCount(s)), s, w);
    TotalFound(s, HasName(name), MeasureOf(FieldUpdates(ObjectCount(s)), w));
  }

  lemma ShardSum(s: Shard, f: SumField)
    requires WellFormed(s)
    ensures Measure(Updates(s), FieldWeight(f)) == Value(f)(s)
  {
    var w, o := FieldWeight(f), ObjectCount(s);
    forall g | g in s && NameOf(g) != NumberName(f) ensures Measure(FieldUpdates(o)(g), w) == 0.0 {
      FieldWithoutSum(o, g, f);
    }
    OneFieldWeighs(s, NumberName(f), w);
    var found := Find(s, HasName(NumberName(f)));
    if found.Some? {
      PlainField(o, found.value, w);
    }
  }

  lemma FieldWithoutSum(objects: real, g: Field, f: SumField)
    requires NameOf(g) != NumberName(f)
    ensures Measure(FieldUpdates(objects)(g), FieldWeight(f)) == 0.0
  {
    match g
    case IndexSizes(sizes) => IndexSizesWeighNothing(sizes, FieldWeight(f));
    case Timeseries(stats) =>
      StatsWeighNothing(OrZero(NumericEntry(stats, BUCKET_COUNT)), stats, FieldWeight(f));
    case _ => PlainField(objects, g, FieldWeight(f));
  }

  lemma ShardObjects(s: Shard)
    requires WellFormed(s)
    ensures Measure(Updates(s), ObjectWeight) == ObjectSize(s)
  {
    var o := ObjectCount(s);
    forall g | g in s && NameOf(g) != AvgObjSizeName ensures Measure(FieldUpdates(o)(g), ObjectWeight) == 0.0 {
      match g
      case IndexSizes(sizes) => IndexSizesWeighNothing(sizes, ObjectWeight);
      case Timeseries(stats) => StatsWeighNothing(OrZero(NumericEntry(stats, BUCKET_COUNT)), stats, ObjectWeight);
      case _ => PlainField(o, g, ObjectWeight);
    }
    OneFieldWeighs(s, AvgObjSizeName, ObjectWeight);
    var found := Find(s, HasName(AvgObjSizeName));
    if found.Some? {
      PlainField(o, found.value, ObjectWeight);
    }
  }

  lemma ShardIndex(s: Shard, index: string)
    requires WellFormed(s)
    ensures Measure(Updates(s), IndexWeight(index)) == IndexSize(index)(s)
  {
    var w, o := IndexWeight(index), ObjectCount(s);
    forall g | g in s && NameOf(g) != IndexSizesName ensures Measure(FieldUpdates(o)(g), w) == 0.0 {
      match g
      case Timeseries(stats) => StatsWeighNothing(OrZero(NumericEntry(stats, BUCKET_COUNT)), stats, w);
      case _ => PlainField(o, g, w);
    }
    OneFieldWeighs(s, IndexSizesName, w);
    if Find(s, HasName(IndexSizesName)).Some? {
      IndexOfSizes(Sizes(s), index);
    }
  }

  lemma IndexOfSizes(sizes: Entries<real>, index: string)
    requires DistinctKeys(sizes)
    ensures var found := Find(sizes, HasKey(index));
            Measure(Gather(IndexUpdates, sizes), IndexWeight(index)) == if found.Some? then found.value.1 else 0.0
  {
    var w := IndexWeight(index);
    MeasureGather(IndexUpdates, sizes, w);
    forall e | e in sizes
      ensures MeasureOf(IndexUpdates, w)(e) == if e.0 == index then e.1 else 0.0
    {
      IndexEntry(e, w);
    }
    TotalFound(sizes, HasKey(index), MeasureOf(IndexUpdates, w));
  }

  /** Only the statistics of a time series are left that can weigh anything. */
  lemma OnlyStatsWeigh(s: Shard, w: Update -> real)
    requires WellFormed(s)
    requires forall index, x :: w(AddIndexSize(index, x)) == 0.0
    requires forall f, x :: w(Add(f, x)) == 0.0
    requires forall x :: w(AddObjects(x)) == 0.0 && w(Raise(x)) == 0.0
    requires forall n :: w(RaiseIndexes(n)) == 0.0
    ensures Measure(Updates(s), w) == Measure(Gather(StatUpdates(BucketCount(s)), Stats(s)), w)
  {
    var o := ObjectCount(s);
    forall g | g in s && NameOf(g) != TimeseriesName ensures Measure(FieldUpdates(o)(g), w) == 0.0 {
      match g
      case IndexSizes(sizes) => IndexSizesWeighNothing(sizes, w);
      case _ => PlainField(o, g, w);
    }
    OneFieldWeighs(s, TimeseriesName, w);
    assert Gather(StatUpdates(BucketCount(s)), []) == [] && Measure([], w) == 0.0;
  }

  lemma StatsDistinct(s: Shard)
    requires WellFormed(s)
    ensures DistinctKeys(Stats(s))
  {}

  lemma ShardStat(s: Shard, name: string)
    requires WellFormed(s) && name != AVG_BUCKET_SIZE
    ensures Measure(Updates(s), StatWeight(name)) == StatValue(name)(s)
  {
    OnlyStatsWeigh(s, StatWeight(name));
    StatsDistinct(s);
    StatOfStats(BucketCount(s), Stats(s), name);
  }

  lemma StatOfStats(buckets: real, stats: Entries<Stat>, name: string)
    requires DistinctKeys(stats) && name != AVG_BUCKET_SIZE
    ensures Measure(Gather(StatUpdates(buckets), stats), StatWeight(name)) == OrZero(NumericEntry(stats, name))
  {
    var w, of := StatWeight(name), StatUpdates(buckets);
    MeasureGather(of, stats, w);
    forall e | e in stats
      ensures MeasureOf(of, w)(e) == if e.0 == name && e.1.Numeric? then e.1.x else 0.0
    {
      StatEntry(buckets, e, w);
    }
    TotalFound(stats, HasKey(name), MeasureOf(of, w));
  }

  lemma ShardBuckets(s: Shard)
    requires WellFormed(s)
    ensures Measure(Updates(s), BucketWeight) == BucketSize(s)
  {
    var b, stats := BucketCount(s), Stats(s);
    assert Measure(Updates(s), BucketWeight) == Measure(Gather(StatUpdates(b), stats), BucketWeight) by {
      OnlyStatsWeigh(s, BucketWeight);
    }
    StatsDistinct(s);
    BucketsOfStats(b, stats);
    assert BucketSize(s) == Times(b, OrZero(NumericEntry(stats, AVG_BUCKET_SIZE)));
  }

  lemma BucketsOfStats(buckets: real, stats: Entries<Stat>)
    requires DistinctKeys(stats)
    ensures Measure(Gather(StatUpdates(buckets), stats), BucketWeight)
         == Times(buckets, OrZero(NumericEntry(stats, AVG_BUCKET_SIZE)))
  {
    var of := StatUpdates(buckets);
    MeasureGather(of, stats, BucketWeight);
    forall e | e in stats ensures e.0 != AVG_BUCKET_SIZE ==> MeasureOf(of, BucketWeight)(e) == 0.0 {
      StatEntry(buckets, e, BucketWeight);
    }
    TotalFound(stats, HasKey(AVG_BUCKET_SIZE), MeasureOf(of, BucketWeight));
    if Find<(string, Stat)>(stats, HasKey(AVG_BUCKET_SIZE)).Some? {
      StatEntry(buckets, Find<(string, Stat)>(stats, HasKey(AVG_BUCKET_SIZE)).value, BucketWeight);
    }
  }

  /** A measure of all updates is the sum of what the shards contribute to it. */
  lemma MeasureTotal(shards: seq<Shard>, w: Update -> real, part: Shard -> real)
    requires forall i :: 0 <= i < |shards| ==> Measure(Updates(shards[i]), w) == part(shards[i])
    ensures Measure(AllUpdates(shards), w) == Total(shards, part)
  {
    MeasureGather(Updates, shards, w);
    TotalSame(shards, MeasureOf(Updates, w), part);
  }

  /** An update comes from a field of a shard. */
  lemma FromField(shards: seq<Shard>, u: Update)
    ensures u in AllUpdates(shards) <==>
            exists i, j :: 0 <= i < |shards| && 0 <= j < |shards[i]|
                           && u in FieldUpdates(ObjectCount(shards[i]))(shards[i][j])
  {
    InGather(Updates, shards, u);
    forall i | 0 <= i < |shards|
      ensures u in Updates(shards[i]) <==>
              exists j :: 0 <= j < |shards[i]| && u in FieldUpdates(ObjectCount(shards[i]))(shards[i][j])
    {
      InGather(FieldUpdates(ObjectCount(shards[i])), shards[i], u);
    }
  }

  // ---------- which fields the totals have ----------

  lemma Origin(objects: real, field: Field, u: Update)
    ensures match u
            case Add(f, x) => u in FieldUpdates(objects)(field) <==> field == Number(f, x)
            case AddIndexSize(index, x) =>
              u in FieldUpdates(objects)(field) <==> field.IndexSizes? && (index, x) in field.sizes
            case AddTimeseries(name, x) =>
              u in FieldUpdates(objects)(field) <==>
                field.Timeseries? && name != AVG_BUCKET_SIZE && (name, Numeric(x)) in field.stats
            case Raise(x) => u in FieldUpdates(objects)(field) <==> field == MaxSize(x)
            case RaiseIndexes(n) => u in FieldUpdates(objects)(field) <==> field == NIndexes(n)
            case _ => true
  {
    match field
    case IndexSizes(sizes) =>
      InGather(IndexUpdates, sizes, u);
      if u.AddIndexSize? && (u.index, u.amount) in sizes {
        var i :| 0 <= i < |sizes| && sizes[i] == (u.index, u.amount);
        assert u in IndexUpdates(sizes[i]);
      }
    case Timeseries(stats) =>
      var of := StatUpdates(OrZero(NumericEntry(stats, BUCKET_COUNT)));
      InGather(of, stats, u);
      if u.AddTimeseries? && u.name != AVG_BUCKET_SIZE && (u.name, Numeric(u.amount)) in stats {
        var i :| 0 <= i < |stats| && stats[i] == (u.name, Numeric(u.amount));
        assert u in of(stats[i]);
      }
    case _ =>
  }

  predicate Reports(s: Shard, f: SumField) {
    Find(s, HasName(NumberName(f))).Some?
  }

  predicate ReportsIndex(s: Shard, index: string) {
    Find(Sizes(s), HasKey(index)).Some?
  }

  predicate ReportsStat(s: Shard, name: string) {
    NumericEntry(Stats(s), name).Some?
  }

  /** A field of a document is the one that is found under its name. */
  lemma FoundIs(s: Shard, field: Field)
    requires WellFormed(s) && field in s
    ensures Find(s, HasName(NameOf(field))) == Some(field)
  {
    var found := Find(s, HasName(NameOf(field)));
    assert HasName(NameOf(field))(field);
    var i :| 0 <= i < |s| && s[i] == field;
    var j :| 0 <= j < |s| && s[j] == found.value;
    assert NameOf(s[i]) == NameOf(s[j]);
  }

  lemma EntryIs<T>(es: Entries<T>, e: (string, T))
    requires DistinctKeys(es) && e in es
    ensures Find(es, HasKey(e.0)) == Some(e)
  {
    var found := Find<(string, T)>(es, HasKey(e.0));
    assert HasKey<T>(e.0)(e);
    var i :| 0 <= i < |es| && es[i] == e;
    var j :| 0 <= j < |es| && es[j] == found.value;
    assert es[i].0 == es[j].0;
  }

  /** An update of the totals and the field behind it. */
  lemma FieldBehind(shards: seq<Shard>, u: Update) returns (i: nat, field: Field)
    requires u in AllUpdates(shards)
    ensures i < |shards| && field in shards[i] && u in FieldUpdates(ObjectCount(shards[i]))(field)
  {
    FromField(shards, u);
    var k, j :| 0 <= k < |shards| && 0 <= j < |shards[k]| && u in FieldUpdates(ObjectCount(shards[k]))(shards[k][j]);
    i, field := k, shards[k][j];
  }

  lemma FieldCounts(shards: seq<Shard>, i: nat, field: Field, u: Update)
    requires i < |shards| && field in shards[i] && u in FieldUpdates(ObjectCount(shards[i]))(field)
    ensures u in AllUpdates(shards)
  {
    var j :| 0 <= j < |shards[i]| && shards[i][j] == field;
    FromField(shards, u);
  }

  lemma FieldPresent(shards: seq<Shard>, f: SumField)
    ensures (exists u :: u in AllUpdates(shards) && u.Add? && u.field == f)
            <==> exists i :: 0 <= i < |shards| && Reports(shards[i], f)
  {
    if u :| u in AllUpdates(shards) && u.Add? && u.field == f {
      var i, field := FieldBehind(shards, u);
      Origin(ObjectCount(shards[i]), field, u);
      assert HasName(NumberName(f))(field);
      assert Reports(shards[i], f);
    }
    if i :| 0 <= i < |shards| && Reports(shards[i], f) {
      var field := Find(shards[i], HasName(NumberName(f))).value;
      Origin(ObjectCount(shards[i]), field, Add(f, field.amount));
      FieldCounts(shards, i, field, Add(f, field.amount));
    }
  }

  lemma IndexComesFrom(shards: seq<Shard>, u: Update) returns (i: nat)
    requires forall i :: 0 <= i < |shards| ==> WellFormed(shards[i])
    requires u in AllUpdates(shards) && u.AddIndexSize?
    ensures i < |shards| && ReportsIndex(shards[i], u.index)
  {
    var field;
    i, field := FieldBehind(shards, u);
    Origin(ObjectCount(shards[i]), field, u);
    FoundIs(shards[i], field);
    EntryIs(field.sizes, (u.index, u.amount));
  }

  lemma IndexGoesTo(shards: seq<Shard>, i: nat, index: string) returns (u: Update)
    requires i < |shards| && ReportsIndex(shards[i], index)
    ensures u in AllUpdates(shards) && u.AddIndexSize? && u.index == index
  {
    u := AddIndexSize(index, Find<(string, real)>(Sizes(shards[i]), HasKey(index)).value.1);
    var field := Find(shards[i], HasName(IndexSizesName)).value;
    Origin(ObjectCount(shards[i]), field, u);
    FieldCounts(shards, i, field, u);
  }

  lemma IndexPresent(shards: seq<Shard>, index: string)
    requires forall i :: 0 <= i < |shards| ==> WellFormed(shards[i])
    ensures (exists u :: u in AllUpdates(shards) && u.AddIndexSize? && u.index == index)
            <==> exists i :: 0 <= i < |shards| && ReportsIndex(shards[i], index)
  {
    if u :| u in AllUpdates(shards) && u.AddIndexSize? && u.index == index {
      var i := IndexComesFrom(shards, u);
    }
    if i :| 0 <= i < |shards| && ReportsIndex(shards[i], index) {
      var u := IndexGoesTo(shards, i, index);
    }
  }

  lemma StatComesFrom(shards: seq<Shard>, u: Update) returns (i: nat)
    requires forall i :: 0 <= i < |shards| ==> WellFormed(shards[i])
    requires u in AllUpdates(shards) && u.AddTimeseries? && u.name != AVG_BUCKET_SIZE
    ensures i < |shards| && ReportsStat(shards[i], u.name)
  {
    var field;
    i, field := FieldBehind(shards, u);
    Origin(ObjectCount(shards[i]), field, u);
    FoundIs(shards[i], field);
    EntryIs(field.stats, (u.name, Numeric(u.amount)));
  }

  lemma StatGoesTo(shards: seq<Shard>, i: nat, name: string) returns (u: Update)
    requires i < |shards| && ReportsStat(shards[i], name) && name != AVG_BUCKET_SIZE
    ensures u in AllUpdates(shards) && u.AddTimeseries? && u.name == name
  {
    u := AddTimeseries(name, NumericEntry(Stats(shards[i]), name).value);
    var field := Find(shards[i], HasName(TimeseriesName)).value;
    Origin(ObjectCount(shards[i]), field, u);
    FieldCounts(shards, i, field, u);
  }

  lemma StatPresent(shards: seq<Shard>, name: string)
    requires name != AVG_BUCKET_SIZE && forall i :: 0 <= i < |shards| ==> WellFormed(shards[i])
    ensures (exists u :: u in AllUpdates(shards) && u.AddTimeseries? && u.name == name)
            <==> exists i :: 0 <= i < |shards| && ReportsStat(shards[i], name)
  {
    if u :| u in AllUpdates(shards) && u.AddTimeseries? && u.name == name {
      var i := StatComesFrom(shards, u);
    }
    if i :| 0 <= i < |shards| && ReportsStat(shards[i], name) {
      var u := StatGoesTo(shards, i, name);
    }
  }

  // ---------- weighted means ----------

  /** The size `x` of `n` things whose average is between the bounds. */
  predicate Within(lo: real, hi: real, n: real, x: real) {
    lo * n <= x <= hi * n
  }

  lemma WithinAdd(lo: real, hi: real, n: real, x: real, m: real, y: real)
    requires Within(lo, hi, n, x) && Within(lo, hi, m, y)
    ensures Within(lo, hi, n + m, x + y)
  {}

  lemma WithinAverage(lo: real, hi: real, n: real, average: real)
    requires n >= 0.0 && lo <= average <= hi
    ensures Within(lo, hi, n, Times(average, n))
  {}

  /** A weighted mean lies between bounds that hold wherever the weight is positive. */
  lemma {:induction false} MeanBounded(shards: seq<Shard>, weight: Shard -> real, size: Shard -> real,
                                       lo: real, hi: real)
    requires forall i :: 0 <= i < |shards| ==> Within(lo, hi, weight(shards[i]), size(shards[i]))
    ensures Within(lo, hi, Total(shards, weight), Total(shards, size))
    decreases |shards|
  {
    if shards != [] {
      var rest := shards[1..];
      forall i | 0 <= i < |rest| ensures Within(lo, hi, weight(rest[i]), size(rest[i])) {
        assert rest[i] == shards[i + 1];
      }
      MeanBounded(rest, weight, size, lo, hi);
      WithinAdd(lo, hi, weight(shards[0]), size(shards[0]), Total(rest, weight), Total(rest, size));
    } else {
      WithinNothing(lo, hi);
    }
  }

  lemma WithinNothing(lo: real, hi: real)
    ensures Within(lo, hi, 0.0, 0.0)
  {}

  lemma {:induction false} PositiveTotal(shards: seq<Shard>, weight: Shard -> real)
    requires forall i :: 0 <= i < |shards| ==> weight(shards[i]) >= 0.0
    ensures Total(shards, weight) >= 0.0
    ensures Total(shards, weight) > 0.0 <==> exists i :: 0 <= i < |shards| && weight(shards[i]) > 0.0
    decreases |shards|
  {
    if shards != [] {
      PositiveTotal(shards[1..], weight);
      assert forall i :: 1 <= i < |shards| ==> shards[i] == shards[1..][i - 1];
    }
  }

  lemma Quotient(x: real, y: real, lo: real, hi: real)
    requires y > 0.0 && Within(lo, hi, y, x)
    ensures lo <= x / y <= hi
  {
    var q := x / y;
    assert q * y == x;
    assert (q - lo) * y >= 0.0 && (hi - q) * y >= 0.0;
  }

  datatype Result = Result(
    fields: map<SumField, real>,
    indexSizes: map<string, real>,
    timeseries: map<string, real>,
    avgObjSize: real,
    avgBucketSize: real,
    maxSize: real,
    nindexes: nat)

  predicate IsScaled(f: SumField) {
    f == Size || f == StorageSize || f == TotalIndexSize || f == TotalSize
  }

  function Scaled(t: Totals, scale: real): Result
    requires scale > 0.0
  {
    Result(
      map f | f in t.counts :: if IsScaled(f) then t.counts[f] / scale else t.counts[f],
      map i | i in t.indexSizes :: t.indexSizes[i] / scale,
      t.timeseries,
      if Get(t.counts, Count) > 0.0 then t.unscaledCollSize / Get(t.counts, Count) else 0.0,
      if Get(t.timeseries, BUCKET_COUNT) != 0.0
      then t.totalBucketSize / Get(t.timeseries, BUCKET_COUNT) else 0.0,
      t.maxSize / scale,
      t.nindexes)
  }

  lemma FieldIsSum(shards: seq<Shard>, scale: real, f: SumField)
    requires scale > 0.0 && forall i :: 0 <= i < |shards| ==> WellFormed(shards[i])
    ensures var r := Scaled(Aggregate(shards), scale);
            && (f in r.fields <==> exists i :: 0 <= i < |shards| && Reports(shards[i], f))
            && (f in r.fields ==>
                  r.fields[f] == if IsScaled(f) then Total(shards, Value(f)) / scale else Total(shards, Value(f)))
  {
    CountsAreSums(NOTHING, AllUpdates(shards), f);
    FieldPresent(shards, f);
    forall i | 0 <= i < |shards| ensures Measure(Updates(shards[i]), FieldWeight(f)) == Value(f)(shards[i]) {
      ShardSum(shards[i], f);
    }
    MeasureTotal(shards, FieldWeight(f), Value(f));
  }

  /**
   A summed field is there when some shard reports it: the exact sum of what the shards report. The four
   sizes are over the scale, the two counts are not.
   */
  lemma SumsAreExact(shards: seq<Shard>, scale: real, f: SumField)
    requires scale > 0.0 && forall i :: 0 <= i < |shards| ==> WellFormed(shards[i])
    ensures var r := Scaled(Aggregate(shards), scale);
            && (f in r.fields <==> exists i :: 0 <= i < |shards| && Reports(shards[i], f))
            && (f in r.fields ==>
                  r.fields[f] ==
                  match f
                  case Size | StorageSize | TotalIndexSize | TotalSize => Total(shards, Value(f)) / scale
                  case Count | NumOrphanDocs => Total(shards, Value(f)))
  {
    FieldIsSum(shards, scale, f);
    match f
    case _ =>
  }

  /** The same for the size of each index. */
  lemma IndexSumsAreExact(shards: seq<Shard>, scale: real, index: string)
    requires scale > 0.0 && forall i :: 0 <= i < |shards| ==> WellFormed(shards[i])
    ensures var r := Scaled(Aggregate(shards), scale);
            && (index in r.indexSizes <==> exists i :: 0 <= i < |shards| && ReportsIndex(shards[i], index))
            && (index in r.indexSizes ==> r.indexSizes[index] == Total(shards, IndexSize(index)) / scale)
  {
    IndexSizesAreSums(NOTHING, AllUpdates(shards), index);
    IndexPresent(shards, index);
    forall i | 0 <= i < |shards|
      ensures Measure(Updates(shards[i]), IndexWeight(index)) == IndexSize(index)(shards[i])
    {
      ShardIndex(shards[i], index);
    }
    MeasureTotal(shards, IndexWeight(index), IndexSize(index));
  }

  /** The same, unscaled, for each number of a time series but the average. */
  lemma StatSumsAreExact(shards: seq<Shard>, scale: real, name: string)
    requires scale > 0.0 && name != "avgBucketSize" && forall i :: 0 <= i < |shards| ==> WellFormed(shards[i])
    ensures var r := Scaled(Aggregate(shards), scale);
            && (name in r.timeseries <==> exists i :: 0 <= i < |shards| && ReportsStat(shards[i], name))
            && (name in r.timeseries ==> r.timeseries[name] == Total(shards, StatValue(name)))
  {
    StatsAreSums(NOTHING, AllUpdates(shards), name);
    StatPresent(shards, name);
    forall i | 0 <= i < |shards| ensures Measure(Updates(shards[i]), StatWeight(name)) == StatValue(name)(shards[i]) {
      ShardStat(shards[i], name);
    }
    MeasureTotal(shards, StatWeight(name), StatValue(name));
  }

  /** `nindexes` bounds what the shards report, and some shard reports it, or it is zero. */
  lemma NIndexesIsMaximum(shards: seq<Shard>, scale: real)
    requires scale > 0.0
    ensures var n := Scaled(Aggregate(shards), scale).nindexes;
            && (forall i: int, k: nat :: 0 <= i < |shards| && NIndexes(k) in shards[i] ==> k <= n)
            && (n == 0 || exists i :: 0 <= i < |shards| && NIndexes(n) in shards[i])
  {
    var n := Aggregate(shards).nindexes;
    IndexesAreMaximum(NOTHING, AllUpdates(shards));
    forall i: int, k: nat | 0 <= i < |shards| && NIndexes(k) in shards[i] ensures k <= n {
      Origin(ObjectCount(shards[i]), NIndexes(k), RaiseIndexes(k));
      FieldCounts(shards, i, NIndexes(k), RaiseIndexes(k));
    }
    if n != 0 {
      var i, field := FieldBehind(shards, RaiseIndexes(n));
      Origin(ObjectCount(shards[i]), field, RaiseIndexes(n));
    }
  }

  /** `maxSize` is the largest the shards report, over the scale, or zero. */
  lemma MaxSizeIsExact(shards: seq<Shard>, scale: real)
    requires scale > 0.0
    ensures var m := Aggregate(shards).maxSize;
            && Scaled(Aggregate(shards), scale).maxSize == m / scale
            && (forall i, x :: 0 <= i < |shards| && MaxSize(x) in shards[i] ==> x <= m)
            && (m == 0.0 || exists i :: 0 <= i < |shards| && MaxSize(m) in shards[i])
  {
    var m := Aggregate(shards).maxSize;
    MaxSizeIsMaximum(NOTHING, AllUpdates(shards));
    forall i, x | 0 <= i < |shards| && MaxSize(x) in shards[i] ensures x <= m {
      Origin(ObjectCount(shards[i]), MaxSize(x), Raise(x));
      FieldCounts(shards, i, MaxSize(x), Raise(x));
    }
    if m != 0.0 {
      var i, field := FieldBehind(shards, Raise(m));
      Origin(ObjectCount(shards[i]), field, Raise(m));
    }
  }

  /** The two averages are the means of the shards' averages, weighted with their counts. */
  lemma AveragesAreWeightedMeans(shards: seq<Shard>, scale: real)
    requires scale > 0.0 && forall i :: 0 <= i < |shards| ==> WellFormed(shards[i])
    ensures var r := Scaled(Aggregate(shards), scale);
            && r.avgObjSize == (if Total(shards, ObjectCount) > 0.0
                                then Total(shards, ObjectSize) / Total(shards, ObjectCount) else 0.0)
            && r.avgBucketSize == (if Total(shards, BucketCount) != 0.0
                                   then Total(shards, BucketSize) / Total(shards, BucketCount) else 0.0)
  {
    CountsAreSums(NOTHING, AllUpdates(shards), Count);
    StatsAreSums(NOTHING, AllUpdates(shards), BUCKET_COUNT);
    SizesAreSums(NOTHING, AllUpdates(shards));
    AllMeasures(shards);
  }

  lemma AllMeasures(shards: seq<Shard>)
    requires forall i :: 0 <= i < |shards| ==> WellFormed(shards[i])
    ensures var us := AllUpdates(shards);
            && Measure(us, FieldWeight(Count)) == Total(shards, ObjectCount)
            && Measure(us, ObjectWeight) == Total(shards, ObjectSize)
            && Measure(us, BucketWeight) == Total(shards, BucketSize)
            && Measure(us, StatWeight(BUCKET_COUNT)) == Total(shards, BucketCount)
  {
    NamesOfBuckets();
    forall i | 0 <= i < |shards|
      ensures Measure(Updates(shards[i]), FieldWeight(Count)) == ObjectCount(shards[i])
      ensures Measure(Updates(shards[i]), ObjectWeight) == ObjectSize(shards[i])
      ensures Measure(Updates(shards[i]), BucketWeight) == BucketSize(shards[i])
      ensures Measure(Updates(shards[i]), StatWeight(BUCKET_COUNT)) == BucketCount(shards[i])
    {
      ShardSum(shards[i], Count);
      ShardObjects(shards[i]);
      ShardBuckets(shards[i]);
      ShardStat(shards[i], BUCKET_COUNT);
    }
    MeasureTotal(shards, FieldWeight(Count), ObjectCount);
    MeasureTotal(shards, ObjectWeight, ObjectSize);
    MeasureTotal(shards, BucketWeight, BucketSize);
    MeasureTotal(shards, StatWeight(BUCKET_COUNT), BucketCount);
  }

  lemma NamesOfBuckets()
    ensures BUCKET_COUNT != AVG_BUCKET_SIZE
  {
    assert BUCKET_COUNT[0] != AVG_BUCKET_SIZE[0];
  }

  lemma MeanOfShards(shards: seq<Shard>, weight: Shard -> real, size: Shard -> real, lo: real, hi: real)
    requires forall i :: 0 <= i < |shards| ==>
               weight(shards[i]) >= 0.0 && Within(lo, hi, weight(shards[i]), size(shards[i]))
    requires exists i :: 0 <= i < |shards| && weight(shards[i]) > 0.0
    ensures Total(shards, weight) > 0.0 && lo <= Total(shards, size) / Total(shards, weight) <= hi
  {
    MeanBounded(shards, weight, size, lo, hi);
    PositiveTotal(shards, weight);
    Quotient(Total(shards, size), Total(shards, weight), lo, hi);
  }

  /** `avgObjSize` lies between the smallest and the largest average of the shards that have objects. */
  lemma AverageObjectSizeIsMean(shards: seq<Shard>, scale: real, lo: real, hi: real)
    requires scale > 0.0
    requires forall i :: 0 <= i < |shards| ==> WellFormed(shards[i]) && ObjectCount(shards[i]) >= 0.0
    requires forall i :: 0 <= i < |shards| && ObjectCount(shards[i]) > 0.0 ==>
               Average(shards[i]).Some? && lo <= Average(shards[i]).value <= hi
    requires exists i :: 0 <= i < |shards| && ObjectCount(shards[i]) > 0.0
    ensures lo <= Scaled(Aggregate(shards), scale).avgObjSize <= hi
  {
    forall i | 0 <= i < |shards| ensures Within(lo, hi, ObjectCount(shards[i]), ObjectSize(shards[i])) {
      WithinShard(lo, hi, ObjectCount(shards[i]), OrZero(Average(shards[i])));
    }
    MeanOfShards(shards, ObjectCount, ObjectSize, lo, hi);
    AveragesAreWeightedMeans(shards, scale);
  }

  lemma WithinShard(lo: real, hi: real, n: real, average: real)
    requires n >= 0.0 && (n > 0.0 ==> lo <= average <= hi)
    ensures Within(lo, hi, n, Times(average, n)) && Times(n, average) == Times(average, n)
  {
    if n > 0.0 {
      WithinAverage(lo, hi, n, average);
    } else {
      WithinNothing(lo, hi);
    }
  }

  /** The same for the average bucket size of a time series collection. */
  lemma AverageBucketSizeIsMean(shards: seq<Shard>, scale: real, lo: real, hi: real)
    requires scale > 0.0
    requires forall i :: 0 <= i < |shards| ==> WellFormed(shards[i]) && BucketCount(shards[i]) >= 0.0
    requires forall i :: 0 <= i < |shards| && BucketCount(shards[i]) > 0.0 ==>
               var average := NumericEntry(Stats(shards[i]), "avgBucketSize");
               average.Some? && lo <= average.value <= hi
    requires exists i :: 0 <= i < |shards| && BucketCount(shards[i]) > 0.0
    ensures lo <= Scaled(Aggregate(shards), scale).avgBucketSize <= hi
  {
    forall i | 0 <= i < |shards| ensures Within(lo, hi, BucketCount(shards[i]), BucketSize(shards[i])) {
      WithinShard(lo, hi, BucketCount(shards[i]), OrZero(NumericEntry(Stats(shards[i]), AVG_BUCKET_SIZE)));
    }
    MeanOfShards(shards, BucketCount, BucketSize, lo, hi);
    AveragesAreWeightedMeans(shards, scale);
  }

  // ---------- the loops ----------

  lemma GatherStep<X>(t: Totals, of: X -> seq<Update>, xs: seq<X>, k: nat)
    requires k < |xs|
    ensures Fold(Perform, Fold(Perform, t, of(xs[k])), Gather(of, xs[k + 1..])) == Fold(Perform, t, Gather(of, xs[k..]))
  {
    assert xs[k..][0] == xs[k] && xs[k..][1..] == xs[k + 1..];
    FoldAppend(Perform, t, of(xs[k]), Gather(of, xs[k + 1..]));
  }

  lemma FoldOne(t: Totals, u: Update)
    ensures Fold(Perform, t, [u]) == Perform(t, u) && Fold(Perform, t, []) == t
  {
    assert [u][1..] == [];
  }

  method VisitIndexSizes(totals: Totals, sizes: Entries<real>) returns (t: Totals)
    ensures t == Fold(Perform, totals, Gather(IndexUpdates, sizes))
  {
    t := totals;
    for k := 0 to |sizes|
      invariant Fold(Perform, t, Gather(IndexUpdates, sizes[k..])) == Fold(Perform, totals, Gather(IndexUpdates, sizes))
    {
      var (index, size) := sizes[k];
      GatherStep(t, IndexUpdates, sizes, k);
      FoldOne(t, AddIndexSize(index, size));
      var sofar := if index in t.indexSizes then t.indexSizes[index] else 0.0;
      t := t.(indexSizes := t.indexSizes[index := sofar + size]);
    }
    assert sizes[|sizes|..] == [];
  }

  method VisitStat(totals: Totals, buckets: real, name: string, stat: Stat) returns (t: Totals)
    ensures t == Fold(Perform, totals, StatUpdate(buckets, (name, stat)))
  {
    t := totals;
    if stat.Textual? {
      FoldOne(t, Raise(0.0));
    } else if name == AVG_BUCKET_SIZE {
      FoldOne(t, AddBuckets(Times(buckets, stat.x)));
      t := t.(totalBucketSize := t.totalBucketSize + Times(buckets, stat.x));
    } else {
      FoldOne(t, AddTimeseries(name, stat.x));
      var sofar := if name in t.timeseries then t.timeseries[name] else 0.0;
      t := t.(timeseries := t.timeseries[name := sofar + stat.x]);
    }
  }

  method VisitTimeseries(totals: Totals, stats: Entries<Stat>) returns (t: Totals)
    ensures t == Fold(Perform, totals, FieldUpdate(0.0, Timeseries(stats)))
  {
    t := totals;
    var buckets := OrZero(NumericEntry(stats, BUCKET_COUNT));
    var of := StatUpdates(buckets);
    for k := 0 to |stats|
      invariant Fold(Perform, t, Gather(of, stats[k..])) == Fold(Perform, totals, Gather(of, stats))
    {
      var (name, stat) := stats[k];
      GatherStep(t, of, stats, k);
      t := VisitStat(t, buckets, name, stat);
    }
    assert stats[|stats|..] == [];
  }

  /** The body of the loop over the fields: what happens depends on the name of the field. */
  method VisitField(totals: Totals, shardObjCount: real, field: Field) returns (t: Totals)
    ensures t == Fold(Perform, totals, FieldUpdate(shardObjCount, field))
  {
    t := totals;
    match field {
      case Ignored(_) => FoldOne(t, Raise(0.0));
      case Timeseries(stats) => t := VisitTimeseries(t, stats);
      case Number(f, x) =>
        FoldOne(t, Add(f, x));
        var sofar := if f in t.counts then t.counts[f] else 0.0;
        t := t.(counts := t.counts[f := sofar + x]);
      case AvgObjSize(x) =>
        FoldOne(t, AddObjects(Times(x, shardObjCount)));
        t := t.(unscaledCollSize := t.unscaledCollSize + Times(x, shardObjCount));
      case MaxSize(x) =>
        FoldOne(t, Raise(x));
        t := t.(maxSize := if t.maxSize < x then x else t.maxSize);
      case IndexSizes(sizes) => t := VisitIndexSizes(t, sizes);
      case NIndexes(n) =>
        FoldOne(t, RaiseIndexes(n));
        if t.nindexes == 0 {
          t := t.(nindexes := n);
        } else if n > t.nindexes {
          t := t.(nindexes := n);
        }
    }
  }

  method VisitShard(totals: Totals, shard: Shard) returns (t: Totals)
    ensures t == Fold(Perform, totals, Updates(shard))
  {
    t := totals;
    var shardObjCount := ObjectCount(shard);
    var of := FieldUpdates(shardObjCount);
    for k := 0 to |shard|
      invariant Fold(Perform, t, Gather(of, shard[k..])) == Fold(Perform, totals, Gather(of, shard))
    {
      GatherStep(t, of, shard, k);
      t := VisitField(t, shardObjCount, shard[k]);
    }
    assert shard[|shard|..] == [];
  }

  method AggregateAndScaleCollStats(collStats: seq<Shard>, scale: real) returns (result: Result)
    requires scale > 0.0
    ensures result == Scaled(Aggregate(collStats), scale)
  {
    var t := NOTHING;
    for k := 0 to |collStats|
      invariant Fold(Perform, t, Gather(Updates, collStats[k..])) == Aggregate(collStats)
    {
      GatherStep(t, Updates, collStats, k);
      t := VisitShard(t, collStats[k]);
    }
    assert collStats[|collStats|..] == [];
    result := Scaled(t, scale);
  }

  // ---------- getShardDistribution ----------

  /** What the asynchronous function of one shard knows when its queries have come back. */
  datatype Job = Job(
    shard: string,
    size: real,
    count: real,
    numChunks: nat,
    numOrphanDocs: Option<real>,
    avgObjSize: Option<real>)

  datatype Sums = Sums(size: real, count: real, numChunks: nat)

  /** Orphaned documents do not belong to the shard. */
  function OwnedSize(t: Job): real {
    t.size - Times(OrZero(t.numOrphanDocs), OrZero(t.avgObjSize))
  }

  function Finish(s: Sums, t: Job): Sums {
    Sums(s.size + OwnedSize(t), s.count + t.count, s.numChunks + t.numChunks)
  }

  /** `Math.floor(part / total * 10000) / 100` */
  function Percent(part: real, total: real): real {
    if total == 0.0 then 0.0 else (part / total * 10000.0).Floor as real / 100.0
  }

  function AddRow(totals: Sums): (map<string, (real, real)>, Job) -> map<string, (real, real)> {
    (m: map<string, (real, real)>, t: Job) =>
      m[t.shard := (Percent(OwnedSize(t), totals.size), Percent(t.count, totals.count))]
  }

  /** The totals and the rows of the report when the jobs finish in this order. */
  function Distribution(jobs: seq<Job>): (Sums, map<string, (real, real)>) {
    var totals := Fold(Finish, Sums(0.0, 0.0, 0), jobs);
    (totals, Fold(AddRow(totals), map[], jobs))
  }

  /** Each shard has one document. */
  predicate DistinctShards(jobs: seq<Job>) {
    forall i, j :: 0 <= i < j < |jobs| ==> jobs[i].shard != jobs[j].shard
  }

  lemma RowsCommute(totals: Sums, jobs: seq<Job>)
    requires DistinctShards(jobs)
    ensures AllCommute(AddRow(totals), jobs)
  {
    forall x, y | x in jobs && y in jobs ensures Commute(AddRow(totals), x, y) {
      assert x == y || x.shard != y.shard;
      forall m ensures AddRow(totals)(AddRow(totals)(m, x), y) == AddRow(totals)(AddRow(totals)(m, y), x) {}
    }
  }

  /** Whatever the order in which the jobs of the shards finish, the report is the same. */
  lemma CompletionOrderDoesNotMatter(jobs: seq<Job>, others: seq<Job>)
    requires DistinctShards(jobs) && multiset(jobs) == multiset(others)
    ensures Distribution(jobs) == Distribution(others)
  {
    assert AllCommute(Finish, jobs);
    FoldPermutation(Finish, Sums(0.0, 0.0, 0), jobs, others);
    var totals := Fold(Finish, Sums(0.0, 0.0, 0), jobs);
    RowsCommute(totals, jobs);
    FoldPermutation(AddRow(totals), map[], jobs, others);
  }

  function SizeTotal(parts: seq<real>): real {
    if parts == [] then 0.0 else parts[0] + SizeTotal(parts[1..])
  }

  function PercentTotal(parts: seq<real>, total: real): real {
    if parts == [] then 0.0 else Percent(parts[0], total) + PercentTotal(parts[1..], total)
  }

  lemma FloorPercent(part: real, total: real)
    requires total > 0.0
    ensures part * 100.0 / total - 0.01 < Percent(part, total) <= part * 100.0 / total
  {
    var x := part / total * 10000.0;
    assert x / 100.0 == part * 100.0 / total;
    assert x.Floor as real <= x < x.Floor as real + 1.0;
  }

  lemma {:induction false} PercentSum(parts: seq<real>, total: real)
    requires total > 0.0
    ensures SizeTotal(parts) * 100.0 / total - 0.01 * |parts| as real <= PercentTotal(parts, total)
    ensures parts != [] ==> SizeTotal(parts) * 100.0 / total - 0.01 * |parts| as real < PercentTotal(parts, total)
    ensures PercentTotal(parts, total) <= SizeTotal(parts) * 100.0 / total
    decreases |parts|
  {
    if parts != [] {
      FloorPercent(parts[0], total);
      PercentSum(parts[1..], total);
      assert SizeTotal(parts) * 100.0 / total == parts[0] * 100.0 / total + SizeTotal(parts[1..]) * 100.0 / total;
    }
  }

  lemma {:induction false} PartsBelowTotal(parts: seq<real>, i: nat)
    requires i < |parts| && forall j :: 0 <= j < |parts| ==> parts[j] >= 0.0
    ensures 0.0 <= parts[i] <= SizeTotal(parts)
    decreases |parts|
  {
    if |parts| > 1 {
      PartsBelowTotal(parts[1..], if i > 0 then i - 1 else 0);
    }
  }

  lemma PercentInRange(part: real, total: real)
    requires total > 0.0 && 0.0 <= part <= total
    ensures 0.0 <= Percent(part, total) <= 100.0
  {
    Quotient(part, total, 0.0, 1.0);
    var x := part / total * 10000.0;
    assert x.Floor as real <= x < x.Floor as real + 1.0;
  }

  lemma Whole(total: real)
    requires total > 0.0
    ensures total * 100.0 / total == 100.0
  {}

  /** Rounding down loses less than 0.01 a shard. */
  lemma PercentagesAddUp(parts: seq<real>)
    requires parts != [] && SizeTotal(parts) > 0.0
    ensures 100.0 - |parts| as real / 100.0 < PercentTotal(parts, SizeTotal(parts)) <= 100.0
  {
    PercentSum(parts, SizeTotal(parts));
    Whole(SizeTotal(parts));
  }

  function OwnedSizes(jobs: seq<Job>): seq<real> {
    if jobs == [] then [] else [OwnedSize(jobs[0])] + OwnedSizes(jobs[1..])
  }

  function Counts(jobs: seq<Job>): seq<real> {
    if jobs == [] then [] else [jobs[0].count] + Counts(jobs[1..])
  }

  lemma {:induction false} SizesOfJobs(s: Sums, jobs: seq<Job>)
    ensures Fold(Finish, s, jobs).size == s.size + SizeTotal(OwnedSizes(jobs))
    ensures |OwnedSizes(jobs)| == |jobs|
    ensures forall i :: 0 <= i < |jobs| ==> OwnedSizes(jobs)[i] == OwnedSize(jobs[i])
    decreases |jobs|
  {
    if jobs != [] {
      SizesOfJobs(Finish(s, jobs[0]), jobs[1..]);
    }
  }

  lemma {:induction false} CountsOfJobs(s: Sums, jobs: seq<Job>)
    ensures Fold(Finish, s, jobs).count == s.count + SizeTotal(Counts(jobs))
    ensures |Counts(jobs)| == |jobs|
    ensures forall i :: 0 <= i < |jobs| ==> Counts(jobs)[i] == jobs[i].count
    decreases |jobs|
  {
    if jobs != [] {
      CountsOfJobs(Finish(s, jobs[0]), jobs[1..]);
    }
  }

  /** A later one does not overwrite the row of another shard. */
  lemma {:induction false} RowStays(totals: Sums, m: map<string, (real, real)>, jobs: seq<Job>, shard: string)
    requires shard in m && forall i :: 0 <= i < |jobs| ==> jobs[i].shard != shard
    ensures var r := Fold(AddRow(totals), m, jobs); shard in r && r[shard] == m[shard]
    decreases |jobs|
  {
    if jobs != [] {
      RowStays(totals, AddRow(totals)(m, jobs[0]), jobs[1..], shard);
    }
  }

  lemma {:induction false} RowOfJob(totals: Sums, m: map<string, (real, real)>, jobs: seq<Job>, i: nat)
    requires i < |jobs| && DistinctShards(jobs)
    ensures var r := Fold(AddRow(totals), m, jobs); var t := jobs[i];
            t.shard in r && r[t.shard] == (Percent(OwnedSize(t), totals.size), Percent(t.count, totals.count))
    decreases i
  {
    var n := AddRow(totals)(m, jobs[0]);
    if i == 0 {
      RowStays(totals, n, jobs[1..], jobs[0].shard);
    } else {
      RowOfJob(totals, n, jobs[1..], i - 1);
    }
  }

  /** Documents and chunks are all the shard's; of the bytes those of orphaned documents are not. */
  function OwnData(): Job -> real {
    (t: Job) =>
      t.size - (if t.numOrphanDocs.Some? && t.avgObjSize.Some? then t.numOrphanDocs.value * t.avgObjSize.value else 0.0)
  }

  function OwnDocuments(): Job -> real {
    (t: Job) => t.count
  }

  function OwnChunks(): Job -> real {
    (t: Job) => t.numChunks as real
  }

  lemma {:induction false} TotalsOfJobs(s: Sums, jobs: seq<Job>)
    ensures var t := Fold(Finish, s, jobs);
            && t.size == s.size + Total(jobs, OwnData())
            && t.count == s.count + Total(jobs, OwnDocuments())
            && t.numChunks as real == s.numChunks as real + Total(jobs, OwnChunks())
    decreases |jobs|
  {
    if jobs != [] {
      TotalsOfJobs(Finish(s, jobs[0]), jobs[1..]);
      OwnDataIs(jobs[0]);
    }
  }

  lemma OwnDataIs(t: Job)
    ensures OwnData()(t) == OwnedSize(t)
  {}

  function Hundredths(n: int): real { n as real / 100.0 }

  /** Two decimals of the share in per cent, rounded down; nothing has no shares. */
  ghost predicate IsShare(row: real, part: real, total: real) {
    if total == 0.0 then row == 0.0
    else exists n: int :: row == Hundredths(n) && n as real <= part / total * 10000.0 < n as real + 1.0
  }

  lemma PercentIsShare(part: real, total: real)
    ensures IsShare(Percent(part, total), part, total)
  {
    if total != 0.0 {
      var x := part / total * 10000.0;
      var n := x.Floor;
      assert n as real <= x < n as real + 1.0;
      assert Percent(part, total) == Hundredths(n);
    }
  }

  /** The report says what each shard owns of the data and of the documents. */
  lemma ReportIsExact(jobs: seq<Job>, i: nat)
    requires i < |jobs| && DistinctShards(jobs)
    ensures var (totals, rows) := Distribution(jobs); var t := jobs[i];
            && totals.size == Total(jobs, OwnData())
            && totals.count == Total(jobs, OwnDocuments())
            && totals.numChunks as real == Total(jobs, OwnChunks())
            && t.shard in rows
            && IsShare(rows[t.shard].0, OwnData()(t), totals.size)
            && IsShare(rows[t.shard].1, t.count, totals.count)
  {
    var (totals, _) := Distribution(jobs);
    TotalsOfJobs(Sums(0.0, 0.0, 0), jobs);
    RowOfJob(totals, map[], jobs, i);
    OwnDataIs(jobs[i]);
    PercentIsShare(OwnedSize(jobs[i]), totals.size);
    PercentIsShare(jobs[i].count, totals.count);
  }

  /**
   The report has a row for every shard, its share of the data is between 0 and 100 per cent, and the
   shares add up to 100 but for less than 0.01 a shard.
   */
  lemma DataSharesAddUp(jobs: seq<Job>, i: nat)
    requires i < |jobs| && DistinctShards(jobs)
    requires forall j :: 0 <= j < |jobs| ==> OwnedSize(jobs[j]) >= 0.0
    requires Distribution(jobs).0.size > 0.0
    ensures var (totals, rows) := Distribution(jobs); var parts := OwnedSizes(jobs);
            && totals.size == SizeTotal(parts)
            && jobs[i].shard in rows
            && rows[jobs[i].shard].0 == Percent(OwnedSize(jobs[i]), totals.size)
            && 0.0 <= rows[jobs[i].shard].0 <= 100.0
            && 100.0 - |jobs| as real / 100.0 < PercentTotal(parts, totals.size) <= 100.0
  {
    var (totals, _) := Distribution(jobs);
    var parts := OwnedSizes(jobs);
    SizesOfJobs(Sums(0.0, 0.0, 0), jobs);
    RowOfJob(totals, map[], jobs, i);
    PartsBelowTotal(parts, i);
    PercentInRange(parts[i], totals.size);
    PercentagesAddUp(parts);
  }

  /** The same for the shares of the documents. */
  lemma DocumentSharesAddUp(jobs: seq<Job>, i: nat)
    requires i < |jobs| && DistinctShards(jobs)
    requires forall j :: 0 <= j < |jobs| ==> jobs[j].count >= 0.0
    requires Distribution(jobs).0.count > 0.0
    ensures var (totals, rows) := Distribution(jobs); var parts := Counts(jobs);
            && totals.count == SizeTotal(parts)
            && jobs[i].shard in rows
            && rows[jobs[i].shard].1 == Percent(jobs[i].count, totals.count)
            && 0.0 <= rows[jobs[i].shard].1 <= 100.0
            && 100.0 - |jobs| as real / 100.0 < PercentTotal(parts, totals.count) <= 100.0
  {
    var (totals, _) := Distribution(jobs);
    var parts := Counts(jobs);
    CountsOfJobs(Sums(0.0, 0.0, 0), jobs);
    RowOfJob(totals, map[], jobs, i);
    PartsBelowTotal(parts, i);
    PercentInRange(parts[i], totals.count);
    PercentagesAddUp(parts);
  }

  method GetShardDistribution(jobs: seq<Job>) returns (totals: Sums, rows: map<string, (real, real)>)
    ensures (totals, rows) == Distribution(jobs)
  {
    totals := Sums(0.0, 0.0, 0);
    var conciseShardsStats := [];
    for i := 0 to |jobs|
      invariant Fold(Finish, totals, jobs[i..]) == Fold(Finish, Sums(0.0, 0.0, 0), jobs)
      invariant conciseShardsStats == jobs[..i]
    {
      assert jobs[i..][0] == jobs[i] && jobs[i..][1..] == jobs[i + 1..];
      var orphanDocumentsSize := Times(OrZero(jobs[i].numOrphanDocs), OrZero(jobs[i].avgObjSize));
      var ownedSize := jobs[i].size - orphanDocumentsSize;
      totals := Sums(totals.size + ownedSize, totals.count + jobs[i].count, totals.numChunks + jobs[i].numChunks);
      conciseShardsStats := conciseShardsStats + [jobs[i]];
    }
    assert jobs[|jobs|..] == [] && jobs[..|jobs|] == jobs;
    rows := map[];
    for i := 0 to |conciseShardsStats|
      invariant Fold(AddRow(totals), rows, jobs[i..]) == Fold(AddRow(totals), map[], jobs)
    {
      var t := conciseShardsStats[i];
      assert jobs[i..][0] == t && jobs[i..][1..] == jobs[i + 1..];
      rows := rows[t.shard := (Percent(OwnedSize(t), totals.size), Percent(t.count, totals.count))];
    }
  }
}
