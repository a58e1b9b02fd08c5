/**
 Sparse JavaScript arrays, and the array algorithms of ECMA-262 (2023) that take a callback. The
 callback may do anything to the array it is called on; whatever else it reads or writes is its state,
 so that two loops that end in the same state for every callback have made the same calls.
 */
module JsArrays {
  import opened Prelude

  datatype Value = Undefined | Number(n: int) | TypeError | Array(contents: JsArray)

  /** An index that is not among the elements is a hole. */
  datatype JsArray = JsArray(length: nat, elements: map<nat, Value>)

  datatype Reply<S> =
    | Returned(state: S, subject: JsArray, value: Value)
    | Threw(state: S, subject: JsArray, error: Value)

  type Callback<!S> = (S, JsArray, Value, nat) -> Reply<S>

  /** The callback of the two reductions also receives the accumulator. */
  type Reducer<!S> = (S, JsArray, Value, Value, nat) -> Reply<S>

  datatype Outcome<S, R> =
    | Normal(state: S, subject: JsArray, value: R)
    | Abrupt(state: S, subject: JsArray, error: Value)

  predicate HasProperty(o: JsArray, k: nat) {
    k in o.elements
  }

  function Get(o: JsArray, k: nat): Value {
    if k in o.elements then o.elements[k] else Undefined
  }

  predicate ToBoolean(v: Value) {
    v != Undefined && v != Number(0)
  }

  /** CreateDataPropertyOrThrow on an array: an index at the end or beyond makes the array longer. */
  function Put(o: JsArray, k: nat, v: Value): JsArray {
    JsArray(if k < o.length then o.length else k + 1, o.elements[k := v])
  }

  function Append(o: JsArray, v: Value): JsArray {
    Put(o, o.length, v)
  }

  // ---------- sections 23.1.3.6, .8, .9, .10, .15, .21 and .29 ----------

  /** After one call of the callback: go on with a new accumulator, or return. */
  datatype Verdict<A, R> = Continue(acc: A) | Return(value: R)

  /**
   "Repeat, while k < len": the length was read once, presence is asked before each call unless holes
   count as `undefined`, and an abrupt completion of the callback ends the algorithm.
   */
  function Walk<S, A, R>(s: S, o: JsArray, k: nat, len: nat, holes: bool, acc: A, cb: Callback<S>,
                         step: (A, nat, Value, Value) -> Verdict<A, R>, done: A -> R): Outcome<S, R>
    decreases len - k
  {
    if k >= len then Normal(s, o, done(acc))
    else if !holes && !HasProperty(o, k) then Walk(s, o, k + 1, len, holes, acc, cb, step, done)
    else
      match cb(s, o, Get(o, k), k)
      case Threw(t, p, e) => Abrupt(t, p, e)
      case Returned(t, p, r) =>
        match step(acc, k, Get(o, k), r)
        case Return(v) => Normal(t, p, v)
        case Continue(next) => Walk(t, p, k + 1, len, holes, next, cb, step, done)
  }

  function ForEachStep(acc: Value, k: nat, v: Value, r: Value): Verdict<Value, Value> { Continue(Undefined) }

  function MapStep(acc: JsArray, k: nat, v: Value, r: Value): Verdict<JsArray, JsArray> { Continue(Put(acc, k, r)) }

  function FilterStep(acc: JsArray, k: nat, v: Value, r: Value): Verdict<JsArray, JsArray> {
    Continue(if ToBoolean(r) then Append(acc, v) else acc)
  }

  function SomeStep(acc: bool, k: nat, v: Value, r: Value): Verdict<bool, bool> {
    if ToBoolean(r) then Return(true) else Continue(acc)
  }

  function EveryStep(acc: bool, k: nat, v: Value, r: Value): Verdict<bool, bool> {
    if !ToBoolean(r) then Return(false) else Continue(acc)
  }

  function FindStep(acc: Value, k: nat, v: Value, r: Value): Verdict<Value, Value> {
    if ToBoolean(r) then Return(v) else Continue(acc)
  }

  function FindIndexStep(acc: int, k: nat, v: Value, r: Value): Verdict<int, int> {
    if ToBoolean(r) then Return(k) else Continue(acc)
  }

  function Same<A>(acc: A): A { acc }

  function EcmaForEach<S>(s: S, o: JsArray, cb: Callback<S>): Outcome<S, Value> {
    Walk(s, o, 0, o.length, false, Undefined, cb, ForEachStep, Same<Value>)
  }

  function EcmaMap<S>(s: S, o: JsArray, cb: Callback<S>): Outcome<S, JsArray> {
    Walk(s, o, 0, o.length, false, JsArray(o.length, map[]), cb, MapStep, Same<JsArray>)
  }

  function EcmaFilter<S>(s: S, o: JsArray, cb: Callback<S>): Outcome<S, JsArray> {
    Walk(s, o, 0, o.length, false, JsArray(0, map[]), cb, FilterStep, Same<JsArray>)
  }

  function EcmaSome<S>(s: S, o: JsArray, cb: Callback<S>): Outcome<S, bool> {
    Walk(s, o, 0, o.length, false, false, cb, SomeStep, Same<bool>)
  }

  function EcmaEvery<S>(s: S, o: JsArray, cb: Callback<S>): Outcome<S, bool> {
    Walk(s, o, 0, o.length, false, true, cb, EveryStep, Same<bool>)
  }

  function EcmaFind<S>(s: S, o: JsArray, cb: Callback<S>): Outcome<S, Value> {
    Walk(s, o, 0, o.length, true, Undefined, cb, FindStep, Same<Value>)
  }

  function EcmaFindIndex<S>(s: S, o: JsArray, cb: Callback<S>): Outcome<S, int> {
    Walk(s, o, 0, o.length, true, -1, cb, FindIndexStep, Same<int>)
  }

  // ---------- which calls they make, whatever the callback does to the array ----------

  /** A call: the array at that moment, what was passed, and the array afterwards. */
  datatype Call = Call(subject: JsArray, value: Value, index: nat, after: JsArray)

  /** The same callback, with a log of its calls beside its state. */
  function Logged<S>(cb: Callback<S>): Callback<(S, seq<Call>)> {
    (s: (S, seq<Call>), o: JsArray, v: Value, k: nat) =>
      match cb(s.0, o, v, k)
      case Returned(t, p, r) => Returned((t, s.1 + [Call(o, v, k, p)]), p, r)
      case Threw(t, p, e) => Threw((t, s.1 + [Call(o, v, k, p)]), p, e)
  }

  function Unlogged<S, R>(r: Outcome<(S, seq<Call>), R>): Outcome<S, R> {
    match r
    case Normal(s, o, v) => Normal(s.0, o, v)
    case Abrupt(s, o, e) => Abrupt(s.0, o, e)
  }

  /** Without `holes`: an index is skipped only when nothing is there at that moment. */
  predicate Skips(o: JsArray, k: nat, to: nat, holes: bool) {
    forall j: nat :: k <= j < to ==> !holes && !HasProperty(o, j)
  }

  /**
   The calls that are made from index `k` on: in ascending order and below `len`, each with the value
   that is at its index at that moment, and none left out whose index was present when its turn came.
   */
  predicate Visits(calls: seq<Call>, o: JsArray, k: nat, len: nat, holes: bool)
    decreases |calls|
  {
    calls == [] ||
    var c := calls[0];
    && c.subject == o && k <= c.index < len && c.value == Get(o, c.index)
    && (holes || HasProperty(o, c.index))
    && Skips(o, k, c.index, holes)
    && Visits(calls[1..], c.after, c.index + 1, len, holes)
  }

  /** The calls went on to the end: this is the array then, and nothing more is to be visited. */
  predicate Finishes(calls: seq<Call>, o: JsArray, k: nat, len: nat, holes: bool, last: JsArray)
    decreases |calls|
  {
    if calls == [] then last == o && Skips(o, k, len, holes)
    else Finishes(calls[1..], calls[0].after, calls[0].index + 1, len, holes, last)
  }

  lemma VisitsLater(calls: seq<Call>, o: JsArray, k: nat, len: nat, holes: bool)
    requires !holes && !HasProperty(o, k) && Visits(calls, o, k + 1, len, holes)
    ensures Visits(calls, o, k, len, holes)
    ensures forall last :: Finishes(calls, o, k + 1, len, holes, last) ==> Finishes(calls, o, k, len, holes, last)
  {}

  lemma VisitsNow(calls: seq<Call>, c: Call, o: JsArray, k: nat, len: nat, holes: bool)
    requires k < len && (holes || HasProperty(o, k)) && c.subject == o && c.value == Get(o, k) && c.index == k
    requires Visits(calls, c.after, k + 1, len, holes)
    ensures Visits([c] + calls, o, k, len, holes)
    ensures forall last ::
              Finishes(calls, c.after, k + 1, len, holes, last) ==> Finishes([c] + calls, o, k, len, holes, last)
  {
    assert ([c] + calls)[1..] == calls;
  }

  /** All seven algorithms make their calls like this, and logging the calls changes nothing else. */
  lemma {:induction false} WalkVisits<S, A, R>(
      s: S, log: seq<Call>, o: JsArray, k: nat, len: nat, holes: bool, acc: A, cb: Callback<S>,
      step: (A, nat, Value, Value) -> Verdict<A, R>, done: A -> R) returns (calls: seq<Call>)
    ensures var r := Walk((s, log), o, k, len, holes, acc, Logged(cb), step, done);
            && r.state.1 == log + calls && Visits(calls, o, k, len, holes)
            && Unlogged(r) == Walk(s, o, k, len, holes, acc, cb, step, done)
            && (r.Normal? && (forall a, i, v, x :: step(a, i, v, x).Continue?) ==>
                  Finishes(calls, o, k, len, holes, r.subject))
    decreases len - k
  {
    if k >= len {
      calls := [];
      assert log + [] == log;
    } else if !holes && !HasProperty(o, k) {
      calls := WalkVisits(s, log, o, k + 1, len, holes, acc, cb, step, done);
      VisitsLater(calls, o, k, len, holes);
    } else {
      var r := cb(s, o, Get(o, k), k);
      var c := Call(o, Get(o, k), k, r.subject);
      var verdict := if r.Returned? then step(acc, k, Get(o, k), r.value) else Continue(acc);
      if r.Returned? && verdict.Continue? {
        var later := WalkVisits(r.state, log + [c], r.subject, k + 1, len, holes, verdict.acc, cb, step, done);
        calls := [c] + later;
        VisitsNow(later, c, o, k, len, holes);
        Assoc(log, [c], later);
      } else {
        calls := [c];
        VisitsNow([], c, o, k, len, holes);
        assert [c] + [] == [c];
      }
    }
  }

  /** `forEach`: exactly the calls that the array asks for while it changes, and no value. */
  lemma ForEachVisits<S>(s: S, o: JsArray, cb: Callback<S>) returns (calls: seq<Call>)
    ensures var r := EcmaForEach((s, []), o, Logged(cb));
            && r.state.1 == calls && Visits(calls, o, 0, o.length, false)
            && Unlogged(r) == EcmaForEach(s, o, cb)
            && (r.Normal? ==> r.value == Undefined && Finishes(calls, o, 0, o.length, false, r.subject))
  {
    calls := WalkVisits(s, [], o, 0, o.length, false, Undefined, cb, ForEachStep, Same<Value>);
    assert [] + calls == calls;
    NormalValue((s, []), o, 0, o.length, Logged(cb));
  }

  lemma {:induction false} NormalValue<S>(s: S, o: JsArray, k: nat, len: nat, cb: Callback<S>)
    ensures var r := Walk(s, o, k, len, false, Undefined, cb, ForEachStep, Same<Value>);
            r.Normal? ==> r.value == Undefined
    decreases len - k
  {
    if k < len {
      var r := cb(s, o, Get(o, k), k);
      if !HasProperty(o, k) {
        NormalValue(s, o, k + 1, len, cb);
      } else if r.Returned? {
        NormalValue(r.state, r.subject, k + 1, len, cb);
      }
    }
  }

  /** The present values with their indices, in ascending order. */
  function Present(o: JsArray, k: nat, len: nat): seq<(Value, nat)>
    decreases len - k
  {
    if k >= len then [] else (if k in o.elements then [(o.elements[k], k)] else []) + Present(o, k + 1, len)
  }

  /** A callback that notes what it is called with, and leaves the array alone. */
  ghost predicate Notes(cb: Callback<seq<(Value, nat)>>) {
    forall s, o, v, k: nat ::
      cb(s, o, v, k).Returned? && cb(s, o, v, k).state == s + [(v, k)] && cb(s, o, v, k).subject == o
  }

  lemma {:induction false} ForEachNotesFrom(s: seq<(Value, nat)>, o: JsArray, k: nat, len: nat,
                                            cb: Callback<seq<(Value, nat)>>)
    requires Notes(cb)
    ensures Walk(s, o, k, len, false, Undefined, cb, ForEachStep, Same<Value>)
         == Normal(s + Present(o, k, len), o, Undefined)
    decreases len - k
  {
    if k >= len {
      assert s + [] == s;
    } else if HasProperty(o, k) {
      var r := cb(s, o, Get(o, k), k);
      ForEachNotesFrom(r.state, o, k + 1, len, cb);
      Assoc(s, [(Get(o, k), k)], Present(o, k + 1, len));
    } else {
      ForEachNotesFrom(s, o, k + 1, len, cb);
      assert Present(o, k, len) == Present(o, k + 1, len);
    }
  }

  /** `forEach` calls a callback that leaves the array alone once for each present element, in order. */
  lemma ForEachNotesPresent(s: seq<(Value, nat)>, o: JsArray, cb: Callback<seq<(Value, nat)>>)
    requires Notes(cb)
    ensures EcmaForEach(s, o, cb) == Normal(s + Present(o, 0, o.length), o, Undefined)
  {
    ForEachNotesFrom(s, o, 0, o.length, cb);
  }

  // ---------- what they find when the callback leaves the array alone ----------

  /** The callback may do what it likes with its state, but it answers by value and index only. */
  ghost predicate Answers<S(!new)>(cb: Callback<S>, q: (Value, nat) -> Value) {
    forall s, o, v, k: nat :: cb(s, o, v, k).Returned? && cb(s, o, v, k).subject == o && cb(s, o, v, k).value == q(v, k)
  }

  /** Everything but `undefined` and zero accepts. */
  predicate Accepts(q: (Value, nat) -> Value, o: JsArray, k: nat) {
    var answer := q(if k in o.elements then o.elements[k] else Undefined, k);
    answer != Undefined && answer != Number(0)
  }

  lemma {:induction false} SomeFrom<S(!new)>(s: S, o: JsArray, k: nat, len: nat, cb: Callback<S>,
                                             q: (Value, nat) -> Value)
    requires Answers(cb, q)
    ensures var r := Walk(s, o, k, len, false, false, cb, SomeStep, Same<bool>);
            && r.Normal? && r.subject == o
            && (r.value <==> exists j: nat :: k <= j < len && HasProperty(o, j) && Accepts(q, o, j))
    decreases len - k
  {
    if k < len {
      var r := cb(s, o, Get(o, k), k);
      SomeFrom(if HasProperty(o, k) then r.state else s, o, k + 1, len, cb, q);
      if HasProperty(o, k) {
        assert Accepts(q, o, k) == ToBoolean(r.value);
      }
    }
  }

  lemma {:induction false} EveryFrom<S(!new)>(s: S, o: JsArray, k: nat, len: nat, cb: Callback<S>,
                                              q: (Value, nat) -> Value)
    requires Answers(cb, q)
    ensures var r := Walk(s, o, k, len, false, true, cb, EveryStep, Same<bool>);
            && r.Normal? && r.subject == o
            && (r.value <==> forall j: nat :: k <= j < len && HasProperty(o, j) ==> Accepts(q, o, j))
    decreases len - k
  {
    if k < len {
      var r := cb(s, o, Get(o, k), k);
      EveryFrom(if HasProperty(o, k) then r.state else s, o, k + 1, len, cb, q);
      if HasProperty(o, k) {
        assert Accepts(q, o, k) == ToBoolean(r.value);
      }
    }
  }

  lemma {:induction false} FindIndexFrom<S(!new)>(s: S, o: JsArray, k: nat, len: nat, cb: Callback<S>,
                                                  q: (Value, nat) -> Value)
    requires Answers(cb, q)
    ensures var r := Walk(s, o, k, len, true, -1, cb, FindIndexStep, Same<int>);
            var f := Walk(s, o, k, len, true, Undefined, cb, FindStep, Same<Value>);
            && r.Normal? && r.subject == o
            && f == Normal(r.state, o, if r.value < 0 then Undefined else Get(o, r.value))
            && (if r.value < 0 then r.value == -1 && forall j: nat :: k <= j < len ==> !Accepts(q, o, j)
                else k <= r.value < len && Accepts(q, o, r.value) &&
                     forall j: nat :: k <= j < r.value ==> !Accepts(q, o, j))
    decreases len - k
  {
    if k < len {
      var r := cb(s, o, Get(o, k), k);
      assert Accepts(q, o, k) == ToBoolean(r.value);
      FindIndexFrom(r.state, o, k + 1, len, cb, q);
    }
  }

  /** `some` asks whether a present element is accepted. */
  lemma SomeIffAccepted<S(!new)>(s: S, o: JsArray, cb: Callback<S>, q: (Value, nat) -> Value)
    requires Answers(cb, q)
    ensures var r := EcmaSome(s, o, cb);
            && r.Normal? && r.subject == o
            && (r.value <==> exists j: nat :: j < o.length && HasProperty(o, j) && Accepts(q, o, j))
  {
    SomeFrom(s, o, 0, o.length, cb, q);
  }

  /** `every` asks whether all of them are. */
  lemma EveryIffAllAccepted<S(!new)>(s: S, o: JsArray, cb: Callback<S>, q: (Value, nat) -> Value)
    requires Answers(cb, q)
    ensures var r := EcmaEvery(s, o, cb);
            && r.Normal? && r.subject == o
            && (r.value <==> forall j: nat :: j < o.length && HasProperty(o, j) ==> Accepts(q, o, j))
  {
    EveryFrom(s, o, 0, o.length, cb, q);
  }

  /** `findIndex` gives the first accepted index, holes included, and `find` the value there. */
  lemma FindIsFirstAccepted<S(!new)>(s: S, o: JsArray, cb: Callback<S>, q: (Value, nat) -> Value)
    requires Answers(cb, q)
    ensures var i, f := EcmaFindIndex(s, o, cb), EcmaFind(s, o, cb);
            && i.Normal? && f.Normal?
            && (if exists j: nat :: j < o.length && Accepts(q, o, j) then
                  && 0 <= i.value < o.length && Accepts(q, o, i.value)
                  && (forall j: nat :: j < i.value ==> !Accepts(q, o, j))
                  && f.value == Get(o, i.value)
                else i.value == -1 && f.value == Undefined)
  {
    FindIndexFrom(s, o, 0, o.length, cb, q);
  }

  /** The present values from index `k` on that are accepted, in order. */
  function Kept(q: (Value, nat) -> Value, o: JsArray, k: nat, len: nat): seq<Value>
    decreases len - k
  {
    if k >= len then []
    else (if HasProperty(o, k) && Accepts(q, o, k) then [Get(o, k)] else []) + Kept(q, o, k + 1, len)
  }

  /** An array without holes. */
  function Dense(vs: seq<Value>): JsArray {
    JsArray(|vs|, map i: nat | i < |vs| :: vs[i])
  }

  lemma AppendDense(vs: seq<Value>, v: Value)
    ensures Append(Dense(vs), v) == Dense(vs + [v])
  {
    assert Append(Dense(vs), v).elements == Dense(vs + [v]).elements;
  }

  lemma {:induction false} FilterFrom<S(!new)>(s: S, o: JsArray, k: nat, len: nat, vs: seq<Value>, cb: Callback<S>,
                                               q: (Value, nat) -> Value)
    requires Answers(cb, q)
    ensures var r := Walk(s, o, k, len, false, Dense(vs), cb, FilterStep, Same<JsArray>);
            r.Normal? && r.subject == o && r.value == Dense(vs + Kept(q, o, k, len))
    decreases len - k
  {
    if k >= len {
      assert vs + [] == vs;
    } else {
      var r := cb(s, o, Get(o, k), k);
      assert Accepts(q, o, k) == ToBoolean(r.value);
      var kept := HasProperty(o, k) && Accepts(q, o, k);
      var next := if kept then vs + [Get(o, k)] else vs;
      AppendDense(vs, Get(o, k));
      FilterFrom(if HasProperty(o, k) then r.state else s, o, k + 1, len, next, cb, q);
      Assoc(vs, if kept then [Get(o, k)] else [], Kept(q, o, k + 1, len));
    }
  }

  /** `filter` gives the accepted values without holes, in order. */
  lemma FilterKeepsAccepted<S(!new)>(s: S, o: JsArray, cb: Callback<S>, q: (Value, nat) -> Value)
    requires Answers(cb, q)
    ensures var r := EcmaFilter(s, o, cb);
            r.Normal? && r.subject == o && r.value == Dense(Kept(q, o, 0, o.length))
  {
    assert Dense([]).elements == map[];
    FilterFrom(s, o, 0, o.length, [], cb, q);
    assert [] + Kept(q, o, 0, o.length) == Kept(q, o, 0, o.length);
  }

  lemma {:induction false} MapFrom<S(!new)>(s: S, o: JsArray, k: nat, len: nat, acc: JsArray, cb: Callback<S>,
                                            q: (Value, nat) -> Value)
    requires Answers(cb, q) && acc.length == len
    ensures var r := Walk(s, o, k, len, false, acc, cb, MapStep, Same<JsArray>);
            && r.Normal? && r.subject == o && r.value.length == len
            && forall j: nat ::
                 && Get(r.value, j) == (if k <= j < len && HasProperty(o, j) then q(Get(o, j), j) else Get(acc, j))
                 && (HasProperty(r.value, j) <==> (k <= j < len && HasProperty(o, j)) || HasProperty(acc, j))
    decreases len - k
  {
    if k < len {
      var r := cb(s, o, Get(o, k), k);
      if HasProperty(o, k) {
        MapFrom(r.state, o, k + 1, len, Put(acc, k, r.value), cb, q);
      } else {
        MapFrom(s, o, k + 1, len, acc, cb, q);
      }
    }
  }

  /** `map` puts an answer in the place of every present element, and keeps the holes. */
  lemma MapAnswersEach<S(!new)>(s: S, o: JsArray, cb: Callback<S>, q: (Value, nat) -> Value)
    requires Answers(cb, q)
    ensures var r := EcmaMap(s, o, cb);
            && r.Normal? && r.subject == o && r.value.length == o.length
            && forall j: nat :: (HasProperty(r.value, j) <==> j < o.length && HasProperty(o, j))
                                && (HasProperty(r.value, j) ==> Get(r.value, j) == q(Get(o, j), j))
  {
    var none := JsArray(o.length, map[]);
    MapFrom(s, o, 0, o.length, none, cb, q);
  }

  // ---------- sections 23.1.3.24 and .25 ----------

  function Reduce<S>(s: S, o: JsArray, k: nat, len: nat, acc: Value, cb: Reducer<S>): Outcome<S, Value>
    decreases len - k
  {
    if k >= len then Normal(s, o, acc)
    else if !HasProperty(o, k) then Reduce(s, o, k + 1, len, acc, cb)
    else
      match cb(s, o, acc, Get(o, k), k)
      case Threw(t, p, e) => Abrupt(t, p, e)
      case Returned(t, p, r) => Reduce(t, p, k + 1, len, r, cb)
  }

  /** The first present index from `k` on. */
  function FirstPresent(o: JsArray, k: nat, len: nat): Option<nat>
    decreases len - k
  {
    if k >= len then None else if HasProperty(o, k) then Some(k) else FirstPresent(o, k + 1, len)
  }

  function EcmaReduce<S>(s: S, o: JsArray, cb: Reducer<S>, initial: Option<Value>): Outcome<S, Value> {
    if initial.Some? then Reduce(s, o, 0, o.length, initial.value, cb)
    else
      match FirstPresent(o, 0, o.length)
      case None => Abrupt(s, o, TypeError)
      case Some(k) => Reduce(s, o, k + 1, o.length, Get(o, k), cb)
  }

  /** `n` indices are left, the next one is `n - 1`. */
  function ReduceRight<S>(s: S, o: JsArray, n: nat, acc: Value, cb: Reducer<S>): Outcome<S, Value>
    decreases n
  {
    if n == 0 then Normal(s, o, acc)
    else if !HasProperty(o, n - 1) then ReduceRight(s, o, n - 1, acc, cb)
    else
      match cb(s, o, acc, Get(o, n - 1), n - 1)
      case Threw(t, p, e) => Abrupt(t, p, e)
      case Returned(t, p, r) => ReduceRight(t, p, n - 1, r, cb)
  }

  function LastPresent(o: JsArray, n: nat): Option<nat> {
    if n == 0 then None else if HasProperty(o, n - 1) then Some(n - 1) else LastPresent(o, n - 1)
  }

  function EcmaReduceRight<S>(s: S, o: JsArray, cb: Reducer<S>, initial: Option<Value>): Outcome<S, Value> {
    if initial.Some? then ReduceRight(s, o, o.length, initial.value, cb)
    else
      match LastPresent(o, o.length)
      case None => Abrupt(s, o, TypeError)
      case Some(k) => ReduceRight(s, o, k, Get(o, k), cb)
  }

  // ---------- a reduction is `forEach` with the accumulator in the state ----------

  function AccumulateIn<S>(cb: Reducer<S>): Callback<(S, Value)> {
    (s: (S, Value), o: JsArray, v: Value, k: nat) =>
      match cb(s.0, o, s.1, v, k)
      case Returned(t, p, r) => Returned((t, r), p, Undefined)
      case Threw(t, p, e) => Threw((t, s.1), p, e)
  }

  function Accumulated<S>(r: Outcome<(S, Value), Value>): Outcome<S, Value> {
    match r
    case Normal(s, o, _) => Normal(s.0, o, s.1)
    case Abrupt(s, o, e) => Abrupt(s.0, o, e)
  }

  lemma {:induction false} ReduceFrom<S>(s: S, o: JsArray, k: nat, len: nat, acc: Value, cb: Reducer<S>)
    ensures Reduce(s, o, k, len, acc, cb) ==
            Accumulated(Walk((s, acc), o, k, len, false, Undefined, AccumulateIn(cb), ForEachStep, Same<Value>))
    decreases len - k
  {
    if k < len {
      if HasProperty(o, k) {
        var r := cb(s, o, acc, Get(o, k), k);
        if r.Returned? {
          ReduceFrom(r.state, r.subject, k + 1, len, r.value, cb);
        }
      } else {
        ReduceFrom(s, o, k + 1, len, acc, cb);
      }
    }
  }

  /** Whatever the callback does to the array, `reduce` makes the calls of `forEach`. */
  lemma ReduceIsForEach<S>(s: S, o: JsArray, cb: Reducer<S>, initial: Value)
    ensures EcmaReduce(s, o, cb, Some(initial)) == Accumulated(EcmaForEach((s, initial), o, AccumulateIn(cb)))
  {
    ReduceFrom(s, o, 0, o.length, initial, cb);
  }

  /** A callback that answers by accumulator, value and index only, and leaves the array alone. */
  ghost predicate Combines<S(!new)>(cb: Reducer<S>, f: (Value, Value, nat) -> Value) {
    forall s, o, acc, v, k: nat ::
      && cb(s, o, acc, v, k).Returned? && cb(s, o, acc, v, k).subject == o
      && cb(s, o, acc, v, k).value == f(acc, v, k)
  }

  function FoldLeft(f: (Value, Value, nat) -> Value, acc: Value, pairs: seq<(Value, nat)>): Value
    decreases |pairs|
  {
    if pairs == [] then acc else FoldLeft(f, f(acc, pairs[0].0, pairs[0].1), pairs[1..])
  }

  function FoldRight(f: (Value, Value, nat) -> Value, acc: Value, pairs: seq<(Value, nat)>): Value
    decreases |pairs|
  {
    if pairs == [] then acc
    else
      var n := |pairs| - 1;
      FoldRight(f, f(acc, pairs[n].0, pairs[n].1), pairs[..n])
  }

  lemma {:induction false} ReduceFolds<S(!new)>(s: S, o: JsArray, k: nat, len: nat, acc: Value, cb: Reducer<S>,
                                                f: (Value, Value, nat) -> Value)
    requires Combines(cb, f)
    ensures var r := Reduce(s, o, k, len, acc, cb);
            r.Normal? && r.subject == o && r.value == FoldLeft(f, acc, Present(o, k, len))
    decreases len - k
  {
    if k < len {
      if HasProperty(o, k) {
        var r := cb(s, o, acc, Get(o, k), k);
        ReduceFolds(r.state, o, k + 1, len, r.value, cb, f);
        assert Present(o, k, len)[1..] == Present(o, k + 1, len);
      } else {
        ReduceFolds(s, o, k + 1, len, acc, cb, f);
        assert Present(o, k, len) == Present(o, k + 1, len);
      }
    }
  }

  lemma {:induction false} PresentSnoc(o: JsArray, k: nat, n: nat)
    requires k <= n
    ensures Present(o, k, n + 1) == Present(o, k, n) + (if n in o.elements then [(o.elements[n], n)] else [])
    decreases n - k
  {
    if k < n {
      PresentSnoc(o, k + 1, n);
      Assoc(if k in o.elements then [(o.elements[k], k)] else [], Present(o, k + 1, n),
            if n in o.elements then [(o.elements[n], n)] else []);
    }
  }

  lemma {:induction false} ReduceRightFolds<S(!new)>(s: S, o: JsArray, n: nat, acc: Value, cb: Reducer<S>,
                                                     f: (Value, Value, nat) -> Value)
    requires Combines(cb, f)
    ensures var r := ReduceRight(s, o, n, acc, cb);
            r.Normal? && r.subject == o && r.value == FoldRight(f, acc, Present(o, 0, n))
    decreases n
  {
    if n > 0 {
      PresentSnoc(o, 0, n - 1);
      var before, all := Present(o, 0, n - 1), Present(o, 0, n);
      if HasProperty(o, n - 1) {
        var r := cb(s, o, acc, Get(o, n - 1), n - 1);
        ReduceRightFolds(r.state, o, n - 1, r.value, cb, f);
        assert all[|all| - 1] == (Get(o, n - 1), n - 1) && all[..|all| - 1] == before;
      } else {
        ReduceRightFolds(s, o, n - 1, acc, cb, f);
        assert all == before;
      }
    }
  }

  lemma {:induction false} FirstOfPresent(o: JsArray, k: nat, len: nat)
    ensures match FirstPresent(o, k, len)
            case None => Present(o, k, len) == []
            case Some(i) => Present(o, k, len) == [(Get(o, i), i)] + Present(o, i + 1, len)
    decreases len - k
  {
    if k < len && !HasProperty(o, k) {
      FirstOfPresent(o, k + 1, len);
    }
  }

  lemma {:induction false} LastOfPresent(o: JsArray, n: nat)
    ensures match LastPresent(o, n)
            case None => Present(o, 0, n) == []
            case Some(i) => Present(o, 0, n) == Present(o, 0, i) + [(Get(o, i), i)]
    decreases n
  {
    if n > 0 {
      PresentSnoc(o, 0, n - 1);
      if !HasProperty(o, n - 1) {
        LastOfPresent(o, n - 1);
        assert Present(o, 0, n) == Present(o, 0, n - 1);
      }
    }
  }

  /** `reduce` folds the present elements from the left; without any it needs an initial value. */
  lemma ReduceFoldsPresent<S(!new)>(s: S, o: JsArray, cb: Reducer<S>, initial: Option<Value>,
                                    f: (Value, Value, nat) -> Value)
    requires Combines(cb, f)
    ensures var r := EcmaReduce(s, o, cb, initial); var pairs := Present(o, 0, o.length);
            && r.subject == o
            && (initial.Some? ==> r.Normal? && r.value == FoldLeft(f, initial.value, pairs))
            && (initial.None? && pairs == [] ==> r.Abrupt? && r.error == TypeError)
            && (initial.None? && pairs != [] ==> r.Normal? && r.value == FoldLeft(f, pairs[0].0, pairs[1..]))
  {
    if initial.Some? {
      ReduceFolds(s, o, 0, o.length, initial.value, cb, f);
    } else {
      FirstOfPresent(o, 0, o.length);
      var first := FirstPresent(o, 0, o.length);
      if first.Some? {
        ReduceFolds(s, o, first.value + 1, o.length, Get(o, first.value), cb, f);
        assert Present(o, 0, o.length)[1..] == Present(o, first.value + 1, o.length);
      }
    }
  }

  /** `reduceRight` folds them from the right. */
  lemma ReduceRightFoldsPresent<S(!new)>(s: S, o: JsArray, cb: Reducer<S>, initial: Option<Value>,
                                         f: (Value, Value, nat) -> Value)
    requires Combines(cb, f)
    ensures var r := EcmaReduceRight(s, o, cb, initial); var pairs := Present(o, 0, o.length); var n := |pairs|;
            && r.subject == o
            && (initial.Some? ==> r.Normal? && r.value == FoldRight(f, initial.value, pairs))
            && (initial.None? && n == 0 ==> r.Abrupt? && r.error == TypeError)
            && (initial.None? && n > 0 ==> r.Normal? && r.value == FoldRight(f, pairs[n - 1].0, pairs[..n - 1]))
  {
    if initial.Some? {
      ReduceRightFolds(s, o, o.length, initial.value, cb, f);
    } else {
      LastOfPresent(o, o.length);
      var last, pairs := LastPresent(o, o.length), Present(o, 0, o.length);
      if last.Some? {
        ReduceRightFolds(s, o, last.value, Get(o, last.value), cb, f);
        assert pairs[..|pairs| - 1] == Present(o, 0, last.value);
      }
    }
  }

  // ---------- a reduction from the right is one from the left over the mirror image ----------

  /** The indices below `len` reversed; what a callback put beyond stays where it is. */
  function MirrorIndex(len: nat, k: nat): nat {
    if k < len then len - 1 - k else k
  }

  function Mirror(len: nat, o: JsArray): JsArray {
    JsArray(o.length,
            (map k: nat | k < len && MirrorIndex(len, k) in o.elements :: o.elements[MirrorIndex(len, k)])
            + (map k: nat | k in o.elements && k >= len :: o.elements[k]))
  }

  function MirrorReply<S>(len: nat, r: Reply<S>): Reply<S> {
    r.(subject := Mirror(len, r.subject))
  }

  function MirrorReducer<S>(len: nat, cb: Reducer<S>): Reducer<S> {
    (s: S, o: JsArray, acc: Value, v: Value, k: nat) =>
      MirrorReply(len, cb(s, Mirror(len, o), acc, v, MirrorIndex(len, k)))
  }

  function MirrorOutcome<S, R>(len: nat, r: Outcome<S, R>): Outcome<S, R> {
    r.(subject := Mirror(len, r.subject))
  }

  lemma MirrorHas(len: nat, o: JsArray, k: nat)
    ensures HasProperty(Mirror(len, o), k) <==> HasProperty(o, MirrorIndex(len, k))
    ensures Get(Mirror(len, o), k) == Get(o, MirrorIndex(len, k))
  {}

  lemma MirrorTwice(len: nat, o: JsArray)
    ensures Mirror(len, Mirror(len, o)) == o
  {
    var m := Mirror(len, Mirror(len, o));
    forall k: nat ensures HasProperty(m, k) <==> HasProperty(o, k) ensures Get(m, k) == Get(o, k) {
      MirrorHas(len, Mirror(len, o), k);
      MirrorHas(len, o, MirrorIndex(len, k));
    }
    SameElements(m, o);
  }

  lemma SameElements(a: JsArray, b: JsArray)
    requires a.length == b.length
    requires forall k: nat :: HasProperty(a, k) <==> HasProperty(b, k)
    requires forall k: nat :: Get(a, k) == Get(b, k)
    ensures a == b
  {
    forall k: nat | k in a.elements ensures k in b.elements && a.elements[k] == b.elements[k] {
      assert HasProperty(a, k) && Get(a, k) == Get(b, k);
    }
    forall k: nat | k in b.elements ensures k in a.elements {
      assert HasProperty(b, k);
    }
    assert a.elements == b.elements;
  }

  lemma MirrorReducerAt<S>(len: nat, cb: Reducer<S>, s: S, m: JsArray, o: JsArray, acc: Value, v: Value, n: nat)
    requires 0 < n <= len && Mirror(len, m) == o
    ensures MirrorReducer(len, cb)(s, m, acc, v, len - n) == MirrorReply(len, cb(s, o, acc, v, n - 1))
  {
    assert MirrorIndex(len, len - n) == n - 1;
  }

  lemma MirrorSeen<S>(s: S, o: JsArray, n: nat, len: nat, acc: Value, v: Value, cb: Reducer<S>)
    requires 0 < n <= len
    ensures MirrorReducer(len, cb)(s, Mirror(len, o), acc, v, len - n) == MirrorReply(len, cb(s, o, acc, v, n - 1))
  {
    MirrorTwice(len, o);
    MirrorReducerAt(len, cb, s, Mirror(len, o), o, acc, v, n);
  }

  /** What is below `len` in `b` is in `a`, in reverse order. */
  ghost predicate Reverses(len: nat, a: JsArray, b: JsArray) {
    forall k: nat :: k < len ==>
      (HasProperty(b, k) <==> HasProperty(a, len - 1 - k)) && Get(b, k) == Get(a, len - 1 - k)
  }

  /** One call and the same call in a mirror `f`. */
  ghost predicate SameCall<S>(len: nat, f: JsArray -> JsArray, cb: Reducer<S>, mcb: Reducer<S>,
                              s: S, o: JsArray, n: nat, acc: Value, v: Value) {
    0 < n <= len ==>
      var r := cb(s, o, acc, v, n - 1);
      mcb(s, f(o), acc, v, len - n) == r.(subject := f(r.subject))
  }

  lemma MirrorIsOne<S>(len: nat, f: JsArray -> JsArray, cb: Reducer<S>, mcb: Reducer<S>)
    requires f == ((o: JsArray) => Mirror(len, o)) && mcb == MirrorReducer(len, cb)
    ensures forall o :: f(f(o)) == o && Reverses(len, o, f(o))
    ensures forall s: S, o, n: nat, acc, v :: SameCall(len, f, cb, mcb, s, o, n, acc, v)
  {
    forall o ensures f(f(o)) == o && Reverses(len, o, f(o)) {
      MirrorTwice(len, o);
      MirrorBelow(o, f(o), len);
    }
    forall s: S, o, n: nat, acc, v ensures SameCall(len, f, cb, mcb, s, o, n, acc, v) {
      if 0 < n <= len {
        MirrorSeen(s, o, n, len, acc, v, cb);
      }
    }
  }

  lemma {:induction false} ReduceMirrored<S>(s: S, o: JsArray, n: nat, len: nat, acc: Value,
                                             f: JsArray -> JsArray, cb: Reducer<S>, mcb: Reducer<S>)
    requires n <= len && forall p :: f(f(p)) == p && Reverses(len, p, f(p))
    requires forall t: S, p, i: nat, a, v :: SameCall(len, f, cb, mcb, t, p, i, a, v)
    ensures var r := Reduce(s, f(o), len - n, len, acc, mcb);
            ReduceRight(s, o, n, acc, cb) == r.(subject := f(r.subject))
    decreases n
  {
    if n > 0 {
      var m := f(o);
      assert Reverses(len, o, m);
      assert HasProperty(m, len - n) <==> HasProperty(o, n - 1);
      if HasProperty(o, n - 1) {
        var r := cb(s, o, acc, Get(o, n - 1), n - 1);
        assert SameCall(len, f, cb, mcb, s, o, n, acc, Get(o, n - 1));
        if r.Returned? {
          ReduceMirrored(r.state, r.subject, n - 1, len, r.value, f, cb, mcb);
        }
      } else {
        ReduceMirrored(s, o, n - 1, len, acc, f, cb, mcb);
      }
    }
  }

  lemma {:induction false} PresentMirrored(o: JsArray, m: JsArray, n: nat, len: nat)
    requires n <= len && forall k: nat :: k < len ==> (HasProperty(m, k) <==> HasProperty(o, len - 1 - k))
    ensures FirstPresent(m, len - n, len).None? <==> LastPresent(o, n).None?
    ensures LastPresent(o, n).Some? ==>
              LastPresent(o, n).value < n && FirstPresent(m, len - n, len) == Some(len - 1 - LastPresent(o, n).value)
    decreases n
  {
    if n > 0 {
      assert HasProperty(m, len - n) <==> HasProperty(o, n - 1);
      PresentMirrored(o, m, n - 1, len);
    }
  }

  lemma MirrorBelow(o: JsArray, m: JsArray, len: nat)
    requires m == Mirror(len, o)
    ensures forall k: nat :: k < len ==> (HasProperty(m, k) <==> HasProperty(o, len - 1 - k))
    ensures forall k: nat :: k < len ==> Get(m, k) == Get(o, len - 1 - k)
  {
    forall k: nat | k < len
      ensures HasProperty(m, k) <==> HasProperty(o, len - 1 - k) ensures Get(m, k) == Get(o, len - 1 - k)
    {
      MirrorHas(len, o, k);
    }
  }

  /** The first present index in the mirror is the last one before it, with the same value. */
  lemma EndsMirrored(o: JsArray, m: JsArray, len: nat)
    requires m == Mirror(len, o)
    ensures FirstPresent(m, 0, len).None? <==> LastPresent(o, len).None?
    ensures LastPresent(o, len).Some? ==>
              var k := LastPresent(o, len).value;
              k < len && FirstPresent(m, 0, len) == Some(len - 1 - k) && Get(m, len - 1 - k) == Get(o, k)
  {
    MirrorBelow(o, m, len);
    PresentMirrored(o, m, len, len);
  }

  lemma NothingPresent<S>(s: S, o: JsArray, m: JsArray, cb: Reducer<S>, mcb: Reducer<S>)
    requires m.length == o.length && LastPresent(o, o.length).None? && FirstPresent(m, 0, o.length).None?
    ensures EcmaReduceRight(s, o, cb, None) == Abrupt(s, o, TypeError)
    ensures EcmaReduce(s, m, mcb, None) == Abrupt(s, m, TypeError)
  {}

  lemma StartsAtEnd<S>(s: S, o: JsArray, m: JsArray, k: nat, cb: Reducer<S>, mcb: Reducer<S>)
    requires m.length == o.length && k < o.length
    requires LastPresent(o, o.length) == Some(k) && FirstPresent(m, 0, o.length) == Some(o.length - 1 - k)
    requires Get(m, o.length - 1 - k) == Get(o, k)
    ensures EcmaReduceRight(s, o, cb, None) == ReduceRight(s, o, k, Get(o, k), cb)
    ensures EcmaReduce(s, m, mcb, None) == Reduce(s, m, o.length - k, o.length, Get(o, k), mcb)
  {}

  lemma WithoutInitial<S>(s: S, o: JsArray, f: JsArray -> JsArray, cb: Reducer<S>, mcb: Reducer<S>)
    requires f == ((p: JsArray) => Mirror(o.length, p)) && mcb == MirrorReducer(o.length, cb)
    ensures EcmaReduceRight(s, o, cb, None) == MirrorOutcome(o.length, EcmaReduce(s, f(o), mcb, None))
  {
    EndsMirrored(o, f(o), o.length);
    if LastPresent(o, o.length).Some? {
      var k := LastPresent(o, o.length).value;
      StartsAtEnd(s, o, f(o), k, cb, mcb);
      MirrorIsOne(o.length, f, cb, mcb);
      ReduceMirrored(s, o, k, o.length, Get(o, k), f, cb, mcb);
    } else {
      NothingPresent(s, o, f(o), cb, mcb);
      MirrorTwice(o.length, o);
    }
  }

  /** `reduceRight` is `reduce` over the mirror image, with or without an initial value. */
  lemma ReduceRightIsMirroredReduce<S>(s: S, o: JsArray, cb: Reducer<S>, initial: Option<Value>)
    ensures EcmaReduceRight(s, o, cb, initial) ==
            MirrorOutcome(o.length, EcmaReduce(s, Mirror(o.length, o), MirrorReducer(o.length, cb), initial))
  {
    var len, mcb := o.length, MirrorReducer(o.length, cb);
    var f := (p: JsArray) => Mirror(len, p);
    if initial.Some? {
      MirrorIsOne(len, f, cb, mcb);
      ReduceMirrored(s, o, len, len, initial.value, f, cb, mcb);
    } else {
      WithoutInitial(s, o, f, cb, mcb);
    }
  }

  // ---------- section 23.1.3.14: flatMap ----------

  /** FlattenIntoArray at depth 0: the present elements are appended. */
  function AppendPresent(target: JsArray, source: JsArray, k: nat): JsArray
    decreases source.length - k
  {
    if k >= source.length then target
    else AppendPresent(if HasProperty(source, k) then Append(target, Get(source, k)) else target, source, k + 1)
  }

  /** One element at depth 1: an array is opened, anything else is appended. */
  function AppendElement(target: JsArray, v: Value): JsArray {
    if v.Array? then AppendPresent(target, v.contents, 0) else Append(target, v)
  }

  /** `flat()`, that is FlattenIntoArray at depth 1 without a mapper, from index `k`. */
  function Flat(target: JsArray, source: JsArray, k: nat): JsArray
    decreases source.length - k
  {
    if k >= source.length then target
    else Flat(if HasProperty(source, k) then AppendElement(target, Get(source, k)) else target, source, k + 1)
  }

  function FlatMapStep(acc: JsArray, k: nat, v: Value, r: Value): Verdict<JsArray, JsArray> {
    Continue(AppendElement(acc, r))
  }

  /** FlattenIntoArray with the mapper: each result is flattened before the next call. */
  function EcmaFlatMap<S>(s: S, o: JsArray, cb: Callback<S>): Outcome<S, JsArray> {
    Walk(s, o, 0, o.length, false, JsArray(0, map[]), cb, FlatMapStep, Same<JsArray>)
  }

  function FlatOutcome<S>(r: Outcome<S, JsArray>): Outcome<S, JsArray> {
    if r.Normal? then Normal(r.state, r.subject, Flat(JsArray(0, map[]), r.value, 0)) else r
  }

  /** Mapping on from index `k` leaves what is mapped below. */
  lemma {:induction false} MapKeepsBelow<S>(s: S, o: JsArray, k: nat, len: nat, acc: JsArray, cb: Callback<S>, j: nat)
    requires acc.length == len && j < k
    ensures var r := Walk(s, o, k, len, false, acc, cb, MapStep, Same<JsArray>);
            r.Normal? ==> r.value.length == len && (HasProperty(r.value, j) <==> HasProperty(acc, j))
                          && Get(r.value, j) == Get(acc, j)
    decreases len - k
  {
    if k < len {
      if HasProperty(o, k) {
        var r := cb(s, o, Get(o, k), k);
        if r.Returned? {
          MapKeepsBelow(r.state, r.subject, k + 1, len, Put(acc, k, r.value), cb, j);
        }
      } else {
        MapKeepsBelow(s, o, k + 1, len, acc, cb, j);
      }
    }
  }

  lemma {:induction false} MapThenFlat<S>(s: S, o: JsArray, k: nat, len: nat, acc: JsArray, target: JsArray,
                                          cb: Callback<S>)
    requires acc.length == len && forall j: nat :: j >= k ==> j !in acc.elements
    ensures var mapped := Walk(s, o, k, len, false, acc, cb, MapStep, Same<JsArray>);
            var flat := Walk(s, o, k, len, false, target, cb, FlatMapStep, Same<JsArray>);
            if mapped.Normal? then
              mapped.value.length == len && flat == Normal(mapped.state, mapped.subject, Flat(target, mapped.value, k))
            else flat == Abrupt(mapped.state, mapped.subject, mapped.error)
    decreases len - k
  {
    if k < len {
      if HasProperty(o, k) {
        var r := cb(s, o, Get(o, k), k);
        if r.Returned? {
          var acc' := Put(acc, k, r.value);
          MapThenFlat(r.state, r.subject, k + 1, len, acc', AppendElement(target, r.value), cb);
          MapKeepsBelow(r.state, r.subject, k + 1, len, acc', cb, k);
        }
      } else {
        MapThenFlat(s, o, k + 1, len, acc, target, cb);
        MapKeepsBelow(s, o, k + 1, len, acc, cb, k);
      }
    }
  }

  /** `map` and then `flat` is `flatMap`, also when the callback throws half-way. */
  lemma FlatMapIsMapThenFlat<S>(s: S, o: JsArray, cb: Callback<S>)
    ensures FlatOutcome(EcmaMap(s, o, cb)) == EcmaFlatMap(s, o, cb)
  {
    MapThenFlat(s, o, 0, o.length, JsArray(o.length, map[]), JsArray(0, map[]), cb);
  }

  // ---------- what is flattened ----------

  /** The present values, in order. */
  function Values(o: JsArray, k: nat): seq<Value>
    decreases o.length - k
  {
    if k >= o.length then [] else (if k in o.elements then [o.elements[k]] else []) + Values(o, k + 1)
  }

  /** An array stands for its present values, anything else for itself. */
  function Opened(v: Value): seq<Value> {
    if v.Array? then Values(v.contents, 0) else [v]
  }

  function AllOpened(vs: seq<Value>): seq<Value> {
    if vs == [] then [] else Opened(vs[0]) + AllOpened(vs[1..])
  }

  lemma {:induction false} AppendPresentIs(vs: seq<Value>, source: JsArray, k: nat)
    ensures AppendPresent(Dense(vs), source, k) == Dense(vs + Values(source, k))
    decreases source.length - k
  {
    if k >= source.length {
      assert vs + [] == vs;
    } else if HasProperty(source, k) {
      AppendDense(vs, Get(source, k));
      AppendPresentIs(vs + [Get(source, k)], source, k + 1);
      Assoc(vs, [Get(source, k)], Values(source, k + 1));
    } else {
      AppendPresentIs(vs, source, k + 1);
    }
  }

  lemma AppendElementIs(vs: seq<Value>, v: Value)
    ensures AppendElement(Dense(vs), v) == Dense(vs + Opened(v))
  {
    if v.Array? {
      AppendPresentIs(vs, v.contents, 0);
    } else {
      AppendDense(vs, v);
    }
  }

  lemma {:induction false} FlatFrom(vs: seq<Value>, source: JsArray, k: nat)
    ensures Flat(Dense(vs), source, k) == Dense(vs + AllOpened(Values(source, k)))
    decreases source.length - k
  {
    if k >= source.length {
      assert vs + [] == vs;
    } else if HasProperty(source, k) {
      AppendElementIs(vs, Get(source, k));
      FlatFrom(vs + Opened(Get(source, k)), source, k + 1);
      assert Values(source, k)[1..] == Values(source, k + 1);
      Assoc(vs, Opened(Get(source, k)), AllOpened(Values(source, k + 1)));
    } else {
      FlatFrom(vs, source, k + 1);
      assert Values(source, k) == Values(source, k + 1);
    }
  }

  /** `flat` opens the arrays one level deep, drops the holes of both levels, and keeps the order. */
  lemma FlatOpensOnce(source: JsArray)
    ensures Flat(JsArray(0, map[]), source, 0) == Dense(AllOpened(Values(source, 0)))
  {
    assert Dense([]).elements == map[];
    FlatFrom([], source, 0);
    assert [] + AllOpened(Values(source, 0)) == AllOpened(Values(source, 0));
  }
}
