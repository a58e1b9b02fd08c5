/**
 The loops of packages/async-rewriter2/src/runtime-support.nocov.js, each proved to compute the
 algorithm of the standard. The only thing asked of the array is what every JavaScript array has: a
 length below 2^32, so that `length >>> 0` is the length.
 */
module Polyfills {
  import opened Prelude
  import opened JsArrays

  const TWO_TO_THE_32: nat := 0x1_0000_0000

  /** `n >>> 0` */
  function ToUint32(n: nat): nat {
    n % TWO_TO_THE_32
  }

  method ForEach<S>(s: S, o: JsArray, callback: Callback<S>) returns (r: Outcome<S, Value>)
    requires o.length < TWO_TO_THE_32
    ensures r == EcmaForEach(s, o, callback)
  {
    var len := ToUint32(o.length);
    var t, p, k := s, o, 0;
    while k < len
      invariant k <= len
      invariant Walk(t, p, k, len, false, Undefined, callback, ForEachStep, Same<Value>) == EcmaForEach(s, o, callback)
    {
      if HasProperty(p, k) {
        var kValue := Get(p, k);
        match callback(t, p, kValue, k) {
          case Threw(t', p', e) => return Abrupt(t', p', e);
          case Returned(t', p', _) => t, p := t', p';
        }
      }
      k := k + 1;
    }
    return Normal(t, p, Undefined);
  }

  method Map<S>(s: S, o: JsArray, callback: Callback<S>) returns (r: Outcome<S, JsArray>)
    requires o.length < TWO_TO_THE_32
    ensures r == EcmaMap(s, o, callback)
  {
    var len := ToUint32(o.length);
    var t, p, k := s, o, 0;
    var a := JsArray(len, map[]);
    while k < len
      invariant k <= len
      invariant Walk(t, p, k, len, false, a, callback, MapStep, Same<JsArray>) == EcmaMap(s, o, callback)
    {
      if HasProperty(p, k) {
        var kValue := Get(p, k);
        match callback(t, p, kValue, k) {
          case Threw(t', p', e) => return Abrupt(t', p', e);
          case Returned(t', p', mappedValue) =>
            t, p := t', p';
            a := Put(a, k, mappedValue);
        }
      }
      k := k + 1;
    }
    return Normal(t, p, a);
  }

  method HasSome<S>(s: S, o: JsArray, fun: Callback<S>) returns (r: Outcome<S, bool>)
    requires o.length < TWO_TO_THE_32
    ensures r == EcmaSome(s, o, fun)
  {
    var len := ToUint32(o.length);
    var t, p := s, o;
    for i := 0 to len
      invariant Walk(t, p, i, len, false, false, fun, SomeStep, Same<bool>) == EcmaSome(s, o, fun)
    {
      if HasProperty(p, i) {
        match fun(t, p, Get(p, i), i) {
          case Threw(t', p', e) => return Abrupt(t', p', e);
          case Returned(t', p', found) =>
            t, p := t', p';
            if ToBoolean(found) {
              return Normal(t, p, true);
            }
        }
      }
    }
    return Normal(t, p, false);
  }

  method Every<S>(s: S, o: JsArray, callback: Callback<S>) returns (r: Outcome<S, bool>)
    requires o.length < TWO_TO_THE_32
    ensures r == EcmaEvery(s, o, callback)
  {
    var len := ToUint32(o.length);
    var t, p, k := s, o, 0;
    while k < len
      invariant k <= len
      invariant Walk(t, p, k, len, false, true, callback, EveryStep, Same<bool>) == EcmaEvery(s, o, callback)
    {
      if HasProperty(p, k) {
        var kValue := Get(p, k);
        match callback(t, p, kValue, k) {
          case Threw(t', p', e) => return Abrupt(t', p', e);
          case Returned(t', p', testResult) =>
            t, p := t', p';
            if !ToBoolean(testResult) {
              return Normal(t, p, false);
            }
        }
      }
      k := k + 1;
    }
    return Normal(t, p, true);
  }

  /** `res[c++] = kValue` into a preallocated array that is cut to `c` at the end. */
  method Filter<S>(s: S, o: JsArray, func: Callback<S>) returns (r: Outcome<S, JsArray>)
    requires o.length < TWO_TO_THE_32
    ensures r == EcmaFilter(s, o, func)
  {
    var len := ToUint32(o.length);
    var t, p, i, c := s, o, 0, 0;
    var res := JsArray(len, map[]);
    while i != len
      invariant c <= i <= len == res.length && forall j :: j in res.elements ==> j < c
      invariant Walk(t, p, i, len, false, JsArray(c, res.elements), func, FilterStep, Same<JsArray>)
             == EcmaFilter(s, o, func)
      decreases len - i
    {
      if HasProperty(p, i) {
        var kValue := Get(p, i);
        match func(t, p, kValue, i) {
          case Threw(t', p', e) => return Abrupt(t', p', e);
          case Returned(t', p', keep) =>
            t, p := t', p';
            if ToBoolean(keep) {
              res := Put(res, c, kValue);
              c := c + 1;
            }
        }
      }
      i := i + 1;
    }
    ghost var kept := res.elements;
    res := JsArray(c, map j | j in res.elements && j < c :: res.elements[j]);
    assert res.elements == kept;
    return Normal(t, p, res);
  }

  method Find<S>(s: S, o: JsArray, test: Callback<S>) returns (r: Outcome<S, Value>)
    requires o.length < TWO_TO_THE_32
    ensures r == EcmaFind(s, o, test)
  {
    var len := ToUint32(o.length);
    var t, p, k := s, o, 0;
    while k < len
      invariant k <= len
      invariant Walk(t, p, k, len, true, Undefined, test, FindStep, Same<Value>) == EcmaFind(s, o, test)
    {
      var kValue := Get(p, k);
      match test(t, p, kValue, k) {
        case Threw(t', p', e) => return Abrupt(t', p', e);
        case Returned(t', p', found) =>
          t, p := t', p';
          if ToBoolean(found) {
            return Normal(t, p, kValue);
          }
      }
      k := k + 1;
    }
    return Normal(t, p, Undefined);
  }

  method FindIndex<S>(s: S, o: JsArray, test: Callback<S>) returns (r: Outcome<S, int>)
    requires o.length < TWO_TO_THE_32
    ensures r == EcmaFindIndex(s, o, test)
  {
    var len := ToUint32(o.length);
    var t, p, k := s, o, 0;
    while k < len
      invariant k <= len
      invariant Walk(t, p, k, len, true, -1, test, FindIndexStep, Same<int>) == EcmaFindIndex(s, o, test)
    {
      var kValue := Get(p, k);
      match test(t, p, kValue, k) {
        case Threw(t', p', e) => return Abrupt(t', p', e);
        case Returned(t', p', found) =>
          t, p := t', p';
          if ToBoolean(found) {
            return Normal(t, p, k);
          }
      }
      k := k + 1;
    }
    return Normal(t, p, -1);
  }

  method ReduceLeft<S>(s: S, o: JsArray, callback: Reducer<S>, initial: Option<Value>) returns (r: Outcome<S, Value>)
    requires o.length < TWO_TO_THE_32
    ensures r == EcmaReduce(s, o, callback, initial)
  {
    var len := ToUint32(o.length);
    var t, p, k := s, o, 0;
    var value;
    if initial.Some? {
      value := initial.value;
    } else {
      while k < len && !HasProperty(o, k)
        invariant k <= len && FirstPresent(o, k, len) == FirstPresent(o, 0, len)
      {
        k := k + 1;
      }
      if k >= len {
        return Abrupt(s, o, TypeError);
      }
      value := Get(o, k);
      k := k + 1;
    }
    while k < len
      invariant k <= len && Reduce(t, p, k, len, value, callback) == EcmaReduce(s, o, callback, initial)
    {
      if HasProperty(p, k) {
        match callback(t, p, value, Get(p, k), k) {
          case Threw(t', p', e) => return Abrupt(t', p', e);
          case Returned(t', p', next) => t, p, value := t', p', next;
        }
      }
      k := k + 1;
    }
    return Normal(t, p, value);
  }

  method ReduceFromRight<S>(s: S, o: JsArray, callback: Reducer<S>, initial: Option<Value>)
      returns (r: Outcome<S, Value>)
    requires o.length < TWO_TO_THE_32
    ensures r == EcmaReduceRight(s, o, callback, initial)
  {
    var len := ToUint32(o.length);
    var t, p := s, o;
    var k := len as int - 1;
    var value;
    if initial.Some? {
      value := initial.value;
    } else {
      while k >= 0 && !HasProperty(o, k)
        invariant -1 <= k < len && LastPresent(o, k + 1) == LastPresent(o, len)
      {
        k := k - 1;
      }
      if k < 0 {
        return Abrupt(s, o, TypeError);
      }
      value := Get(o, k);
      k := k - 1;
    }
    while k >= 0
      invariant -1 <= k < len && ReduceRight(t, p, k + 1, value, callback) == EcmaReduceRight(s, o, callback, initial)
    {
      if HasProperty(p, k) {
        match callback(t, p, value, Get(p, k), k) {
          case Threw(t', p', e) => return Abrupt(t', p', e);
          case Returned(t', p', next) => t, p, value := t', p', next;
        }
      }
      k := k - 1;
    }
    return Normal(t, p, value);
  }

  /** `map` and then the built-in `flat`. */
  method FlatMap<S>(s: S, o: JsArray, callback: Callback<S>) returns (r: Outcome<S, JsArray>)
    requires o.length < TWO_TO_THE_32
    ensures r == EcmaFlatMap(s, o, callback)
  {
    var mapped := Map(s, o, callback);
    FlatMapIsMapThenFlat(s, o, callback);
    return FlatOutcome(mapped);
  }
}
