/**
 The evaluate/interrupt protocol of packages/node-runtime-worker-thread (src/worker-runtime.ts and
 src/lock.ts) as event-loop steps. Messages are macrotasks; the continuation of `await
 Promise.race(...)` is a microtask, a few promise hops away, and the queue of microtasks drains
 before the next message.
 */
module EvaluationLock {
  import opened Prelude

  /** What the race was won by: the lock, or the evaluation itself. */
  datatype Winner = Unlocked | Undefined | Result(value: int) | Rejected(error: int)

  /** How the call to `evaluate` settles. */
  datatype Outcome = Busy | Value(value: int) | Failed(error: int) | AsyncInterrupted | SyncInterrupted

  datatype Phase = Awaiting | Won(winner: Winner) | Done(outcome: Outcome)

  /** How the synchronous part of the user's code ended. */
  datatype Ending = Returned | Threw(error: int) | Killed

  datatype Microtask = Microtask(call: nat, winner: Winner, hops: nat)

  datatype State = State(
    lock: Option<nat>,
    calls: seq<Phase>,
    micro: seq<Microtask>,
    settled: seq<(nat, Outcome)>,
    hit: set<nat>,
    hops: nat)

  datatype Step =
    | Evaluate(ending: Ending)
    | Interrupt
    | Settle(call: nat, winner: Winner)
    | RunMicrotask

  /** The race of a call is won at most once, and its continuation is queued. */
  function Win(s: State, call: nat, winner: Winner): State {
    if call < |s.calls| && s.calls[call].Awaiting?
    then s.(calls := s.calls[call := Won(winner)], micro := s.micro + [Microtask(call, winner, s.hops)])
    else s
  }

  /** Unlocking resolves the promise that the owner of the lock is racing. */
  function Freed(s: State): State {
    if s.lock.None? then s else Win(s.(lock := None), s.lock.value, Unlocked)
  }

  function Finish(s: State, call: nat, outcome: Outcome): State
    requires call < |s.calls|
  {
    s.(calls := s.calls[call := Done(outcome)], settled := s.settled + [(call, outcome)])
  }

  function OutcomeOf(winner: Winner): Outcome {
    match winner
    case Unlocked => AsyncInterrupted
    case Undefined => SyncInterrupted
    case Result(v) => Value(v)
    case Rejected(e) => Failed(e)
  }

  function Next(s: State, step: Step): State {
    match step
    case Evaluate(ending) =>
      var n := |s.calls|;
      var t := s.(calls := s.calls + [Awaiting]);
      if s.lock.Some? then Finish(t, n, Busy)
      else if ending.Threw? then Finish(t, n, Failed(ending.error))
      else if ending.Returned? then t.(lock := Some(n))
      else Win(t.(lock := Some(n)), n, Undefined)
    case Interrupt => if s.lock.Some? then Freed(s).(hit := s.hit + {s.lock.value}) else s
    case Settle(call, winner) => Win(s, call, winner)
    case RunMicrotask =>
      if s.micro == [] then s
      else
        var m := s.micro[0];
        var t := s.(micro := s.micro[1..]);
        if m.hops > 0 then t.(micro := t.micro + [m.(hops := m.hops - 1)])
        else if m.call < |s.calls| then Finish(Freed(t), m.call, OutcomeOf(m.winner)) else t
  }

  /** A message is handled only when no microtask is waiting; the race is not won by a token of the user's. */
  predicate Ordered(s: State, step: Step) {
    match step
    case Evaluate(_) => s.micro == []
    case Interrupt => s.micro == []
    case Settle(_, winner) => winner != Unlocked
    case RunMicrotask => true
  }

  predicate OrderedRun(s: State, steps: seq<Step>)
    decreases |steps|
  {
    steps == [] || (Ordered(s, steps[0]) && OrderedRun(Next(s, steps[0]), steps[1..]))
  }

  function Run(s: State, steps: seq<Step>): State
    decreases |steps|
  {
    if steps == [] then s else Run(Next(s, steps[0]), steps[1..])
  }

  function Initial(hops: nat): State {
    State(None, [], [], [], {}, hops)
  }

  // ---------- the invariant ----------

  /** How often a call appears among the settlements. */
  function Settlements(settled: seq<(nat, Outcome)>, call: nat): nat {
    if settled == [] then 0
    else Settlements(settled[..|settled| - 1], call) + (if settled[|settled| - 1].0 == call then 1 else 0)
  }

  /** An interrupted call is on its way to saying so, and no other call is. */
  predicate HitMatches(s: State, call: nat)
    requires call < |s.calls|
  {
    call in s.hit <==> s.calls[call] == Won(Unlocked) || s.calls[call] == Done(AsyncInterrupted)
  }

  predicate SettledMatches(s: State, call: nat)
    requires call < |s.calls|
  {
    Settlements(s.settled, call) == if s.calls[call].Done? then 1 else 0
  }

  ghost predicate Valid(s: State) {
    && (forall i :: 0 <= i < |s.calls| ==> HitMatches(s, i) && SettledMatches(s, i))
    && (forall i :: i in s.hit ==> i < |s.calls|)
    && (forall k :: 0 <= k < |s.settled| ==>
          && s.settled[k].0 < |s.calls| && s.calls[s.settled[k].0] == Done(s.settled[k].1))
    && (forall i :: 0 <= i < |s.calls| && s.calls[i].Awaiting? ==> s.lock == Some(i))
    && (s.lock.Some? ==> s.lock.value < |s.calls| && !s.calls[s.lock.value].Done?)
    && |s.micro| <= 1
    && (s.micro == [] ==>
          && (forall i :: 0 <= i < |s.calls| ==> !s.calls[i].Won?)
          && (s.lock.Some? ==> s.calls[s.lock.value].Awaiting?))
    && (s.micro != [] ==>
          var m := s.micro[0];
          && m.call < |s.calls| && s.calls[m.call] == Won(m.winner)
          && (forall i :: 0 <= i < |s.calls| && i != m.call ==> s.calls[i].Done?)
          && s.lock == if m.winner.Unlocked? then None else Some(m.call))
  }

  lemma SettlementsSnoc(settled: seq<(nat, Outcome)>, call: nat, outcome: Outcome, other: nat)
    ensures Settlements(settled + [(call, outcome)], other) ==
            Settlements(settled, other) + (if call == other then 1 else 0)
  {
    assert (settled + [(call, outcome)])[..|settled|] == settled;
  }

  lemma {:induction false} NeverSettled(settled: seq<(nat, Outcome)>, call: nat)
    requires forall k :: 0 <= k < |settled| ==> settled[k].0 != call
    ensures Settlements(settled, call) == 0
    decreases |settled|
  {
    if settled != [] {
      NeverSettled(settled[..|settled| - 1], call);
    }
  }

  /** A call that settles on the spot changes nothing for the others. */
  lemma RefusalKeepsValid(s: State, outcome: Outcome)
    requires Valid(s) && s.micro == [] && outcome != AsyncInterrupted
    ensures Valid(Finish(s.(calls := s.calls + [Awaiting]), |s.calls|, outcome))
  {
    var n := |s.calls|;
    var t := Finish(s.(calls := s.calls + [Awaiting]), n, outcome);
    assert t.calls == s.calls + [Done(outcome)];
    NeverSettled(s.settled, n);
    forall i | 0 <= i < |t.calls| ensures HitMatches(t, i) && SettledMatches(t, i) {
      SettlementsSnoc(s.settled, n, outcome, i);
      if i < n {
        assert HitMatches(s, i) && SettledMatches(s, i);
      }
    }
  }

  /** A call that takes the lock, awaiting or with its race already won by `undefined`. */
  lemma LockKeepsValid(s: State, ending: Ending)
    requires Valid(s) && s.micro == [] && s.lock.None? && !ending.Threw?
    ensures Valid(Next(s, Evaluate(ending)))
  {
    var n := |s.calls|;
    var t := Next(s, Evaluate(ending));
    assert t.calls == s.calls + [if ending.Returned? then Awaiting else Won(Undefined)];
    NeverSettled(s.settled, n);
    forall i | 0 <= i < |t.calls| ensures HitMatches(t, i) && SettledMatches(t, i) {
      if i < n {
        assert HitMatches(s, i) && SettledMatches(s, i);
      }
    }
    assert forall i :: 0 <= i < n ==> s.calls[i].Done?;
  }

  lemma EvaluateKeepsValid(s: State, ending: Ending)
    requires Valid(s) && s.micro == []
    ensures Valid(Next(s, Evaluate(ending)))
  {
    if s.lock.Some? {
      RefusalKeepsValid(s, Busy);
    } else if ending.Threw? {
      RefusalKeepsValid(s, Failed(ending.error));
    } else {
      LockKeepsValid(s, ending);
    }
  }

  lemma WinKeepsValid(s: State, call: nat, winner: Winner)
    requires Valid(s) && winner != Unlocked
    ensures Valid(Win(s, call, winner))
  {
    var t := Win(s, call, winner);
    forall i | 0 <= i < |t.calls| ensures HitMatches(t, i) && SettledMatches(t, i) {
      assert HitMatches(s, i) && SettledMatches(s, i);
    }
  }

  lemma InterruptKeepsValid(s: State)
    requires Valid(s) && s.micro == []
    ensures Valid(Next(s, Interrupt))
  {
    var t := Next(s, Interrupt);
    forall i | 0 <= i < |t.calls| ensures HitMatches(t, i) && SettledMatches(t, i) {
      assert HitMatches(s, i) && SettledMatches(s, i);
    }
  }

  lemma MicrotaskKeepsValid(s: State)
    requires Valid(s)
    ensures Valid(Next(s, RunMicrotask))
  {
    if s.micro != [] {
      var m := s.micro[0];
      var t := Next(s, RunMicrotask);
      if m.hops > 0 {
        assert t == s.(micro := [m.(hops := m.hops - 1)]);
        forall i | 0 <= i < |t.calls| ensures HitMatches(t, i) && SettledMatches(t, i) {
          assert HitMatches(s, i) && SettledMatches(s, i);
        }
      } else {
        assert Freed(s.(micro := [])) == s.(micro := [], lock := None);
        assert s.micro[1..] == [];
        assert t == Finish(s.(micro := [], lock := None), m.call, OutcomeOf(m.winner));
        forall i | 0 <= i < |t.calls| ensures HitMatches(t, i) && SettledMatches(t, i) {
          assert HitMatches(s, i) && SettledMatches(s, i);
          SettlementsSnoc(s.settled, m.call, OutcomeOf(m.winner), i);
        }
      }
    }
  }

  lemma {:induction false} RunKeepsValid(s: State, steps: seq<Step>)
    requires Valid(s) && OrderedRun(s, steps)
    ensures Valid(Run(s, steps))
    decreases |steps|
  {
    if steps != [] {
      StepKeepsValid(s, steps[0]);
      RunKeepsValid(Next(s, steps[0]), steps[1..]);
    }
  }

  // ---------- the protocol's promises ----------

  /** Every run: one evaluation awaits at most, each call settles at most once, and once when it is over. */
  lemma AtMostOneAwaits(hops: nat, steps: seq<Step>)
    requires OrderedRun(Initial(hops), steps)
    ensures var s := Run(Initial(hops), steps);
            && (forall i, j :: 0 <= i < j < |s.calls| ==> !(s.calls[i].Awaiting? && s.calls[j].Awaiting?))
            && (forall i :: 0 <= i < |s.calls| ==>
                  Settlements(s.settled, i) == (if s.calls[i].Done? then 1 else 0))
            && (forall i :: 0 <= i < |s.calls| && s.calls[i].Done? ==>
                  (s.calls[i].outcome == AsyncInterrupted <==> i in s.hit))
  {
    RunKeepsValid(Initial(hops), steps);
    var s := Run(Initial(hops), steps);
    forall i | 0 <= i < |s.calls|
      ensures Settlements(s.settled, i) == (if s.calls[i].Done? then 1 else 0)
      ensures s.calls[i].Done? ==> (s.calls[i].outcome == AsyncInterrupted <==> i in s.hit)
    {
      assert SettledMatches(s, i) && HitMatches(s, i);
    }
  }

  /** A call keeps its phase, or its race was won and it settles as the winner says. */
  predicate Answers(p: Phase, q: Phase) {
    || q == p
    || (p.Won? && q.Done? &&
        match p.winner
        case Result(v) => q.outcome == Value(v)
        case Rejected(e) => q.outcome == Failed(e)
        case Undefined => q.outcome == SyncInterrupted
        case Unlocked => q.outcome == AsyncInterrupted)
  }

  lemma StepAnswers(s: State, step: Step, call: nat)
    requires Valid(s) && Ordered(s, step) && call < |s.calls| && !s.calls[call].Awaiting?
    ensures call < |Next(s, step).calls| && Answers(s.calls[call], Next(s, step).calls[call])
  {
    if step == RunMicrotask && s.micro != [] && s.micro[0].hops == 0 {
      assert Freed(s.(micro := s.micro[1..])) == s.(micro := [], lock := None);
    }
  }

  lemma StepKeepsValid(s: State, step: Step)
    requires Valid(s) && Ordered(s, step)
    ensures Valid(Next(s, step))
  {
    match step {
      case Evaluate(ending) => EvaluateKeepsValid(s, ending);
      case Interrupt => InterruptKeepsValid(s);
      case Settle(call, winner) => WinKeepsValid(s, call, winner);
      case RunMicrotask => MicrotaskKeepsValid(s);
    }
  }

  lemma {:induction false} RunAnswers(s: State, steps: seq<Step>, call: nat)
    requires Valid(s) && OrderedRun(s, steps) && call < |s.calls| && !s.calls[call].Awaiting?
    ensures call < |Run(s, steps).calls| && Answers(s.calls[call], Run(s, steps).calls[call])
    decreases |steps|
  {
    if steps != [] {
      StepAnswers(s, steps[0], call);
      StepKeepsValid(s, steps[0]);
      RunAnswers(Next(s, steps[0]), steps[1..], call);
    }
  }

  /**
   In every run: a call that awaits, and whose race this step wins, settles as what the step brought.
   A result is answered with its value, a rejection is let through, an interrupt says so.
   */
  lemma WinnerIsAnswered(hops: nat, before: seq<Step>, step: Step, after: seq<Step>, call: nat)
    requires OrderedRun(Initial(hops), before)
    requires var s := Run(Initial(hops), before);
             && call < |s.calls| && s.calls[call].Awaiting?
             && (step == Interrupt || (step.Settle? && step.call == call))
             && Ordered(s, step) && OrderedRun(Next(s, step), after)
    ensures var t := Run(Next(Run(Initial(hops), before), step), after);
            && call < |t.calls| && !t.calls[call].Awaiting?
            && (t.calls[call].Done? ==>
                  t.calls[call].outcome ==
                  if step == Interrupt then AsyncInterrupted
                  else match step.winner
                       case Result(v) => Value(v)
                       case Rejected(e) => Failed(e)
                       case _ => SyncInterrupted)
  {
    var s := Run(Initial(hops), before);
    RunKeepsValid(Initial(hops), before);
    StepKeepsValid(s, step);
    assert s.lock == Some(call);
    RunAnswers(Next(s, step), after, call);
  }

  /**
   In every run: a new call is refused while another one awaits, and fails as its code did; one that
   was killed in the middle of its synchronous part says so once it is done.
   */
  lemma NewCallIsAnswered(hops: nat, before: seq<Step>, ending: Ending, after: seq<Step>)
    requires OrderedRun(Initial(hops), before)
    requires var s := Run(Initial(hops), before);
             s.micro == [] && OrderedRun(Next(s, Evaluate(ending)), after)
    ensures var s := Run(Initial(hops), before); var call := |s.calls|;
            var t := Run(Next(s, Evaluate(ending)), after);
            && call < |t.calls|
            && ((exists i :: 0 <= i < call && s.calls[i].Awaiting?) ==> t.calls[call] == Done(Busy))
            && ((forall i :: 0 <= i < call ==> !s.calls[i].Awaiting?) ==>
                  && (ending.Threw? ==> t.calls[call] == Done(Failed(ending.error)))
                  && (ending.Killed? && t.calls[call].Done? ==> t.calls[call].outcome == SyncInterrupted)
                  && (ending.Killed? ==> !t.calls[call].Awaiting?)
                  && (ending.Returned? ==> Next(s, Evaluate(ending)).calls[call].Awaiting?))
  {
    var s := Run(Initial(hops), before);
    RunKeepsValid(Initial(hops), before);
    LockedIffAwaiting(s);
    EvaluateKeepsValid(s, ending);
    if !Next(s, Evaluate(ending)).calls[|s.calls|].Awaiting? {
      RunAnswers(Next(s, Evaluate(ending)), after, |s.calls|);
    } else {
      StaysOnBoard(Next(s, Evaluate(ending)), after);
    }
  }

  lemma {:induction false} StaysOnBoard(s: State, steps: seq<Step>)
    ensures |s.calls| <= |Run(s, steps).calls|
    decreases |steps|
  {
    if steps != [] {
      StaysOnBoard(Next(s, steps[0]), steps[1..]);
    }
  }

  /** `interrupt` returns true exactly when an evaluation is awaiting its result. */
  predicate InterruptReturns(s: State) {
    s.lock.Some?
  }

  lemma LockedIffAwaiting(s: State)
    requires Valid(s) && s.micro == []
    ensures s.lock.Some? <==> exists i :: 0 <= i < |s.calls| && s.calls[i].Awaiting?
  {
    if s.lock.Some? {
      assert s.calls[s.lock.value].Awaiting?;
    }
  }

  lemma InterruptReturnsIffAwaiting(hops: nat, steps: seq<Step>)
    requires OrderedRun(Initial(hops), steps) && Run(Initial(hops), steps).micro == []
    ensures var s := Run(Initial(hops), steps);
            InterruptReturns(s) <==> exists i :: 0 <= i < |s.calls| && s.calls[i].Awaiting?
  {
    RunKeepsValid(Initial(hops), steps);
    LockedIffAwaiting(Run(Initial(hops), steps));
  }

  /** A call is refused exactly when another one is awaiting. */
  lemma BusyIffAwaiting(hops: nat, steps: seq<Step>, ending: Ending)
    requires OrderedRun(Initial(hops), steps) && Run(Initial(hops), steps).micro == []
    ensures var s := Run(Initial(hops), steps);
            Next(s, Evaluate(ending)).calls[|s.calls|] == Done(Busy) <==>
            exists i :: 0 <= i < |s.calls| && s.calls[i].Awaiting?
  {
    RunKeepsValid(Initial(hops), steps);
    LockedIffAwaiting(Run(Initial(hops), steps));
  }

  lemma UnlocksOwn(s: State)
    requires Valid(s) && s.micro != []
    ensures s.lock == None || s.lock == Some(s.micro[0].call)
    ensures s.micro[0].hops == 0 ==>
              var t := Next(s, RunMicrotask);
              t.micro == [] && t.lock == None && forall i :: 0 <= i < |t.calls| ==> t.calls[i].Done?
  {
    if s.micro[0].hops == 0 {
      assert Freed(s.(micro := s.micro[1..])) == s.(micro := [], lock := None);
    }
  }

  /** The unlock in `finally` finds its own lock or none: it cannot free a later evaluation's. */
  lemma FinallyFreesOwnLockOnly(hops: nat, steps: seq<Step>)
    requires OrderedRun(Initial(hops), steps) && Run(Initial(hops), steps).micro != []
    ensures var s := Run(Initial(hops), steps);
            && (s.lock == None || s.lock == Some(s.micro[0].call))
            && (s.micro[0].hops == 0 ==>
                  var t := Next(s, RunMicrotask);
                  t.micro == [] && t.lock == None && forall i :: 0 <= i < |t.calls| ==> t.calls[i].Done?)
  {
    RunKeepsValid(Initial(hops), steps);
    UnlocksOwn(Run(Initial(hops), steps));
  }

  /** Draining takes as many microtasks as there are hops, and then everything has settled. */
  lemma {:induction false} DrainSettles(s: State, hops: nat)
    requires Valid(s) && s.micro != [] && s.micro[0].hops == hops
    ensures var steps := seq(hops + 1, _ => RunMicrotask);
            OrderedRun(s, steps) && Run(s, steps).micro == [] &&
            forall i :: 0 <= i < |Run(s, steps).calls| ==> Run(s, steps).calls[i].Done?
    decreases hops
  {
    var steps := seq(hops + 1, _ => RunMicrotask);
    assert steps[1..] == seq(hops, _ => RunMicrotask);
    UnlocksOwn(s);
    MicrotaskKeepsValid(s);
    if hops > 0 {
      DrainSettles(Next(s, RunMicrotask), hops - 1);
    }
  }

  /**
   The order of the event loop is what this rests on: were a message handled before the microtasks
   drained, the continuation of an interrupted evaluation would interrupt the next one.
   */
  lemma EarlyMessageFreesLaterLock()
    ensures var s := Run(Initial(0), [Evaluate(Returned), Interrupt, Evaluate(Returned), RunMicrotask]);
            s.lock == None && s.calls[1] == Won(Unlocked) && 1 !in s.hit
    ensures !OrderedRun(Initial(0), [Evaluate(Returned), Interrupt, Evaluate(Returned), RunMicrotask])
  {
    var s0 := Initial(0);
    var s1 := Next(s0, Evaluate(Returned));
    var s2 := Next(s1, Interrupt);
    var s3 := Next(s2, Evaluate(Returned));
    assert s3.micro == [Microtask(0, Unlocked, 0)] && s3.lock == Some(1);
    var s4 := Next(s3, RunMicrotask);
    var steps := [Evaluate(Returned), Interrupt, Evaluate(Returned), RunMicrotask];
    assert steps[1..] == [Interrupt, Evaluate(Returned), RunMicrotask];
    assert steps[1..][1..] == [Evaluate(Returned), RunMicrotask];
    assert steps[1..][1..][1..] == [RunMicrotask];
    assert Run(s3, [RunMicrotask]) == s4 by { assert [RunMicrotask][1..] == []; }
    assert Run(s2, steps[1..][1..]) == s4;
    assert Run(s1, steps[1..]) == s4;
  }

  // ---------- the two classes ----------

  /** src/lock.ts. A promise is named after the call that races it. */
  class Lock {
    var promise: Option<nat>
    var resolve: Option<nat>

    ghost predicate Valid()
      reads this
    {
      promise == resolve
    }

    constructor ()
      ensures Valid() && promise == None
    {
      promise, resolve := None, None;
    }

    method DoLock(call: nat) returns (ok: bool)
      requires Valid()
      modifies this
      ensures Valid() && ok == old(promise).None?
      ensures promise == if ok then Some(call) else old(promise)
    {
      if IsLocked() {
        return false;
      }
      promise := Some(call);
      resolve := Some(call);
      return true;
    }

    /** The result says whether there was something to unlock, and whose promise resolved. */
    method DoUnlock() returns (ok: bool, resolved: Option<nat>)
      requires Valid()
      modifies this
      ensures Valid() && promise == None
      ensures resolved == old(promise) && ok == resolved.Some?
    {
      resolved := resolve;
      if resolved.Some? {
        promise, resolve := None, None;
        return true, resolved;
      }
      return false, resolved;
    }

    predicate IsLocked()
      reads this
    {
      promise.Some?
    }
  }

  /** src/worker-runtime.ts, with the event loop's bookkeeping of calls and microtasks beside it. */
  class WorkerRuntime {
    const evaluationLock: Lock
    var calls: seq<Phase>
    var micro: seq<Microtask>
    var settled: seq<(nat, Outcome)>
    ghost var hit: set<nat>
    const hops: nat
    var requireCache: set<string>

    ghost function View(): State
      reads this, evaluationLock
    {
      State(evaluationLock.promise, calls, micro, settled, hit, hops)
    }

    constructor (hops: nat)
      ensures evaluationLock.Valid() && fresh(evaluationLock) && View() == Initial(hops)
    {
      this.hops := hops;
      calls, micro, settled, hit, requireCache := [], [], [], {}, {};
      evaluationLock := new Lock();
    }

    method Race(call: nat, winner: Winner)
      modifies `calls, `micro
      ensures View() == Win(old(View()), call, winner)
    {
      if call < |calls| && calls[call].Awaiting? {
        calls := calls[call := Won(winner)];
        micro := micro + [Microtask(call, winner, hops)];
      }
    }

    method Unlock() returns (ok: bool)
      requires evaluationLock.Valid()
      modifies `calls, `micro, evaluationLock
      ensures evaluationLock.Valid() && ok == old(evaluationLock.promise).Some?
      ensures View() == Freed(old(View()))
    {
      var resolved;
      ok, resolved := evaluationLock.DoUnlock();
      if resolved.Some? {
        Race(resolved.value, Unlocked);
      }
    }

    /** `evaluate` up to its `await`; `cached` is the `require` cache as the user's code leaves it. */
    method Evaluate(ending: Ending, cached: set<string>)
      requires evaluationLock.Valid()
      modifies this, evaluationLock
      ensures evaluationLock.Valid() && View() == Next(old(View()), Step.Evaluate(ending))
      ensures requireCache == if old(evaluationLock.promise).Some? then old(requireCache)
                              else if ending.Killed? then cached * old(requireCache)
                              else cached
    {
      var call := |calls|;
      calls := calls + [Awaiting];
      if evaluationLock.IsLocked() {
        Complete(call, Busy);
        return;
      }
      var previousRequireCache := requireCache;
      requireCache := cached;
      if ending.Killed? {
        RestoreRequireCache(previousRequireCache);
      }
      if ending.Threw? {
        Complete(call, Failed(ending.error));
        return;
      }
      var ok := evaluationLock.DoLock(call);
      if ending.Killed? {
        Race(call, Undefined);
      }
    }

    /** Nobody knows which modules were loaded completely: forget all that are new. */
    method RestoreRequireCache(previous: set<string>)
      modifies `requireCache
      ensures requireCache == old(requireCache) * previous
    {
      var keys := requireCache;
      while keys != {}
        invariant old(requireCache) * previous <= requireCache <= old(requireCache)
        invariant requireCache <= previous + keys
        decreases |keys|
      {
        var key :| key in keys;
        if key !in previous {
          requireCache := requireCache - {key};
        }
        keys := keys - {key};
      }
    }

    method Complete(call: nat, outcome: Outcome)
      requires call < |calls|
      modifies `calls, `settled
      ensures View() == Finish(old(View()), call, outcome)
    {
      calls := calls[call := Done(outcome)];
      settled := settled + [(call, outcome)];
    }

    method Interrupt() returns (interrupted: bool)
      requires evaluationLock.Valid()
      modifies this, evaluationLock
      ensures evaluationLock.Valid() && interrupted == InterruptReturns(old(View()))
      ensures View() == Next(old(View()), Step.Interrupt)
    {
      ghost var owner := evaluationLock.promise;
      interrupted := Unlock();
      hit := hit + if owner.Some? then {owner.value} else {};
    }

    /** One microtask: a hop, or the rest of `evaluate` behind its `await`. */
    method RunMicrotask()
      requires evaluationLock.Valid()
      modifies this, evaluationLock
      ensures evaluationLock.Valid() && View() == Next(old(View()), Step.RunMicrotask)
    {
      if micro == [] {
        return;
      }
      var m := micro[0];
      micro := micro[1..];
      if m.hops > 0 {
        micro := micro + [m.(hops := m.hops - 1)];
      } else if m.call < |calls| {
        var _ := Unlock();
        Complete(m.call, OutcomeOf(m.winner));
      }
    }
  }
}
