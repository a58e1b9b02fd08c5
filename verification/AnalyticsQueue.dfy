/**
 The three-state queue in front of every telemetry target
 (packages/logging/src/analytics-helpers.ts): it holds events while paused, hands them on while
 enabled, and forgets them while disabled.
 */
module AnalyticsQueue {
  import opened Prelude

  datatype Mode = Paused | Enabled | Disabled

  datatype Op<T> = Push(value: T) | Enable | Disable | Pause

  /** What becomes of an event that is in the queue, or pushed, in a given mode. */
  datatype Fate = Applied | Dropped | Waiting

  class Queue<T> {
    var mode: Mode
    var queue: seq<T>
    /** The calls of the apply function so far. */
    var applied: seq<T>

    ghost predicate Valid()
      reads this
    {
      mode != Paused ==> queue == []
    }

    constructor ()
      ensures Valid() && mode == Paused && queue == [] && applied == []
    {
      mode, queue, applied := Paused, [], [];
    }

    method DoPush(value: T)
      requires Valid()
      modifies this
      ensures Valid() && mode == old(mode)
      ensures queue == old(queue) + (if mode == Paused then [value] else [])
      ensures applied == old(applied) + (if mode == Enabled then [value] else [])
    {
      match mode {
        case Paused => queue := queue + [value];
        case Enabled => applied := applied + [value];
        case Disabled =>
      }
    }

    method DoEnable()
      requires Valid()
      modifies this
      ensures Valid() && mode == Enabled && queue == []
      ensures applied == old(applied) + old(queue)
    {
      mode := Enabled;
      var pending := queue;
      queue := [];
      for i := 0 to |pending|
        invariant mode == Enabled && queue == [] && pending == old(queue)
        invariant applied == old(applied) + pending[..i]
      {
        applied := applied + [pending[i]];
      }
      assert pending[..|pending|] == pending;
    }

    method DoDisable()
      modifies this
      ensures Valid() && mode == Disabled && queue == [] && applied == old(applied)
    {
      mode, queue := Disabled, [];
    }

    method DoPause()
      modifies this
      ensures Valid() && mode == Paused && queue == old(queue) && applied == old(applied)
    {
      mode := Paused;
    }

    /** A whole run of calls ends with every event where its fate says it should be. */
    method Perform(ops: seq<Op<T>>)
      requires Valid()
      modifies this
      ensures Valid()
      ensures applied == old(applied)
                       + (if FateIn(old(mode), ops).Applied? then old(queue) else [])
                       + PushedWithFate(old(mode), ops, Applied)
      ensures queue == (if FateIn(old(mode), ops).Waiting? then old(queue) else [])
                     + PushedWithFate(old(mode), ops, Waiting)
    {
      ghost var model := Model(mode, queue, applied);
      for i := 0 to |ops|
        invariant Valid()
        invariant RunModel(Model(mode, queue, applied), ops[i..]) == RunModel(model, ops)
      {
        assert ops[i..][0] == ops[i] && ops[i..][1..] == ops[i + 1..];
        match ops[i] {
          case Push(v) => DoPush(v);
          case Enable => DoEnable();
          case Disable => DoDisable();
          case Pause => DoPause();
        }
      }
      assert ops[|ops|..] == [];
      FateDecides(model, ops);
    }
  }

  function NextMode<T>(mode: Mode, op: Op<T>): Mode {
    match op
    case Push(_) => mode
    case Enable => Enabled
    case Disable => Disabled
    case Pause => Paused
  }

  /** An event that is held meets the first call that decides: enable or disable. */
  function FateIn<T>(mode: Mode, ops: seq<Op<T>>): Fate
    decreases |ops|
  {
    if mode == Enabled then Applied
    else if mode == Disabled then Dropped
    else if ops == [] then Waiting
    else FateIn(NextMode(mode, ops[0]), ops[1..])
  }

  /** The pushed events that share a fate, in the order of the pushes. */
  function PushedWithFate<T>(mode: Mode, ops: seq<Op<T>>, fate: Fate): seq<T>
    decreases |ops|
  {
    if ops == [] then []
    else (if ops[0].Push? && FateIn(mode, ops[1..]) == fate then [ops[0].value] else [])
         + PushedWithFate(NextMode(mode, ops[0]), ops[1..], fate)
  }

  datatype Model<T> = Model(mode: Mode, queue: seq<T>, applied: seq<T>)

  function StepModel<T>(m: Model<T>, op: Op<T>): Model<T> {
    match op
    case Push(v) =>
      m.(queue := m.queue + (if m.mode == Paused then [v] else []),
         applied := m.applied + (if m.mode == Enabled then [v] else []))
    case Enable => Model(Enabled, [], m.applied + m.queue)
    case Disable => Model(Disabled, [], m.applied)
    case Pause => m.(mode := Paused)
  }

  function RunModel<T>(m: Model<T>, ops: seq<Op<T>>): Model<T>
    decreases |ops|
  {
    if ops == [] then m else RunModel(StepModel(m, ops[0]), ops[1..])
  }

  /** Where a run takes everything: what is held shares one fate, each pushed event has its own. */
  function AppliedBy<T>(m: Model<T>, ops: seq<Op<T>>): seq<T> {
    m.applied + (if FateIn(m.mode, ops).Applied? then m.queue else []) + PushedWithFate(m.mode, ops, Applied)
  }

  function WaitingAfter<T>(m: Model<T>, ops: seq<Op<T>>): seq<T> {
    (if FateIn(m.mode, ops).Waiting? then m.queue else []) + PushedWithFate(m.mode, ops, Waiting)
  }

  lemma StepKeepsApplied<T>(m: Model<T>, op: Op<T>, rest: seq<Op<T>>)
    requires m.mode != Paused ==> m.queue == []
    ensures AppliedBy(StepModel(m, op), rest) == AppliedBy(m, [op] + rest)
  {
    assert ([op] + rest)[1..] == rest;
    var fate := FateIn(m.mode, rest);
    if op.Push? {
      PushDecided(m, op.value, rest);
      Assoc(m.applied + (if fate.Applied? then m.queue else []), if fate.Applied? then [op.value] else [],
            PushedWithFate(m.mode, rest, Applied));
    } else if op.Enable? {
      Assoc(m.applied + m.queue, [], PushedWithFate(Enabled, rest, Applied));
    }
  }

  lemma StepKeepsWaiting<T>(m: Model<T>, op: Op<T>, rest: seq<Op<T>>)
    requires m.mode != Paused ==> m.queue == []
    ensures WaitingAfter(StepModel(m, op), rest) == WaitingAfter(m, [op] + rest)
  {
    assert ([op] + rest)[1..] == rest;
    var fate := FateIn(m.mode, rest);
    if op.Push? {
      PushDecided(m, op.value, rest);
      Assoc(if fate.Waiting? then m.queue else [], if fate.Waiting? then [op.value] else [],
            PushedWithFate(m.mode, rest, Waiting));
    }
  }

  /** First in, first out, nothing duplicated, and only what a disable forgot is lost. */
  lemma {:induction false} FateDecides<T>(m: Model<T>, ops: seq<Op<T>>)
    requires m.mode != Paused ==> m.queue == []
    ensures RunModel(m, ops).applied == AppliedBy(m, ops)
    ensures RunModel(m, ops).queue == WaitingAfter(m, ops)
    decreases |ops|
  {
    if ops != [] {
      assert [ops[0]] + ops[1..] == ops;
      StepKeepsApplied(m, ops[0], ops[1..]);
      StepKeepsWaiting(m, ops[0], ops[1..]);
      FateDecides(StepModel(m, ops[0]), ops[1..]);
    }
  }

  /** An event pushed in a mode shares the fate of what is held in it, and comes behind that. */
  lemma PushDecided<T>(m: Model<T>, v: T, rest: seq<Op<T>>)
    requires m.mode != Paused ==> m.queue == []
    ensures var n := StepModel(m, Push(v)); var fate := FateIn(m.mode, rest);
            && n.applied + (if fate.Applied? then n.queue else [])
               == m.applied + (if fate.Applied? then m.queue else []) + (if fate.Applied? then [v] else [])
            && (if fate.Waiting? then n.queue else [])
               == (if fate.Waiting? then m.queue else []) + (if fate.Waiting? then [v] else [])
  {
    Assoc(m.applied, m.queue, [v]);
    Assoc(m.applied, [v], []);
  }
}
