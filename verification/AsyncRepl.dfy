/**
 How the asynchronous evaluation of packages/cli-repl/src/async-repl.ts borrows the listeners, the
 prompt and the raw mode of a REPL, under evaluations that start while others are still awaited. The
 REPL is one started with `onAsyncSigint`.
 */
module AsyncRepl {
  import opened Prelude

  /**
   A raw listener. `Original` ones were there before; `once` tells whether firing removes it.
   `Sigint(k)` and `Exit(k)` are installed, with `once`, by the evaluation at depth `k`.
   */
  datatype Listener = Original(id: nat, once: bool) | Sigint(depth: nat) | Exit(depth: nat)

  type Listeners = seq<Listener>

  /**
   A stack of values: element `k` is what the evaluation at depth `k` found and will put back, the
   last one is the value now.
   */
  datatype Exits = Exits(lists: seq<Listeners>, pending: seq<bool>, ticks: nat, notified: seq<Listeners>)

  datatype Signals = Signals(lists: seq<Listeners>, armed: seq<bool>)

  datatype State = State(
    repl: seq<Listeners>,
    process: Signals,
    exits: Exits,
    prompts: seq<string>,
    raws: seq<bool>)

  datatype Step =
    | Enter
    | Arm(depth: nat)
    | Leave
    | ExitEvent
    | Tick
    | ReplSigint
    | ProcessSigint
    | SetPrompt(prompt: string)
    | SetRawMode(on: bool)

  function Depth(s: State): nat {
    |s.exits.pending|
  }

  predicate Sized(s: State) {
    |s.repl| == |s.process.lists| == |s.exits.lists| == |s.prompts| == |s.raws| == Depth(s) + 1
    && |s.process.armed| == Depth(s)
  }

  predicate Enabled(s: State, step: Step) {
    match step
    case Arm(k) => k < |s.process.armed| && !s.process.armed[k]
    case Leave => Depth(s) > 0
    case Tick => s.exits.ticks > 0
    case _ => true
  }

  // ---------- listener lists ----------

  /** Firing an event leaves the listeners that are not `once`. */
  function AfterEvent(ls: Listeners): Listeners {
    if ls == [] then []
    else (if ls[0].Original? && !ls[0].once then [ls[0]] else []) + AfterEvent(ls[1..])
  }

  /** `removeListener`: the most recently added one of that name, if any. */
  function Remove(ls: Listeners, l: Listener): Listeners {
    if ls == [] then []
    else if ls[|ls| - 1] == l then ls[..|ls| - 1]
    else Remove(ls[..|ls| - 1], l) + [ls[|ls| - 1]]
  }

  function Top(lists: seq<Listeners>): Listeners
    requires lists != []
  {
    lists[|lists| - 1]
  }

  function SetTop(lists: seq<Listeners>, ls: Listeners): seq<Listeners>
    requires lists != []
  {
    lists[|lists| - 1 := ls]
  }

  /** Take off one's own listener, and put the saved ones back behind what is left. */
  function Restore(lists: seq<Listeners>, own: Listener): seq<Listeners>
    requires |lists| >= 2
  {
    SetTop(lists[..|lists| - 1], Remove(Top(lists), own) + lists[|lists| - 2])
  }

  // ---------- one step, component by component ----------

  function NextRepl(lists: seq<Listeners>, step: Step): seq<Listeners>
    requires lists != [] && (step.Leave? ==> |lists| >= 2)
  {
    match step
    case Enter => lists + [[Sigint(|lists| - 1)]]
    case Leave => Restore(lists, Sigint(|lists| - 2))
    case ReplSigint => SetTop(lists, AfterEvent(Top(lists)))
    case _ => lists
  }

  function NextProcess(p: Signals, step: Step): Signals
    requires |p.lists| == |p.armed| + 1 && (step.Leave? ==> p.armed != [])
    requires step.Arm? ==> step.depth < |p.armed|
  {
    match step
    case Enter => Signals(p.lists + [[]], p.armed + [false])
    case Arm(k) => Signals(SetTop(p.lists, Top(p.lists) + [Sigint(k)]), p.armed[k := true])
    case Leave => Signals(Restore(p.lists, Sigint(|p.armed| - 1)), p.armed[..|p.armed| - 1])
    case ProcessSigint => p.(lists := SetTop(p.lists, AfterEvent(Top(p.lists))))
    case _ => p
  }

  /** The exit listener of an evaluation notes the event; without an evaluation the originals hear it. */
  function Notify(e: Exits): Exits
    requires |e.lists| == |e.pending| + 1
  {
    var n := |e.pending|;
    var t := e.(lists := SetTop(e.lists, AfterEvent(Top(e.lists))));
    if n == 0 then t.(notified := e.notified + [Top(e.lists)])
    else if Exit(n - 1) in Top(e.lists) then t.(pending := e.pending[n - 1 := true])
    else t
  }

  function NextExits(e: Exits, step: Step): Exits
    requires |e.lists| == |e.pending| + 1 && (step.Leave? ==> e.pending != []) && (step.Tick? ==> e.ticks > 0)
  {
    match step
    case Enter => e.(lists := e.lists + [[Exit(|e.pending|)]], pending := e.pending + [false])
    case Leave =>
      var n := |e.pending| - 1;
      e.(lists := Restore(e.lists, Exit(n)), pending := e.pending[..n],
         ticks := if e.pending[n] then e.ticks + 1 else e.ticks)
    case ExitEvent => Notify(e)
    case Tick => Notify(e.(ticks := e.ticks - 1))
    case _ => e
  }

  function NextPrompts(ps: seq<string>, step: Step): seq<string>
    requires ps != [] && (step.Leave? ==> |ps| >= 2)
  {
    var n := |ps| - 1;
    match step
    case Enter => ps + [""]
    case Leave => if ps[n] == "" then ps[..n] else ps[..n - 1] + [ps[n]]
    case SetPrompt(p) => ps[n := p]
    case _ => ps
  }

  function NextRaws(rs: seq<bool>, step: Step): seq<bool>
    requires rs != [] && (step.Leave? ==> |rs| >= 2)
  {
    match step
    case Enter => rs + [false]
    case Leave => rs[..|rs| - 1]
    case SetRawMode(on) => rs[|rs| - 1 := on]
    case _ => rs
  }

  function Next(s: State, step: Step): (t: State)
    requires Sized(s) && Enabled(s, step)
    ensures Sized(t)
  {
    State(NextRepl(s.repl, step), NextProcess(s.process, step), NextExits(s.exits, step),
          NextPrompts(s.prompts, step), NextRaws(s.raws, step))
  }

  // ---------- removing and firing one's own listeners ----------

  predicate Distinct(ls: Listeners) {
    forall i, j :: 0 <= i < j < |ls| ==> ls[i] != ls[j]
  }

  ghost predicate Apart(a: Listeners, b: Listeners) {
    forall x :: x in a ==> x !in b
  }

  lemma {:induction false} AfterEventOfOurs(ls: Listeners)
    requires forall x :: x in ls ==> !x.Original?
    ensures AfterEvent(ls) == []
    decreases |ls|
  {
    if ls != [] {
      assert ls[0] in ls && forall x :: x in ls[1..] ==> x in ls;
      AfterEventOfOurs(ls[1..]);
    }
  }

  lemma {:induction false} RemoveDistinct(ls: Listeners, l: Listener)
    requires Distinct(ls)
    ensures Distinct(Remove(ls, l))
    ensures forall x :: x in Remove(ls, l) <==> x in ls && x != l
    decreases |ls|
  {
    if ls != [] {
      var n := |ls| - 1;
      assert ls == ls[..n] + [ls[n]];
      RemoveDistinct(ls[..n], l);
      assert ls[n] !in ls[..n];
    }
  }

  lemma Joined(a: Listeners, b: Listeners)
    requires Distinct(a) && Distinct(b) && Apart(a, b)
    ensures Distinct(a + b) && forall x :: x in a + b <==> x in a || x in b
  {
    var ls := a + b;
    forall i, j | 0 <= i < j < |ls| ensures ls[i] != ls[j] {
      assert i < |a| ==> ls[i] in a;
      assert i >= |a| ==> ls[i] == b[i - |a|];
      assert j < |a| ==> ls[j] == a[j];
      assert j >= |a| ==> ls[j] in b && ls[j] == b[j - |a|];
    }
  }

  // ---------- the REPL's SIGINT listeners ----------

  /** Evaluation `k - 1` has its own listener there, unless a signal has used it up. */
  predicate ReplShape(lists: seq<Listeners>) {
    lists != [] && forall k :: 1 <= k < |lists| ==> lists[k] == [] || lists[k] == [Sigint(k - 1)]
  }

  lemma ReplKeepsShape(lists: seq<Listeners>, step: Step)
    requires ReplShape(lists) && |lists| >= 2
    ensures var t := NextRepl(lists, step); ReplShape(t) && t[0] == lists[0]
  {
    if step == ReplSigint {
      AfterEventOfOurs(Top(lists));
    } else if step == Leave {
      assert Remove(Top(lists), Sigint(|lists| - 2)) == [];
      assert [] + lists[|lists| - 2] == lists[|lists| - 2];
    }
  }

  // ---------- the SIGINT listeners of the process ----------

  /** Armed listeners of evaluations below depth `k`, none twice. */
  predicate Armed(ls: Listeners, k: nat, armed: seq<bool>) {
    Distinct(ls) && forall x :: x in ls ==> x.Sigint? && x.depth < k && x.depth < |armed| && armed[x.depth]
  }

  /**
   An evaluation arms its process listener after it has called the evaluator, which may have started
   others by then; so these lists can mix. Each listener is in one of them at most.
   */
  ghost predicate ProcessShape(p: Signals) {
    && |p.lists| == |p.armed| + 1
    && (forall k :: 1 <= k < |p.lists| ==> Armed(p.lists[k], k, p.armed))
    && (forall k, l :: 1 <= k < l < |p.lists| ==> Apart(p.lists[k], p.lists[l]))
  }

  lemma ArmKeepsShape(p: Signals, d: nat)
    requires ProcessShape(p) && d < |p.armed| && !p.armed[d]
    ensures var t := NextProcess(p, Arm(d)); ProcessShape(t) && t.lists[0] == p.lists[0]
  {
    var t := NextProcess(p, Arm(d));
    var n := |p.lists| - 1;
    assert Armed(p.lists[n], n, p.armed);
    assert forall x :: x in t.lists[n] <==> x in p.lists[n] || x == Sigint(d);
    forall k | 1 <= k <= n ensures Armed(t.lists[k], k, t.armed) {
      assert Armed(p.lists[k], k, p.armed);
    }
    forall k, l | 1 <= k < l <= n ensures Apart(t.lists[k], t.lists[l]) {
      assert Armed(p.lists[k], k, p.armed) && Apart(p.lists[k], p.lists[l]);
    }
  }

  lemma LeaveKeepsProcessShape(p: Signals)
    requires ProcessShape(p) && p.armed != []
    ensures var t := NextProcess(p, Leave); ProcessShape(t) && t.lists[0] == p.lists[0]
  {
    var t := NextProcess(p, Leave);
    var n := |p.lists| - 1;
    var kept := Remove(p.lists[n], Sigint(n - 1));
    assert Armed(p.lists[n], n, p.armed);
    RemoveDistinct(p.lists[n], Sigint(n - 1));
    assert forall k :: 0 <= k < n - 1 ==> t.lists[k] == p.lists[k];
    if n == 1 {
      if kept != [] {
        FirstIsMember(kept);
      }
      assert [] + p.lists[0] == p.lists[0];
    } else {
      assert Armed(p.lists[n - 1], n - 1, p.armed) && Apart(p.lists[n - 1], p.lists[n]);
      Joined(kept, p.lists[n - 1]);
      forall k | 1 <= k < n ensures Armed(t.lists[k], k, t.armed) {
        assert Armed(p.lists[k], k, p.armed);
      }
      forall k, l | 1 <= k < l < n ensures Apart(t.lists[k], t.lists[l]) {
        assert Apart(p.lists[k], p.lists[l]) && Apart(p.lists[k], p.lists[n]);
      }
    }
  }

  lemma FirstIsMember(ls: Listeners)
    requires ls != []
    ensures ls[0] in ls
  {}

  lemma ProcessKeepsShape(p: Signals, step: Step)
    requires ProcessShape(p) && p.armed != []
    requires step.Arm? ==> step.depth < |p.armed| && !p.armed[step.depth]
    ensures var t := NextProcess(p, step); ProcessShape(t) && t.lists[0] == p.lists[0]
  {
    var n := |p.lists| - 1;
    match step {
      case Enter =>
        var t := NextProcess(p, Enter);
        forall k | 1 <= k <= n ensures Armed(t.lists[k], k, t.armed) {
          assert Armed(p.lists[k], k, p.armed);
        }
      case Arm(k) => ArmKeepsShape(p, k);
      case Leave => LeaveKeepsProcessShape(p);
      case ProcessSigint =>
        assert Armed(p.lists[n], n, p.armed);
        AfterEventOfOurs(Top(p.lists));
      case _ =>
    }
  }

  // ---------- exit events ----------

  /** An exit listener is used up exactly when its evaluation has an exit event to pass on. */
  predicate ExitShape(e: Exits) {
    && |e.lists| == |e.pending| + 1
    && forall k :: 1 <= k < |e.lists| ==> e.lists[k] == if e.pending[k - 1] then [] else [Exit(k - 1)]
  }

  /** An exit event is on its way: some evaluation has it, or it is queued for the next tick. */
  predicate Deferred(e: Exits) {
    true in e.pending || e.ticks > 0
  }

  lemma NotifyDefers(e: Exits)
    requires ExitShape(e) && e.pending != []
    ensures var n := |e.pending| - 1;
            Notify(e) == e.(lists := SetTop(e.lists, []), pending := e.pending[n := true])
  {
    AfterEventOfOurs(Top(e.lists));
    assert e.pending == e.pending[|e.pending| - 1 := e.pending[|e.pending| - 1]];
  }

  lemma ExitsKeepShape(e: Exits, step: Step)
    requires ExitShape(e) && e.pending != [] && (step.Tick? ==> e.ticks > 0)
    ensures var t := NextExits(e, step);
            && ExitShape(t) && t.lists[0] == e.lists[0] && t.notified == e.notified
            && (Deferred(t) <==> Deferred(e) || step == ExitEvent)
  {
    var n := |e.pending| - 1;
    var t := NextExits(e, step);
    assert e.pending == e.pending[..n] + [e.pending[n]];
    match step {
      case ExitEvent =>
        NotifyDefers(e);
        assert t.pending[n];
      case Tick =>
        NotifyDefers(e.(ticks := e.ticks - 1));
        assert t.pending[n];
      case Leave =>
        assert Remove(Top(e.lists), Exit(n)) == [];
        assert [] + e.lists[n] == e.lists[n];
      case _ =>
    }
  }

  // ---------- whole runs ----------

  ghost predicate Shape(s: State) {
    Sized(s) && ReplShape(s.repl) && ProcessShape(s.process) && ExitShape(s.exits)
  }

  /** A run that stays inside the outermost evaluation until, perhaps, its last step. */
  predicate Inside(s: State, steps: seq<Step>)
    requires Sized(s)
    decreases |steps|
  {
    steps == [] || (Depth(s) > 0 && Enabled(s, steps[0]) && Inside(Next(s, steps[0]), steps[1..]))
  }

  function Run(s: State, steps: seq<Step>): (t: State)
    requires Sized(s) && Inside(s, steps)
    ensures Sized(t)
    decreases |steps|
  {
    if steps == [] then s else Run(Next(s, steps[0]), steps[1..])
  }

  /** The evaluated code does not set the prompt itself. */
  predicate LeavesPrompt(steps: seq<Step>) {
    forall i :: 0 <= i < |steps| ==> !steps[i].SetPrompt?
  }

  /** The prompt that counts: the innermost one that is not empty. */
  function Effective(ps: seq<string>): string
    requires ps != []
  {
    var n := |ps| - 1;
    if ps[n] != "" || n == 0 then ps[n] else Effective(ps[..n])
  }

  lemma PromptKept(ps: seq<string>, step: Step)
    requires |ps| >= 2 && !step.SetPrompt?
    ensures Effective(NextPrompts(ps, step)) == Effective(ps)
  {
    var n := |ps| - 1;
    if step == Enter {
      assert (ps + [""])[..n + 1] == ps;
    } else if step == Leave && ps[n] != "" {
      assert (ps[..n - 1] + [ps[n]])[n - 1] == ps[n];
    }
  }

  /** What the outermost evaluation will put back, and what reached the original exit listeners. */
  predicate SameUnderneath(s: State, t: State)
    requires Sized(s) && Sized(t)
  {
    && t.repl[0] == s.repl[0]
    && t.process.lists[0] == s.process.lists[0]
    && t.exits.lists[0] == s.exits.lists[0]
    && t.raws[0] == s.raws[0]
    && t.exits.notified == s.exits.notified
  }

  lemma StepKeepsShape(s: State, step: Step)
    requires Shape(s) && Depth(s) > 0 && Enabled(s, step)
    ensures Shape(Next(s, step)) && SameUnderneath(s, Next(s, step))
    ensures Deferred(Next(s, step).exits) <==> Deferred(s.exits) || step == ExitEvent
  {
    ReplKeepsShape(s.repl, step);
    ProcessKeepsShape(s.process, step);
    ExitsKeepShape(s.exits, step);
  }

  lemma {:induction false} RunKeepsShape(s: State, steps: seq<Step>)
    requires Shape(s) && Depth(s) > 0 && Inside(s, steps)
    ensures Shape(Run(s, steps)) && SameUnderneath(s, Run(s, steps))
    ensures Deferred(Run(s, steps).exits) <==> Deferred(s.exits) || ExitEvent in steps
    decreases |steps|
  {
    if steps != [] {
      var t := Next(s, steps[0]);
      StepKeepsShape(s, steps[0]);
      assert steps == [steps[0]] + steps[1..];
      if steps[1..] != [] {
        RunKeepsShape(t, steps[1..]);
      }
    }
  }

  /** While anything is being evaluated, no event reaches a listener that was there before. */
  lemma OriginalsAreOutOfReach(s: State)
    requires Shape(s) && Depth(s) > 0
    ensures forall x :: x in Top(s.repl) || x in Top(s.process.lists) || x in Top(s.exits.lists) ==> !x.Original?
  {
    var d := Depth(s);
    assert Armed(s.process.lists[d], d, s.process.armed);
  }

  lemma {:induction false} RunKeepsPrompt(s: State, steps: seq<Step>)
    requires Shape(s) && Depth(s) > 0 && Inside(s, steps)
    requires LeavesPrompt(steps)
    ensures Effective(Run(s, steps).prompts) == Effective(s.prompts)
    decreases |steps|
  {
    if steps != [] {
      PromptKept(s.prompts, steps[0]);
      StepKeepsShape(s, steps[0]);
      if steps[1..] != [] {
        RunKeepsPrompt(Next(s, steps[0]), steps[1..]);
      }
    }
  }

  /** Idle: nothing is being evaluated. */
  predicate Idle(s: State) {
    Sized(s) && Depth(s) == 0
  }

  lemma EnterShape(s: State)
    requires Idle(s)
    ensures var t := Next(s, Enter);
            && Shape(t) && Depth(t) == 1 && SameUnderneath(s, t)
            && (Deferred(t.exits) <==> s.exits.ticks > 0)
            && Effective(t.prompts) == Effective(s.prompts)
  {
    var t := Next(s, Enter);
    assert t.prompts[..1] == s.prompts;
    assert t.process.lists[1] == [] && t.exits.pending == [false];
  }

  lemma IdleIsUnderneath(s: State, t: State)
    requires Idle(s) && Idle(t) && SameUnderneath(s, t)
    ensures t.repl == s.repl && t.process == s.process && t.raws == s.raws && t.exits.lists == s.exits.lists
  {
    assert t.repl == [t.repl[0]] && s.repl == [s.repl[0]];
    assert t.process.lists == [t.process.lists[0]] && s.process.lists == [s.process.lists[0]];
    assert t.exits.lists == [t.exits.lists[0]] && s.exits.lists == [s.exits.lists[0]];
    assert t.raws == [t.raws[0]] && s.raws == [s.raws[0]];
    assert t.process.armed == [] && s.process.armed == [];
  }

  /**
   Nested evaluations, however many and however they end: when the outermost one is over, the SIGINT
   and exit listeners are back in their original order, raw mode and an unchanged prompt are what
   they were, and no original exit listener was called meanwhile.
   */
  lemma EvaluationRestores(s: State, steps: seq<Step>)
    requires Idle(s) && Inside(Next(s, Enter), steps) && Depth(Run(Next(s, Enter), steps)) == 0
    ensures var t := Run(Next(s, Enter), steps);
            && t.repl == s.repl && t.process == s.process && t.raws == s.raws
            && t.exits.lists == s.exits.lists && t.exits.notified == s.exits.notified
            && (LeavesPrompt(steps) ==> t.prompts == s.prompts)
  {
    EnterShape(s);
    RunKeepsShape(Next(s, Enter), steps);
    var t := Run(Next(s, Enter), steps);
    IdleIsUnderneath(s, t);
    if LeavesPrompt(steps) {
      RunKeepsPrompt(Next(s, Enter), steps);
      assert t.prompts == [t.prompts[0]] && s.prompts == [s.prompts[0]];
    }
  }

  /** An exit event during the evaluations is never lost and never invented. */
  lemma ExitIsDeferred(s: State, steps: seq<Step>)
    requires Idle(s) && s.exits.ticks == 0
    requires Inside(Next(s, Enter), steps) && Depth(Run(Next(s, Enter), steps)) == 0
    ensures Run(Next(s, Enter), steps).exits.ticks > 0 <==> ExitEvent in steps
  {
    EnterShape(s);
    RunKeepsShape(Next(s, Enter), steps);
  }

  // ---------- what reaches the original exit listeners ----------

  /** Every queued tick runs, with nothing being evaluated any more. */
  function Drain(s: State): (t: State)
    requires Idle(s)
    ensures Idle(t) && t.exits.ticks == 0
    decreases s.exits.ticks
  {
    if s.exits.ticks == 0 then s else Drain(Next(s, Tick))
  }

  /** Who hears `n` exit events in turn: a listener that is `once` hears the first of them only. */
  function Hearings(ls: Listeners, n: nat): (r: seq<Listeners>)
    ensures |r| == n
    decreases n
  {
    if n == 0 then [] else [ls] + Hearings(AfterEvent(ls), n - 1)
  }

  lemma {:induction false} DrainNotifies(s: State)
    requires Idle(s)
    ensures Drain(s).exits.notified == s.exits.notified + Hearings(Top(s.exits.lists), s.exits.ticks)
    decreases s.exits.ticks
  {
    if s.exits.ticks > 0 {
      var t, l := Next(s, Tick), Top(s.exits.lists);
      DrainNotifies(t);
      Assoc(s.exits.notified, [l], Hearings(AfterEvent(l), t.exits.ticks));
    }
  }

  /** Over every run the originals hear as many exit events as there are queued ticks in the end. */
  lemma HeardInTheEnd(s: State, steps: seq<Step>)
    requires Idle(s) && s.exits.ticks == 0
    requires Inside(Next(s, Enter), steps) && Depth(Run(Next(s, Enter), steps)) == 0
    ensures var t := Run(Next(s, Enter), steps);
            && Drain(t).exits.notified == s.exits.notified + Hearings(Top(s.exits.lists), t.exits.ticks)
            && (t.exits.ticks > 0 <==> ExitEvent in steps)
  {
    EvaluationRestores(s, steps);
    ExitIsDeferred(s, steps);
    DrainNotifies(Run(Next(s, Enter), steps));
  }

  /** The originals hear the exit events of all these evaluations as one. */
  predicate HeardOnce(s: State, steps: seq<Step>)
    requires Idle(s) && Inside(Next(s, Enter), steps) && Depth(Run(Next(s, Enter), steps)) == 0
  {
    Drain(Run(Next(s, Enter), steps)).exits.notified == s.exits.notified + [Top(s.exits.lists)]
  }

  lemma HeardOnceIffOneTick(s: State, steps: seq<Step>)
    requires Idle(s) && s.exits.ticks == 0
    requires Inside(Next(s, Enter), steps) && Depth(Run(Next(s, Enter), steps)) == 0
    ensures HeardOnce(s, steps) <==> Run(Next(s, Enter), steps).exits.ticks == 1
  {
    var n, l, before := Run(Next(s, Enter), steps).exits.ticks, Top(s.exits.lists), s.exits.notified;
    HeardInTheEnd(s, steps);
    assert |before + Hearings(l, n)| == |before| + n && |before + [l]| == |before| + 1;
    if n == 1 {
      assert Hearings(l, 1) == [l] + Hearings(AfterEvent(l), 0) == [l];
    }
  }

  /** Seen just before the last evaluation ends: either one tick is queued, or this one brings the only one. */
  lemma LastLeaveDecides(s: State, steps: seq<Step>)
    requires Idle(s) && s.exits.ticks == 0
    requires Inside(Next(s, Enter), steps + [Leave]) && Depth(Run(Next(s, Enter), steps + [Leave])) == 0
    ensures Inside(Next(s, Enter), steps)
    ensures var t := Run(Next(s, Enter), steps);
            && Depth(t) == 1
            && (HeardOnce(s, steps + [Leave]) <==> t.exits.ticks + (if t.exits.pending[0] then 1 else 0) == 1)
  {
    HeardOnceIffOneTick(s, steps + [Leave]);
    Split(Next(s, Enter), steps, [Leave]);
    var t := Run(Next(s, Enter), steps);
    OnlyLeave(t);
  }

  lemma OnlyLeave(s: State)
    requires Sized(s) && Inside(s, [Leave])
    ensures Depth(s) > 0 && Run(s, [Leave]) == Next(s, Leave)
  {
    assert [Leave][1..] == [];
  }

  lemma {:induction false} Split(s: State, a: seq<Step>, b: seq<Step>)
    requires Sized(s) && Inside(s, a + b)
    ensures Inside(s, a) && Inside(Run(s, a), b) && Run(s, a + b) == Run(Run(s, a), b)
    decreases |a|
  {
    if a == [] {
      assert a + b == b;
    } else {
      assert (a + b)[0] == a[0] && (a + b)[1..] == a[1..] + b;
      Split(Next(s, a[0]), a[1..], b);
    }
  }

  /** This step ends an evaluation that has an exit event to pass on, while another one is queued already. */
  predicate Doubles(s: State, step: Step)
    requires Sized(s) && Enabled(s, step)
  {
    step == Leave && s.exits.pending[Depth(s) - 1] && s.exits.ticks > 0
  }

  predicate Undoubled(s: State, steps: seq<Step>)
    requires Sized(s) && Inside(s, steps)
    decreases |steps|
  {
    steps == [] || (!Doubles(s, steps[0]) && Undoubled(Next(s, steps[0]), steps[1..]))
  }

  lemma TicksOfStep(s: State, step: Step)
    requires Sized(s) && Enabled(s, step)
    ensures Next(s, step).exits.ticks == s.exits.ticks
              + (if step == Leave && s.exits.pending[Depth(s) - 1] then 1 else 0) - (if step == Tick then 1 else 0)
  {}

  lemma {:induction false} UndoubledQueuesOne(s: State, steps: seq<Step>)
    requires Sized(s) && Inside(s, steps) && s.exits.ticks <= 1 && Undoubled(s, steps)
    ensures Run(s, steps).exits.ticks <= 1
    decreases |steps|
  {
    if steps != [] {
      TicksOfStep(s, steps[0]);
      UndoubledQueuesOne(Next(s, steps[0]), steps[1..]);
    }
  }

  lemma {:induction false} TicksOnlyGrow(s: State, steps: seq<Step>)
    requires Sized(s) && Inside(s, steps) && Tick !in steps
    ensures s.exits.ticks <= Run(s, steps).exits.ticks
    decreases |steps|
  {
    if steps != [] {
      assert steps[0] in steps && forall x :: x in steps[1..] ==> x in steps;
      TicksOfStep(s, steps[0]);
      TicksOnlyGrow(Next(s, steps[0]), steps[1..]);
    }
  }

  /** As long as no tick runs, a doubled exit event stays doubled. */
  lemma {:induction false} DoubledStaysDoubled(s: State, steps: seq<Step>)
    requires Sized(s) && Inside(s, steps) && Tick !in steps
    ensures Run(s, steps).exits.ticks <= 1 ==> Undoubled(s, steps)
    decreases |steps|
  {
    if steps != [] {
      assert steps[0] in steps && forall x :: x in steps[1..] ==> x in steps;
      TicksOfStep(s, steps[0]);
      DoubledStaysDoubled(Next(s, steps[0]), steps[1..]);
      TicksOnlyGrow(Next(s, steps[0]), steps[1..]);
    }
  }

  /**
   Any number of exit events reach the original exit listeners exactly once, after the outermost
   evaluation has put them back, when no evaluation ends with an exit event to pass on while another
   one is queued; without any exit event they hear none.
   */
  lemma ExitReachesOriginalsOnce(s: State, steps: seq<Step>)
    requires Idle(s) && s.exits.ticks == 0
    requires Inside(Next(s, Enter), steps) && Depth(Run(Next(s, Enter), steps)) == 0
    ensures ExitEvent in steps && Undoubled(Next(s, Enter), steps) ==> HeardOnce(s, steps)
    ensures ExitEvent !in steps ==> Drain(Run(Next(s, Enter), steps)).exits.notified == s.exits.notified
  {
    HeardInTheEnd(s, steps);
    HeardOnceIffOneTick(s, steps);
    if Undoubled(Next(s, Enter), steps) {
      UndoubledQueuesOne(Next(s, Enter), steps);
    }
  }

  /**
   Exactly when once? Ticks that run during the evaluations are noted as one event by the innermost of
   them, so what counts is the part of the run behind the last one: `a` is the run up to there, or any
   longer beginning. At most one tick is left queued then, and no evaluation ends with an exit event to
   pass on while another one is queued.
   */
  lemma OnceIffUndoubledAfterTicks(s: State, a: seq<Step>, b: seq<Step>)
    requires Idle(s) && s.exits.ticks == 0
    requires Inside(Next(s, Enter), a + b) && Depth(Run(Next(s, Enter), a + b)) == 0
    requires Tick !in b && ExitEvent in a + b
    ensures Inside(Next(s, Enter), a) && Inside(Run(Next(s, Enter), a), b)
    ensures var u := Run(Next(s, Enter), a);
            HeardOnce(s, a + b) <==> u.exits.ticks <= 1 && Undoubled(u, b)
  {
    HeardInTheEnd(s, a + b);
    HeardOnceIffOneTick(s, a + b);
    Split(Next(s, Enter), a, b);
    var u := Run(Next(s, Enter), a);
    DoubledStaysDoubled(u, b);
    TicksOnlyGrow(u, b);
    if u.exits.ticks <= 1 && Undoubled(u, b) {
      UndoubledQueuesOne(u, b);
    }
  }

  /** When no tick runs during the evaluations: exactly when no exit event is doubled. */
  lemma OnceIffUndoubled(s: State, steps: seq<Step>)
    requires Idle(s) && s.exits.ticks == 0
    requires Inside(Next(s, Enter), steps) && Depth(Run(Next(s, Enter), steps)) == 0
    requires Tick !in steps && ExitEvent in steps
    ensures HeardOnce(s, steps) <==> Undoubled(Next(s, Enter), steps)
  {
    assert [] + steps == steps;
    OnceIffUndoubledAfterTicks(s, [], steps);
  }

  // ---------- both evaluations pass one on ----------

  lemma EntersExits(l: Listeners, heard: seq<Listeners>)
    ensures NextExits(Exits([l], [], 0, heard), Enter) == Exits([l, [Exit(0)]], [false], 0, heard)
  {}

  lemma OuterHears(l: Listeners, heard: seq<Listeners>)
    ensures NextExits(Exits([l, [Exit(0)]], [false], 0, heard), ExitEvent) == Exits([l, []], [true], 0, heard)
  {
    assert AfterEvent([Exit(0)]) == [] && [Exit(0)][0] == Exit(0);
  }

  lemma InnerEnters(l: Listeners, heard: seq<Listeners>)
    ensures NextExits(Exits([l, []], [true], 0, heard), Enter) == Exits([l, [], [Exit(1)]], [true, false], 0, heard)
  {}

  lemma InnerHears(l: Listeners, heard: seq<Listeners>)
    ensures NextExits(Exits([l, [], [Exit(1)]], [true, false], 0, heard), ExitEvent)
         == Exits([l, [], []], [true, true], 0, heard)
  {
    assert AfterEvent([Exit(1)]) == [] && [Exit(1)][0] == Exit(1);
  }

  lemma InnerLeaves(l: Listeners, heard: seq<Listeners>)
    ensures NextExits(Exits([l, [], []], [true, true], 0, heard), Leave) == Exits([l, []], [true], 1, heard)
  {
    var none: Listeners := [];
    assert Remove(none, Exit(1)) == none && none + none == none;
    assert [l, none, none][..2] == [l, none] && [true, true][..1] == [true];
  }

  lemma OuterLeaves(l: Listeners, heard: seq<Listeners>)
    ensures NextExits(Exits([l, []], [true], 1, heard), Leave) == Exits([l], [], 2, heard)
  {
    assert Remove([], Exit(0)) == [] && [] + l == l;
    assert [l, []][..1] == [l];
  }

  lemma Chain(s: State, step: Step, rest: seq<Step>)
    requires Sized(s) && Depth(s) > 0 && Enabled(s, step) && Inside(Next(s, step), rest)
    ensures Inside(s, [step] + rest) && Run(s, [step] + rest) == Run(Next(s, step), rest)
    ensures Undoubled(s, [step] + rest) <==> !Doubles(s, step) && Undoubled(Next(s, step), rest)
  {
    assert ([step] + rest)[1..] == rest;
  }

  /** The listeners that are still there after an event: those that are not `once`. */
  function Lasting(ls: Listeners): Listeners {
    if ls == [] then []
    else
      var n := |ls| - 1;
      match ls[n]
      case Original(_, false) => Lasting(ls[..n]) + [ls[n]]
      case _ => Lasting(ls[..n])
  }

  lemma {:induction false} LastingCons(l: Listener, ls: Listeners)
    ensures Lasting([l] + ls) == (if l.Original? && !l.once then [l] else []) + Lasting(ls)
    decreases |ls|
  {
    if ls == [] {
      assert [l] + ls == [l] && [l][..0] == [];
    } else {
      var n := |ls| - 1;
      assert ([l] + ls)[..|ls|] == [l] + ls[..n] && ([l] + ls)[|ls|] == ls[n];
      LastingCons(l, ls[..n]);
      Assoc(if l.Original? && !l.once then [l] else [], Lasting(ls[..n]), [ls[n]]);
    }
  }

  lemma {:induction false} AfterEventIsLasting(ls: Listeners)
    ensures AfterEvent(ls) == Lasting(ls)
    decreases |ls|
  {
    if ls != [] {
      AfterEventIsLasting(ls[1..]);
      LastingCons(ls[0], ls[1..]);
      assert [ls[0]] + ls[1..] == ls;
    }
  }

  /**
   Both an outer and an inner evaluation hear an exit event, and both end before the next tick: the
   original listeners are called twice, all but those that are `once`.
   */
  lemma BothPassOn(s: State)
    requires Idle(s) && s.exits.ticks == 0
    ensures var steps := [ExitEvent, Enter, ExitEvent, Leave, Leave]; var l := Top(s.exits.lists);
            && Inside(Next(s, Enter), steps) && !Undoubled(Next(s, Enter), steps)
            && Depth(Run(Next(s, Enter), steps)) == 0
            && Drain(Run(Next(s, Enter), steps)).exits.notified == s.exits.notified + [l, Lasting(l)]
  {
    var l, heard := s.exits.lists[0], s.exits.notified;
    assert s.exits == Exits([l], [], 0, heard);
    EntersExits(l, heard);
    LastFive(Next(s, Enter), l, heard);
    TwoTicks(Run(Next(s, Enter), [ExitEvent, Enter, ExitEvent, Leave, Leave]), l, heard);
    AfterEventIsLasting(l);
  }

  lemma TwoTicks(s: State, l: Listeners, heard: seq<Listeners>)
    requires Idle(s) && s.exits == Exits([l], [], 2, heard)
    ensures Drain(s).exits.notified == heard + [l, AfterEvent(l)]
  {
    DrainNotifies(s);
    var later := AfterEvent(l);
    assert Hearings(later, 1) == [later] + Hearings(AfterEvent(later), 0) == [later];
    assert Hearings(l, 2) == [l] + Hearings(later, 1) == [l, later];
  }

  lemma LastFive(s: State, l: Listeners, heard: seq<Listeners>)
    requires Sized(s) && s.exits == Exits([l, [Exit(0)]], [false], 0, heard)
    ensures var steps := [ExitEvent, Enter, ExitEvent, Leave, Leave];
            Inside(s, steps) && !Undoubled(s, steps) && Run(s, steps).exits == Exits([l], [], 2, heard)
  {
    OuterHears(l, heard);
    LastFour(Next(s, ExitEvent), l, heard);
    Chain(s, ExitEvent, [Enter, ExitEvent, Leave, Leave]);
    assert [ExitEvent] + [Enter, ExitEvent, Leave, Leave] == [ExitEvent, Enter, ExitEvent, Leave, Leave];
  }

  lemma LastFour(s: State, l: Listeners, heard: seq<Listeners>)
    requires Sized(s) && s.exits == Exits([l, []], [true], 0, heard)
    ensures var steps := [Enter, ExitEvent, Leave, Leave];
            Inside(s, steps) && !Undoubled(s, steps) && Run(s, steps).exits == Exits([l], [], 2, heard)
  {
    InnerEnters(l, heard);
    LastThree(Next(s, Enter), l, heard);
    Chain(s, Enter, [ExitEvent, Leave, Leave]);
    assert [Enter] + [ExitEvent, Leave, Leave] == [Enter, ExitEvent, Leave, Leave];
  }

  lemma LastThree(s: State, l: Listeners, heard: seq<Listeners>)
    requires Sized(s) && s.exits == Exits([l, [], [Exit(1)]], [true, false], 0, heard)
    ensures var steps := [ExitEvent, Leave, Leave];
            Inside(s, steps) && !Undoubled(s, steps) && Run(s, steps).exits == Exits([l], [], 2, heard)
  {
    InnerHears(l, heard);
    LastTwo(Next(s, ExitEvent), l, heard);
    Chain(s, ExitEvent, [Leave, Leave]);
    assert [ExitEvent] + [Leave, Leave] == [ExitEvent, Leave, Leave];
  }

  lemma LastTwo(s: State, l: Listeners, heard: seq<Listeners>)
    requires Sized(s) && s.exits == Exits([l, [], []], [true, true], 0, heard)
    ensures Inside(s, [Leave, Leave]) && !Undoubled(s, [Leave, Leave])
    ensures Run(s, [Leave, Leave]).exits == Exits([l], [], 2, heard)
  {
    InnerLeaves(l, heard);
    OuterLeaves(l, heard);
    var t := Next(s, Leave);
    assert t.exits == Exits([l, []], [true], 1, heard);
    Chain(t, Leave, []);
    Chain(s, Leave, [Leave]);
    assert [Leave] + [Leave] == [Leave, Leave];
  }

  // ---------- the evaluation itself, on one event emitter for each list ----------

  /** The variables of one call to `_eval` that its `finally` block needs. */
  datatype Frame = Frame(
    replSigint: Listeners,
    processSigint: Listeners,
    previousExitListeners: Listeners,
    origPrompt: string,
    previouslyInRawMode: bool,
    armed: bool,
    exitEventPending: bool)

  function Saved<T>(frames: seq<Frame>, get: Frame -> T): (r: seq<T>)
    ensures |r| == |frames|
  {
    if frames == [] then [] else Saved(frames[..|frames| - 1], get) + [get(frames[|frames| - 1])]
  }

  function ViewOf(frames: seq<Frame>, replSigint: Listeners, processSigint: Listeners, exit: Listeners,
                  prompt: string, rawMode: bool, ticks: nat, notified: seq<Listeners>): (s: State)
    ensures Sized(s) && Depth(s) == |frames|
  {
    State(
      Saved(frames, (f: Frame) => f.replSigint) + [replSigint],
      Signals(Saved(frames, (f: Frame) => f.processSigint) + [processSigint], Saved(frames, (f: Frame) => f.armed)),
      Exits(Saved(frames, (f: Frame) => f.previousExitListeners) + [exit],
            Saved(frames, (f: Frame) => f.exitEventPending), ticks, notified),
      Saved(frames, (f: Frame) => f.origPrompt) + [prompt],
      Saved(frames, (f: Frame) => f.previouslyInRawMode) + [rawMode])
  }

  lemma SavedPushed<T>(frames: seq<Frame>, f: Frame, get: Frame -> T)
    ensures Saved(frames + [f], get) == Saved(frames, get) + [get(f)]
  {
    assert (frames + [f])[..|frames|] == frames;
  }

  lemma SavedPopped<T>(frames: seq<Frame>, get: Frame -> T)
    requires frames != []
    ensures var d := |frames| - 1;
            Saved(frames[..d], get) == Saved(frames, get)[..d] && Saved(frames, get)[d] == get(frames[d])
  {}

  lemma {:induction false} SavedUpdated<T>(frames: seq<Frame>, k: nat, f: Frame, get: Frame -> T)
    requires k < |frames|
    ensures Saved(frames[k := f], get) == Saved(frames, get)[k := get(f)]
    ensures get(f) == get(frames[k]) ==> Saved(frames[k := f], get) == Saved(frames, get)
    decreases |frames|
  {
    var d := |frames| - 1;
    if k < d {
      assert frames[k := f][..d] == frames[..d][k := f];
      SavedUpdated(frames[..d], k, f, get);
    } else {
      assert frames[k := f][..d] == frames[..d];
    }
    SavedAt(frames, k, get);
  }

  lemma {:induction false} SavedAt<T>(frames: seq<Frame>, k: nat, get: Frame -> T)
    requires k < |frames|
    ensures Saved(frames, get)[k] == get(frames[k])
    decreases |frames|
  {
    if k < |frames| - 1 {
      SavedAt(frames[..|frames| - 1], k, get);
    }
  }

  /** Only a flag of one frame has changed. */
  lemma FrameUpdated(frames: seq<Frame>, k: nat, f: Frame)
    requires k < |frames| && f == frames[k].(armed := f.armed, exitEventPending := f.exitEventPending)
    ensures var now := frames[k := f];
            && Saved(now, (f: Frame) => f.replSigint) == Saved(frames, (f: Frame) => f.replSigint)
            && Saved(now, (f: Frame) => f.processSigint) == Saved(frames, (f: Frame) => f.processSigint)
            && Saved(now, (f: Frame) => f.armed) == Saved(frames, (f: Frame) => f.armed)[k := f.armed]
            && Saved(now, (f: Frame) => f.previousExitListeners) == Saved(frames, (f: Frame) => f.previousExitListeners)
            && Saved(now, (f: Frame) => f.exitEventPending)
               == Saved(frames, (f: Frame) => f.exitEventPending)[k := f.exitEventPending]
            && Saved(now, (f: Frame) => f.origPrompt) == Saved(frames, (f: Frame) => f.origPrompt)
            && Saved(now, (f: Frame) => f.previouslyInRawMode) == Saved(frames, (f: Frame) => f.previouslyInRawMode)
  {
    SavedUpdated(frames, k, f, (f: Frame) => f.replSigint);
    SavedUpdated(frames, k, f, (f: Frame) => f.processSigint);
    SavedUpdated(frames, k, f, (f: Frame) => f.armed);
    SavedUpdated(frames, k, f, (f: Frame) => f.previousExitListeners);
    SavedUpdated(frames, k, f, (f: Frame) => f.exitEventPending);
    SavedUpdated(frames, k, f, (f: Frame) => f.origPrompt);
    SavedUpdated(frames, k, f, (f: Frame) => f.previouslyInRawMode);
  }

  lemma ViewEntered(frames: seq<Frame>, r: Listeners, p: Listeners, e: Listeners, prompt: string, raw: bool,
                    ticks: nat, notified: seq<Listeners>, before: State, after: State)
    requires before == ViewOf(frames, r, p, e, prompt, raw, ticks, notified)
    requires var d := |frames|;
             after == ViewOf(frames + [Frame(r, p, e, prompt, raw, false, false)],
                             [Sigint(d)], [], [Exit(d)], "", false, ticks, notified)
    ensures after == Next(before, Enter)
  {
    var f := Frame(r, p, e, prompt, raw, false, false);
    SavedPushed(frames, f, (f: Frame) => f.replSigint);
    SavedPushed(frames, f, (f: Frame) => f.processSigint);
    SavedPushed(frames, f, (f: Frame) => f.armed);
    SavedPushed(frames, f, (f: Frame) => f.previousExitListeners);
    SavedPushed(frames, f, (f: Frame) => f.exitEventPending);
    SavedPushed(frames, f, (f: Frame) => f.origPrompt);
    SavedPushed(frames, f, (f: Frame) => f.previouslyInRawMode);
  }

  lemma ViewArmed(frames: seq<Frame>, k: nat, r: Listeners, p: Listeners, e: Listeners, prompt: string, raw: bool,
                  ticks: nat, notified: seq<Listeners>, before: State, after: State)
    requires k < |frames| && !frames[k].armed
    requires before == ViewOf(frames, r, p, e, prompt, raw, ticks, notified)
    requires after == ViewOf(frames[k := frames[k].(armed := true)], r, p + [Sigint(k)], e, prompt, raw, ticks,
                             notified)
    ensures Enabled(before, Arm(k)) && after == Next(before, Arm(k))
  {
    SavedAt(frames, k, (f: Frame) => f.armed);
    SavedAt(frames, k, (f: Frame) => f.exitEventPending);
    FrameUpdated(frames, k, frames[k].(armed := true));
    var pending := Saved(frames, (f: Frame) => f.exitEventPending);
    assert pending[k := frames[k].exitEventPending] == pending;
    var lists := Saved(frames, (f: Frame) => f.processSigint) + [p];
    assert SetTop(lists, p + [Sigint(k)]) == Saved(frames, (f: Frame) => f.processSigint) + [p + [Sigint(k)]];
  }

  lemma PromptRestored(saved: seq<string>, prompt: string)
    requires saved != []
    ensures var d := |saved| - 1;
            saved[..d] + [if prompt == "" then saved[d] else prompt] == NextPrompts(saved + [prompt], Leave)
  {
    var ps := saved + [prompt];
    assert ps[..|saved|] == saved && ps[..|saved| - 1] == saved[..|saved| - 1];
  }

  lemma RawRestored(saved: seq<bool>, raw: bool)
    requires saved != []
    ensures var d := |saved| - 1; saved[..d] + [saved[d]] == NextRaws(saved + [raw], Leave)
  {
    assert (saved + [raw])[..|saved|] == saved;
  }

  lemma StackRestored(frames: seq<Frame>, get: Frame -> Listeners, current: Listeners, own: Listener)
    requires frames != []
    ensures var d := |frames| - 1;
            Saved(frames[..d], get) + [Remove(current, own) + get(frames[d])]
            == Restore(Saved(frames, get) + [current], own)
  {
    var d := |frames| - 1;
    var lists := Saved(frames, get) + [current];
    SavedPopped(frames, get);
    assert lists[..|lists| - 1] == Saved(frames, get) && Top(lists) == current;
    assert lists[|lists| - 2] == get(frames[d]);
    assert Restore(lists, own) == Saved(frames, get)[d := Remove(current, own) + get(frames[d])];
  }

  /** What the `finally` block computes from the values it finds. */
  predicate LeftBehind(f: Frame, d: nat, r: Listeners, p: Listeners, e: Listeners, prompt: string, ticks: nat,
                       r': Listeners, p': Listeners, e': Listeners, prompt': string, ticks': nat) {
    && r' == Remove(r, Sigint(d)) + f.replSigint
    && p' == Remove(p, Sigint(d)) + f.processSigint
    && e' == Remove(e, Exit(d)) + f.previousExitListeners
    && prompt' == (if prompt == "" then f.origPrompt else prompt)
    && ticks' == (if f.exitEventPending then ticks + 1 else ticks)
  }

  lemma ProcessLeft(frames: seq<Frame>, p: Listeners)
    requires frames != []
    ensures var d := |frames| - 1;
            Signals(Saved(frames[..d], (f: Frame) => f.processSigint)
                    + [Remove(p, Sigint(d)) + frames[d].processSigint],
                    Saved(frames[..d], (f: Frame) => f.armed))
            == NextProcess(Signals(Saved(frames, (f: Frame) => f.processSigint) + [p],
                                   Saved(frames, (f: Frame) => f.armed)), Leave)
  {
    StackRestored(frames, (f: Frame) => f.processSigint, p, Sigint(|frames| - 1));
    SavedPopped(frames, (f: Frame) => f.armed);
  }

  lemma ExitsLeft(frames: seq<Frame>, e: Listeners, ticks: nat, notified: seq<Listeners>)
    requires frames != []
    ensures var d := |frames| - 1;
            Exits(Saved(frames[..d], (f: Frame) => f.previousExitListeners)
                  + [Remove(e, Exit(d)) + frames[d].previousExitListeners],
                  Saved(frames[..d], (f: Frame) => f.exitEventPending),
                  if frames[d].exitEventPending then ticks + 1 else ticks, notified)
            == NextExits(Exits(Saved(frames, (f: Frame) => f.previousExitListeners) + [e],
                               Saved(frames, (f: Frame) => f.exitEventPending), ticks, notified), Leave)
  {
    StackRestored(frames, (f: Frame) => f.previousExitListeners, e, Exit(|frames| - 1));
    SavedPopped(frames, (f: Frame) => f.exitEventPending);
  }

  lemma ViewLeft(frames: seq<Frame>, r: Listeners, p: Listeners, e: Listeners, prompt: string, raw: bool,
                 ticks: nat, notified: seq<Listeners>, before: State,
                 r': Listeners, p': Listeners, e': Listeners, prompt': string, ticks': nat, after: State)
    requires frames != [] && before == ViewOf(frames, r, p, e, prompt, raw, ticks, notified)
    requires LeftBehind(frames[|frames| - 1], |frames| - 1, r, p, e, prompt, ticks, r', p', e', prompt', ticks')
    requires after == ViewOf(frames[..|frames| - 1], r', p', e', prompt', frames[|frames| - 1].previouslyInRawMode,
                             ticks', notified)
    ensures after == Next(before, Leave)
  {
    StackRestored(frames, (f: Frame) => f.replSigint, r, Sigint(|frames| - 1));
    ProcessLeft(frames, p);
    ExitsLeft(frames, e, ticks, notified);
    PromptLeft(frames, prompt);
    RawLeft(frames, raw);
  }

  lemma PromptLeft(frames: seq<Frame>, prompt: string)
    requires frames != []
    ensures var d := |frames| - 1; var saved := Saved(frames, (f: Frame) => f.origPrompt);
            Saved(frames[..d], (f: Frame) => f.origPrompt) + [if prompt == "" then frames[d].origPrompt else prompt]
            == NextPrompts(saved + [prompt], Leave)
  {
    SavedPopped(frames, (f: Frame) => f.origPrompt);
    PromptRestored(Saved(frames, (f: Frame) => f.origPrompt), prompt);
  }

  lemma RawLeft(frames: seq<Frame>, raw: bool)
    requires frames != []
    ensures var d := |frames| - 1; var saved := Saved(frames, (f: Frame) => f.previouslyInRawMode);
            Saved(frames[..d], (f: Frame) => f.previouslyInRawMode) + [frames[d].previouslyInRawMode]
            == NextRaws(saved + [raw], Leave)
  {
    SavedPopped(frames, (f: Frame) => f.previouslyInRawMode);
    RawRestored(Saved(frames, (f: Frame) => f.previouslyInRawMode), raw);
  }

  class Repl {
    var replSigint: Listeners
    var processSigint: Listeners
    var exit: Listeners
    var prompt: string
    var rawMode: bool
    var frames: seq<Frame>
    var ticks: nat
    /** The listener lists that heard an exit event while nothing was being evaluated. */
    var notified: seq<Listeners>

    function View(): (s: State)
      reads this
      ensures Sized(s) && Depth(s) == |frames|
    {
      ViewOf(frames, replSigint, processSigint, exit, prompt, rawMode, ticks, notified)
    }

    /** `_eval` up to the call of the evaluator. */
    method DoEnter()
      modifies this
      ensures View() == Next(old(View()), Enter)
      ensures !rawMode && prompt == "" && processSigint == [] && ticks == old(ticks) && notified == old(notified)
      ensures replSigint == [Sigint(|old(frames)|)] && exit == [Exit(|old(frames)|)]
      ensures frames == old(frames) + [Frame(old(replSigint), old(processSigint), old(exit), old(prompt), old(rawMode),
                                             false, false)]
    {
      var depth := |frames|;
      frames := frames + [Frame(replSigint, processSigint, exit, prompt, rawMode, false, false)];
      rawMode := false;
      prompt := "";
      replSigint, processSigint := [Sigint(depth)], [];
      exit := [Exit(depth)];
      ViewEntered(old(frames), old(replSigint), old(processSigint), old(exit), old(prompt), old(rawMode), ticks,
                  notified, old(View()), View());
    }

    /** The evaluator has returned its promise. */
    method DoArm(depth: nat)
      requires depth < |frames| && !frames[depth].armed
      modifies this
      ensures Enabled(old(View()), Arm(depth)) && View() == Next(old(View()), Arm(depth))
    {
      frames := frames[depth := frames[depth].(armed := true)];
      processSigint := processSigint + [Sigint(depth)];
      ViewArmed(old(frames), depth, replSigint, old(processSigint), exit, prompt, rawMode, ticks, notified,
                old(View()), View());
    }

    /** `for (const listener of saved) emitter.on(event, listener)`. */
    method AddAll(listeners: Listeners, saved: Listeners) returns (all: Listeners)
      ensures all == listeners + saved
    {
      all := listeners;
      for i := 0 to |saved|
        invariant all == listeners + saved[..i]
      {
        all := all + [saved[i]];
      }
      assert saved[..|saved|] == saved;
    }

    /** What the `finally` block assigns. */
    method Unwind()
      requires frames != []
      modifies this
      ensures var depth, f := |old(frames)| - 1, old(frames[|frames| - 1]);
              && LeftBehind(f, depth, old(replSigint), old(processSigint), old(exit), old(prompt), old(ticks),
                            replSigint, processSigint, exit, prompt, ticks)
              && rawMode == f.previouslyInRawMode && notified == old(notified) && frames == old(frames)[..depth]
    {
      var depth := |frames| - 1;
      var f := frames[depth];
      rawMode := f.previouslyInRawMode;
      replSigint := AddAll(Remove(replSigint, Sigint(depth)), f.replSigint);
      processSigint := AddAll(Remove(processSigint, Sigint(depth)), f.processSigint);
      if prompt == "" {
        prompt := f.origPrompt;
      }
      exit := AddAll(Remove(exit, Exit(depth)), f.previousExitListeners);
      if f.exitEventPending {
        ticks := ticks + 1;
      }
      frames := frames[..depth];
    }

    /** The `finally` block, whatever the evaluation ended with. */
    method DoLeave()
      requires frames != []
      modifies this
      ensures View() == Next(old(View()), Leave)
    {
      Unwind();
      ViewLeft(old(frames), old(replSigint), old(processSigint), old(exit), old(prompt), old(rawMode), old(ticks),
               notified, old(View()), replSigint, processSigint, exit, prompt, ticks, View());
    }

    method EmitExit()
      modifies this
      ensures View() == Next(old(View()), ExitEvent)
    {
      ghost var was := View();
      var heard := exit;
      assert SetTop(was.exits.lists, AfterEvent(exit))
          == Saved(frames, (f: Frame) => f.previousExitListeners) + [AfterEvent(exit)];
      exit := AfterEvent(exit);
      if frames == [] {
        notified := notified + [heard];
      } else if Exit(|frames| - 1) in heard {
        var k := |frames| - 1;
        var f := frames[k].(exitEventPending := true);
        FrameUpdated(frames, k, f);
        frames := frames[k := f];
      }
    }

    method RunTick()
      requires ticks > 0
      modifies this
      ensures View() == Next(old(View()), Tick)
    {
      ticks := ticks - 1;
      EmitExit();
    }
  }
}
