/**
 The cross-process lock of packages/logging/src/analytics-helpers.ts: a directory is the lock, its
 modification time shows that the holder is alive. Any number of processes take file-system steps in
 any order; a directory is told from a later one of the same name by a generation number that the
 processes cannot see.
 */
module Lockfile {

  datatype Directory = Absent | Present(generation: nat, mtime: int)

  datatype Process =
    | Idle
    | AtMkdir
    | AtStat
    | AtRmdir(seen: nat)
    | Holding(generation: nat)
    | Unlocking(generation: nat)
    | Refused
    | Crashed

  datatype State = State(dir: Directory, processes: seq<Process>, now: int, made: nat)

  datatype Step =
    | Start(p: nat)
    | Mkdir(p: nat)
    | Stat(p: nat)
    | Rmdir(p: nat)
    | Refresh(p: nat, mtime: int)
    | Release(p: nat)
    | RmdirOwn(p: nat)
    | Crash(p: nat)
    | Tick(elapsed: nat)

  predicate Enabled(s: State, step: Step) {
    match step
    case Tick(_) => true
    case _ =>
      step.p < |s.processes| &&
      var at := s.processes[step.p];
      match step
      case Start(_) => at.Idle?
      case Mkdir(_) => at.AtMkdir?
      case Stat(_) => at.AtStat?
      case Rmdir(_) => at.AtRmdir?
      case Refresh(_, _) => at.Holding?
      case Release(_) => at.Holding?
      case RmdirOwn(_) => at.Unlocking?
      case Crash(_) => true
  }

  function Become(s: State, p: nat, at: Process): State
    requires p < |s.processes|
  {
    s.(processes := s.processes[p := at])
  }

  /** One step; `stale` is the age from which a directory counts as left over from a crash. */
  function Next(stale: nat, s: State, step: Step): State
    requires Enabled(s, step)
  {
    match step
    case Start(p) => Become(s, p, AtMkdir)
    case Mkdir(p) =>
      if s.dir.Present? then Become(s, p, AtStat)
      else Become(s, p, Holding(s.made)).(dir := Present(s.made, s.now), made := s.made + 1)
    case Stat(p) =>
      if s.dir.Present? && s.now - s.dir.mtime > stale then Become(s, p, AtRmdir(s.dir.generation))
      else Become(s, p, Refused)
    case Rmdir(p) =>
      if s.dir.Present? then Become(s, p, AtMkdir).(dir := Absent) else Become(s, p, Refused)
    case Refresh(p, mtime) =>
      if s.dir.Present? && mtime > s.dir.mtime then s.(dir := s.dir.(mtime := mtime)) else s
    case Release(p) => Become(s, p, Unlocking(s.processes[p].generation))
    case RmdirOwn(p) => Become(s, p, Idle).(dir := Absent)
    case Crash(p) => Become(s, p, Crashed)
    case Tick(elapsed) => s.(now := s.now + elapsed)
  }

  predicate Holds(s: State, p: nat) {
    p < |s.processes| && s.processes[p].Holding?
  }

  ghost predicate MutualExclusion(s: State) {
    forall p, q :: Holds(s, p) && Holds(s, q) ==> p == q
  }

  /** Time does not run past the staleness of a directory whose holder is alive: it refreshes in time. */
  ghost predicate Punctual(stale: nat, s: State, step: Step) {
    step.Tick? && s.dir.Present? && (exists p :: Holds(s, p)) ==> s.now + step.elapsed - s.dir.mtime <= stale
  }

  /** A contender only removes the very directory that it found stale. */
  predicate ContenderUndisturbed(s: State, step: Step) {
    Enabled(s, step) && step.Rmdir? && s.dir.Present? ==> s.dir.generation == s.processes[step.p].seen
  }

  /** A process that unlocks only removes the very directory that it made. */
  predicate UnlockUndisturbed(s: State, step: Step) {
    Enabled(s, step) && step.RmdirOwn? && s.dir.Present? ==> s.dir.generation == s.processes[step.p].generation
  }

  /** A directory is only removed by a process that knew this very directory. */
  predicate Undisturbed(s: State, step: Step) {
    ContenderUndisturbed(s, step) && UnlockUndisturbed(s, step)
  }

  /** Both processes made, or think they made, the same directory. */
  predicate SameOwner(a: Process, b: Process) {
    (a.Holding? || a.Unlocking?) && (b.Holding? || b.Unlocking?) && a.generation == b.generation
  }

  /** `a` is about to remove the directory that `b` holds. */
  predicate Threatens(a: Process, b: Process) {
    a.AtRmdir? && b == Holding(a.seen)
  }

  /** A holder's directory is there and fresh, and nobody knows a directory that was never made. */
  predicate Fits(stale: nat, s: State, at: Process) {
    && (at.Holding? ==>
          && s.dir.Present? && s.dir.generation == at.generation < s.made
          && s.now - s.dir.mtime <= stale)
    && (at.Unlocking? ==> at.generation < s.made)
    && (at.AtRmdir? ==> at.seen < s.made)
  }

  ghost predicate Valid(stale: nat, s: State) {
    && (s.dir.Present? ==> s.dir.generation < s.made)
    && (forall p :: 0 <= p < |s.processes| ==> Fits(stale, s, s.processes[p]))
    && (forall p, q :: 0 <= p < q < |s.processes| ==>
          && !SameOwner(s.processes[p], s.processes[q])
          && !Threatens(s.processes[p], s.processes[q])
          && !Threatens(s.processes[q], s.processes[p]))
  }

  lemma ValidExcludes(stale: nat, s: State)
    requires Valid(stale, s)
    ensures MutualExclusion(s)
  {
    forall p: nat, q: nat | Holds(s, p) && Holds(s, q) ensures p == q {
      assert Fits(stale, s, s.processes[p]) && Fits(stale, s, s.processes[q]);
      assert SameOwner(s.processes[p], s.processes[q]) && SameOwner(s.processes[q], s.processes[p]);
    }
  }

  /** Moving one process is safe when it fits in and neither shares a directory nor threatens one. */
  lemma BecomeKeepsValid(stale: nat, s: State, p: nat, at: Process)
    requires Valid(stale, s) && p < |s.processes| && Fits(stale, s, at)
    requires forall q :: 0 <= q < |s.processes| && q != p ==>
               && !SameOwner(at, s.processes[q]) && !Threatens(at, s.processes[q])
               && !Threatens(s.processes[q], at)
    ensures Valid(stale, Become(s, p, at))
  {}

  lemma StepKeepsValid(stale: nat, s: State, step: Step)
    requires Valid(stale, s) && Enabled(s, step)
    requires Punctual(stale, s, step) && Undisturbed(s, step)
    ensures Valid(stale, Next(stale, s, step))
  {
    match step {
      case Tick(elapsed) =>
        var t := Next(stale, s, step);
        forall p | 0 <= p < |t.processes| ensures Fits(stale, t, t.processes[p]) {
          assert Fits(stale, s, s.processes[p]);
          assert Holds(s, p) || !s.processes[p].Holding?;
        }
      case Mkdir(p) =>
        if s.dir.Present? {
          BecomeKeepsValid(stale, s, p, AtStat);
        } else {
          var t := s.(dir := Present(s.made, s.now), made := s.made + 1);
          forall q | 0 <= q < |s.processes| ensures Fits(stale, t, s.processes[q]) {
            assert Fits(stale, s, s.processes[q]);
          }
          assert Valid(stale, t);
          BecomeKeepsValid(stale, t, p, Holding(s.made));
        }
      case Stat(p) =>
        if s.dir.Present? && s.now - s.dir.mtime > stale {
          forall q | 0 <= q < |s.processes| ensures !s.processes[q].Holding? {
            assert Fits(stale, s, s.processes[q]);
          }
          BecomeKeepsValid(stale, s, p, AtRmdir(s.dir.generation));
        } else {
          BecomeKeepsValid(stale, s, p, Refused);
        }
      case Rmdir(p) =>
        if s.dir.Present? {
          RemovalKeepsValid(stale, s, p);
          BecomeKeepsValid(stale, s.(dir := Absent), p, AtMkdir);
        } else {
          BecomeKeepsValid(stale, s, p, Refused);
        }
      case RmdirOwn(p) =>
        RemovalKeepsValid(stale, s, p);
        BecomeKeepsValid(stale, s.(dir := Absent), p, Idle);
      case Refresh(p, mtime) =>
        var t := Next(stale, s, step);
        forall q | 0 <= q < |t.processes| ensures Fits(stale, t, t.processes[q]) {
          assert Fits(stale, s, s.processes[q]);
        }
      case Start(p) => BecomeKeepsValid(stale, s, p, AtMkdir);
      case Release(p) =>
        var at := s.processes[p];
        assert Fits(stale, s, at);
        forall q | 0 <= q < |s.processes| && q != p ensures !SameOwner(Unlocking(at.generation), s.processes[q]) {
          assert !SameOwner(s.processes[p], s.processes[q]) || !SameOwner(s.processes[q], s.processes[p]);
        }
        BecomeKeepsValid(stale, s, p, Unlocking(at.generation));
      case Crash(p) => BecomeKeepsValid(stale, s, p, Crashed);
    }
  }

  /** The directory that is removed has no holder. */
  lemma RemovalKeepsValid(stale: nat, s: State, p: nat)
    requires Valid(stale, s) && p < |s.processes|
    requires var at := s.processes[p];
             && (at.AtRmdir? || at.Unlocking?)
             && (s.dir.Present? ==> s.dir.generation == if at.AtRmdir? then at.seen else at.generation)
    ensures Valid(stale, s.(dir := Absent))
  {
    var t := s.(dir := Absent);
    forall q | 0 <= q < |s.processes| ensures Fits(stale, t, s.processes[q]) {
      assert Fits(stale, s, s.processes[q]);
      assert SameOwner(s.processes[p], s.processes[q]) == SameOwner(s.processes[q], s.processes[p]);
      assert p == q || !Threatens(s.processes[p], s.processes[q]);
    }
  }

  ghost predicate Allowed(stale: nat, s: State, steps: seq<Step>)
    decreases |steps|
  {
    steps == [] ||
    (Enabled(s, steps[0]) && Punctual(stale, s, steps[0]) && Undisturbed(s, steps[0]) &&
     Allowed(stale, Next(stale, s, steps[0]), steps[1..]))
  }

  function Run(stale: nat, s: State, steps: seq<Step>): State
    requires Possible(stale, s, steps)
    decreases |steps|
  {
    if steps == [] then s else Run(stale, Next(stale, s, steps[0]), steps[1..])
  }

  predicate Possible(stale: nat, s: State, steps: seq<Step>)
    decreases |steps|
  {
    steps == [] || (Enabled(s, steps[0]) && Possible(stale, Next(stale, s, steps[0]), steps[1..]))
  }

  /** However the processes are interleaved, at most one live process holds the lock. */
  lemma {:induction false} AtMostOneHolder(stale: nat, s: State, steps: seq<Step>)
    requires Valid(stale, s) && Allowed(stale, s, steps)
    ensures Possible(stale, s, steps) && MutualExclusion(Run(stale, s, steps))
    decreases |steps|
  {
    if steps == [] {
      ValidExcludes(stale, s);
    } else {
      StepKeepsValid(stale, s, steps[0]);
      AtMostOneHolder(stale, Next(stale, s, steps[0]), steps[1..]);
    }
  }

  // ---------- an unlock that is over in time removes the right directory ----------

  /** As `Punctual`, up to the moment when the directory of the holder is gone. */
  ghost predicate PunctualToTheEnd(stale: nat, s: State, step: Step) {
    step.Tick? && s.dir.Present? &&
    (exists p :: 0 <= p < |s.processes| && (s.processes[p].Holding? || s.processes[p].Unlocking?)) ==>
      s.now + step.elapsed - s.dir.mtime <= stale
  }

  /** The directory of a process that unlocks is still there, fresh, and nobody is about to remove it. */
  predicate Owned(stale: nat, s: State) {
    && (forall p :: 0 <= p < |s.processes| && s.processes[p].Unlocking? ==>
          s.dir.Present? && s.dir.generation == s.processes[p].generation && s.now - s.dir.mtime <= stale)
    && (forall p, q :: 0 <= p < |s.processes| && 0 <= q < |s.processes|
                       && s.processes[p].AtRmdir? && s.processes[q].Unlocking? ==>
          s.processes[p].seen != s.processes[q].generation)
  }

  lemma StepKeepsOwned(stale: nat, s: State, step: Step)
    requires Valid(stale, s) && Owned(stale, s) && Enabled(s, step)
    requires PunctualToTheEnd(stale, s, step) && ContenderUndisturbed(s, step)
    ensures Punctual(stale, s, step) && Undisturbed(s, step) && Owned(stale, Next(stale, s, step))
  {
    if !step.Tick? {
      forall q | 0 <= q < |s.processes| && q != step.p
        ensures Fits(stale, s, s.processes[q]) && !SameOwner(s.processes[step.p], s.processes[q])
                && !Threatens(s.processes[q], s.processes[step.p])
      {
        assert !SameOwner(s.processes[step.p], s.processes[q]) || !SameOwner(s.processes[q], s.processes[step.p]);
      }
      assert Fits(stale, s, s.processes[step.p]);
    }
  }

  ghost predicate AllowedInTime(stale: nat, s: State, steps: seq<Step>)
    decreases |steps|
  {
    steps == [] ||
    (Enabled(s, steps[0]) && PunctualToTheEnd(stale, s, steps[0]) && ContenderUndisturbed(s, steps[0]) &&
     AllowedInTime(stale, Next(stale, s, steps[0]), steps[1..]))
  }

  lemma {:induction false} InTimeIsAllowed(stale: nat, s: State, steps: seq<Step>)
    requires Valid(stale, s) && Owned(stale, s) && AllowedInTime(stale, s, steps)
    ensures Allowed(stale, s, steps)
    decreases |steps|
  {
    if steps != [] {
      StepKeepsOwned(stale, s, steps[0]);
      StepKeepsValid(stale, s, steps[0]);
      InTimeIsAllowed(stale, Next(stale, s, steps[0]), steps[1..]);
    }
  }

  /**
   When holders refresh in time and finish unlocking in time, a proviso on the contenders is enough:
   none removes a directory that was made again since it looked.
   */
  lemma AtMostOneHolderInTime(stale: nat, s: State, steps: seq<Step>)
    requires Valid(stale, s) && Owned(stale, s) && AllowedInTime(stale, s, steps)
    ensures Possible(stale, s, steps) && MutualExclusion(Run(stale, s, steps))
  {
    InTimeIsAllowed(stale, s, steps);
    AtMostOneHolder(stale, s, steps);
  }

  // ---------- the provisos are exact ----------

  /** The directory is not the one that process `p` found stale, or made, and is about to remove. */
  predicate Recreated(s: State, p: nat)
    requires p < |s.processes| && (s.processes[p].AtRmdir? || s.processes[p].Unlocking?)
  {
    var at := s.processes[p];
    s.dir.Present? && s.dir.generation != if at.AtRmdir? then at.seen else at.generation
  }

  /** The process that made the directory is alive and has not given it up. */
  predicate MakerHolds(s: State) {
    s.dir.Present? && exists q :: 0 <= q < |s.processes| && s.processes[q] == Holding(s.dir.generation)
  }

  lemma HolderIsMaker(stale: nat, s: State, p: nat, q: nat)
    requires Valid(stale, s) && Holds(s, q)
    requires p < |s.processes| && (s.processes[p].AtRmdir? || s.processes[p].Unlocking?)
    ensures MakerHolds(s) && Recreated(s, p)
  {
    assert Fits(stale, s, s.processes[q]);
    assert s.processes[q] == Holding(s.dir.generation);
    assert !SameOwner(s.processes[p], s.processes[q]) || !SameOwner(s.processes[q], s.processes[p]);
  }

  /**
   A removal, be it of a contender or of a process that unlocks, lets the next process in beside a
   holder if and only if the directory was made again in between and its maker is alive.
   */
  lemma RemovalBreaksIffRecreated(stale: nat, s: State, removal: Step, r: nat)
    requires Valid(stale, s) && Enabled(s, removal) && (removal.Rmdir? || removal.RmdirOwn?)
    requires Enabled(Next(stale, s, removal), Mkdir(r))
    ensures Possible(stale, s, [removal, Mkdir(r)])
    ensures !MutualExclusion(Run(stale, s, [removal, Mkdir(r)])) <==> Recreated(s, removal.p) && MakerHolds(s)
  {
    var p := removal.p;
    var removed := Next(stale, s, removal);
    var t := Next(stale, removed, Mkdir(r));
    OneStep(stale, removed, Mkdir(r), []);
    OneStep(stale, s, removal, [Mkdir(r)]);
    assert [Mkdir(r)] + [] == [Mkdir(r)] && [removal] + [Mkdir(r)] == [removal, Mkdir(r)];
    assert Holds(t, r) && forall q :: q != r ==> Holds(t, q) == Holds(s, q);
    if MakerHolds(s) {
      var q :| 0 <= q < |s.processes| && s.processes[q] == Holding(s.dir.generation);
      assert Holds(t, q) && q != r;
    } else {
      forall q: nat ensures !Holds(s, q) {
        if Holds(s, q) {
          HolderIsMaker(stale, s, p, q);
        }
      }
    }
    if q: nat :| Holds(s, q) {
      HolderIsMaker(stale, s, p, q);
    }
  }

  /** The first contender removes the stale directory and takes the lock; the second has only looked. */
  function FirstTakes(): seq<Step> {
    [Start(0), Start(1), Mkdir(0), Mkdir(1), Stat(0), Stat(1), Rmdir(0), Mkdir(0)]
  }

  /** The second contender goes on with what it saw. */
  function SecondTakes(): seq<Step> {
    [Rmdir(1), Mkdir(1)]
  }

  /** A directory left by a crashed holder, and two contenders. */
  function LeftOver(stale: nat): State {
    State(Present(0, 0), [Idle, Idle, Crashed], stale + 1, 1)
  }

  function Taken(stale: nat): State {
    State(Present(1, stale + 1), [Holding(1), AtRmdir(0), Crashed], stale + 1, 2)
  }

  /** Without the proviso two processes hold the lock, with no time passing at all. */
  lemma TwoContendersBothHold(stale: nat)
    ensures Valid(stale, LeftOver(stale))
    ensures Possible(stale, LeftOver(stale), FirstTakes() + SecondTakes())
    ensures !MutualExclusion(Run(stale, LeftOver(stale), FirstTakes() + SecondTakes()))
  {
    FirstHalf(stale);
    SecondHalf(stale);
    Compose(stale, LeftOver(stale), FirstTakes(), SecondTakes());
  }

  lemma SecondHalf(stale: nat)
    ensures Possible(stale, Taken(stale), SecondTakes())
    ensures !MutualExclusion(Run(stale, Taken(stale), SecondTakes()))
  {
    var s := Taken(stale);
    assert Fits(stale, s, Holding(1)) && Fits(stale, s, AtRmdir(0)) && Fits(stale, s, Crashed);
    assert Holds(s, 0);
    assert s.processes[0] == Holding(s.dir.generation);
    RemovalBreaksIffRecreated(stale, s, Rmdir(1), 1);
  }

  function Looked(stale: nat): State {
    State(Present(0, 0), [AtStat, AtStat, Crashed], stale + 1, 1)
  }

  lemma FirstHalf(stale: nat)
    ensures Possible(stale, LeftOver(stale), FirstTakes())
    ensures Run(stale, LeftOver(stale), FirstTakes()) == Taken(stale)
  {
    BothLook(stale);
    OneTakes(stale);
    Compose(stale, LeftOver(stale), [Start(0), Start(1), Mkdir(0), Mkdir(1)], [Stat(0), Stat(1), Rmdir(0), Mkdir(0)]);
  }

  lemma BothLook(stale: nat)
    ensures var steps := [Start(0), Start(1), Mkdir(0), Mkdir(1)];
            Possible(stale, LeftOver(stale), steps) && Run(stale, LeftOver(stale), steps) == Looked(stale)
  {
    var s := LeftOver(stale);
    var s1 := Next(stale, s, Start(0));
    var s2 := Next(stale, s1, Start(1));
    var s3 := Next(stale, s2, Mkdir(0));
    assert Next(stale, s3, Mkdir(1)) == Looked(stale);
    OneStep(stale, s3, Mkdir(1), []);
    OneStep(stale, s2, Mkdir(0), [Mkdir(1)]);
    OneStep(stale, s1, Start(1), [Mkdir(0), Mkdir(1)]);
    OneStep(stale, s, Start(0), [Start(1), Mkdir(0), Mkdir(1)]);
  }

  lemma OneTakes(stale: nat)
    ensures var steps := [Stat(0), Stat(1), Rmdir(0), Mkdir(0)];
            Possible(stale, Looked(stale), steps) && Run(stale, Looked(stale), steps) == Taken(stale)
  {
    var s := Looked(stale);
    var s1 := Next(stale, s, Stat(0));
    var s2 := Next(stale, s1, Stat(1));
    var s3 := Next(stale, s2, Rmdir(0));
    assert Next(stale, s3, Mkdir(0)) == Taken(stale);
    OneStep(stale, s3, Mkdir(0), []);
    OneStep(stale, s2, Rmdir(0), [Mkdir(0)]);
    OneStep(stale, s1, Stat(1), [Rmdir(0), Mkdir(0)]);
    OneStep(stale, s, Stat(0), [Stat(1), Rmdir(0), Mkdir(0)]);
  }

  lemma OneStep(stale: nat, s: State, step: Step, rest: seq<Step>)
    requires Enabled(s, step) && Possible(stale, Next(stale, s, step), rest)
    ensures Possible(stale, s, [step] + rest)
    ensures Run(stale, s, [step] + rest) == Run(stale, Next(stale, s, step), rest)
  {
    assert ([step] + rest)[1..] == rest;
  }

  lemma {:induction false} Compose(stale: nat, s: State, a: seq<Step>, b: seq<Step>)
    requires Possible(stale, s, a) && Possible(stale, Run(stale, s, a), b)
    ensures Possible(stale, s, a + b)
    ensures Run(stale, s, a + b) == Run(stale, Run(stale, s, a), b)
    decreases |a|
  {
    if a == [] {
      assert a + b == b;
    } else {
      assert (a + b)[1..] == a[1..] + b;
      Compose(stale, Next(stale, s, a[0]), a[1..], b);
    }
  }

  // ---------- the lock is also given ----------

  /** A free lock is taken at once, with a directory of this moment. */
  lemma FreeLockIsTaken(stale: nat, s: State, p: nat)
    requires p < |s.processes| && s.processes[p].Idle? && s.dir.Absent?
    ensures Possible(stale, s, [Start(p), Mkdir(p)])
    ensures Run(stale, s, [Start(p), Mkdir(p)]) ==
            State(Present(s.made, s.now), s.processes[p := Holding(s.made)], s.now, s.made + 1)
  {
    var s1 := Next(stale, s, Start(p));
    OneStep(stale, s1, Mkdir(p), []);
    OneStep(stale, s, Start(p), [Mkdir(p)]);
    assert [Start(p)] + [Mkdir(p)] == [Start(p), Mkdir(p)] && [Mkdir(p)] + [] == [Mkdir(p)];
  }

  /** One whose directory is fresh is refused, and one whose directory is stale is taken over. */
  lemma TakenLockIsJudged(stale: nat, s: State, p: nat)
    requires p < |s.processes| && s.processes[p].Idle? && s.dir.Present?
    ensures Possible(stale, s, [Start(p), Mkdir(p), Stat(p)])
    ensures var t := Run(stale, s, [Start(p), Mkdir(p), Stat(p)]);
            if s.now - s.dir.mtime <= stale then t == s.(processes := s.processes[p := Refused])
            else
              && t == s.(processes := s.processes[p := AtRmdir(s.dir.generation)])
              && Possible(stale, t, [Rmdir(p), Mkdir(p)]) && Holds(Run(stale, t, [Rmdir(p), Mkdir(p)]), p)
  {
    var s1 := Next(stale, s, Start(p));
    var s2 := Next(stale, s1, Mkdir(p));
    var t := Next(stale, s2, Stat(p));
    OneStep(stale, s2, Stat(p), []);
    OneStep(stale, s1, Mkdir(p), [Stat(p)]);
    OneStep(stale, s, Start(p), [Mkdir(p), Stat(p)]);
    assert [Start(p)] + [Mkdir(p), Stat(p)] == [Start(p), Mkdir(p), Stat(p)];
    assert [Mkdir(p)] + [Stat(p)] == [Mkdir(p), Stat(p)] && [Stat(p)] + [] == [Stat(p)];
    assert s2 == s.(processes := s.processes[p := AtStat]);
    if s.now - s.dir.mtime > stale {
      var u := Next(stale, t, Rmdir(p));
      OneStep(stale, u, Mkdir(p), []);
      OneStep(stale, t, Rmdir(p), [Mkdir(p)]);
      assert [Rmdir(p)] + [Mkdir(p)] == [Rmdir(p), Mkdir(p)] && [Mkdir(p)] + [] == [Mkdir(p)];
    }
  }

  /** A holder that refreshes keeps the lock fresh for as long again; one that unlocks leaves it free. */
  lemma HolderKeepsOrFrees(stale: nat, s: State, p: nat, elapsed: nat)
    requires p < |s.processes| && Holds(s, p) && s.dir.Present?
    ensures var t := Next(stale, s, Refresh(p, s.now));
            && t.processes == s.processes && t.dir.Present? && t.dir.generation == s.dir.generation
            && t.dir.mtime >= s.now && (elapsed <= stale ==> Punctual(stale, t, Tick(elapsed)))
    ensures Possible(stale, s, [Release(p), RmdirOwn(p)])
    ensures Run(stale, s, [Release(p), RmdirOwn(p)]) == s.(dir := Absent, processes := s.processes[p := Idle])
  {
    var u := Next(stale, s, Release(p));
    OneStep(stale, u, RmdirOwn(p), []);
    OneStep(stale, s, Release(p), [RmdirOwn(p)]);
    assert [Release(p)] + [RmdirOwn(p)] == [Release(p), RmdirOwn(p)] && [RmdirOwn(p)] + [] == [RmdirOwn(p)];
  }

  // ---------- the late unlock ----------

  function NobodyYet(): State {
    State(Absent, [Idle, Idle, Idle], 0, 0)
  }

  /** Process 0 locks and begins to unlock, and is then held up until its directory is stale. */
  function HeldUp(stale: nat): seq<Step> {
    [Start(0), Mkdir(0), Release(0), Tick(stale + 1), Start(1)]
  }

  function Stuck(stale: nat): State {
    State(Present(0, 0), [Unlocking(0), AtMkdir, Idle], stale + 1, 1)
  }

  /** Process 1 rightly removes the stale directory and takes the lock. */
  function TakenOver(): seq<Step> {
    [Mkdir(1), Stat(1), Rmdir(1), Mkdir(1), Start(2)]
  }

  function Overtaken(stale: nat): State {
    State(Present(1, stale + 1), [Unlocking(0), Holding(1), AtMkdir], stale + 1, 2)
  }

  /**
   No contender is to blame: every step respects both provisos until process 0 removes what it takes
   for its own directory, and process 2 gets the lock beside process 1.
   */
  lemma LateUnlockBreaks(stale: nat)
    ensures Valid(stale, NobodyYet()) && Allowed(stale, NobodyYet(), HeldUp(stale) + TakenOver())
    ensures ContenderUndisturbed(Overtaken(stale), RmdirOwn(0))
    ensures var steps := HeldUp(stale) + TakenOver() + [RmdirOwn(0), Mkdir(2)];
            Possible(stale, NobodyYet(), steps) && !MutualExclusion(Run(stale, NobodyYet(), steps))
  {
    GetsStuck(stale);
    IsOvertaken(stale);
    ComposeAllowed(stale, NobodyYet(), HeldUp(stale), TakenOver());
    Compose(stale, NobodyYet(), HeldUp(stale), TakenOver());
    LetsIn(stale);
    Compose(stale, NobodyYet(), HeldUp(stale) + TakenOver(), [RmdirOwn(0), Mkdir(2)]);
  }

  lemma LetsIn(stale: nat)
    ensures Possible(stale, Overtaken(stale), [RmdirOwn(0), Mkdir(2)])
    ensures !MutualExclusion(Run(stale, Overtaken(stale), [RmdirOwn(0), Mkdir(2)]))
  {
    var s := Overtaken(stale);
    assert Fits(stale, s, Holding(1)) && Fits(stale, s, Unlocking(0)) && Fits(stale, s, AtMkdir);
    assert s.processes[1] == Holding(s.dir.generation);
    RemovalBreaksIffRecreated(stale, s, RmdirOwn(0), 2);
  }

  lemma GetsStuck(stale: nat)
    ensures Allowed(stale, NobodyYet(), HeldUp(stale)) && Possible(stale, NobodyYet(), HeldUp(stale))
    ensures Run(stale, NobodyYet(), HeldUp(stale)) == Stuck(stale)
  {
    var s := NobodyYet();
    var s1 := Next(stale, s, Start(0));
    var s2 := Next(stale, s1, Mkdir(0));
    var s3 := Next(stale, s2, Release(0));
    var s4 := Next(stale, s3, Tick(stale + 1));
    assert Next(stale, s4, Start(1)) == Stuck(stale);
    assert forall p :: !Holds(s3, p);
    AllowedStep(stale, s4, Start(1), []);
    AllowedStep(stale, s3, Tick(stale + 1), [Start(1)]);
    AllowedStep(stale, s2, Release(0), [Tick(stale + 1), Start(1)]);
    AllowedStep(stale, s1, Mkdir(0), [Release(0), Tick(stale + 1), Start(1)]);
    AllowedStep(stale, s, Start(0), [Mkdir(0), Release(0), Tick(stale + 1), Start(1)]);
  }

  lemma IsOvertaken(stale: nat)
    ensures Allowed(stale, Stuck(stale), TakenOver()) && Possible(stale, Stuck(stale), TakenOver())
    ensures Run(stale, Stuck(stale), TakenOver()) == Overtaken(stale)
  {
    var s := Stuck(stale);
    var s1 := Next(stale, s, Mkdir(1));
    var s2 := Next(stale, s1, Stat(1));
    var s3 := Next(stale, s2, Rmdir(1));
    var s4 := Next(stale, s3, Mkdir(1));
    assert Next(stale, s4, Start(2)) == Overtaken(stale);
    AllowedStep(stale, s4, Start(2), []);
    AllowedStep(stale, s3, Mkdir(1), [Start(2)]);
    AllowedStep(stale, s2, Rmdir(1), [Mkdir(1), Start(2)]);
    AllowedStep(stale, s1, Stat(1), [Rmdir(1), Mkdir(1), Start(2)]);
    AllowedStep(stale, s, Mkdir(1), [Stat(1), Rmdir(1), Mkdir(1), Start(2)]);
  }

  lemma AllowedStep(stale: nat, s: State, step: Step, rest: seq<Step>)
    requires Enabled(s, step) && Punctual(stale, s, step) && Undisturbed(s, step)
    requires Allowed(stale, Next(stale, s, step), rest) && Possible(stale, Next(stale, s, step), rest)
    ensures Allowed(stale, s, [step] + rest) && Possible(stale, s, [step] + rest)
    ensures Run(stale, s, [step] + rest) == Run(stale, Next(stale, s, step), rest)
  {
    assert ([step] + rest)[1..] == rest;
  }

  lemma {:induction false} ComposeAllowed(stale: nat, s: State, a: seq<Step>, b: seq<Step>)
    requires Allowed(stale, s, a) && Possible(stale, s, a) && Allowed(stale, Run(stale, s, a), b)
    ensures Allowed(stale, s, a + b)
    decreases |a|
  {
    if a == [] {
      assert a + b == b;
    } else {
      assert (a + b)[0] == a[0] && (a + b)[1..] == a[1..] + b;
      ComposeAllowed(stale, Next(stale, s, a[0]), a[1..], b);
    }
  }
}
