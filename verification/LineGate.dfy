/**
 The line-gating automaton of packages/cli-repl/src/line-by-line-input.ts without re-entrancy: a
 consumer that reacts to a push only moves the switches, and never starts a second flush. That the
 re-entrant class computes exactly this is proved in LineByLineInput.dfy; here are the properties.
 */
module LineGate {
  import opened Prelude
  import opened LineTokens

  /** What a consumer may call back while a push is under way. */
  datatype Reaction = NextLine | PauseInput | ResumeInput | EnableBlocking | DisableBlocking

  /** The observable history: what was pushed downstream, and what moved the gate. */
  datatype Event =
    | Pushed(entry: Entry)
    | Interrupted(key: Symbol)
    | Passed(chunk: seq<Symbol>)
    | Released
    | Blocking(on: bool)

  /** `script` holds the reactions of the consumer to the pushes still to come, one list a push. */
  datatype State = State(
    forwarding: bool,
    blocking: bool,
    paused: bool,
    queue: seq<Entry>,
    script: seq<seq<Reaction>>,
    log: seq<Event>)

  /** A call from outside any push; `Data([Null])` is the end of the input. */
  datatype Call = Data(chunk: seq<Symbol>) | Do(reaction: Reaction)

  predicate ShouldForward(s: State) {
    !s.blocking || s.forwarding
  }

  function Switch(s: State, r: Reaction): State {
    match r
    case NextLine => s.(forwarding := true, log := s.log + [Released])
    case PauseInput => s.(paused := true)
    case ResumeInput => s.(paused := false)
    case EnableBlocking => s.(blocking := true, log := s.log + [Blocking(true)])
    case DisableBlocking => s.(blocking := false, log := s.log + [Blocking(false)])
  }

  function React(s: State, rs: seq<Reaction>): State
    decreases |rs|
  {
    if rs == [] then s else React(Switch(s, rs[0]), rs[1..])
  }

  function Push(s: State, e: Event): State {
    var t := s.(log := s.log + [e]);
    if s.script == [] then t else React(t.(script := s.script[1..]), s.script[0])
  }

  function PushHead(s: State): State
    requires s.queue != []
  {
    var e := s.queue[0];
    Push(s.(queue := s.queue[1..], forwarding := s.forwarding && !IsLineEnding(e)), Pushed(e))
  }

  function Flush(s: State): State
    decreases |s.queue|
  {
    if s.queue != [] && ShouldForward(s) && !s.paused then
      PushFrame(s.(queue := s.queue[1..], forwarding := s.forwarding && !IsLineEnding(s.queue[0])),
                Pushed(s.queue[0]));
      Flush(PushHead(s))
    else s
  }

  /** Ctrl+C and Ctrl+D overtake the queue; everything else is queued. */
  function AbsorbOne(s: State, y: Symbol): State {
    if IsControl(y) then Push(s, Interrupted(y)) else s.(queue := Enqueue(s.queue, y))
  }

  function Absorb(s: State, chunk: seq<Symbol>): State
    decreases |chunk|
  {
    if chunk == [] then s else Absorb(AbsorbOne(s, chunk[0]), chunk[1..])
  }

  function Step(s: State, call: Call): State {
    match call
    case Data(chunk) => if s.blocking then Flush(Absorb(s, chunk)) else Push(s, Passed(chunk))
    case Do(NextLine) => Flush(Switch(s, NextLine))
    case Do(DisableBlocking) => Flush(Switch(s, DisableBlocking))
    case Do(r) => Switch(s, r)
  }

  function Run(s: State, calls: seq<Call>): State
    decreases |calls|
  {
    if calls == [] then s else Run(Step(s, calls[0]), calls[1..])
  }

  function Initial(script: seq<seq<Reaction>>): State {
    State(true, true, false, [], script, [])
  }

  function Input(calls: seq<Call>): seq<Symbol> {
    if calls == [] then []
    else (if calls[0].Data? then calls[0].chunk else []) + Input(calls[1..])
  }

  // ---------- reading the log ----------

  function Symbols(e: Event): seq<Symbol> {
    match e
    case Pushed(entry) => entry
    case Interrupted(key) => [key]
    case Passed(chunk) => chunk
    case _ => []
  }

  /** Everything pushed downstream, in order. */
  function Output(log: seq<Event>): seq<Symbol> {
    if log == [] then [] else Output(log[..|log| - 1]) + Symbols(log[|log| - 1])
  }

  /** Is a release outstanding after this history? A release opens the gate, a line ending shuts it. */
  predicate GateOpen(log: seq<Event>) {
    log == [] ||
    match log[|log| - 1]
    case Released => true
    case Pushed(e) => GateOpen(log[..|log| - 1]) && !IsLineEnding(e)
    case _ => GateOpen(log[..|log| - 1])
  }

  predicate BlockingOn(log: seq<Event>) {
    log == [] ||
    match log[|log| - 1]
    case Blocking(on) => on
    case _ => BlockingOn(log[..|log| - 1])
  }

  /** No queued entry ever passes a shut gate, and chunks bypass the queue only in pass-through mode. */
  predicate Disciplined(log: seq<Event>) {
    log == [] ||
    (Disciplined(log[..|log| - 1]) &&
     match log[|log| - 1]
     case Pushed(_) => GateOpen(log[..|log| - 1]) || !BlockingOn(log[..|log| - 1])
     case Passed(_) => !BlockingOn(log[..|log| - 1])
     case _ => true)
  }

  function LineEndings(log: seq<Event>): nat {
    if log == [] then 0
    else LineEndings(log[..|log| - 1]) +
         (if log[|log| - 1].Pushed? && IsLineEnding(log[|log| - 1].entry) then 1 else 0)
  }

  function Releases(log: seq<Event>): nat {
    if log == [] then 0
    else Releases(log[..|log| - 1]) + (if log[|log| - 1].Released? then 1 else 0)
  }

  // ---------- what a push can and cannot touch ----------

  lemma OutputSnoc(log: seq<Event>, e: Event)
    ensures Output(log + [e]) == Output(log) + Symbols(e)
  {
    assert (log + [e])[..|log|] == log;
  }

  lemma SwitchFrame(s: State, r: Reaction)
    ensures Switch(s, r).queue == s.queue && Switch(s, r).script == s.script
    ensures Output(Switch(s, r).log) == Output(s.log)
  {
    OutputSnoc(s.log, Released);
    OutputSnoc(s.log, Blocking(true));
    OutputSnoc(s.log, Blocking(false));
  }

  /** The consumer cannot change the queue, and adds only gate movements to the log. */
  lemma {:induction false} ReactFrame(s: State, rs: seq<Reaction>)
    ensures React(s, rs).queue == s.queue && React(s, rs).script == s.script
    ensures Output(React(s, rs).log) == Output(s.log)
    decreases |rs|
  {
    if rs != [] {
      SwitchFrame(s, rs[0]);
      ReactFrame(Switch(s, rs[0]), rs[1..]);
    }
  }

  lemma PushFrame(s: State, e: Event)
    ensures Push(s, e).queue == s.queue && |Push(s, e).script| <= |s.script|
    ensures Output(Push(s, e).log) == Output(s.log) + Symbols(e)
  {
    var t := s.(log := s.log + [e]);
    OutputSnoc(s.log, e);
    if s.script != [] {
      ReactFrame(t.(script := s.script[1..]), s.script[0]);
    }
  }

  // ---------- conservation ----------

  /** Non-control text downstream, then the text still queued. */
  function Text(s: State): seq<Symbol> {
    NonControl(Output(s.log)) + Flatten(s.queue)
  }

  function Keys(s: State): seq<Symbol> {
    Controls(Output(s.log))
  }

  lemma {:induction false} FlushConserves(s: State)
    requires Canonical(s.queue)
    ensures Canonical(Flush(s).queue)
    ensures Text(Flush(s)) == Text(s) && Keys(Flush(s)) == Keys(s)
    decreases |s.queue|
  {
    if s.queue != [] && ShouldForward(s) && !s.paused {
      HeadConserves(s);
      FlushConserves(PushHead(s));
    }
  }

  lemma HeadConserves(s: State)
    requires Canonical(s.queue) && s.queue != []
    ensures var t := PushHead(s);
            t.queue == s.queue[1..] && Canonical(t.queue) && Text(t) == Text(s) && Keys(t) == Keys(s)
  {
    var e := s.queue[0];
    PushFrame(s.(queue := s.queue[1..], forwarding := s.forwarding && !IsLineEnding(e)), Pushed(e));
    NonControlAppend(Output(s.log), e);
    CanonicalHead(s.queue);
    Assoc(NonControl(Output(s.log)), e, Flatten(s.queue[1..]));
  }

  lemma AbsorbOneConserves(s: State, y: Symbol)
    requires Canonical(s.queue)
    ensures var t := AbsorbOne(s, y);
            && Canonical(t.queue)
            && Flatten(t.queue) == Flatten(s.queue) + NonControl([y])
            && Output(t.log) == Output(s.log) + Controls([y])
  {
    assert NonControl([y]) == (if IsControl(y) then [] else [y]);
    assert Controls([y]) == (if IsControl(y) then [y] else []);
    if IsControl(y) {
      PushFrame(s, Interrupted(y));
    } else {
      EnqueueCanonical(s.queue, y);
    }
  }

  lemma {:induction false} AbsorbConserves(s: State, chunk: seq<Symbol>)
    requires Canonical(s.queue)
    ensures var t := Absorb(s, chunk);
            && Canonical(t.queue)
            && Flatten(t.queue) == Flatten(s.queue) + NonControl(chunk)
            && Output(t.log) == Output(s.log) + Controls(chunk)
    decreases |chunk|
  {
    if chunk != [] {
      var y, rest := chunk[0], chunk[1..];
      AbsorbOneConserves(s, y);
      AbsorbConserves(AbsorbOne(s, y), rest);
      assert chunk == [y] + rest;
      NonControlAppend([y], rest);
      Assoc(Output(s.log), Controls([y]), Controls(rest));
      Assoc(Flatten(s.queue), NonControl([y]), NonControl(rest));
    }
  }

  lemma AbsorbKeeps(s: State, chunk: seq<Symbol>)
    requires Canonical(s.queue)
    ensures var t := Absorb(s, chunk);
            && Canonical(t.queue)
            && Text(t) == Text(s) + NonControl(chunk)
            && Keys(t) == Keys(s) + Controls(chunk)
  {
    AbsorbConserves(s, chunk);
    NonControlAppend(Output(s.log), Controls(chunk));
    ControlsAreControls(chunk);
    Assoc(NonControl(Output(s.log)), Flatten(s.queue), NonControl(chunk));
  }

  /**
   One call, in any mode. A chunk that arrives in pass-through mode goes in front of whatever is
   still queued; every other call keeps the text in order. Control characters are never reordered.
   */
  lemma StepConserves(s: State, call: Call)
    requires Canonical(s.queue)
    ensures var t := Step(s, call); var fed := Input([call]);
            && Canonical(t.queue)
            && Keys(t) == Keys(s) + Controls(fed)
            && (s.blocking || !call.Data? ==> Text(t) == Text(s) + NonControl(fed))
            && (!s.blocking && call.Data? ==>
                  Text(t) == NonControl(Output(s.log)) + NonControl(fed) + Flatten(s.queue))
  {
    assert Input([call]) == if call.Data? then call.chunk else [];
    match call {
      case Data(chunk) =>
        if s.blocking {
          AbsorbKeeps(s, chunk);
          FlushConserves(Absorb(s, chunk));
        } else {
          PushFrame(s, Passed(chunk));
          NonControlAppend(Output(s.log), chunk);
        }
      case Do(r) =>
        SwitchFrame(s, r);
        FlushConserves(Switch(s, r));
    }
  }

  /** Pass-through data never arrives while something is queued. */
  predicate NeverOvertakes(s: State, calls: seq<Call>)
    decreases |calls|
  {
    calls == [] ||
    ((calls[0].Data? && !s.blocking ==> s.queue == []) && NeverOvertakes(Step(s, calls[0]), calls[1..]))
  }

  lemma InputSplit(calls: seq<Call>)
    requires calls != []
    ensures NonControl(Input(calls)) == NonControl(Input([calls[0]])) + NonControl(Input(calls[1..]))
    ensures Controls(Input(calls)) == Controls(Input([calls[0]])) + Controls(Input(calls[1..]))
  {
    var fed := if calls[0].Data? then calls[0].chunk else [];
    assert Input([calls[0]]) == fed + Input([]) == fed;
    NonControlAppend(fed, Input(calls[1..]));
  }

  lemma StepKeys(s: State, call: Call, rest: seq<Symbol>)
    requires Canonical(s.queue)
    ensures Canonical(Step(s, call).queue)
    ensures Keys(Step(s, call)) + rest == Keys(s) + (Controls(Input([call])) + rest)
  {
    StepConserves(s, call);
    Assoc(Keys(s), Controls(Input([call])), rest);
  }

  lemma StepText(s: State, call: Call, rest: seq<Symbol>)
    requires Canonical(s.queue) && (call.Data? && !s.blocking ==> s.queue == [])
    ensures Text(Step(s, call)) + rest == Text(s) + (NonControl(Input([call])) + rest)
  {
    var before, fed := Text(s), NonControl(Input([call]));
    assert Text(Step(s, call)) == before + fed by {
      StepConserves(s, call);
    }
    Assoc(before, fed, rest);
  }

  lemma {:induction false} RunKeys(s: State, calls: seq<Call>)
    requires Canonical(s.queue)
    ensures Canonical(Run(s, calls).queue)
    ensures Keys(Run(s, calls)) == Keys(s) + Controls(Input(calls))
    decreases |calls|
  {
    if calls != [] {
      StepKeys(s, calls[0], Controls(Input(calls[1..])));
      RunKeys(Step(s, calls[0]), calls[1..]);
      InputSplit(calls);
    }
  }

  lemma {:induction false} RunText(s: State, calls: seq<Call>)
    requires Canonical(s.queue) && NeverOvertakes(s, calls)
    ensures Text(Run(s, calls)) == Text(s) + NonControl(Input(calls))
    decreases |calls|
  {
    if calls != [] {
      StepKeys(s, calls[0], []);
      StepText(s, calls[0], NonControl(Input(calls[1..])));
      RunText(Step(s, calls[0]), calls[1..]);
      InputSplit(calls);
    }
  }

  /**
   Conservation over a whole run, for every consumer: the text downstream followed by the text
   queued is the input without its control characters, and those come out in their own order.
   */
  lemma Conservation(s: State, calls: seq<Call>)
    requires Canonical(s.queue)
    ensures Canonical(Run(s, calls).queue)
    ensures Keys(Run(s, calls)) == Keys(s) + Controls(Input(calls))
    ensures NeverOvertakes(s, calls) ==> Text(Run(s, calls)) == Text(s) + NonControl(Input(calls))
  {
    RunKeys(s, calls);
    if NeverOvertakes(s, calls) {
      RunText(s, calls);
    }
  }

  /** Exactly when does pass-through mode keep the order whatever arrives next? When nothing is queued. */
  lemma PassThroughConservesIffQueueEmpty(s: State)
    requires Canonical(s.queue) && !s.blocking
    ensures (forall chunk :: Text(Step(s, Data(chunk))) == Text(s) + NonControl(chunk)) <==> s.queue == []
  {
    if s.queue == [] {
      forall chunk ensures Text(Step(s, Data(chunk))) == Text(s) + NonControl(chunk) {
        EmptyQueuePasses(s, chunk);
      }
    } else {
      var chunk := OvertakingReorders(s);
    }
  }

  lemma EmptyQueuePasses(s: State, chunk: seq<Symbol>)
    requires !s.blocking && s.queue == []
    ensures Text(Step(s, Data(chunk))) == Text(s) + NonControl(chunk)
  {
    PushFrame(s, Passed(chunk));
    NonControlAppend(Output(s.log), chunk);
  }

  /** A queued text is overtaken by any character that differs from its first one. */
  lemma OvertakingReorders(s: State) returns (chunk: seq<Symbol>)
    requires Canonical(s.queue) && !s.blocking && s.queue != []
    ensures Text(Step(s, Data(chunk))) != Text(s) + NonControl(chunk)
  {
    assert IsToken(s.queue[0]);
    var first := Flatten(s.queue)[0];
    var other := if first == CR then LF else CR;
    chunk := [other];
    assert NonControl(chunk) == chunk;
    assert Input([Data(chunk)]) == chunk;
    StepConserves(s, Data(chunk));
    var out := NonControl(Output(s.log));
    assert (out + chunk + Flatten(s.queue))[|out|] == other;
    assert (Text(s) + chunk)[|out|] == first;
  }

  /**
   Such a state can be reached: a line arrives while the input is paused, blocking is switched off, and
   the next chunk comes out in front of it.
   */
  lemma OvertakingIsReached(x: Symbol, y: Symbol)
    requires !IsControl(x) && !IsControl(y) && x != y
    ensures var calls := [Do(PauseInput), Data([x]), Do(DisableBlocking), Data([y])];
            && Text(Run(Initial([]), calls)) == [y, x]
            && NonControl(Input(calls)) == [x, y]
            && Text(Run(Initial([]), calls)) != NonControl(Input(calls))
  {
    var paused := Initial([]).(paused := true);
    var held := paused.(queue := [[x]]);
    var passing := held.(blocking := false, log := [Blocking(false)]);
    var last := passing.(log := [Blocking(false), Passed([y])]);
    HoldsWhilePaused(paused, x);
    assert Step(passing, Data([y])) == last;
    FourCalls(Initial([]), Do(PauseInput), Data([x]), Do(DisableBlocking), Data([y]));
    assert Input([Do(PauseInput), Data([x]), Do(DisableBlocking), Data([y])]) == [x, y] by {
      InputOfFour(Do(PauseInput), Data([x]), Do(DisableBlocking), Data([y]));
    }
    OutputSnoc([], Blocking(false));
    OutputSnoc([Blocking(false)], Passed([y]));
    assert [] + [Blocking(false)] == [Blocking(false)];
    assert last.log == [Blocking(false)] + [Passed([y])];
    assert Output(last.log) == [y];
    assert NonControl([y]) == [y];
    assert Flatten([[x]]) == [x] + Flatten([]) == [x];
    assert Text(last) == [y] + [x] == [y, x];
    TwoAreKept(x, y);
  }

  lemma TwoAreKept(x: Symbol, y: Symbol)
    requires !IsControl(x) && !IsControl(y)
    ensures NonControl([x, y]) == [x, y]
  {
    assert [x, y][1..] == [y] && NonControl([y]) == [y];
  }

  lemma HoldsWhilePaused(s: State, x: Symbol)
    requires s.paused && s.blocking && s.queue == [] && !IsControl(x)
    ensures Step(s, Data([x])) == s.(queue := [[x]])
  {
    var t := s.(queue := [[x]]);
    assert [x][1..] == [] && AbsorbOne(s, x) == t && Absorb(t, []) == t;
    assert Absorb(s, [x]) == t && Flush(t) == t;
  }

  lemma FourCalls(s: State, a: Call, b: Call, c: Call, d: Call)
    ensures Run(s, [a, b, c, d]) == Step(Step(Step(Step(s, a), b), c), d)
  {
    RunCons(s, a, [b, c, d]);
    RunCons(Step(s, a), b, [c, d]);
    RunCons(Step(Step(s, a), b), c, [d]);
    RunCons(Step(Step(Step(s, a), b), c), d, []);
    assert [a] + [b, c, d] == [a, b, c, d] && [b] + [c, d] == [b, c, d] && [c] + [d] == [c, d] && [d] + [] == [d];
  }

  lemma RunCons(s: State, call: Call, rest: seq<Call>)
    ensures Run(s, [call] + rest) == Run(Step(s, call), rest)
  {
    assert ([call] + rest)[1..] == rest;
  }

  lemma InputOfFour(a: Call, b: Call, c: Call, d: Call)
    requires !a.Data? && b.Data? && !c.Data? && d.Data?
    ensures Input([a, b, c, d]) == b.chunk + d.chunk
  {
    assert [a, b, c, d][1..] == [b, c, d] && [b, c, d][1..] == [c, d] && [c, d][1..] == [d] && [d][1..] == [];
    assert Input([d]) == d.chunk && Input([c, d]) == d.chunk;
  }

  // ---------- blocking runs ----------

  predicate StaysBlocking(script: seq<seq<Reaction>>) {
    forall i :: 0 <= i < |script| ==> DisableBlocking !in script[i]
  }

  predicate NeverDisables(calls: seq<Call>) {
    Do(DisableBlocking) !in calls
  }

  predicate BlockedOnly(s: State) {
    s.blocking && StaysBlocking(s.script) && Blocking(false) !in s.log
  }

  lemma {:induction false} ReactStaysBlocking(s: State, rs: seq<Reaction>)
    requires BlockedOnly(s) && DisableBlocking !in rs
    ensures BlockedOnly(React(s, rs))
    decreases |rs|
  {
    if rs != [] {
      assert rs[0] in rs;
      ReactStaysBlocking(Switch(s, rs[0]), rs[1..]);
    }
  }

  lemma PushStaysBlocking(s: State, e: Event)
    requires BlockedOnly(s) && e != Blocking(false)
    ensures BlockedOnly(Push(s, e))
  {
    var t := s.(log := s.log + [e]);
    if s.script != [] {
      assert DisableBlocking !in s.script[0];
      ReactStaysBlocking(t.(script := s.script[1..]), s.script[0]);
    }
  }

  lemma {:induction false} FlushStaysBlocking(s: State)
    requires BlockedOnly(s)
    ensures BlockedOnly(Flush(s))
    decreases |s.queue|
  {
    if s.queue != [] && ShouldForward(s) && !s.paused {
      var e := s.queue[0];
      var t := s.(queue := s.queue[1..], forwarding := s.forwarding && !IsLineEnding(e));
      PushStaysBlocking(t, Pushed(e));
      PushFrame(t, Pushed(e));
      FlushStaysBlocking(PushHead(s));
    }
  }

  lemma {:induction false} AbsorbStaysBlocking(s: State, chunk: seq<Symbol>)
    requires BlockedOnly(s)
    ensures BlockedOnly(Absorb(s, chunk))
    decreases |chunk|
  {
    if chunk != [] {
      if IsControl(chunk[0]) {
        PushStaysBlocking(s, Interrupted(chunk[0]));
      }
      AbsorbStaysBlocking(AbsorbOne(s, chunk[0]), chunk[1..]);
    }
  }

  /** In a run that never leaves blocking mode nothing can overtake the queue. */
  lemma {:induction false} BlockingRun(s: State, calls: seq<Call>)
    requires BlockedOnly(s) && NeverDisables(calls)
    ensures BlockedOnly(Run(s, calls)) && NeverOvertakes(s, calls)
    decreases |calls|
  {
    if calls != [] {
      var call := calls[0];
      assert call in calls;
      match call {
        case Data(chunk) =>
          AbsorbStaysBlocking(s, chunk);
          FlushStaysBlocking(Absorb(s, chunk));
        case Do(r) =>
          ReactStaysBlocking(s, [r]);
          assert React(s, [r]) == Switch(s, r) by { assert React(Switch(s, r), []) == Switch(s, r); }
          FlushStaysBlocking(Switch(s, r));
      }
      BlockingRun(Step(s, call), calls[1..]);
    }
  }

  // ---------- one line per release ----------

  /** The two switches are what the history says they are, and the history is disciplined. */
  predicate Gated(s: State) {
    && s.forwarding == GateOpen(s.log)
    && s.blocking == BlockingOn(s.log)
    && Disciplined(s.log)
  }

  lemma SnocInit(log: seq<Event>, e: Event)
    ensures (log + [e])[..|log + [e]| - 1] == log && (log + [e])[|log + [e]| - 1] == e
  {}

  lemma SwitchGated(s: State, r: Reaction)
    requires Gated(s)
    ensures Gated(Switch(s, r))
  {
    match r
    case NextLine => SnocInit(s.log, Released);
    case EnableBlocking => SnocInit(s.log, Blocking(true));
    case DisableBlocking => SnocInit(s.log, Blocking(false));
    case _ =>
  }

  lemma {:induction false} ReactGated(s: State, rs: seq<Reaction>)
    requires Gated(s)
    ensures Gated(React(s, rs))
    decreases |rs|
  {
    if rs != [] {
      SwitchGated(s, rs[0]);
      ReactGated(Switch(s, rs[0]), rs[1..]);
    }
  }

  /** The gate must already be shut, behind a line ending, when the entry is pushed. */
  lemma PushGated(s: State, e: Event)
    requires Gated(s.(forwarding := GateOpen(s.log)))
    requires e.Pushed? || e.Interrupted? || e.Passed?
    requires s.forwarding == (GateOpen(s.log) && !(e.Pushed? && IsLineEnding(e.entry)))
    requires e.Pushed? ==> GateOpen(s.log) || !s.blocking
    requires e.Passed? ==> !s.blocking
    ensures Gated(Push(s, e))
  {
    var t := s.(log := s.log + [e]);
    assert t.log[..|t.log| - 1] == s.log;
    if s.script != [] {
      ReactGated(t.(script := s.script[1..]), s.script[0]);
    }
  }

  lemma {:induction false} FlushGated(s: State)
    requires Gated(s)
    ensures Gated(Flush(s))
    decreases |s.queue|
  {
    if s.queue != [] && ShouldForward(s) && !s.paused {
      var e := s.queue[0];
      var t := s.(queue := s.queue[1..], forwarding := s.forwarding && !IsLineEnding(e));
      PushGated(t, Pushed(e));
      PushFrame(t, Pushed(e));
      FlushGated(PushHead(s));
    }
  }

  lemma {:induction false} AbsorbGated(s: State, chunk: seq<Symbol>)
    requires Gated(s)
    ensures Gated(Absorb(s, chunk))
    decreases |chunk|
  {
    if chunk != [] {
      if IsControl(chunk[0]) {
        PushGated(s, Interrupted(chunk[0]));
      }
      AbsorbGated(AbsorbOne(s, chunk[0]), chunk[1..]);
    }
  }

  /** Over every run, modes switching or not, queued entries only ever pass an open gate. */
  lemma {:induction false} RunGated(s: State, calls: seq<Call>)
    requires Gated(s)
    ensures Gated(Run(s, calls))
    decreases |calls|
  {
    if calls != [] {
      match calls[0] {
        case Data(chunk) =>
          if s.blocking {
            AbsorbGated(s, chunk);
            FlushGated(Absorb(s, chunk));
          } else {
            PushGated(s, Passed(chunk));
          }
        case Do(r) =>
          ReactGated(s, [r]);
          assert React(s, [r]) == Switch(s, r) by { assert React(Switch(s, r), []) == Switch(s, r); }
          FlushGated(Switch(s, r));
      }
      RunGated(Step(s, calls[0]), calls[1..]);
    }
  }

  lemma {:induction false} DisciplineBoundsLines(log: seq<Event>)
    requires Disciplined(log) && Blocking(false) !in log
    ensures BlockingOn(log)
    ensures LineEndings(log) + (if GateOpen(log) then 1 else 0) <= 1 + Releases(log)
    decreases |log|
  {
    if log != [] {
      assert log[|log| - 1] in log;
      DisciplineBoundsLines(log[..|log| - 1]);
    }
  }

  // ---------- the same on characters ----------

  /** Entries come from the queue, and only control characters overtake it. */
  predicate WellPushed(log: seq<Event>) {
    forall i :: 0 <= i < |log| ==>
      (log[i].Pushed? ==> IsToken(log[i].entry)) && (log[i].Interrupted? ==> IsControl(log[i].key))
  }

  lemma {:induction false} ReactPushes(s: State, rs: seq<Reaction>)
    requires WellPushed(s.log)
    ensures WellPushed(React(s, rs).log)
    decreases |rs|
  {
    if rs != [] {
      ReactPushes(Switch(s, rs[0]), rs[1..]);
    }
  }

  lemma PushPushes(s: State, e: Event)
    requires WellPushed(s.log) && (e.Pushed? ==> IsToken(e.entry)) && (e.Interrupted? ==> IsControl(e.key))
    ensures WellPushed(Push(s, e).log)
  {
    var t := s.(log := s.log + [e]);
    if s.script != [] {
      ReactPushes(t.(script := s.script[1..]), s.script[0]);
    }
  }

  lemma {:induction false} FlushPushes(s: State)
    requires WellPushed(s.log) && Canonical(s.queue)
    ensures WellPushed(Flush(s).log)
    decreases |s.queue|
  {
    if s.queue != [] && ShouldForward(s) && !s.paused {
      var t := s.(queue := s.queue[1..], forwarding := s.forwarding && !IsLineEnding(s.queue[0]));
      assert IsToken(s.queue[0]);
      PushPushes(t, Pushed(s.queue[0]));
      HeadConserves(s);
      FlushPushes(PushHead(s));
    }
  }

  lemma {:induction false} AbsorbPushes(s: State, chunk: seq<Symbol>)
    requires WellPushed(s.log)
    ensures WellPushed(Absorb(s, chunk).log)
    decreases |chunk|
  {
    if chunk != [] {
      if IsControl(chunk[0]) {
        PushPushes(s, Interrupted(chunk[0]));
      }
      AbsorbPushes(AbsorbOne(s, chunk[0]), chunk[1..]);
    }
  }

  lemma StepPushes(s: State, call: Call)
    requires WellPushed(s.log) && Canonical(s.queue)
    ensures WellPushed(Step(s, call).log)
  {
    match call {
      case Data(chunk) =>
        if s.blocking {
          AbsorbPushes(s, chunk);
          AbsorbConserves(s, chunk);
          FlushPushes(Absorb(s, chunk));
        } else {
          PushPushes(s, Passed(chunk));
        }
      case Do(r) => FlushPushes(Switch(s, r));
    }
  }

  lemma StepCanonical(s: State, call: Call)
    requires Canonical(s.queue)
    ensures Canonical(Step(s, call).queue)
  {
    StepConserves(s, call);
  }

  lemma {:induction false} RunPushes(s: State, calls: seq<Call>)
    requires WellPushed(s.log) && Canonical(s.queue)
    ensures WellPushed(Run(s, calls).log)
    decreases |calls|
  {
    if calls != [] {
      StepPushes(s, calls[0]);
      StepCanonical(s, calls[0]);
      RunPushes(Step(s, calls[0]), calls[1..]);
    }
  }

  /** No more line breaks come out than line endings were pushed: a CR and an LF can still join up. */
  lemma {:induction false} BreaksAreLineEndings(log: seq<Event>)
    requires WellPushed(log) && Disciplined(log) && Blocking(false) !in log
    ensures Breaks(NonControl(Output(log))) <= LineEndings(log)
    decreases |log|
  {
    if log != [] {
      var before, e := log[..|log| - 1], log[|log| - 1];
      assert e in log && forall x :: x in before ==> x in log;
      DisciplineBoundsLines(before);
      BreaksAreLineEndings(before);
      NonControlAppend(Output(before), Symbols(e));
      EventBreaks(e);
      BreaksAppend(NonControl(Output(before)), NonControl(Symbols(e)));
    }
  }

  lemma EventBreaks(e: Event)
    requires !e.Passed? && (e.Pushed? ==> IsToken(e.entry)) && (e.Interrupted? ==> IsControl(e.key))
    ensures Breaks(NonControl(Symbols(e))) == if e.Pushed? && IsLineEnding(e.entry) then 1 else 0
  {
    if e.Pushed? {
      NoControl(e.entry);
      TokenEndsLineIff(e.entry);
    } else if e.Interrupted? {
      assert NonControl([e.key]) == NonControl([]) == [];
    }
  }

  // ---------- releases are calls of nextLine ----------

  function NextLines(rs: seq<Reaction>): nat {
    if rs == [] then 0 else (if rs[0] == NextLine then 1 else 0) + NextLines(rs[1..])
  }

  /** The calls that the consumer is still going to make. */
  function Scripted(script: seq<seq<Reaction>>): nat {
    if script == [] then 0 else NextLines(script[0]) + Scripted(script[1..])
  }

  function Called(calls: seq<Call>): nat {
    if calls == [] then 0 else (if calls[0] == Do(NextLine) then 1 else 0) + Called(calls[1..])
  }

  /** The calls of `nextLine` so far, and those still to come from the consumer. */
  function Owed(s: State): nat {
    Releases(s.log) + Scripted(s.script)
  }

  lemma ReleasesSnoc(log: seq<Event>, e: Event)
    ensures Releases(log + [e]) == Releases(log) + (if e.Released? then 1 else 0)
  {
    SnocInit(log, e);
  }

  lemma SwitchReleases(s: State, r: Reaction)
    ensures Releases(Switch(s, r).log) == Releases(s.log) + (if r == NextLine then 1 else 0)
  {
    ReleasesSnoc(s.log, Released);
    ReleasesSnoc(s.log, Blocking(true));
    ReleasesSnoc(s.log, Blocking(false));
  }

  lemma {:induction false} ReactReleases(s: State, rs: seq<Reaction>)
    ensures Releases(React(s, rs).log) == Releases(s.log) + NextLines(rs)
    decreases |rs|
  {
    if rs != [] {
      SwitchReleases(s, rs[0]);
      ReactReleases(Switch(s, rs[0]), rs[1..]);
    }
  }

  lemma PushOwes(s: State, e: Event)
    requires !e.Released?
    ensures Owed(Push(s, e)) == Owed(s)
  {
    var t := s.(log := s.log + [e]);
    ReleasesSnoc(s.log, e);
    if s.script != [] {
      ReactReleases(t.(script := s.script[1..]), s.script[0]);
      ReactFrame(t.(script := s.script[1..]), s.script[0]);
    }
  }

  lemma {:induction false} FlushOwes(s: State)
    ensures Owed(Flush(s)) == Owed(s)
    decreases |s.queue|
  {
    if s.queue != [] && ShouldForward(s) && !s.paused {
      var t := s.(queue := s.queue[1..], forwarding := s.forwarding && !IsLineEnding(s.queue[0]));
      PushOwes(t, Pushed(s.queue[0]));
      PushFrame(t, Pushed(s.queue[0]));
      FlushOwes(PushHead(s));
    }
  }

  lemma {:induction false} AbsorbOwes(s: State, chunk: seq<Symbol>)
    ensures Owed(Absorb(s, chunk)) == Owed(s)
    decreases |chunk|
  {
    if chunk != [] {
      if IsControl(chunk[0]) {
        PushOwes(s, Interrupted(chunk[0]));
      }
      AbsorbOwes(AbsorbOne(s, chunk[0]), chunk[1..]);
    }
  }

  lemma StepOwes(s: State, call: Call)
    ensures Owed(Step(s, call)) == Owed(s) + (if call == Do(NextLine) then 1 else 0)
  {
    match call {
      case Data(chunk) =>
        if s.blocking {
          AbsorbOwes(s, chunk);
          FlushOwes(Absorb(s, chunk));
        } else {
          PushOwes(s, Passed(chunk));
        }
      case Do(r) =>
        SwitchReleases(s, r);
        FlushOwes(Switch(s, r));
    }
  }

  /** Every release in the history is one call of `nextLine`, from outside or by the consumer. */
  lemma {:induction false} ReleasesAreCalls(s: State, calls: seq<Call>)
    ensures Owed(Run(s, calls)) == Owed(s) + Called(calls)
    decreases |calls|
  {
    if calls != [] {
      StepOwes(s, calls[0]);
      ReleasesAreCalls(Step(s, calls[0]), calls[1..]);
    }
  }

  /**
   In blocking mode at most one line gets through for each call of `nextLine`, plus the first: line
   breaks are told by their characters, and calls by who made them.
   */
  lemma OneLinePerRelease(script: seq<seq<Reaction>>, calls: seq<Call>)
    requires StaysBlocking(script) && NeverDisables(calls)
    ensures var s := Run(Initial(script), calls);
            && Disciplined(s.log) && LineEndings(s.log) <= 1 + Releases(s.log)
            && Breaks(NonControl(Output(s.log))) <= 1 + Releases(s.log)
            && Releases(s.log) + Scripted(s.script) == Called(calls) + Scripted(script)
    ensures Text(Run(Initial(script), calls)) == NonControl(Input(calls))
    ensures Keys(Run(Initial(script), calls)) == Controls(Input(calls))
  {
    var log := Run(Initial(script), calls).log;
    BlockingRun(Initial(script), calls);
    RunGated(Initial(script), calls);
    DisciplineBoundsLines(log);
    RunPushes(Initial(script), calls);
    BreaksAreLineEndings(log);
    ReleasesAreCalls(Initial(script), calls);
    Conservation(Initial(script), calls);
  }

  // ---------- no release is lost ----------

  predicate Settled(s: State) {
    s.queue == [] || !ShouldForward(s) || s.paused
  }

  lemma {:induction false} FlushSettles(s: State)
    ensures Settled(Flush(s))
    decreases |s.queue|
  {
    if s.queue != [] && ShouldForward(s) && !s.paused {
      PushFrame(s.(queue := s.queue[1..], forwarding := s.forwarding && !IsLineEnding(s.queue[0])),
                Pushed(s.queue[0]));
      FlushSettles(PushHead(s));
    }
  }

  /** When a call that flushes returns, text is only held back by a shut gate or a paused input. */
  lemma NoReleaseIsLost(s: State, call: Call)
    requires call == Do(NextLine) || call == Do(DisableBlocking) || (call.Data? && s.blocking)
    ensures Settled(Step(s, call))
  {
    match call {
      case Data(chunk) => FlushSettles(Absorb(s, chunk));
      case Do(r) => FlushSettles(Switch(s, r));
    }
  }

  /** What the consumer is going to do during the next push. */
  function NextReactions(s: State): seq<Reaction> {
    if s.script == [] then [] else s.script[0]
  }

  /** Of the reactions `a` and `b`, `a` comes last in the list. */
  predicate LastOf(rs: seq<Reaction>, a: Reaction, b: Reaction) {
    exists i :: 0 <= i < |rs| && rs[i] == a && b !in rs[i + 1..]
  }

  lemma LastOfCons(rs: seq<Reaction>, a: Reaction, b: Reaction)
    requires rs != [] && a != b
    ensures LastOf(rs, a, b) <==> LastOf(rs[1..], a, b) || (rs[0] == a && b !in rs[1..])
  {
    var rest := rs[1..];
    assert forall i :: 0 <= i < |rest| ==> rest[i] == rs[i + 1] && rest[i + 1..] == rs[i + 2..];
    if i :| 0 <= i < |rest| && rest[i] == a && b !in rest[i + 1..] {
      assert rs[i + 1] == a && b !in rs[i + 1 + 1..];
    }
    if i :| 0 <= i < |rs| && rs[i] == a && b !in rs[i + 1..] {
      assert i > 0 ==> rest[i - 1] == a && b !in rest[i - 1 + 1..];
    }
  }

  lemma {:induction false} LastOfEither(rs: seq<Reaction>, a: Reaction, b: Reaction)
    requires a != b
    ensures a in rs ==> LastOf(rs, a, b) || LastOf(rs, b, a)
    decreases |rs|
  {
    if rs != [] {
      LastOfCons(rs, a, b);
      LastOfCons(rs, b, a);
      LastOfEither(rs[1..], a, b);
      LastOfEither(rs[1..], b, a);
      assert rs == [rs[0]] + rs[1..];
    }
  }

  /** A switch that `on` turns on and `off` turns off, after these reactions. */
  predicate After(start: bool, rs: seq<Reaction>, on: Reaction, off: Reaction) {
    LastOf(rs, on, off) || (start && !LastOf(rs, off, on))
  }

  lemma AfterCons(start: bool, rs: seq<Reaction>, on: Reaction, off: Reaction)
    requires rs != [] && on != off
    ensures After(start, rs, on, off) ==
            After(if rs[0] == on then true else if rs[0] == off then false else start, rs[1..], on, off)
  {
    LastOfCons(rs, on, off);
    LastOfCons(rs, off, on);
    LastOfEither(rs[1..], on, off);
    LastOfEither(rs[1..], off, on);
  }

  /** What the reactions make of the three switches. */
  lemma {:induction false} ReactFlags(s: State, rs: seq<Reaction>)
    ensures React(s, rs).paused == After(s.paused, rs, PauseInput, ResumeInput)
    ensures React(s, rs).blocking == After(s.blocking, rs, EnableBlocking, DisableBlocking)
    ensures React(s, rs).forwarding == (s.forwarding || NextLine in rs)
    decreases |rs|
  {
    if rs != [] {
      AfterCons(s.paused, rs, PauseInput, ResumeInput);
      AfterCons(s.blocking, rs, EnableBlocking, DisableBlocking);
      assert rs == [rs[0]] + rs[1..];
      ReactFlags(Switch(s, rs[0]), rs[1..]);
    }
  }

  /**
   Nothing flushes behind a resumed input: resuming it while the gate is open, from outside or in the
   middle of pass-through data, leaves queued text behind. In the middle of pass-through data the gate
   is open unless blocking is switched on again with no release outstanding or given.
   */
  predicate Strands(s: State, call: Call) {
    s.queue != [] &&
    match call
    case Do(ResumeInput) => ShouldForward(s)
    case Do(_) => false
    case Data(_) =>
      var rs := NextReactions(s);
      && !s.blocking
      && LastOf(rs, ResumeInput, PauseInput)
      && (LastOf(rs, EnableBlocking, DisableBlocking) ==> s.forwarding || NextLine in rs)
  }

  /** Exactly which outermost calls leave text that nothing holds back. */
  lemma SettledUnlessStranded(s: State, call: Call)
    requires Settled(s)
    ensures Settled(Step(s, call)) <==> !Strands(s, call)
  {
    match call {
      case Data(chunk) =>
        if s.blocking {
          NoReleaseIsLost(s, call);
        } else {
          PassThroughSettles(s, chunk);
        }
      case Do(r) =>
        if r == NextLine || r == DisableBlocking {
          NoReleaseIsLost(s, call);
        }
    }
  }

  lemma PassThroughSettles(s: State, chunk: seq<Symbol>)
    requires Settled(s) && !s.blocking
    ensures Settled(Step(s, Data(chunk))) <==> !Strands(s, Data(chunk))
  {
    var t := s.(log := s.log + [Passed(chunk)]);
    PushFrame(s, Passed(chunk));
    if s.script == [] {
      assert !LastOf([], ResumeInput, PauseInput);
    } else {
      var rs := s.script[0];
      ReactFlags(t.(script := s.script[1..]), rs);
      NeverBoth(rs, ResumeInput, PauseInput);
    }
  }

  lemma NeverBoth(rs: seq<Reaction>, a: Reaction, b: Reaction)
    requires a != b
    ensures !(LastOf(rs, a, b) && LastOf(rs, b, a))
  {}

  /** Both ways are open from the start: to resume the input from outside, and during pass-through data. */
  lemma StrandingIsReached(x: Symbol, y: Symbol)
    requires !IsControl(x)
    ensures !Settled(Run(Initial([]), [Do(PauseInput), Data([x]), Do(ResumeInput)]))
    ensures !Settled(Run(Initial([[ResumeInput]]), [Do(PauseInput), Data([x]), Do(DisableBlocking), Data([y])]))
  {
    ResumedOutside(x);
    ResumedInside(x, y);
  }

  lemma ResumedOutside(x: Symbol)
    requires !IsControl(x)
    ensures !Settled(Run(Initial([]), [Do(PauseInput), Data([x]), Do(ResumeInput)]))
  {
    var s := Initial([]);
    var paused := s.(paused := true);
    HoldsWhilePaused(paused, x);
    RunCons(s, Do(PauseInput), [Data([x]), Do(ResumeInput)]);
    RunCons(paused, Data([x]), [Do(ResumeInput)]);
    RunCons(paused.(queue := [[x]]), Do(ResumeInput), []);
    assert [Do(PauseInput)] + [Data([x]), Do(ResumeInput)] == [Do(PauseInput), Data([x]), Do(ResumeInput)];
    assert [Data([x])] + [Do(ResumeInput)] == [Data([x]), Do(ResumeInput)];
    assert [Do(ResumeInput)] + [] == [Do(ResumeInput)];
  }

  lemma ResumedInside(x: Symbol, y: Symbol)
    requires !IsControl(x)
    ensures !Settled(Run(Initial([[ResumeInput]]), [Do(PauseInput), Data([x]), Do(DisableBlocking), Data([y])]))
  {
    var s := Initial([[ResumeInput]]);
    var paused := s.(paused := true);
    var held := paused.(queue := [[x]]);
    var passing := held.(blocking := false, log := [Blocking(false)]);
    HoldsWhilePaused(paused, x);
    assert Step(held, Do(DisableBlocking)) == passing;
    FourCalls(s, Do(PauseInput), Data([x]), Do(DisableBlocking), Data([y]));
    assert [ResumeInput][0] == ResumeInput && PauseInput !in [ResumeInput][0 + 1..];
    assert LastOf([ResumeInput], ResumeInput, PauseInput);
    assert Strands(passing, Data([y])) by {
      assert !LastOf([ResumeInput], EnableBlocking, DisableBlocking);
    }
    PassThroughSettles(passing, [y]);
  }

  /** The number of queued entries up to and including the first line ending. */
  function FirstLine(q: seq<Entry>): (n: nat)
    ensures n <= |q|
  {
    if q == [] then 0 else if IsLineEnding(q[0]) then 1 else 1 + FirstLine(q[1..])
  }

  function PushedAll(q: seq<Entry>): seq<Event> {
    seq(|q|, i requires 0 <= i < |q| => Pushed(q[i]))
  }

  /** A release lets out exactly one line when the consumer asks for no more than that. */
  lemma {:induction false} ReleaseForwardsOneLine(s: State)
    requires s.blocking && s.forwarding && !s.paused && s.script == []
    ensures var n := FirstLine(s.queue); var t := Flush(s);
            && t.queue == s.queue[n..]
            && t.log == s.log + PushedAll(s.queue[..n])
            && t.forwarding == !exists i :: 0 <= i < |s.queue| && IsLineEnding(s.queue[i])
    decreases |s.queue|
  {
    if s.queue != [] {
      var n := FirstLine(s.queue);
      assert PushedAll(s.queue[..n]) == [Pushed(s.queue[0])] + PushedAll(s.queue[1..][..n - 1]);
      if !IsLineEnding(s.queue[0]) {
        ReleaseForwardsOneLine(PushHead(s));
        assert forall i :: 1 <= i < |s.queue| ==> s.queue[i] == s.queue[1..][i - 1];
      } else {
        assert Flush(PushHead(s)) == PushHead(s);
      }
    }
  }

  /** An entry shuts the gate exactly when it is one of the three line breaks. */
  lemma GateShutByBreak(s: State)
    requires Canonical(s.queue) && s.queue != [] && s.script == []
    ensures PushHead(s).forwarding <==>
            s.forwarding && s.queue[0] != [Ch('\n')] && s.queue[0] != [Ch('\r')] && s.queue[0] != [Ch('\r'), Ch('\n')]
  {
    assert IsToken(s.queue[0]);
    TokenEndsLineIff(s.queue[0]);
  }

  lemma PushedAllCons(log: seq<Event>, q: seq<Entry>)
    requires q != []
    ensures log + PushedAll(q) == (log + [Pushed(q[0])]) + PushedAll(q[1..])
  {
    assert PushedAll(q) == [Pushed(q[0])] + PushedAll(q[1..]);
  }

  lemma {:induction false} OutputPushedAll(log: seq<Event>, q: seq<Entry>)
    ensures Output(log + PushedAll(q)) == Output(log) + Flatten(q)
    decreases |q|
  {
    if q == [] {
      assert log + PushedAll(q) == log;
    } else {
      OutputSnoc(log, Pushed(q[0]));
      OutputPushedAll(log + [Pushed(q[0])], q[1..]);
      PushedAllCons(log, q);
      Assoc(Output(log), q[0], Flatten(q[1..]));
    }
  }

  lemma {:induction false} FirstLineOfText(q: seq<Entry>)
    requires Canonical(q)
    ensures |Flatten(q[..FirstLine(q)])| == LineLength(Flatten(q))
    ensures (exists i :: 0 <= i < |q| && IsLineEnding(q[i])) <==> Ch('\n') in Flatten(q) || Ch('\r') in Flatten(q)
    decreases |q|
  {
    if q != [] {
      var e, rest := q[0], q[1..];
      CanonicalHead(q);
      assert IsToken(e) && (rest != [] ==> IsToken(rest[0]));
      TokenEndsLineIff(e);
      assert rest != [] ==> Flatten(rest)[0] == q[1][0];
      LineOfToken(e, Flatten(rest));
      FirstLineOfText(rest);
      assert Flatten(q) == e + Flatten(rest);
      assert forall i :: 1 <= i < |q| ==> q[i] == rest[i - 1];
      FirstTokens(q);
    }
  }

  lemma FirstTokens(q: seq<Entry>)
    requires q != []
    ensures Flatten(q[..FirstLine(q)])
         == q[0] + (if IsLineEnding(q[0]) then [] else Flatten(q[1..][..FirstLine(q[1..])]))
  {
    var n := FirstLine(q);
    assert q[..n][0] == q[0] && q[..n][1..] == q[1..][..n - 1];
  }

  /** On characters: a release lets out the text up to and including its first line break. */
  lemma ReleaseForwardsFirstLine(s: State)
    requires s.blocking && s.forwarding && !s.paused && s.script == [] && Canonical(s.queue)
    ensures var text := Flatten(s.queue); var n := LineLength(text); var t := Flush(s);
            && Output(t.log) == Output(s.log) + text[..n]
            && Flatten(t.queue) == text[n..]
            && (t.forwarding <==> Ch('\n') !in text && Ch('\r') !in text)
  {
    ReleaseForwardsOneLine(s);
    FirstLineOfText(s.queue);
    FirstLineLetOut(s.log, s.queue, FirstLine(s.queue));
  }

  lemma FirstLineLetOut(log: seq<Event>, q: seq<Entry>, k: nat)
    requires k <= |q| && |Flatten(q[..k])| == LineLength(Flatten(q))
    ensures var text := Flatten(q); var n := LineLength(text);
            n <= |text| && Output(log + PushedAll(q[..k])) == Output(log) + text[..n] && Flatten(q[k..]) == text[n..]
  {
    OutputPushedAll(log, q[..k]);
    FlattenAppend(q[..k], q[k..]);
    assert q == q[..k] + q[k..];
  }

  /** Nothing needs to be released for the first line: it comes through with the first data. */
  lemma FirstLineComesThrough(chunk: seq<Symbol>)
    ensures var text := NonControl(chunk); var t := Step(Initial([]), Data(chunk));
            && Output(t.log) == Controls(chunk) + text[..LineLength(text)]
            && Flatten(t.queue) == text[LineLength(text)..]
  {
    var s := Absorb(Initial([]), chunk);
    AbsorbConserves(Initial([]), chunk);
    AbsorbKeepsSwitches(Initial([]), chunk);
    ReleaseForwardsFirstLine(s);
    assert [] + NonControl(chunk) == NonControl(chunk) && [] + Controls(chunk) == Controls(chunk);
  }

  /** A consumer without a script moves no switch. */
  lemma {:induction false} AbsorbKeepsSwitches(s: State, chunk: seq<Symbol>)
    requires s.script == []
    ensures var t := Absorb(s, chunk);
            t.script == [] && t.forwarding == s.forwarding && t.blocking == s.blocking && t.paused == s.paused
    decreases |chunk|
  {
    if chunk != [] {
      AbsorbKeepsSwitches(AbsorbOne(s, chunk[0]), chunk[1..]);
    }
  }

  /** While forwarding is withheld, U+0003 and U+0004 come out at once, and nothing else does. */
  lemma OnlyInterruptsOvertake(s: State, y: Symbol)
    requires Canonical(s.queue) && s.blocking && !s.forwarding && s.script == []
    ensures var t := Step(s, Data([y]));
            if y == Ch('\U{0003}') || y == Ch('\U{0004}') then
              t.queue == s.queue && Output(t.log) == Output(s.log) + [y]
            else Flatten(t.queue) == Flatten(s.queue) + [y] && t.log == s.log
  {
    assert [y][1..] == [] && Absorb(s, [y]) == Absorb(AbsorbOne(s, y), []) == AbsorbOne(s, y);
    if IsControl(y) {
      OutputSnoc(s.log, Interrupted(y));
    } else {
      EnqueueCanonical(s.queue, y);
    }
  }

  // ---------- chunk independence ----------

  /**
   While forwarding is withheld the queue is the one tokenization of the text that arrived,
   wherever the chunks were cut and whatever the consumer did with the control characters.
   */
  lemma ChunkIndependence(s: State, a: seq<Symbol>, b: seq<Symbol>)
    requires Canonical(s.queue) && s.blocking
    requires Settled(Absorb(s, a)) && Absorb(s, a).blocking
    requires Settled(Absorb(s, a + b))
    ensures Step(Step(s, Data(a)), Data(b)) == Step(s, Data(a + b))
    ensures Step(s, Data(a + b)).queue == Tokenize(Flatten(s.queue) + NonControl(a + b))
  {
    AbsorbAppend(s, a, b);
    AbsorbConserves(s, a + b);
    CanonicalIsTokenize(Absorb(s, a + b).queue);
  }

  lemma {:induction false} AbsorbAppend(s: State, a: seq<Symbol>, b: seq<Symbol>)
    ensures Absorb(s, a + b) == Absorb(Absorb(s, a), b)
    decreases |a|
  {
    if a == [] {
      assert a + b == b;
    } else {
      assert (a + b)[1..] == a[1..] + b;
      AbsorbAppend(AbsorbOne(s, a[0]), a[1..], b);
    }
  }
}
