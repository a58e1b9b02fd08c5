/**
 The command counters of a session (packages/logging/src/logging-and-telemetry.ts) and the `MultiSet`
 they are collected in (packages/logging/src/helpers.ts).
 */
module SessionCounters {

  const MAX_SEQUENCE_LENGTH: nat := 100
  const USE_KEY := "ShellApi.use"

  datatype Entry = Entry(cls: string, name: string)

  function Key(e: Entry): string {
    e.cls + "." + e.name
  }

  datatype Event =
    | StartRepl
    | EvaluateStarted
    | EvaluateFinished
    | ApiCall(entry: Entry, callDepth: nat, isAsync: bool)
    | Use

  // ---------- the multiset: counts in the order of first addition ----------

  function Bump(t: seq<(Entry, nat)>, e: Entry): seq<(Entry, nat)> {
    if t == [] then [(e, 1)]
    else if t[0].0 == e then [(e, t[0].1 + 1)] + t[1..]
    else [t[0]] + Bump(t[1..], e)
  }

  function Tally(added: seq<Entry>): seq<(Entry, nat)> {
    if added == [] then [] else Bump(Tally(added[..|added| - 1]), added[|added| - 1])
  }

  function Entries(t: seq<(Entry, nat)>): seq<Entry> {
    if t == [] then [] else [t[0].0] + Entries(t[1..])
  }

  /** The reference: each entry once, where it was first added. */
  function FirstOccurrences(added: seq<Entry>): seq<Entry> {
    if added == [] then []
    else
      var n := |added| - 1;
      FirstOccurrences(added[..n]) + (if added[n] in added[..n] then [] else [added[n]])
  }

  function Keys(es: seq<Entry>): seq<string> {
    if es == [] then [] else [Key(es[0])] + Keys(es[1..])
  }

  lemma {:induction false} BumpEntries(t: seq<(Entry, nat)>, e: Entry)
    ensures Entries(Bump(t, e)) == Entries(t) + (if e in Entries(t) then [] else [e])
    decreases |t|
  {
    if t == [] {
      assert Bump(t, e)[1..] == [];
    } else if t[0].0 == e {
      assert Bump(t, e)[1..] == t[1..];
    } else {
      assert Bump(t, e)[1..] == Bump(t[1..], e);
      BumpEntries(t[1..], e);
    }
  }

  lemma {:induction false} TallyEntries(added: seq<Entry>)
    ensures Entries(Tally(added)) == FirstOccurrences(added)
    ensures forall e :: e in FirstOccurrences(added) <==> e in added
    decreases |added|
  {
    if added != [] {
      var n := |added| - 1;
      TallyEntries(added[..n]);
      BumpEntries(Tally(added[..n]), added[n]);
      assert added == added[..n] + [added[n]];
    }
  }

  /** How many additions share a command key. */
  function Occurrences(added: seq<Entry>, key: string): nat {
    if added == [] then 0
    else Occurrences(added[..|added| - 1], key) + (if Key(added[|added| - 1]) == key then 1 else 0)
  }

  function Total(t: seq<(Entry, nat)>, key: string): nat {
    if t == [] then 0 else (if Key(t[0].0) == key then t[0].1 else 0) + Total(t[1..], key)
  }

  lemma {:induction false} BumpTotal(t: seq<(Entry, nat)>, e: Entry, key: string)
    ensures Total(Bump(t, e), key) == Total(t, key) + (if Key(e) == key then 1 else 0)
    decreases |t|
  {
    if t == [] {
      assert Bump(t, e)[1..] == [];
    } else if t[0].0 == e {
      assert Bump(t, e)[1..] == t[1..];
    } else {
      assert Bump(t, e)[1..] == Bump(t[1..], e);
      BumpTotal(t[1..], e, key);
    }
  }

  lemma {:induction false} TallyTotal(added: seq<Entry>, key: string)
    ensures Total(Tally(added), key) == Occurrences(added, key)
    decreases |added|
  {
    if added != [] {
      TallyTotal(added[..|added| - 1], key);
      BumpTotal(Tally(added[..|added| - 1]), added[|added| - 1], key);
    }
  }

  class MultiSet {
    var entries: seq<(Entry, nat)>
    ghost var added: seq<Entry>

    ghost predicate Valid()
      reads this
    {
      entries == Tally(added)
    }

    constructor ()
      ensures Valid() && added == []
    {
      entries, added := [], [];
    }

    method Add(entry: Entry)
      requires Valid()
      modifies this
      ensures Valid() && added == old(added) + [entry]
    {
      entries := Bump(entries, entry);
      added := added + [entry];
      assert added[..|added| - 1] == old(added);
    }

    method Clear()
      modifies this
      ensures Valid() && added == []
    {
      entries, added := [], [];
    }
  }

  // ---------- the counters, without the cap on the sequence ----------

  function Get(m: map<string, nat>, key: string): nat {
    if key in m then m[key] else 0
  }

  function Count(m: map<string, nat>, key: string, n: nat): map<string, nat> {
    m[key := Get(m, key) + n]
  }

  function CountAll(m: map<string, nat>, t: seq<(Entry, nat)>): map<string, nat>
    decreases |t|
  {
    if t == [] then m else CountAll(Count(m, Key(t[0].0), t[0].1), t[1..])
  }

  lemma {:induction false} CountAllTotals(m: map<string, nat>, t: seq<(Entry, nat)>, key: string)
    ensures Get(CountAll(m, t), key) == Get(m, key) + Total(t, key)
    decreases |t|
  {
    if t != [] {
      CountAllTotals(Count(m, Key(t[0].0), t[0].1), t[1..], key);
    }
  }

  datatype State = State(
    started: bool,
    enabled: bool,
    pending: seq<Entry>,
    repl: map<string, nat>,
    rc: map<string, nat>,
    keys: seq<string>,
    evaluations: nat)

  function Commands(s: State, repl: bool): map<string, nat> {
    if repl then s.repl else s.rc
  }

  function SetCommands(s: State, m: map<string, nat>): State {
    if s.started then s.(repl := m) else s.(rc := m)
  }

  predicate Tracked(e: Event) {
    e.ApiCall? && e.callDepth == 0 && e.isAsync
  }

  function Step(s: State, e: Event): State {
    match e
    case StartRepl => s.(started := true)
    case EvaluateStarted => s.(enabled := true, pending := [])
    case EvaluateFinished =>
      SetCommands(s, CountAll(Commands(s, s.started), Tally(s.pending)))
      .(keys := s.keys + Keys(FirstOccurrences(s.pending)),
        evaluations := s.evaluations + 1, pending := [], enabled := false)
    case ApiCall(entry, _, _) => if s.enabled && Tracked(e) then s.(pending := s.pending + [entry]) else s
    case Use => SetCommands(s, Count(Commands(s, s.started), USE_KEY, 1)).(keys := s.keys + [USE_KEY])
  }

  function Run(s: State, events: seq<Event>): State
    decreases |events|
  {
    if events == [] then s else Run(Step(s, events[0]), events[1..])
  }

  // ---------- the reference: looking ahead in the trace ----------

  datatype Destination = Lost | ToRepl | ToRc

  function Destiny(started: bool): Destination {
    if started then ToRepl else ToRc
  }

  /** A pending call counts when its evaluation finishes before another one starts. */
  function Ahead(started: bool, events: seq<Event>): Destination
    decreases |events|
  {
    if events == [] || events[0].EvaluateStarted? then Lost
    else if events[0].EvaluateFinished? then Destiny(started)
    else Ahead(started || events[0].StartRepl?, events[1..])
  }

  /** Depth-0 async calls of completed evaluations, and `use` events, that go to one of the counters. */
  function Expected(started: bool, enabled: bool, events: seq<Event>, key: string, to: Destination): nat
    decreases |events|
  {
    if events == [] then 0
    else
      var e := events[0];
      (if Counts(started, enabled, e, events[1..], key, to) then 1 else 0)
      + Expected(started || e.StartRepl?,
                 e.EvaluateStarted? || (enabled && !e.EvaluateFinished?),
                 events[1..], key, to)
  }

  predicate Counts(started: bool, enabled: bool, e: Event, rest: seq<Event>, key: string, to: Destination) {
    || (e.Use? && key == "ShellApi.use" && Destiny(started) == to)
    || (enabled && e.ApiCall? && e.callDepth == 0 && e.isAsync && e.entry.cls + "." + e.entry.name == key
        && Ahead(started, rest) == to)
  }

  /** What a counter holds now, and what the pending calls will add to it. */
  function Promised(s: State, events: seq<Event>, key: string, repl: bool): nat {
    Get(Commands(s, repl), key)
    + (if Ahead(s.started, events) == Destiny(repl) then Occurrences(s.pending, key) else 0)
  }

  lemma StepKeepsPromise(s: State, e: Event, rest: seq<Event>, key: string, repl: bool)
    requires !s.enabled ==> s.pending == []
    ensures Promised(Step(s, e), rest, key, repl) ==
            Promised(s, [e] + rest, key, repl)
            + (if Counts(s.started, s.enabled, e, rest, key, Destiny(repl)) then 1 else 0)
  {
    assert ([e] + rest)[1..] == rest;
    match e {
      case EvaluateFinished => FinishKeepsPromise(s, key, repl);
      case ApiCall(entry, _, _) => OccurrencesSnoc(s.pending, entry, key);
      case _ =>
    }
  }

  /** At the end of an evaluation the counter takes over what the pending calls promised. */
  lemma FinishKeepsPromise(s: State, key: string, repl: bool)
    ensures var t := Step(s, EvaluateFinished);
            && t.pending == [] && t.started == s.started
            && Get(Commands(t, repl), key)
               == Get(Commands(s, repl), key) + (if s.started == repl then Occurrences(s.pending, key) else 0)
  {
    CountAllTotals(Commands(s, s.started), Tally(s.pending), key);
    TallyTotal(s.pending, key);
  }

  lemma OccurrencesSnoc(added: seq<Entry>, e: Entry, key: string)
    ensures Occurrences(added + [e], key) == Occurrences(added, key) + (if Key(e) == key then 1 else 0)
  {
    assert (added + [e])[..|added|] == added;
  }

  /** Over every event trace the counters hold exactly what the trace says. */
  lemma {:induction false} CountersMatchTrace(s: State, events: seq<Event>, key: string, repl: bool)
    requires !s.enabled ==> s.pending == []
    ensures Get(Commands(Run(s, events), repl), key) ==
            Promised(s, events, key, repl) + Expected(s.started, s.enabled, events, key, Destiny(repl))
    decreases |events|
  {
    if events != [] {
      assert [events[0]] + events[1..] == events;
      StepKeepsPromise(s, events[0], events[1..], key, repl);
      CountersMatchTrace(Step(s, events[0]), events[1..], key, repl);
    }
  }

  // ---------- the reference for the sequence of keys: looking back in the trace ----------

  /** The last evaluation that started has not finished. */
  predicate InEvaluation(events: seq<Event>) {
    events != [] &&
    match events[|events| - 1]
    case EvaluateStarted => true
    case EvaluateFinished => false
    case _ => InEvaluation(events[..|events| - 1])
  }

  /** The calls that the evaluation under way has made from the outside. */
  function CallsUnderWay(events: seq<Event>): seq<Entry> {
    if events == [] then []
    else
      var before, e := events[..|events| - 1], events[|events| - 1];
      match e
      case EvaluateStarted => []
      case EvaluateFinished => []
      case ApiCall(entry, depth, isAsync) =>
        CallsUnderWay(before) + (if InEvaluation(before) && depth == 0 && isAsync then [entry] else [])
      case _ => CallsUnderWay(before)
  }

  function NamesOf(es: seq<Entry>): seq<string> {
    if es == [] then [] else [es[0].cls + "." + es[0].name] + NamesOf(es[1..])
  }

  /** A finished evaluation adds each of its calls once, in the order of the first ones; `use` adds itself. */
  function KeyLog(events: seq<Event>): seq<string> {
    if events == [] then []
    else
      var before, e := events[..|events| - 1], events[|events| - 1];
      KeyLog(before) +
      match e
      case EvaluateFinished => NamesOf(FirstOccurrences(CallsUnderWay(before)))
      case Use => ["ShellApi.use"]
      case _ => []
  }

  function Finished(events: seq<Event>): nat {
    if events == [] then 0
    else Finished(events[..|events| - 1]) + (if events[|events| - 1].EvaluateFinished? then 1 else 0)
  }

  lemma {:induction false} KeysAreNames(es: seq<Entry>)
    ensures Keys(es) == NamesOf(es)
    decreases |es|
  {
    if es != [] {
      KeysAreNames(es[1..]);
    }
  }

  lemma {:induction false} RunSnoc(s: State, events: seq<Event>, e: Event)
    ensures Run(s, events + [e]) == Step(Run(s, events), e)
    decreases |events|
  {
    if events == [] {
      assert [] + [e] == [e] && [e][1..] == [];
    } else {
      assert (events + [e])[0] == events[0] && (events + [e])[1..] == events[1..] + [e];
      RunSnoc(Step(s, events[0]), events[1..], e);
    }
  }

  /** Over every trace that starts outside an evaluation the keys are what looking back says. */
  lemma {:induction false} KeysMatchTrace(s: State, events: seq<Event>)
    requires !s.enabled && s.pending == []
    ensures var t := Run(s, events);
            && t.keys == s.keys + KeyLog(events) && t.evaluations == s.evaluations + Finished(events)
            && t.enabled == InEvaluation(events) && t.pending == CallsUnderWay(events)
            && t.started == (s.started || StartRepl in events)
    decreases |events|
  {
    if events != [] {
      var before, e := events[..|events| - 1], events[|events| - 1];
      assert events == before + [e];
      KeysMatchTrace(s, before);
      RunSnoc(s, before, e);
      KeysAreNames(FirstOccurrences(CallsUnderWay(before)));
      SnocLog(s.keys, before, e);
    }
  }

  lemma SnocLog(keys: seq<string>, before: seq<Event>, e: Event)
    ensures keys + KeyLog(before + [e]) ==
            (keys + KeyLog(before)) +
            match e
            case EvaluateFinished => NamesOf(FirstOccurrences(CallsUnderWay(before)))
            case Use => ["ShellApi.use"]
            case _ => []
  {
    assert (before + [e])[..|before|] == before;
  }

  /** One key and its count recorded, then the rest of a tally. */
  function Record(s: State, key: string, n: nat): State {
    SetCommands(s, Count(Commands(s, s.started), key, n)).(keys := s.keys + [key])
  }

  function RecordAll(s: State, t: seq<(Entry, nat)>): State
    decreases |t|
  {
    if t == [] then s else RecordAll(Record(s, Key(t[0].0), t[0].1), t[1..])
  }

  lemma {:induction false} RecordAllIs(s: State, t: seq<(Entry, nat)>)
    ensures RecordAll(s, t) ==
            SetCommands(s, CountAll(Commands(s, s.started), t)).(keys := s.keys + Keys(Entries(t)))
    decreases |t|
  {
    if t != [] {
      RecordAllIs(Record(s, Key(t[0].0), t[0].1), t[1..]);
      assert Entries(t)[1..] == Entries(t[1..]);
      assert (s.keys + [Key(t[0].0)]) + Keys(Entries(t[1..])) == s.keys + Keys(Entries(t));
    }
  }

  function Cap(keys: seq<string>): seq<string> {
    if |keys| <= MAX_SEQUENCE_LENGTH then keys else keys[..MAX_SEQUENCE_LENGTH]
  }

  class SessionState {
    var hasStartedMongoshRepl: bool
    var isEnabled: bool
    const apiCalls: MultiSet
    var commandsRepl: map<string, nat>
    var commandsRc: map<string, nat>
    var sequence: seq<string>
    var sequenceTruncated: bool
    var evaluationCount: nat
    /** Every key that was ever meant for the sequence. */
    ghost var keys: seq<string>

    ghost predicate Valid()
      reads this, apiCalls
    {
      && apiCalls.Valid()
      && (!isEnabled ==> apiCalls.added == [])
      && sequence == Cap(keys)
      && sequenceTruncated == (|keys| > MAX_SEQUENCE_LENGTH)
    }

    ghost function View(): State
      reads this, apiCalls
    {
      State(hasStartedMongoshRepl, isEnabled, apiCalls.added, commandsRepl, commandsRc, keys, evaluationCount)
    }

    constructor ()
      ensures Valid() && fresh(apiCalls)
      ensures View() == State(false, false, [], map[], map[], [], 0)
    {
      hasStartedMongoshRepl, isEnabled, commandsRepl, commandsRc := false, false, map[], map[];
      sequence, sequenceTruncated, evaluationCount, keys := [], false, 0, [];
      apiCalls := new MultiSet();
    }

    /** `commands[key] += count`, and the key joins the sequence while there is room. */
    method AddCommand(key: string, count: nat)
      requires Valid()
      modifies `commandsRepl, `commandsRc, `sequence, `sequenceTruncated, `keys
      ensures Valid() && View() == Record(old(View()), key, count)
    {
      if hasStartedMongoshRepl {
        commandsRepl := Count(commandsRepl, key, count);
      } else {
        commandsRc := Count(commandsRc, key, count);
      }
      if |sequence| < MAX_SEQUENCE_LENGTH {
        sequence := sequence + [key];
      } else {
        sequenceTruncated := true;
      }
      keys := keys + [key];
    }

    method OnEvaluateFinished()
      requires Valid()
      modifies this, apiCalls
      ensures Valid() && View() == Step(old(View()), EvaluateFinished)
    {
      ghost var before := View();
      var t := apiCalls.entries;
      TallyEntries(apiCalls.added);
      for i := 0 to |t|
        invariant Valid() && apiCalls.entries == t
        invariant RecordAll(View(), t[i..]) == RecordAll(before, t)
        invariant apiCalls.added == before.pending
      {
        assert t[i..][0] == t[i] && t[i..][1..] == t[i + 1..];
        AddCommand(Key(t[i].0), t[i].1);
      }
      assert t[|t|..] == [];
      RecordAllIs(before, t);
      evaluationCount := evaluationCount + 1;
      apiCalls.Clear();
      isEnabled := false;
    }

    method On(e: Event)
      requires Valid()
      modifies this, apiCalls
      ensures Valid() && View() == Step(old(View()), e)
    {
      match e {
        case StartRepl => hasStartedMongoshRepl := true;
        case EvaluateStarted =>
          isEnabled := true;
          apiCalls.Clear();
        case EvaluateFinished => OnEvaluateFinished();
        case ApiCall(entry, callDepth, isAsync) =>
          if !isEnabled {
            return;
          }
          if callDepth == 0 && isAsync {
            apiCalls.Add(entry);
          }
        case Use => AddCommand(USE_KEY, 1);
      }
    }

    /** Every trace: the counters match it, and the sequence is the first hundred keys. */
    method Observe(events: seq<Event>)
      requires Valid()
      modifies this, apiCalls
      ensures Valid() && View() == Run(old(View()), events)
      ensures sequence == (if |keys| > 100 then keys[..100] else keys) && (sequenceTruncated <==> |keys| > 100)
      ensures old(!isEnabled) ==>
                && keys == old(keys) + KeyLog(events)
                && evaluationCount == old(evaluationCount) + Finished(events)
      ensures old(!isEnabled) ==> forall key ::
                && Get(commandsRepl, key) == Get(old(commandsRepl), key)
                     + Expected(old(hasStartedMongoshRepl), false, events, key, ToRepl)
                && Get(commandsRc, key) == Get(old(commandsRc), key)
                     + Expected(old(hasStartedMongoshRepl), false, events, key, ToRc)
    {
      ghost var before := View();
      for i := 0 to |events|
        invariant Valid() && Run(View(), events[i..]) == Run(before, events)
      {
        assert events[i..][1..] == events[i + 1..];
        On(events[i]);
      }
      assert events[|events|..] == [];
      if !before.enabled {
        KeysMatchTrace(before, events);
        forall key
          ensures Get(commandsRepl, key) == Get(before.repl, key) + Expected(before.started, false, events, key, ToRepl)
          ensures Get(commandsRc, key) == Get(before.rc, key) + Expected(before.started, false, events, key, ToRc)
        {
          CountersMatchTrace(before, events, key, true);
          CountersMatchTrace(before, events, key, false);
        }
      }
    }
  }
}
