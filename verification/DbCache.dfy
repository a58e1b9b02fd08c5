/**
 The two-level cache of database handles in
 packages/service-provider-node-driver/src/node-driver-service-provider.ts. The outer level is keyed
 by the client, the inner one by the text `name-JSON(options)`.
 */
module DbCache {
  import opened JsonText

  /** A `Db` object: its identity, and what the driver made it from. */
  datatype Handle = Handle(id: nat, client: nat, name: string, options: Json)

  type Options = j: Json | j.JObject? witness JObject(NoMembers)

  datatype Event = Got(name: string, options: Options, handle: Handle) | Closed | Reset

  datatype State = State(
    client: nat,
    cache: map<nat, map<string, Handle>>,
    clients: nat,
    handles: nat,
    log: seq<Event>)

  datatype Call = Db(name: string, options: Options) | Close | ResetConnection

  function Table(s: State): map<string, Handle> {
    if s.client in s.cache then s.cache[s.client] else map[]
  }

  /** The next handle the driver would make. */
  function Fresh(s: State, name: string, options: Options): Handle {
    Handle(s.handles, s.client, name, options)
  }

  function Lookup(s: State, name: string, options: Options): Handle {
    var key := Key(name, options);
    if key in Table(s) then Table(s)[key] else Fresh(s, name, options)
  }

  function Step(s: State, call: Call): State {
    match call
    case Db(name, options) =>
      var h := Lookup(s, name, options);
      s.(cache := s.cache[s.client := Table(s)[Key(name, options) := h]],
         handles := if Key(name, options) in Table(s) then s.handles else s.handles + 1,
         log := s.log + [Got(name, options, h)])
    case Close => s.(cache := s.cache[s.client := map[]], log := s.log + [Closed])
    case ResetConnection => s.(client := s.clients, clients := s.clients + 1, log := s.log + [Reset])
  }

  function Run(s: State, calls: seq<Call>): State
    decreases |calls|
  {
    if calls == [] then s else Run(Step(s, calls[0]), calls[1..])
  }

  const INITIAL := State(0, map[], 1, 0, [])

  /** How often the connection was closed or reset in this history. */
  function Epoch(log: seq<Event>): nat {
    if log == [] then 0 else Epoch(log[..|log| - 1]) + (if log[|log| - 1].Got? then 0 else 1)
  }

  /** The client in use after this history. */
  function ClientAfter(log: seq<Event>): nat {
    if log == [] then 0 else ClientAfter(log[..|log| - 1]) + (if log[|log| - 1].Reset? then 1 else 0)
  }

  /** Request `i` asked for this database, with no close or reset since. */
  ghost predicate Current(log: seq<Event>, i: int, name: string, options: Json) {
    && 0 <= i < |log| && log[i].Got? && log[i].name == name && log[i].options == options
    && Epoch(log[..i]) == Epoch(log)
  }

  /** Requests are served alike exactly when an uncached lookup table of this epoch would serve them alike. */
  ghost predicate Transparent(log: seq<Event>) {
    && (forall i :: 0 <= i < |log| && log[i].Got? ==>
          && log[i].handle.name == log[i].name
          && log[i].handle.options == log[i].options
          && log[i].handle.client == ClientAfter(log[..i]))
    && (forall i, j :: 0 <= i < |log| && 0 <= j < |log| && log[i].Got? && log[j].Got? ==>
          (log[i].handle == log[j].handle <==>
           && log[i].name == log[j].name
           && log[i].options == log[j].options
           && Epoch(log[..i]) == Epoch(log[..j])))
  }

  ghost predicate Valid(s: State) {
    && s.client < s.clients && (forall c :: c in s.cache ==> c < s.clients)
    && s.client == ClientAfter(s.log) && s.clients == s.client + 1
    && (forall i :: 0 <= i < |s.log| && s.log[i].Got? ==> s.log[i].handle.id < s.handles)
    && Transparent(s.log)
    && TableMatches(s)
  }

  /** The table holds, under the key of each request, the handle of the requests of this epoch. */
  ghost predicate TableMatches(s: State) {
    && (forall i, name, options :: Current(s.log, i, name, options) ==>
          Key(name, options) in Table(s) && Table(s)[Key(name, options)] == s.log[i].handle)
    && (forall key :: key in Table(s) ==>
          exists i, name, options :: Current(s.log, i, name, options) && key == Key(name, options))
  }

  lemma Prefixes(log: seq<Event>, e: Event)
    ensures (log + [e])[..|log|] == log
    ensures forall i :: 0 <= i <= |log| ==> (log + [e])[..i] == log[..i]
    ensures Epoch(log + [e]) == Epoch(log) + (if e.Got? then 0 else 1)
    ensures ClientAfter(log + [e]) == ClientAfter(log) + (if e.Reset? then 1 else 0)
  {
    assert (log + [e])[..|log|] == log;
  }

  lemma {:induction false} EpochGrows(log: seq<Event>, i: nat)
    requires i <= |log|
    ensures Epoch(log[..i]) <= Epoch(log)
    decreases |log|
  {
    if i < |log| {
      EpochGrows(log[..|log| - 1], i);
      assert log[..|log| - 1][..i] == log[..i];
    } else {
      assert log[..i] == log;
    }
  }

  /** A request is answered from the table exactly when this epoch has answered it before. */
  lemma LookupIsCurrent(s: State, name: string, options: Options)
    requires Valid(s)
    ensures Key(name, options) in Table(s) <==> exists i :: Current(s.log, i, name, options)
    ensures forall i :: Current(s.log, i, name, options) ==> Lookup(s, name, options) == s.log[i].handle
    ensures (forall i :: !Current(s.log, i, name, options)) ==> Lookup(s, name, options) == Fresh(s, name, options)
  {
    if key :| key == Key(name, options) && key in Table(s) {
      var i, n, o :| Current(s.log, i, n, o) && key == Key(n, o);
      KeyInjective(name, options, n, o);
    }
  }

  lemma GotStaysTransparent(s: State, name: string, options: Options)
    requires Valid(s)
    ensures var h := Lookup(s, name, options); Transparent(s.log + [Got(name, options, h)])
  {
    var h := Lookup(s, name, options);
    var log := s.log + [Got(name, options, h)];
    Prefixes(s.log, Got(name, options, h));
    LookupIsCurrent(s, name, options);
    assert h.name == name && h.options == options && h.client == s.client by {
      if i :| Current(s.log, i, name, options) {
        SameClient(s.log, i);
      }
    }
    forall i | 0 <= i < |s.log| && s.log[i].Got?
      ensures s.log[i].handle == h <==> Current(s.log, i, name, options)
    {
      if j :| Current(s.log, j, name, options) {
        assert s.log[j].handle == h;
      } else {
        assert h == Fresh(s, name, options);
      }
    }
  }

  /** Within one epoch the client does not change. */
  lemma {:induction false} SameClient(log: seq<Event>, i: nat)
    requires i <= |log| && Epoch(log[..i]) == Epoch(log)
    ensures ClientAfter(log[..i]) == ClientAfter(log)
    decreases |log|
  {
    if i < |log| {
      EpochGrows(log[..|log| - 1], i);
      assert log[..|log| - 1][..i] == log[..i];
      SameClient(log[..|log| - 1], i);
    } else {
      assert log[..i] == log;
    }
  }

  lemma DbKeepsValid(s: State, name: string, options: Options)
    requires Valid(s)
    ensures Valid(Step(s, Db(name, options)))
  {
    var h := Lookup(s, name, options);
    Prefixes(s.log, Got(name, options, h));
    GotStaysTransparent(s, name, options);
    TableStaysComplete(s, name, options);
    TableStaysExact(s, name, options);
    LookupIsKnown(s, name, options);
  }

  lemma LookupIsKnown(s: State, name: string, options: Options)
    requires Valid(s)
    ensures Lookup(s, name, options).id < Step(s, Db(name, options)).handles
  {
    LookupIsCurrent(s, name, options);
  }

  lemma TableStaysComplete(s: State, name: string, options: Options)
    requires Valid(s)
    ensures var t := Step(s, Db(name, options));
            forall i, n, o :: Current(t.log, i, n, o) ==>
              Key(n, o) in Table(t) && Table(t)[Key(n, o)] == t.log[i].handle
  {
    var t := Step(s, Db(name, options));
    Prefixes(s.log, Got(name, options, Lookup(s, name, options)));
    LookupIsCurrent(s, name, options);
    forall i, n, o | Current(t.log, i, n, o)
      ensures Key(n, o) in Table(t) && Table(t)[Key(n, o)] == t.log[i].handle
    {
      if i < |s.log| {
        assert Current(s.log, i, n, o);
      }
      if Key(n, o) == Key(name, options) {
        KeyInjective(n, o, name, options);
      }
    }
  }

  lemma TableStaysExact(s: State, name: string, options: Options)
    requires Valid(s)
    ensures var t := Step(s, Db(name, options));
            forall key :: key in Table(t) ==> exists i, n, o :: Current(t.log, i, n, o) && key == Key(n, o)
  {
    var t := Step(s, Db(name, options));
    Prefixes(s.log, Got(name, options, Lookup(s, name, options)));
    assert Current(t.log, |s.log|, name, options);
    forall key | key in Table(t)
      ensures exists i, n, o :: Current(t.log, i, n, o) && key == Key(n, o)
    {
      if key != Key(name, options) {
        var i, n, o :| Current(s.log, i, n, o) && key == Key(n, o);
        assert Current(t.log, i, n, o);
      }
    }
  }

  /** Closing or resetting starts an epoch whose table is empty. */
  lemma BarrierKeepsValid(s: State, call: Call)
    requires Valid(s) && !call.Db?
    ensures Valid(Step(s, call))
  {
    var t := Step(s, call);
    Prefixes(s.log, t.log[|s.log|]);
    forall i, n, o ensures !Current(t.log, i, n, o) {
      if 0 <= i < |s.log| {
        EpochGrows(s.log, i);
      }
    }
    assert Table(t) == map[];
  }

  lemma {:induction false} RunKeepsValid(s: State, calls: seq<Call>)
    requires Valid(s)
    ensures Valid(Run(s, calls))
    decreases |calls|
  {
    if calls != [] {
      match calls[0] {
        case Db(name, options) => DbKeepsValid(s, name, options);
        case _ => BarrierKeepsValid(s, calls[0]);
      }
      RunKeepsValid(Step(s, calls[0]), calls[1..]);
    }
  }

  /**
   The cache is transparent: over every run, two requests get the same handle exactly when they name
   the same database with the same options and the connection was neither closed nor reset between
   them; and every handle belongs to the client of its time.
   */
  lemma CacheIsTransparent(calls: seq<Call>)
    ensures Transparent(Run(INITIAL, calls).log)
  {
    RunKeepsValid(INITIAL, calls);
  }

  /** The provider, with the driver's supply of clients and handles next to it. */
  class NodeDriverServiceProvider {
    var mongoClient: nat
    var dbcache: map<nat, map<string, Handle>>
    var clientsMade: nat
    var handlesMade: nat
    ghost var log: seq<Event>

    ghost function View(): State
      reads this
    {
      State(mongoClient, dbcache, clientsMade, handlesMade, log)
    }

    constructor ()
      ensures View() == INITIAL
    {
      mongoClient, dbcache, clientsMade, handlesMade, log := 0, map[], 1, 0, [];
    }

    /** Called again after the missing table was put in place. */
    method GetDBCache() returns (table: map<string, Handle>)
      modifies `dbcache
      ensures table == Table(old(View()))
      ensures dbcache == old(dbcache)[mongoClient := table]
      decreases mongoClient !in dbcache
    {
      if mongoClient in dbcache {
        table := dbcache[mongoClient];
      } else {
        dbcache := dbcache[mongoClient := map[]];
        table := GetDBCache();
      }
    }

    method Db(name: string, options: Options) returns (db: Handle)
      modifies this
      ensures db == Lookup(old(View()), name, options)
      ensures View() == Step(old(View()), Call.Db(name, options))
    {
      var key := Key(name, options);
      var table := GetDBCache();
      if key in table {
        db := table[key];
      } else {
        db := Handle(handlesMade, mongoClient, name, options);
        handlesMade := handlesMade + 1;
        dbcache := dbcache[mongoClient := table[key := db]];
      }
      log := log + [Got(name, options, db)];
      assert table[key := db] == if key in table then table else table[key := db];
    }

    method Close()
      modifies this
      ensures View() == Step(old(View()), Call.Close)
    {
      dbcache := dbcache[mongoClient := map[]];
      log := log + [Closed];
    }

    /** The last synchronous stretch of a reset: the new client takes over, the tables stay. */
    method ResetConnectionOptions()
      modifies this
      ensures View() == Step(old(View()), ResetConnection)
    {
      mongoClient := clientsMade;
      clientsMade := clientsMade + 1;
      log := log + [Reset];
    }
  }
}
