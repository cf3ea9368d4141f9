/**
  The engine factory of one connection: a counter, a name-to-engine-type
  registry, the ordered list of live engines it created, and the connection
  it is bound to. Every operation is a pure transition on that record.
 */
module Factory {
  import opened Wrappers
  import opened EnginePaths
  import opened EngineList

  /** An opaque transport connection; equality is identity. */
  datatype Connection = Connection(serial: nat)

  /**
    A GType token as stored in the registry. `isEngineKind` stands for
    `g_type_is_a (t, IBUS_TYPE_ENGINE)`, which the type system would answer.
   */
  datatype EngineType = EngineType(typeName: string, isEngineKind: bool)

  /**
    An engine object the factory created. `serial` is the counter value it was
    created with; it is unique within one factory and therefore stands for the
    object's identity, which `g_list_remove` compares.
   */
  datatype Engine = Engine(serial: nat, name: string, engineType: EngineType, path: string, connection: Connection)

  datatype State = State(
    id: nat,
    registry: map<string, EngineType>,
    live: seq<Engine>,
    connection: Option<Connection>)

  /**
    An incoming message. `CreateEngine(None)` is a CreateEngine call whose
    single string argument could not be extracted; `OtherMessage` is any
    message that is not a CreateEngine method call on the factory interface.
   */
  datatype Request = CreateEngine(engineName: Option<string>) | OtherMessage

  /** What the handler does with a message: a method return carrying a path, an error reply, or hand-off to the parent handler. */
  datatype Reply = MethodReturn(path: string) | ErrorReply(errorName: string, message: string) | Forwarded

  datatype Step = Step(factory: State, reply: Reply)

  const InvalidArgsError: string := "org.freedesktop.DBus.Error.InvalidArgs"
  const FailedError: string := "org.freedesktop.DBus.Error.Failed"
  const InvalidArgsMessage: string := "The 1st arg should be engine name"
  const CannotCreatePrefix: string := "Can not create engine "

  /** Live engines appear in creation order: serials strictly increase along the list. */
  predicate SerialsIncrease(live: seq<Engine>) {
    forall i, j :: 0 <= i < j < |live| ==> live[i].serial < live[j].serial
  }

  /** The state invariant every reachable factory keeps. */
  predicate Valid(f: State) {
    && (forall name :: name in f.registry ==> f.registry[name].isEngineKind)
    && SerialsIncrease(f.live)
    && (forall i :: 0 <= i < |f.live| ==>
          && 1 <= f.live[i].serial <= f.id
          && f.live[i].path == EnginePath(f.live[i].serial)
          && Some(f.live[i].connection) == f.connection)
  }

  /** Increasing serials make the live list free of duplicates. */
  lemma SerialsIncreaseDistinct(live: seq<Engine>)
    requires SerialsIncrease(live)
    ensures Distinct(live)
  {
  }

  /** `ibus_factory_init`: counter 0, empty registry and list, no connection yet. */
  function Init(): (f: State)
    ensures Valid(f)
    ensures f.id == 0 && f.registry == map[] && f.live == []
    ensures f.connection.None?
  {
    State(0, map[], [], None)
  }

  /** `ibus_factory_new`: an initialised factory bound to `conn`. */
  function New(conn: Connection): (f: State)
    ensures Valid(f)
    ensures f.connection == Some(conn)
    ensures f.id == 0 && f.live == [] && f.registry == map[]
  {
    Init().(connection := Some(conn))
  }

  /**
    `ibus_factory_add_engine`: map `name` to `t`, replacing any earlier
    mapping. The source asserts that `t` is an engine type.
   */
  function AddEngine(f: State, name: string, t: EngineType): (r: State)
    requires t.isEngineKind
    ensures name in r.registry && r.registry[name] == t
    ensures forall n :: n != name ==> (n in r.registry <==> n in f.registry)
    ensures forall n :: n != name && n in f.registry ==> r.registry[n] == f.registry[n]
    ensures r.id == f.id && r.live == f.live && r.connection == f.connection
  {
    f.(registry := f.registry[name := t])
  }

  lemma AddEngineKeepsValid(f: State, name: string, t: EngineType)
    requires Valid(f) && t.isEngineKind
    ensures Valid(AddEngine(f, name, t))
  {
  }

  /**
    `ibus_factory_ibus_message`. A CreateEngine call first needs its argument
    (InvalidArgs otherwise), then a registered name (Failed otherwise), and
    only then advances the counter, creates the engine at the next path and
    appends it to the live list. Anything else goes to the parent handler.
    The source asserts that the message arrived on the factory's own
    connection.
   */
  function Handle(f: State, conn: Connection, req: Request): (s: Step)
    requires f.connection == Some(conn)
    ensures s.reply.MethodReturn? <==> req.CreateEngine? && req.engineName.Some? && req.engineName.value in f.registry
    ensures !s.reply.MethodReturn? ==> s.factory == f
    ensures req == CreateEngine(None) ==> s.reply == ErrorReply(InvalidArgsError, InvalidArgsMessage)
    ensures req.CreateEngine? && req.engineName.Some? && req.engineName.value !in f.registry ==>
              s.reply == ErrorReply(FailedError, CannotCreatePrefix + req.engineName.value)
    ensures req == OtherMessage ==> s.reply == Forwarded
    ensures s.factory.registry == f.registry && s.factory.connection == f.connection
    ensures s.reply.MethodReturn? ==>
              && s.factory.id == f.id + 1
              && EngineSerial(s.reply.path) == Some(s.factory.id)
              && |s.factory.live| == |f.live| + 1
              && s.factory.live[..|f.live|] == f.live
              && s.factory.live[|f.live|].path == s.reply.path
              && s.factory.live[|f.live|].name == req.engineName.value
              && s.factory.live[|f.live|].engineType == f.registry[req.engineName.value]
  {
    match req
    case OtherMessage => Step(f, Forwarded)
    case CreateEngine(None) => Step(f, ErrorReply(InvalidArgsError, InvalidArgsMessage))
    case CreateEngine(Some(name)) =>
      if name !in f.registry then
        Step(f, ErrorReply(FailedError, CannotCreatePrefix + name))
      else
        var serial := f.id + 1;
        var path := EnginePath(serial);
        var engine := Engine(serial, name, f.registry[name], path, conn);
        SerialOfEnginePath(serial);
        Step(f.(id := serial, live := f.live + [engine]), MethodReturn(path))
  }

  /** A successful CreateEngine keeps the invariant and its new engine was not live before. */
  lemma HandleKeepsValid(f: State, conn: Connection, req: Request)
    requires f.connection == Some(conn) && Valid(f)
    ensures Valid(Handle(f, conn, req).factory)
    ensures Handle(f, conn, req).reply.MethodReturn? ==> Handle(f, conn, req).factory.live[|f.live|] !in f.live
  {
  }

  /**
    `_engine_destroy_cb`: a destroyed engine leaves the live list (first
    occurrence, by identity); nothing else changes.
   */
  function EngineDestroyed(f: State, e: Engine): (r: State)
    ensures r.id == f.id && r.registry == f.registry && r.connection == f.connection
    ensures e !in f.live ==> r == f
    ensures e in f.live ==> |r.live| == |f.live| - 1
  {
    f.(live := Remove(f.live, e))
  }

  /** In a valid factory the destroyed engine is gone afterwards and every other engine stays, in order. */
  lemma EngineDestroyedKeepsValid(f: State, e: Engine)
    requires Valid(f)
    ensures Valid(EngineDestroyed(f, e))
    ensures e !in EngineDestroyed(f, e).live
    ensures EngineDestroyed(f, e).live == Without(f.live, e)
  {
    SerialsIncreaseDistinct(f.live);
    RemoveDistinct(f.live, e);
    RemoveIsWithout(f.live, e);
    RemoveKeepsValid(f, e);
  }

  lemma RemoveKeepsValid(f: State, e: Engine)
    requires Valid(f)
    ensures Valid(f.(live := Remove(f.live, e)))
  {
    if e in f.live {
      var i := RemoveSplits(f.live, e);
      var r := Remove(f.live, e);
      forall k | 0 <= k < |r|
        ensures r[k] == f.live[if k < i then k else k + 1]
      {
      }
      forall a, b | 0 <= a < b < |r|
        ensures r[a].serial < r[b].serial
      {
        assert r[a] == f.live[if a < i then a else a + 1];
        assert r[b] == f.live[if b < i then b else b + 1];
      }
    }
  }

  /** A second destroy notification for the same engine leaves the live list as the first one did. */
  lemma EngineDestroyedTwice(f: State, e: Engine)
    requires Valid(f)
    ensures EngineDestroyed(EngineDestroyed(f, e), e) == EngineDestroyed(f, e)
    ensures e in f.live ==> |EngineDestroyed(EngineDestroyed(f, e), e).live| == |f.live| - 1
  {
    EngineDestroyedKeepsValid(f, e);
  }

  /** A CreateEngine whose argument cannot be extracted gets the same answer whatever the registry holds. */
  lemma InvalidArgsIgnoresRegistry(f: State, conn: Connection, other: map<string, EngineType>)
    requires f.connection == Some(conn)
    ensures Handle(f, conn, CreateEngine(None)).reply == Handle(f.(registry := other), conn, CreateEngine(None)).reply
    ensures Handle(f.(registry := other), conn, CreateEngine(None)).factory == f.(registry := other)
  {
  }

  /** After registering `name`, a CreateEngine for it succeeds, issues the next path and creates an engine of the registered type. */
  lemma AddEngineThenCreate(f: State, conn: Connection, name: string, t: EngineType)
    requires f.connection == Some(conn) && t.isEngineKind
    ensures var s := Handle(AddEngine(f, name, t), conn, CreateEngine(Some(name)));
            && s.reply == MethodReturn(EnginePath(f.id + 1))
            && s.factory.live == f.live + [Engine(f.id + 1, name, t, EnginePath(f.id + 1), conn)]
  {
    var s := Handle(AddEngine(f, name, t), conn, CreateEngine(Some(name)));
    EnginePathOfSerial(s.reply.path, f.id + 1);
  }

  /** Live engines of a valid factory sit at pairwise distinct paths. */
  lemma LivePathsDistinct(f: State)
    requires Valid(f)
    ensures forall i, j :: 0 <= i < j < |f.live| ==> f.live[i].path != f.live[j].path
  {
    forall i, j | 0 <= i < j < |f.live|
      ensures f.live[i].path != f.live[j].path
    {
      EnginePathInjective(f.live[i].serial, f.live[j].serial);
    }
  }
}
