/**
  `ibus_factory_destroy`: destroy every engine of a snapshot copy of the live
  list, then release the registry, then detach from and release the
  connection. Destroying an engine fires its destroy signal, whose handler
  (`EngineDestroyed`) removes it from the live list; the loop walks the
  snapshot, so those removals never disturb the iteration.
 */
module Teardown {
  import opened Wrappers
  import opened EngineList
  import opened Factory

  /** The externally visible effects of tearing a factory down, in order. */
  datatype Effect =
    | EngineDestroyRequested(engine: Engine)
    | RegistryReleased
    | ServiceRemoved(connection: Connection)
    | ConnectionReleased(connection: Connection)
    | ParentDestroyed  // the chain-up to the parent class's destroy handler

  datatype Shutdown = Shutdown(factory: State, effects: seq<Effect>)

  /** `g_list_foreach (snapshot, ibus_object_destroy)`, each destroy firing the factory's callback. */
  function DestroyEach(f: State, snapshot: seq<Engine>): (r: Shutdown)
    ensures r.factory.id == f.id && r.factory.registry == f.registry && r.factory.connection == f.connection
    ensures |r.effects| == |snapshot|
    ensures forall i :: 0 <= i < |snapshot| ==> r.effects[i] == EngineDestroyRequested(snapshot[i])
    decreases |snapshot|
  {
    if |snapshot| == 0 then Shutdown(f, [])
    else
      var rest := DestroyEach(EngineDestroyed(f, snapshot[0]), snapshot[1..]);
      Shutdown(rest.factory, [EngineDestroyRequested(snapshot[0])] + rest.effects)
  }

  /** The callbacks fired by the loop take exactly the snapshot's engines out of the live list. */
  lemma {:induction false} DestroyEachRemovesSnapshot(f: State, snapshot: seq<Engine>)
    ensures multiset(DestroyEach(f, snapshot).factory.live) == multiset(f.live) - multiset(snapshot)
    decreases |snapshot|
  {
    if |snapshot| > 0 {
      var g := EngineDestroyed(f, snapshot[0]);
      RemoveMultiset(f.live, snapshot[0]);
      assert multiset(g.live) == multiset(f.live) - multiset{snapshot[0]};
      DestroyEachRemovesSnapshot(g, snapshot[1..]);
      assert DestroyEach(f, snapshot).factory == DestroyEach(g, snapshot[1..]).factory;
      SubtractInTwoSteps(multiset(f.live), snapshot);
    }
  }

  /** Taking away the first element, then the rest, takes away the whole sequence. */
  lemma SubtractInTwoSteps<T>(m: multiset<T>, s: seq<T>)
    requires |s| > 0
    ensures (m - multiset{s[0]}) - multiset(s[1..]) == m - multiset(s)
  {
    assert s == [s[0]] + s[1..];
    assert multiset(s) == multiset{s[0]} + multiset(s[1..]);
  }

  /** Destroying a snapshot of the whole live list leaves the live list empty through the callbacks alone. */
  lemma SnapshotDrainsLive(f: State)
    ensures DestroyEach(f, f.live).factory.live == []
  {
    var live := DestroyEach(f, f.live).factory.live;
    DestroyEachRemovesSnapshot(f, f.live);
    assert |multiset(live)| == |live|;
  }

  /** The releases that follow the engine loop, ending with the parent class's destroy. */
  function Releases(f: State): seq<Effect> {
    [RegistryReleased]
    + (match f.connection
       case Some(c) => [ServiceRemoved(c), ConnectionReleased(c)]
       case None => [])
    + [ParentDestroyed]
  }

  /**
    `ibus_factory_destroy`. Every engine that was live is destroyed, in list
    order, before the registry and the connection are released; the live list
    is then freed and cleared (by `SnapshotDrainsLive` it is already empty).
    The last step hands over to the parent class's destroy handler.
   */
  function Destroy(f: State): (r: Shutdown)
    ensures r.factory.live == []
    ensures r.factory.id == f.id && r.factory.registry == f.registry && r.factory.connection == f.connection
    ensures |r.effects| >= |f.live|
    ensures forall i :: 0 <= i < |f.live| ==> r.effects[i] == EngineDestroyRequested(f.live[i])
    ensures forall i :: |f.live| <= i < |r.effects| ==> !r.effects[i].EngineDestroyRequested?
    ensures forall c :: ConnectionReleased(c) in r.effects <==> f.connection == Some(c)
    ensures forall i, j ::
              (0 <= i < |r.effects| && 0 <= j < |r.effects| &&
               r.effects[i].EngineDestroyRequested? && r.effects[j].ConnectionReleased?) ==> i < j
    ensures |f.live| < |r.effects| && r.effects[|f.live|] == RegistryReleased
    ensures forall c :: f.connection == Some(c) ==>
              r.effects[|f.live| + 1..] == [ServiceRemoved(c), ConnectionReleased(c), ParentDestroyed]
    ensures f.connection.None? ==> r.effects[|f.live| + 1..] == [ParentDestroyed]
  {
    var loop := DestroyEach(f, f.live);
    var effects := loop.effects + Releases(f);
    assert forall i :: |f.live| <= i < |effects| ==> effects[i] == Releases(f)[i - |f.live|];
    Shutdown(loop.factory.(live := []), effects)
  }

  /** In a valid factory the teardown destroys every live engine exactly once: no two destroy effects name the same engine. */
  lemma DestroyNotifiesEachEngineOnce(f: State)
    requires Valid(f)
    ensures forall i, j :: 0 <= i < j < |f.live| ==> Destroy(f).effects[i] != Destroy(f).effects[j]
  {
    SerialsIncreaseDistinct(f.live);
  }
}
