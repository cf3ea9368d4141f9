# IBus engine factory — a verified Dafny model

This project models the engine factory of the IBus input-method bus
(`src/ibusfactory.c`). A factory serves one connection. It keeps four pieces
of state:

- a counter `id`, starting at 0;
- a registry from engine names to engine types, filled by
  `ibus_factory_add_engine`;
- the ordered list of live engines it created;
- the connection it is bound to.

On a `CreateEngine` method call the factory checks two things in order.
If the string argument cannot be extracted, it replies with an `InvalidArgs`
error. If the name is not registered, it replies with a `Failed` error.
Otherwise it advances the counter, creates the engine at
`/org/freedesktop/IBus/Engine/<counter>`, appends it to the live list and
replies with that path. Every other message goes to the parent handler. When
an engine is destroyed, its destroy signal removes it from the live list.
Destroying the factory destroys every engine of a snapshot of that list, then
releases the registry and the connection, and finally hands over to the
parent class's destroy handler.

Modules, one per concept:

- `Decimal` (`decimal.dfy`): `%d` rendering of a natural number and its inverse.
- `EnginePaths` (`engine_paths.dfy`): engine object paths and the counter value they encode.
- `EngineList` (`engine_list.dfy`): `g_list_remove` on a sequence, and a reference filter.
- `Factory` (`factory.dfy`): the state record, its invariant `Valid`, construction, registration, the message handler and the destroy callback.
- `Session` (`session.dfy`): runs of events (messages, registrations, destroy signals) and the lemmas about all paths issued in a run.
- `Teardown` (`teardown.dfy`): `ibus_factory_destroy` as a sequence of effects.
- `Wrappers` (`wrappers.dfy`): `Option`.

Modelling choices:

- Extracting the `CreateEngine` argument belongs to the message library. It is
  an input: `CreateEngine(None)` is a call whose string argument could not be
  read.
- Replies are values: `MethodReturn(path)`, `ErrorReply(name, message)` with
  the D-Bus error names `org.freedesktop.DBus.Error.InvalidArgs` and
  `org.freedesktop.DBus.Error.Failed`, or `Forwarded` to the parent handler.
- An engine carries a `serial`: the counter value it was created with. Within
  one factory no two engines share a serial, so engine equality stands for
  object identity, which `g_list_remove` compares.
- A GType is a token whose `isEngineKind` flag stands for
  `g_type_is_a (t, IBUS_TYPE_ENGINE)`.
- `g_list_remove` removes only the first matching element, and the model does
  the same. `Valid` keeps the live list free of duplicates, so on reachable
  states this is the same as removing every match (`EngineList.RemoveIsWithout`).

Behaviour of the code worth noting:

- The code checks the argument before it looks at the registry
  (`src/ibusfactory.c:194-218`). A malformed request is therefore answered
  with `InvalidArgs`, even when the lookup would also fail.
- `ibus_factory_add_engine` asserts only that the name is non-NULL
  (`src/ibusfactory.c:255`). An empty name is accepted and registered.
- The code does not clear the registry or connection fields on teardown. It
  only releases them. The model records those releases as effects and keeps
  the fields.

## Model

| member | source | states |
|---|---|---|
| Decimal.FromNat | src/ibusfactory.c:220 | the `%d` rendering is a non-empty digit string with no redundant leading zero, starting with '0' exactly for 0 |
| Decimal.ToNatOfFromNat | src/ibusfactory.c:220 | reading back a rendered counter value gives that value |
| Decimal.FromNatOfToNat | src/ibusfactory.c:220 | every canonical digit string is the rendering of its value, so rendering is a bijection onto canonical strings |
| Decimal.FromNatInjective | src/ibusfactory.c:220 | two counter values render to the same string exactly when they are equal |
| EnginePaths.EnginePath | src/ibusfactory.c:220 | an engine path is the prefix `/org/freedesktop/IBus/Engine/` followed by a canonical decimal suffix |
| EnginePaths.SerialOfEnginePath | src/ibusfactory.c:220 | parsing the path of counter value n gives back n |
| EnginePaths.EnginePathOfSerial | src/ibusfactory.c:220 | any string that parses to n is exactly the path of n |
| EnginePaths.EnginePathInjective | src/ibusfactory.c:220 | distinct counter values give distinct paths, and conversely |
| EngineList.Remove | src/ibusfactory.c:165 | removal leaves an absent engine's list unchanged and shortens a list holding it by exactly one |
| EngineList.RemoveMultiset | src/ibusfactory.c:165 | removal takes exactly one copy of the engine out of the list's contents |
| EngineList.RemoveSplits | src/ibusfactory.c:165 | removal cuts at the first occurrence and keeps both sides in order |
| EngineList.RemoveIsWithout | src/ibusfactory.c:165 | on a duplicate-free list, removal equals the order-preserving filter that drops the engine |
| EngineList.RemoveDistinct | src/ibusfactory.c:165 | removal keeps a duplicate-free list duplicate-free and leaves no copy of the engine |
| EngineList.RemoveTwice | src/ibusfactory.c:165 | removing the same engine twice from a duplicate-free list equals removing it once |
| Factory.Init | src/ibusfactory.c:117-130 | a freshly initialised factory has counter 0, an empty registry, no live engines and no connection yet, and satisfies the state invariant |
| Factory.New | src/ibusfactory.c:82-99 | construction yields a valid factory bound to the given connection, with counter 0, an empty registry and no live engines |
| Factory.AddEngine | src/ibusfactory.c:249-262 | registration requires an engine type, maps the name to it (replacing an earlier mapping), and leaves every other name, the counter and the live list untouched |
| Factory.AddEngineKeepsValid | src/ibusfactory.c:254-261 | registering an engine type keeps the invariant that every registered type is an engine type |
| Factory.Handle | src/ibusfactory.c:169-247 | a CreateEngine call succeeds exactly when its argument is readable and registered; a missing argument gets InvalidArgs and a missing name gets Failed, both with the state unchanged; success advances the counter by one, replies with the path that parses to the new counter value, and appends one new engine of the registered type at the end of the live list; other messages are forwarded |
| Factory.HandleKeepsValid | src/ibusfactory.c:208-232 | handling a message keeps the invariant (serials increase along the live list, each within the counter, each engine at its own path on the factory's connection), and a newly created engine was not live before |
| Factory.EngineDestroyed | src/ibusfactory.c:158-167 | an unknown engine changes nothing, a live one shortens the list by exactly one, and counter, registry and connection are untouched |
| Factory.EngineDestroyedKeepsValid | src/ibusfactory.c:158-167 | in a valid factory the destroyed engine is gone afterwards, the remaining list is the original with only that engine filtered out (order kept), and the invariant holds |
| Factory.EngineDestroyedTwice | src/ibusfactory.c:158-167 | a second destroy notification for the same engine changes nothing further; the list shrinks by one, not two |
| Factory.InvalidArgsIgnoresRegistry | src/ibusfactory.c:194-206 | a CreateEngine call with an unreadable argument gets the same reply whatever the registry holds, and changes nothing |
| Factory.AddEngineThenCreate | src/ibusfactory.c:208-228 | after registering a name, a CreateEngine for it issues the next path and appends an engine of the registered type on the factory's connection |
| Factory.LivePathsDistinct | src/ibusfactory.c:220-228 | the live engines of a valid factory sit at pairwise distinct paths |
| Session.Apply | src/ibusfactory.c:169-262 | a message yields exactly one reply and a registration or destroy signal none; one event advances the counter by exactly the number of paths it issues, at most one, and the issued path is that of the next counter value |
| Session.RunRepliesPerMessage | src/ibusfactory.c:169-247 | a run yields exactly one reply per message it processes, and none for registrations or destroy signals |
| Session.ApplyKeepsValid | src/ibusfactory.c:158-262 | a single registration, message or destroy signal keeps the state invariant |
| Session.RunAppend | src/ibusfactory.c:169-262 | processing two event sequences one after the other is processing their concatenation, state and replies alike |
| Session.RunKeepsValid | src/ibusfactory.c:158-262 | any run of registrations, messages and destroy signals keeps the state invariant |
| Session.ConsecutiveConcat | src/ibusfactory.c:220 | paths numbered from base+1 followed by paths numbered on from there are numbered from base+1 throughout |
| Session.IssuedPathsAreConsecutive | src/ibusfactory.c:208-220 | the k-th path issued in a run is the path of counter value id+k, and the counter ends advanced by the number of issued paths |
| Session.IssuedPathsUnique | src/ibusfactory.c:208-220 | over any run the issued paths are pairwise distinct and their numeric suffixes strictly increase |
| Session.FailedRequestDoesNotShift | src/ibusfactory.c:199-218 | inserting a request that fails where it arrives changes neither the final state nor any issued path |
| Session.FirstIssuedPath | src/ibusfactory.c:123 | the first path a freshly constructed factory issues is `/org/freedesktop/IBus/Engine/1` |
| Session.PinyinScenario | src/ibusfactory.c:169-247 | register "pinyin", create it twice and ask for "bogus": paths 1 and 2, then a Failed error; destroying the second engine leaves only the first live |
| Teardown.DestroyEach | src/ibusfactory.c:139-140 | destroying a snapshot emits one destroy per snapshot engine, in order, and leaves counter, registry and connection alone |
| Teardown.DestroyEachRemovesSnapshot | src/ibusfactory.c:139-143 | the destroy callbacks fired during the loop remove exactly the snapshot's engines from the live list |
| Teardown.SnapshotDrainsLive | src/ibusfactory.c:139-143 | destroying a snapshot of the whole live list empties the live list through the callbacks alone |
| Teardown.Destroy | src/ibusfactory.c:132-156 | teardown destroys every live engine in list order, then releases the registry, then (when a connection is bound) removes the service from it and releases it, and last chains up to the parent class's destroy; the live list ends empty |
| Teardown.DestroyNotifiesEachEngineOnce | src/ibusfactory.c:139-140 | in a valid factory no engine is destroyed twice by the teardown |

## Left out

- `bus/server.c` is not part of this model. It resolves an address, delegates to `ibus_server_listen`, forwards each new connection to `bus_dbus_impl_new_connection`, and unrefs that object on destroy, all through collaborators whose code is not available. Its `#if 0` dispatch table is dead code.
- GType and GObject class registration (`ibus_factory_get_type`, `ibus_factory_class_init`): type-system plumbing with no factory behaviour.
- Reference counting (`g_object_ref_sink`, `g_object_unref`). The unref in the destroy callback runs unconditionally, so only list-level idempotence of a repeated destroy notification is claimed.
- Building and sending reply messages (`ibus_message_*`, `ibus_connection_send`). The reply is returned as a value.
- Attaching the service to the connection in `ibus_factory_new`. Detaching it on teardown appears only as the `ServiceRemoved` effect.
- Unmarshalling of the `CreateEngine` argument (`ibus_message_get_args`). Its success or failure is an input of the request.
- The parent message handler. A forwarded message is modelled only as "forwarded, factory state unchanged".
- The engines themselves (`g_object_new (engine_type, ...)`). An engine is a record of its name, type, path and connection.
- Factory.Handle: does not model wrap-around of the `guint` counter or `%d` printing a value above `G_MAXINT` as negative; the counter is an unbounded natural number.
