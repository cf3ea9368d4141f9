/**
  One factory serving its connection: registrations, incoming messages and
  engine destroy notifications, processed strictly in order. The lemmas
  here are about whole runs: which paths get issued, and that they never
  repeat.
 */
module Session {
  import opened Wrappers
  import opened EnginePaths
  import opened EngineList
  import opened Factory

  /** Something that happens to the factory: a message, a local registration, or an engine's destroy signal. */
  datatype Event = Message(request: Request) | Register(name: string, engineType: EngineType) | Destroyed(engine: Engine)

  datatype Trace = Trace(factory: State, replies: seq<Reply>)

  /** Every registration in the run honours the engine-type assertion of `ibus_factory_add_engine`. */
  predicate Admissible(evs: seq<Event>) {
    forall i :: 0 <= i < |evs| && evs[i].Register? ==> evs[i].engineType.isEngineKind
  }

  /** One event: a message yields its reply; registrations and destroy signals yield none. */
  function Apply(f: State, conn: Connection, ev: Event): (t: Trace)
    requires f.connection == Some(conn)
    requires ev.Register? ==> ev.engineType.isEngineKind
    ensures t.factory.connection == f.connection
    ensures |t.replies| == (if ev.Message? then 1 else 0)
    ensures |Issued(t.replies)| <= 1
    ensures t.factory.id == f.id + |Issued(t.replies)|
    ensures |Issued(t.replies)| == 1 ==> Issued(t.replies)[0] == EnginePath(f.id + 1)
  {
    match ev
    case Message(req) =>
      var s := Handle(f, conn, req);
      if s.reply.MethodReturn? then
        EnginePathOfSerial(s.reply.path, f.id + 1);
        assert Issued([s.reply]) == [s.reply.path];
        Trace(s.factory, [s.reply])
      else
        assert Issued([s.reply]) == [];
        Trace(s.factory, [s.reply])
    case Register(name, engineType) =>
      Trace(AddEngine(f, name, engineType), [])
    case Destroyed(engine) =>
      Trace(EngineDestroyed(f, engine), [])
  }

  /** The number of messages among the events. */
  function MessageCount(evs: seq<Event>): nat
    decreases |evs|
  {
    if |evs| == 0 then 0 else (if evs[0].Message? then 1 else 0) + MessageCount(evs[1..])
  }

  /** Processes the events in order; each message contributes exactly one reply. */
  function Run(f: State, conn: Connection, evs: seq<Event>): (t: Trace)
    requires f.connection == Some(conn)
    requires Admissible(evs)
    ensures t.factory.connection == f.connection
    decreases |evs|
  {
    if |evs| == 0 then Trace(f, [])
    else
      AdmissibleTail(evs);
      var a := Apply(f, conn, evs[0]);
      var t := Run(a.factory, conn, evs[1..]);
      Trace(t.factory, a.replies + t.replies)
  }

  /** A run yields exactly one reply per message it processes. */
  lemma {:induction false} RunRepliesPerMessage(f: State, conn: Connection, evs: seq<Event>)
    requires f.connection == Some(conn) && Admissible(evs)
    ensures |Run(f, conn, evs).replies| == MessageCount(evs)
    decreases |evs|
  {
    if |evs| > 0 {
      RunFirst(f, conn, evs);
      RunRepliesPerMessage(Apply(f, conn, evs[0]).factory, conn, evs[1..]);
    }
  }

  /** Every event keeps the state invariant. */
  lemma ApplyKeepsValid(f: State, conn: Connection, ev: Event)
    requires f.connection == Some(conn) && Valid(f)
    requires ev.Register? ==> ev.engineType.isEngineKind
    ensures Valid(Apply(f, conn, ev).factory)
  {
    match ev
    case Message(req) => HandleKeepsValid(f, conn, req);
    case Register(name, engineType) => AddEngineKeepsValid(f, name, engineType);
    case Destroyed(engine) => EngineDestroyedKeepsValid(f, engine);
  }

  /** Any run keeps the state invariant. */
  lemma {:induction false} RunKeepsValid(f: State, conn: Connection, evs: seq<Event>)
    requires f.connection == Some(conn) && Admissible(evs) && Valid(f)
    ensures Valid(Run(f, conn, evs).factory)
    decreases |evs|
  {
    if |evs| > 0 {
      AdmissibleTail(evs);
      ApplyKeepsValid(f, conn, evs[0]);
      RunKeepsValid(Apply(f, conn, evs[0]).factory, conn, evs[1..]);
    }
  }

  /** Unfolds `Run` by one event. */
  lemma RunFirst(f: State, conn: Connection, evs: seq<Event>)
    requires f.connection == Some(conn) && Admissible(evs) && |evs| > 0
    ensures evs[0].Register? ==> evs[0].engineType.isEngineKind
    ensures Admissible(evs[1..])
    ensures var a := Apply(f, conn, evs[0]);
            var rest := Run(a.factory, conn, evs[1..]);
            Run(f, conn, evs) == Trace(rest.factory, a.replies + rest.replies)
  {
    AdmissibleTail(evs);
  }

  lemma AdmissibleTail(evs: seq<Event>)
    requires Admissible(evs) && |evs| > 0
    ensures Admissible(evs[1..])
    ensures evs[0].Register? ==> evs[0].engineType.isEngineKind
  {
    forall i | 0 <= i < |evs[1..]| && evs[1..][i].Register?
      ensures evs[1..][i].engineType.isEngineKind
    {
      assert evs[1..][i] == evs[i + 1];
    }
  }

  /** The paths returned by the successful CreateEngine replies, in order. */
  function Issued(replies: seq<Reply>): (paths: seq<string>)
    ensures |paths| <= |replies|
    decreases |replies|
  {
    if |replies| == 0 then []
    else (if replies[0].MethodReturn? then [replies[0].path] else []) + Issued(replies[1..])
  }

  lemma {:induction false} IssuedAppend(r1: seq<Reply>, r2: seq<Reply>)
    ensures Issued(r1 + r2) == Issued(r1) + Issued(r2)
    decreases |r1|
  {
    if |r1| > 0 {
      assert (r1 + r2)[0] == r1[0];
      assert (r1 + r2)[1..] == r1[1..] + r2;
      IssuedAppend(r1[1..], r2);
    } else {
      assert r1 + r2 == r2;
    }
  }

  /** `paths` are the paths of counter values base+1, base+2, ... in that order. */
  predicate Consecutive(paths: seq<string>, base: nat) {
    forall k :: 0 <= k < |paths| ==> paths[k] == EnginePath(base + k + 1)
  }

  lemma ConsecutiveConcat(p1: seq<string>, p2: seq<string>, base: nat)
    requires Consecutive(p1, base) && Consecutive(p2, base + |p1|)
    ensures Consecutive(p1 + p2, base)
  {
    forall k | 0 <= k < |p1 + p2|
      ensures (p1 + p2)[k] == EnginePath(base + k + 1)
    {
      if k >= |p1| {
        assert (p1 + p2)[k] == p2[k - |p1|];
      }
    }
  }

  /**
    The k-th path issued in a run is the path of counter value id + k, and the
    counter ends advanced by exactly the number of issued paths.
   */
  lemma {:induction false} IssuedPathsAreConsecutive(f: State, conn: Connection, evs: seq<Event>)
    requires f.connection == Some(conn) && Admissible(evs)
    ensures var t := Run(f, conn, evs);
            && t.factory.id == f.id + |Issued(t.replies)|
            && Consecutive(Issued(t.replies), f.id)
    decreases |evs|
  {
    if |evs| > 0 {
      RunFirst(f, conn, evs);
      var a := Apply(f, conn, evs[0]);
      var rest := Run(a.factory, conn, evs[1..]);
      var first := Issued(a.replies);
      assert Consecutive(first, f.id);
      IssuedPathsAreConsecutive(a.factory, conn, evs[1..]);
      assert a.factory.id == f.id + |first|;
      assert Consecutive(Issued(rest.replies), f.id + |first|);
      IssuedAppend(a.replies, rest.replies);
      ConsecutiveConcat(first, Issued(rest.replies), f.id);
      assert Run(f, conn, evs).replies == a.replies + rest.replies;
    }
  }

  /**
    Over any run, the issued paths are pairwise distinct and their numeric
    suffixes strictly increase.
   */
  lemma IssuedPathsUnique(f: State, conn: Connection, evs: seq<Event>)
    requires f.connection == Some(conn) && Admissible(evs)
    ensures var paths := Issued(Run(f, conn, evs).replies);
            && (forall i, j :: 0 <= i < j < |paths| ==> paths[i] != paths[j])
            && (forall i :: 0 <= i < |paths| ==> EngineSerial(paths[i]) == Some(f.id + i + 1))
            && (forall i, j :: 0 <= i < j < |paths| ==> EngineSerial(paths[i]).value < EngineSerial(paths[j]).value)
  {
    var paths := Issued(Run(f, conn, evs).replies);
    IssuedPathsAreConsecutive(f, conn, evs);
    forall i | 0 <= i < |paths|
      ensures EngineSerial(paths[i]) == Some(f.id + i + 1)
    {
      SerialOfEnginePath(f.id + i + 1);
    }
    forall i, j | 0 <= i < j < |paths|
      ensures paths[i] != paths[j]
    {
      EnginePathInjective(f.id + i + 1, f.id + j + 1);
    }
  }

  lemma AdmissibleConcat(a: seq<Event>, b: seq<Event>)
    requires Admissible(a) && Admissible(b)
    ensures Admissible(a + b)
  {
    forall i | 0 <= i < |a + b| && (a + b)[i].Register?
      ensures (a + b)[i].engineType.isEngineKind
    {
      if i < |a| { assert (a + b)[i] == a[i]; } else { assert (a + b)[i] == b[i - |a|]; }
    }
  }

  /** Running two event sequences back to back is running their concatenation. */
  lemma {:induction false} RunAppend(f: State, conn: Connection, a: seq<Event>, b: seq<Event>)
    requires f.connection == Some(conn) && Admissible(a) && Admissible(b)
    ensures Admissible(a + b)
    ensures var ta := Run(f, conn, a);
            var tb := Run(ta.factory, conn, b);
            Run(f, conn, a + b) == Trace(tb.factory, ta.replies + tb.replies)
    decreases |a|
  {
    AdmissibleConcat(a, b);
    if |a| > 0 {
      assert (a + b)[0] == a[0];
      assert (a + b)[1..] == a[1..] + b;
      var first := Apply(f, conn, a[0]);
      RunFirst(f, conn, a);
      RunFirst(f, conn, a + b);
      RunAppend(first.factory, conn, a[1..], b);
      var ta := Run(f, conn, a);
      var rest := Run(first.factory, conn, a[1..]);
      var tb := Run(ta.factory, conn, b);
      assert first.replies + (rest.replies + tb.replies) == (first.replies + rest.replies) + tb.replies;
    } else {
      assert a + b == b;
    }
  }

  /**
    A request that fails (or is forwarded) at the point where it arrives
    changes nothing: the run ends in the same state and issues the same
    paths as the run without it.
   */
  lemma FailedRequestDoesNotShift(f: State, conn: Connection, before: seq<Event>, req: Request, after: seq<Event>)
    requires f.connection == Some(conn) && Admissible(before) && Admissible(after)
    requires !Handle(Run(f, conn, before).factory, conn, req).reply.MethodReturn?
    ensures Admissible(before + [Message(req)] + after) && Admissible(before + after)
    ensures Run(f, conn, before + [Message(req)] + after).factory == Run(f, conn, before + after).factory
    ensures Issued(Run(f, conn, before + [Message(req)] + after).replies) == Issued(Run(f, conn, before + after).replies)
  {
    var tail := [Message(req)] + after;
    assert before + [Message(req)] + after == before + tail;
    assert Admissible(tail) by {
      forall i | 0 <= i < |tail| && tail[i].Register?
        ensures tail[i].engineType.isEngineKind
      {
        assert tail[i] == after[i - 1];
      }
    }
    assert tail[1..] == after;
    RunAppend(f, conn, before, tail);
    RunAppend(f, conn, before, after);
    var tb := Run(f, conn, before);
    var a := Apply(tb.factory, conn, Message(req));
    assert a.factory == tb.factory;
    var ta := Run(tb.factory, conn, after);
    assert Run(tb.factory, conn, tail) == Trace(ta.factory, a.replies + ta.replies);
    IssuedAppend(a.replies, ta.replies);
    IssuedAppend(tb.replies, a.replies + ta.replies);
    IssuedAppend(tb.replies, ta.replies);
  }

  /** On a freshly constructed factory, the first path ever issued ends in 1. */
  lemma FirstIssuedPath(conn: Connection, evs: seq<Event>)
    requires Admissible(evs)
    requires |Issued(Run(New(conn), conn, evs).replies)| > 0
    ensures Issued(Run(New(conn), conn, evs).replies)[0] == "/org/freedesktop/IBus/Engine/1"
  {
    IssuedPathsAreConsecutive(New(conn), conn, evs);
    FirstEnginePath();
  }

  /** The path numbered 1, spelled out. */
  lemma FirstEnginePath()
    ensures EnginePath(1) == "/org/freedesktop/IBus/Engine/1"
  {
    assert Decimal.FromNat(1) == "1";
  }

  /** The three CreateEngine steps of `PinyinScenario`, one event at a time. */
  lemma PinyinSteps(conn: Connection, pinyin: EngineType)
    requires pinyin.isEngineKind
    ensures var f1 := AddEngine(New(conn), "pinyin", pinyin);
            var a1 := Apply(f1, conn, Message(CreateEngine(Some("pinyin"))));
            var a2 := Apply(a1.factory, conn, Message(CreateEngine(Some("pinyin"))));
            var a3 := Apply(a2.factory, conn, Message(CreateEngine(Some("bogus"))));
            && a1.replies == [MethodReturn(EnginePath(1))]
            && a2.replies == [MethodReturn(EnginePath(2))]
            && a3.replies == [ErrorReply(FailedError, CannotCreatePrefix + "bogus")]
            && |a3.factory.live| == 2
            && a3.factory.live[0].path == EnginePath(1)
            && EngineDestroyed(a3.factory, a3.factory.live[1]).live == [a3.factory.live[0]]
  {
    var f1 := AddEngine(New(conn), "pinyin", pinyin);
    var a1 := Apply(f1, conn, Message(CreateEngine(Some("pinyin"))));
    var a2 := Apply(a1.factory, conn, Message(CreateEngine(Some("pinyin"))));
    var a3 := Apply(a2.factory, conn, Message(CreateEngine(Some("bogus"))));
    assert a1.factory.id == 1;
    assert a2.factory.registry == f1.registry;
    assert "bogus" !in f1.registry;
    var live := a3.factory.live;
    assert |live| == 2;
    assert live[0] != live[1];
    assert Remove(live, live[1]) == [live[0]] by {
      assert live[1..] == [live[1]];
    }
  }

  /** The event sequence of the reference scenario. */
  function PinyinEvents(pinyin: EngineType): seq<Event> {
    [Register("pinyin", pinyin),
     Message(CreateEngine(Some("pinyin"))),
     Message(CreateEngine(Some("pinyin"))),
     Message(CreateEngine(Some("bogus")))]
  }

  /** `Run` on the scenario events is the three CreateEngine steps after the registration. */
  lemma PinyinRun(conn: Connection, pinyin: EngineType)
    requires pinyin.isEngineKind
    ensures Admissible(PinyinEvents(pinyin))
    ensures var f1 := AddEngine(New(conn), "pinyin", pinyin);
            var a1 := Apply(f1, conn, Message(CreateEngine(Some("pinyin"))));
            var a2 := Apply(a1.factory, conn, Message(CreateEngine(Some("pinyin"))));
            var a3 := Apply(a2.factory, conn, Message(CreateEngine(Some("bogus"))));
            Run(New(conn), conn, PinyinEvents(pinyin)) == Trace(a3.factory, a1.replies + (a2.replies + a3.replies))
  {
    assert Admissible(PinyinEvents(pinyin));
    var e1, e3 := Message(CreateEngine(Some("pinyin"))), Message(CreateEngine(Some("bogus")));
    var f1 := AddEngine(New(conn), "pinyin", pinyin);
    var a1 := Apply(f1, conn, e1);
    var a2 := Apply(a1.factory, conn, e1);
    var a3 := Apply(a2.factory, conn, e3);
    assert Run(a2.factory, conn, [e3]) == Trace(a3.factory, a3.replies) by {
      RunFirst(a2.factory, conn, [e3]);
      assert [e3][1..] == [];
      assert a3.replies + [] == a3.replies;
    }
    assert Run(a1.factory, conn, [e1, e3]) == Trace(a3.factory, a2.replies + a3.replies) by {
      RunFirst(a1.factory, conn, [e1, e3]);
      assert [e1, e3][1..] == [e3];
    }
    assert Run(f1, conn, [e1, e1, e3]) == Trace(a3.factory, a1.replies + (a2.replies + a3.replies)) by {
      RunFirst(f1, conn, [e1, e1, e3]);
      assert [e1, e1, e3][1..] == [e1, e3];
    }
    var evs := PinyinEvents(pinyin);
    RunFirst(New(conn), conn, evs);
    assert evs[1..] == [e1, e1, e3];
  }

  /**
    Register "pinyin", create it twice, ask for an unregistered name, then
    destroy the second engine: paths 1 and 2 are issued, the unknown name gets
    a Failed error without consuming a number, and one engine stays live.
   */
  lemma PinyinScenario(conn: Connection, pinyin: EngineType)
    requires pinyin.isEngineKind
    ensures Admissible(PinyinEvents(pinyin))
    ensures var t := Run(New(conn), conn, PinyinEvents(pinyin));
            && t.replies == [MethodReturn(EnginePath(1)),
                             MethodReturn(EnginePath(2)),
                             ErrorReply(FailedError, CannotCreatePrefix + "bogus")]
            && |t.factory.live| == 2
            && EngineDestroyed(t.factory, t.factory.live[1]).live == [t.factory.live[0]]
            && t.factory.live[0].path == EnginePath(1)
  {
    PinyinRun(conn, pinyin);
    PinyinSteps(conn, pinyin);
  }
}
