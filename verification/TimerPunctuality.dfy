/** When a timer is called back before its deadline: exactly when an Expire message finds a
    later timer on top of the heap than the one its device fired for. */
module TimerPunctuality {
  import opened Counting
  import opened HeapTree
  import opened TimerLedger
  import opened TimerService

  /** The next step pops timer d of client c for an Expire message, before its deadline. */
  predicate PopsEarly(s: System, a: Action, c: nat, d: nat) {
    && a == ProcMsg && s.work == Ready
    && s.ledger.queue != [] && s.ledger.queue[0].MsgExpire?
    && var heap := s.ledger.Heap(s.ledger.queue[0].wake);
       && heap != Nil && heap.data.addr == d && s.now < heap.data.key
       && d in s.ledger.delegates && s.ledger.delegates[d].client == To(c)
  }

  // ---------------------------------------------------------------- where callbacks come from

  lemma ClientsCallNobody(l: Ledger, x: nat, wake: bool, t: int, available: bool, c: nat, d: nat)
    ensures NewClient(l, x).log[TimedOut(c, d)] == l.log[TimedOut(c, d)]
    ensures Start(l, x, wake, t, available).log[TimedOut(c, d)] == l.log[TimedOut(c, d)]
    ensures Stop(l, x, false).log[TimedOut(c, d)] == l.log[TimedOut(c, d)]
    ensures Destroy(l, x).log[TimedOut(c, d)] == l.log[TimedOut(c, d)]
  {
    StopCallsNobody(l, x, c, d);
    hide Stop;
  }

  lemma StopCallsNobody(l: Ledger, x: nat, c: nat, d: nat)
    ensures Stop(l, x, false).log[TimedOut(c, d)] == l.log[TimedOut(c, d)]
  {
  }

  lemma MessagesCallNobody(l: Ledger, x: nat, c: nat, d: nat)
    ensures HeadIs(l, x, MsgPush(x)) ==>
              ProcPush(l, x).log[TimedOut(c, d)] == l.log[TimedOut(c, d)]
    ensures HeadIs(l, x, MsgRemove(x)) && l.delegates[x].lock in l.locks ==>
              ProcRemove(l, x).log[TimedOut(c, d)] == l.log[TimedOut(c, d)]
  {
    hide Push, Apply;
  }

  /** A pop calls back the client its delegate still has, and nobody else. */
  lemma PopCalls(l: Ledger, wake: bool, c: nat, d: nat)
    requires RefInv(l.clients, l.delegates) && l.Heap(wake) != Nil
    ensures PopAndExpire(l, wake).log[TimedOut(c, d)] ==
              l.log[TimedOut(c, d)] +
              One(l.Heap(wake).data.addr == d && d in l.delegates && l.delegates[d].client == To(c))
  {
    hide Pop;
  }

  // ---------------------------------------------------------------- steps

  lemma MessageCalls(s: System, c: nat, d: nat)
    requires RefInv(s.ledger.clients, s.ledger.delegates)
    requires d in s.ledger.delegates
    requires BagInv(Elements(s.ledger.hw), s.ledger.delegates, true)
    requires BagInv(Elements(s.ledger.sw), s.ledger.delegates, false)
    ensures var s' := OnMsg(s);
            && s'.now == s.now
            && ((&& s'.ledger.log[TimedOut(c, d)] > s.ledger.log[TimedOut(c, d)]
                 && s.now < s.ledger.delegates[d].deadline)
                <==> PopsEarly(s, ProcMsg, c, d))
  {
    hide RefInv, BagInv, Elements, PopAndExpire, ProcPush, ProcRemove, UpdateSoonestTime, Apply;
    if s.work == Ready && s.ledger.queue != [] {
      match s.ledger.queue[0]
      case MsgPush(x) =>
        MessagesCallNobody(s.ledger, x, c, d);
        if x in s.ledger.delegates {
          var wake := s.ledger.delegates[x].wake;
          UpdateKeepsLedger(s.(ledger := ProcPush(s.ledger, x)), wake, Top(s.ledger.Heap(wake)));
        }
      case MsgRemove(x) =>
        MessagesCallNobody(s.ledger, x, c, d);
        if x in s.ledger.delegates && s.ledger.delegates[x].lock in s.ledger.locks {
          UpdateKeepsLedger(s.(ledger := ProcRemove(s.ledger, x)), s.ledger.delegates[x].wake, None);
        }
      case MsgExpire(wake) => ExpireCalls(s, wake, c, d);
    }
  }

  lemma ExpireCalls(s: System, wake: bool, c: nat, d: nat)
    requires RefInv(s.ledger.clients, s.ledger.delegates) && d in s.ledger.delegates
    requires BagInv(Elements(s.ledger.hw), s.ledger.delegates, true)
    requires BagInv(Elements(s.ledger.sw), s.ledger.delegates, false)
    requires s.ledger.queue != [] && s.ledger.queue[0] == MsgExpire(wake) && s.work == Ready
    ensures var s' := OnExpire(s, wake);
            && s'.now == s.now
            && ((&& s'.ledger.log[TimedOut(c, d)] > s.ledger.log[TimedOut(c, d)]
                 && s.now < s.ledger.delegates[d].deadline)
                <==> PopsEarly(s, ProcMsg, c, d))
  {
    hide RefInv, PopAndExpire, UpdateSoonestTime;
    var s1 := s.(ledger := Receive(s.ledger));
    UpdateKeepsLedger(s1, wake, None);
    var heap := s.ledger.Heap(wake);
    if heap != Nil {
      PopCalls(s1.ledger, wake, c, d);
      TopDeadline(s.ledger, wake);
    }
  }

  lemma TopDeadline(l: Ledger, wake: bool)
    requires l.Heap(wake) != Nil
    requires BagInv(Elements(l.hw), l.delegates, true) && BagInv(Elements(l.sw), l.delegates, false)
    ensures var top := l.Heap(wake).data;
            top.addr in l.delegates ==> top.key == l.delegates[top.addr].deadline
  {
    assert l.Heap(wake).data in Elements(l.Heap(wake));
  }

  lemma DrainCalls(s: System, c: nat, d: nat)
    requires RefInv(s.ledger.clients, s.ledger.delegates) && d in s.ledger.delegates
    requires BagInv(Elements(s.ledger.hw), s.ledger.delegates, true)
    requires BagInv(Elements(s.ledger.sw), s.ledger.delegates, false)
    requires s.work.Draining? ==> s.work.at <= s.now
    ensures var s' := Drain(s);
            && s'.now == s.now
            && (s'.ledger.log[TimedOut(c, d)] > s.ledger.log[TimedOut(c, d)] ==>
                  s.ledger.delegates[d].deadline <= s.now)
  {
    hide RefInv, PopAndExpire, UpdateSoonestTime;
    if s.work.Draining? {
      UpdateKeepsLedger(s.(work := Ready), s.work.wake, None);
      if s.ledger.Heap(s.work.wake) != Nil {
        PopCalls(s.ledger, s.work.wake, c, d);
        TopDeadline(s.ledger, s.work.wake);
      }
    }
  }

  lemma {:induction false} DrainClock(boot: nat, steps: seq<Action>)
    ensures var s := Run(boot, steps); s.work.Draining? ==> s.work.at <= s.now
  {
    if steps != [] {
      DrainClock(boot, steps[..|steps| - 1]);
      ClockStep(Run(boot, steps[..|steps| - 1]), steps[|steps| - 1]);
    }
  }

  lemma ClockStep(s: System, a: Action)
    requires s.work.Draining? ==> s.work.at <= s.now
    ensures var s' := Step(s, a); s'.work.Draining? ==> s'.work.at <= s'.now
  {
    hide PopAndExpire, ProcPush, ProcRemove, Start, Stop, Destroy, NewClient, Apply;
  }

  /** Over every run, a callback comes before its timer's deadline exactly when an Expire
      message finds that timer, not due yet, on top of the heap: only the unconditional first
      pop is ever early, and it is whenever the top is later than the clock. */
  lemma {:induction false} CallbackIsEarlyIff(boot: nat, steps: seq<Action>, a: Action, c: nat, d: nat)
    requires d in Run(boot, steps).ledger.delegates
    ensures var s, s' := Run(boot, steps), Run(boot, steps + [a]);
            (&& s'.ledger.log[TimedOut(c, d)] > s.ledger.log[TimedOut(c, d)]
             && s'.now < s.ledger.delegates[d].deadline)
            <==> PopsEarly(s, a, c, d)
  {
    RunSnoc(boot, steps, a);
    RunInv(boot, steps);
    DrainClock(boot, steps);
    hide Run, OnMsg, Drain, RefInv, BagInv, PlaceInv, QueueInv, NamedInv, LockInv, LogInv, FreedInv,
      Start, Stop, Destroy, NewClient, Covered, WorkInv, Elements, Wake, Poll;
    var s := Run(boot, steps);
    match a
    case ProcMsg => MessageCalls(s, c, d);
    case DrainNext => DrainCalls(s, c, d);
    case New(x) => ClientsCallNobody(s.ledger, x, false, 0, false, c, d);
    case StartTimer(x, wake, ms, available) =>
      ClientsCallNobody(s.ledger, x, wake, s.now + ms * 1_000_000, available, c, d);
    case StopTimer(x) => ClientsCallNobody(s.ledger, x, false, 0, false, c, d);
    case DestroyTimer(x) => ClientsCallNobody(s.ledger, x, false, 0, false, c, d);
    case _ => PollCallsNobody(s, a);
  }

  lemma PollCallsNobody(s: System, a: Action)
    requires a.Tick? || a.SetDevice? || a.PollWake? || a.PollNext?
    ensures Step(s, a).ledger.log == s.ledger.log
  {
  }

  lemma RunSnoc(boot: nat, steps: seq<Action>, a: Action)
    ensures Run(boot, steps + [a]) == Step(Run(boot, steps), a)
  {
    assert (steps + [a])[..|steps|] == steps;
  }

  /** The next step pops timer d of client c: the first one for an Expire message, or the next
      one of a drain that is due. */
  predicate Pops(s: System, a: Action, c: nat, d: nat) {
    && d in s.ledger.delegates && s.ledger.delegates[d].client == To(c)
    && match a
       case ProcMsg =>
         && s.work == Ready && s.ledger.queue != [] && s.ledger.queue[0].MsgExpire?
         && var heap := s.ledger.Heap(s.ledger.queue[0].wake);
            heap != Nil && heap.data.addr == d
       case DrainNext =>
         && s.work.Draining?
         && var heap := s.ledger.Heap(s.work.wake);
            heap != Nil && heap.data.addr == d && heap.data.key <= s.work.at
       case _ => false
  }

  /** Over every run, each client is called back exactly when its timer is popped, once. */
  lemma {:induction false} CallbackIff(boot: nat, steps: seq<Action>, a: Action, c: nat, d: nat)
    ensures var l, l' := Run(boot, steps).ledger, Run(boot, steps + [a]).ledger;
            l'.log[TimedOut(c, d)] ==
              l.log[TimedOut(c, d)] + One(Pops(Run(boot, steps), a, c, d))
  {
    RunSnoc(boot, steps, a);
    RunInv(boot, steps);
    hide Run, OnMsg, Drain, RefInv, BagInv, PlaceInv, QueueInv, NamedInv, LockInv, LogInv, FreedInv,
      Start, Stop, Destroy, NewClient, Covered, WorkInv, Elements, Wake, Poll;
    var s := Run(boot, steps);
    match a
    case ProcMsg => MessagePops(s, c, d);
    case DrainNext => DrainPops(s, c, d);
    case New(x) => ClientsCallNobody(s.ledger, x, false, 0, false, c, d);
    case StartTimer(x, wake, ms, available) =>
      ClientsCallNobody(s.ledger, x, wake, s.now + ms * 1_000_000, available, c, d);
    case StopTimer(x) => ClientsCallNobody(s.ledger, x, false, 0, false, c, d);
    case DestroyTimer(x) => ClientsCallNobody(s.ledger, x, false, 0, false, c, d);
    case _ => PollCallsNobody(s, a);
  }

  lemma MessagePops(s: System, c: nat, d: nat)
    requires RefInv(s.ledger.clients, s.ledger.delegates)
    ensures OnMsg(s).ledger.log[TimedOut(c, d)] ==
              s.ledger.log[TimedOut(c, d)] + One(Pops(s, ProcMsg, c, d))
  {
    hide RefInv, PopAndExpire, ProcPush, ProcRemove, UpdateSoonestTime, Apply;
    if s.work == Ready && s.ledger.queue != [] {
      match s.ledger.queue[0]
      case MsgPush(x) =>
        MessagesCallNobody(s.ledger, x, c, d);
        if x in s.ledger.delegates {
          var wake := s.ledger.delegates[x].wake;
          UpdateKeepsLedger(s.(ledger := ProcPush(s.ledger, x)), wake, Top(s.ledger.Heap(wake)));
        }
      case MsgRemove(x) =>
        MessagesCallNobody(s.ledger, x, c, d);
        if x in s.ledger.delegates && s.ledger.delegates[x].lock in s.ledger.locks {
          UpdateKeepsLedger(s.(ledger := ProcRemove(s.ledger, x)), s.ledger.delegates[x].wake, None);
        }
      case MsgExpire(wake) =>
        var s1 := s.(ledger := Receive(s.ledger));
        UpdateKeepsLedger(s1, wake, None);
        if s.ledger.Heap(wake) != Nil {
          PopCalls(s1.ledger, wake, c, d);
        }
    }
  }

  lemma DrainPops(s: System, c: nat, d: nat)
    requires RefInv(s.ledger.clients, s.ledger.delegates)
    ensures Drain(s).ledger.log[TimedOut(c, d)] ==
              s.ledger.log[TimedOut(c, d)] + One(Pops(s, DrainNext, c, d))
  {
    hide RefInv, PopAndExpire, UpdateSoonestTime;
    if s.work.Draining? {
      UpdateKeepsLedger(s.(work := Ready), s.work.wake, None);
      if s.ledger.Heap(s.work.wake) != Nil {
        PopCalls(s.ledger, s.work.wake, c, d);
      }
    }
  }

  // ---------------------------------------------------------------- a run that does it

  const TEN_SECONDS: nat := 10_000_000_000

  /** Client 7 restarts its ten second timer just as it goes off. */
  function EarlySteps(): seq<Action> {
    [New(7), StartTimer(7, false, 10_000, true), ProcMsg, SetDevice, Tick(TEN_SECONDS),
     PollWake([false]), StopTimer(7), StartTimer(7, false, 10_000, true),
     PollNext, PollNext, PollNext, ProcMsg, ProcMsg, SetDevice, ProcMsg]
  }

  /** The timer is running and its device has expired. */
  function Rung(): System {
    var t := TEN_SECONDS + 1;
    System(t,
           Ledger(map[7 := To(0)], map[7 := 2], map[0 := Delegate(To(7), 7, true, false, t, false)],
                  1, [], Nil, Single(Rankable(0, t)), multiset{Started(7, 0), PushSent(0)}),
           Device(Disarmed, false), Device(At(t), true), [], ToDisarm, Ready)
  }

  lemma RunFirst(boot: nat, a: Action)
    ensures Run(boot, [a]) == Step(Run(boot, []), a)
  {
    assert [a][..0] == [];
  }

  lemma Created()
    ensures Run(0, [New(7)] + [StartTimer(7, false, 10_000, true)]) ==
              var l := Rung().ledger.(queue := [MsgPush(0)], sw := Nil);
              System(1, l, Device(Disarmed, false), Device(Disarmed, false), [], ToDisarm, Ready)
  {
    RunFirst(0, New(7));
    RunSnoc(0, [New(7)], StartTimer(7, false, 10_000, true));
    var l := Run(0, [New(7)]).ledger;
    assert l.clients == map[7 := Null] && l.locks == map[7 := 1];
    assert Rung().ledger.clients == l.clients[7 := To(0)];
    assert Rung().ledger.locks == l.locks[7 := 2];
  }

  lemma Pushed(s: System)
    requires s == System(1, Rung().ledger.(queue := [MsgPush(0)], sw := Nil),
                         Device(Disarmed, false), Device(Disarmed, false), [], ToDisarm, Ready)
    ensures Step(Step(Step(s, ProcMsg), SetDevice), Tick(TEN_SECONDS)) == Rung()
  {
  }

  lemma Rings()
    ensures Run(0, [New(7), StartTimer(7, false, 10_000, true), ProcMsg, SetDevice,
                    Tick(TEN_SECONDS)]) == Rung()
  {
    hide Run, Step;
    var p2 := [New(7)] + [StartTimer(7, false, 10_000, true)];
    var p3 := p2 + [ProcMsg];
    var p4 := p3 + [SetDevice];
    Created();
    RunSnoc(0, p2, ProcMsg);
    RunSnoc(0, p3, SetDevice);
    RunSnoc(0, p4, Tick(TEN_SECONDS));
    Pushed(Run(0, p2));
    assert p4 + [Tick(TEN_SECONDS)] == [New(7), StartTimer(7, false, 10_000, true), ProcMsg,
                                        SetDevice, Tick(TEN_SECONDS)];
  }

  /** The client has stopped its timer and started another before the poll thread's message
      was sent. */
  function Restarted(): System {
    var t := TEN_SECONDS + 1;
    System(t,
           Ledger(map[7 := To(1)], map[7 := 3],
                  map[0 := Delegate(Null, 7, false, false, t, false),
                      1 := Delegate(To(7), 7, true, false, t + TEN_SECONDS, false)],
                  2, [MsgRemove(0), MsgPush(1), MsgExpire(false)], Nil, Single(Rankable(0, t)),
                  multiset{Started(7, 0), PushSent(0), RemoveSent(0), Stopped(7, 0),
                           Started(7, 1), PushSent(1)}),
           Device(Disarmed, false), Device(Disarmed, false), [], ToDisarm, Ready)
  }

  /** After the stop, before the new start. */
  function Between(): Ledger {
    Ledger(map[7 := Null], map[7 := 2],
           map[0 := Delegate(Null, 7, false, false, TEN_SECONDS + 1, false)], 1, [MsgRemove(0)],
           Nil, Single(Rankable(0, TEN_SECONDS + 1)),
           multiset{Started(7, 0), PushSent(0), RemoveSent(0), Stopped(7, 0)})
  }

  lemma StopsOld()
    ensures Stop(Rung().ledger, 7, false) == Between()
  {
  }

  lemma StartsNew()
    ensures Start(Stop(Rung().ledger, 7, false), 7, false, 2 * TEN_SECONDS + 1, true) ==
              Restarted().ledger.(queue := [MsgRemove(0), MsgPush(1)])
  {
    hide Stop, Start;
    StopsOld();
    StartsBetween();
  }

  lemma StartsBetween()
    ensures Start(Between(), 7, false, 2 * TEN_SECONDS + 1, true) ==
              Restarted().ledger.(queue := [MsgRemove(0), MsgPush(1)])
  {
    var l, l' := Between(), Restarted().ledger;
    assert l'.clients == l.clients[7 := To(1)] && l'.locks == l.locks[7 := 3];
    assert l'.delegates ==
           l.delegates[1 := Delegate(To(7), 7, true, false, 2 * TEN_SECONDS + 1, false)];
    assert l'.log == l.log + multiset{Started(7, 1), PushSent(1)};
  }

  lemma Restarts()
    ensures var s := Step(Step(Step(Rung(), PollWake([false])), StopTimer(7)),
                          StartTimer(7, false, 10_000, true));
            Step(Step(Step(s, PollNext), PollNext), PollNext) == Restarted()
  {
    hide Start, Stop;
    var s1 := Step(Rung(), PollWake([false]));
    assert s1 == Rung().(todo := [false], stage := ToDisarm);
    var s3 := Step(Step(s1, StopTimer(7)), StartTimer(7, false, 10_000, true));
    StartsNew();
    Polls(s3);
    assert [MsgRemove(0), MsgPush(1)] + [MsgExpire(false)] == Restarted().ledger.queue;
  }

  lemma Polls(s: System)
    requires s.todo == [false] && s.stage == ToDisarm
    ensures Step(Step(Step(s, PollNext), PollNext), PollNext) ==
              s.(ledger := Send(s.ledger, MsgExpire(false)), sw := Device(Disarmed, false),
                 todo := [], stage := ToDisarm)
  {
  }

  /** The old timer's Remove empties the heap and leaves the device alone. */
  lemma RemovesOld()
    ensures var s := Step(Restarted(), ProcMsg);
            && s.work == Ready && s.now == TEN_SECONDS + 1
            && s.ledger.queue == [MsgPush(1), MsgExpire(false)] && s.ledger.sw == Nil
            && s.ledger.clients == map[7 := To(1)]
            && 1 in s.ledger.delegates
            && s.ledger.delegates[1] == Restarted().ledger.delegates[1]
            && s.ledger.log[TimedOut(7, 1)] == 0
  {
    var l := Restarted().ledger;
    var heap := Apply(l.sw, OpRemove(Item(l.delegates, 0)));
    assert heap == (Nil, Answer.Some(Rankable(0, TEN_SECONDS + 1)));
    MessagesCallNobody(l, 0, 7, 1);
  }

  lemma PushesNew(s: System)
    requires s.work == Ready && s.ledger.queue == [MsgPush(1), MsgExpire(false)]
    requires s.ledger.sw == Nil && 1 in s.ledger.delegates && !s.ledger.delegates[1].wake
    ensures var s' := Step(Step(s, ProcMsg), SetDevice);
            && s'.work == Ready && s'.now == s.now
            && s'.ledger == s.ledger.(queue := [MsgExpire(false)],
                                      sw := Single(Item(s.ledger.delegates, 1)))
  {
  }

  lemma GoesOffEarly()
    ensures var s := Step(Step(Step(Step(Restarted(), ProcMsg), ProcMsg), SetDevice), ProcMsg);
            && s.now == TEN_SECONDS + 1
            && s.ledger.log[TimedOut(7, 1)] == 1
            && 1 in s.ledger.delegates
            && s.ledger.delegates[1].deadline == s.now + TEN_SECONDS
  {
    var s1 := Step(Restarted(), ProcMsg);
    RemovesOld();
    var s3 := Step(Step(s1, ProcMsg), SetDevice);
    PushesNew(s1);
    hide Pop, OnPush, OnRemove;
    var l := Receive(s3.ledger);
    assert Step(s3, ProcMsg) == PopNext(s3.(ledger := l), false, s3.now, []);
    assert PopAndExpire(l, false) == Stop(l.(sw := Pop(l.sw)), 7, true);
  }

  /** The run: the restarted timer is called back ten seconds early. */
  lemma EarlyCallback()
    ensures var s := Run(0, EarlySteps());
            && s.ledger.log[TimedOut(7, 1)] == 1 && 1 in s.ledger.delegates
            && s.ledger.delegates[1].deadline == s.now + TEN_SECONDS
  {
    hide Step;
    var p0 := [New(7), StartTimer(7, false, 10_000, true), ProcMsg, SetDevice, Tick(TEN_SECONDS)];
    var p1 := p0 + [PollWake([false])];
    var p2 := p1 + [StopTimer(7)];
    var p3 := p2 + [StartTimer(7, false, 10_000, true)];
    var p4 := p3 + [PollNext];
    var p5 := p4 + [PollNext];
    var p6 := p5 + [PollNext];
    var p7 := p6 + [ProcMsg];
    var p8 := p7 + [ProcMsg];
    var p9 := p8 + [SetDevice];
    hide Run;
    RunSnoc(0, p0, PollWake([false]));
    RunSnoc(0, p1, StopTimer(7));
    RunSnoc(0, p2, StartTimer(7, false, 10_000, true));
    RunSnoc(0, p3, PollNext);
    RunSnoc(0, p4, PollNext);
    RunSnoc(0, p5, PollNext);
    RunSnoc(0, p6, ProcMsg);
    RunSnoc(0, p7, ProcMsg);
    RunSnoc(0, p8, SetDevice);
    RunSnoc(0, p9, ProcMsg);
    Rings();
    Restarts();
    GoesOffEarly();
    assert p9 + [ProcMsg] == EarlySteps();
  }

  // ---------------------------------------------------------------- another run

  /** A client stops the only timer: the heap is empty, the device still armed and polled. */
  lemma EmptyHeapStaysArmed()
    ensures var s := Run(0, [New(7), StartTimer(7, false, 10_000, true), ProcMsg, SetDevice,
                             Tick(TEN_SECONDS), StopTimer(7), ProcMsg]);
            && s.ledger.sw == Nil && s.ledger.queue == [] && s.work == Ready
            && s.Dev(false) == Device(At(TEN_SECONDS + 1), true)
  {
    hide Run;
    var p0 := [New(7), StartTimer(7, false, 10_000, true), ProcMsg, SetDevice, Tick(TEN_SECONDS)];
    var p1 := p0 + [StopTimer(7)];
    Rings();
    RunSnoc(0, p0, StopTimer(7));
    RunSnoc(0, p1, ProcMsg);
    assert p1 + [ProcMsg] == [New(7), StartTimer(7, false, 10_000, true), ProcMsg, SetDevice,
                              Tick(TEN_SECONDS), StopTimer(7), ProcMsg];
    StopsOld();
    RemovesOnly(Step(Rung(), StopTimer(7)));
  }

  lemma RemovesOnly(s: System)
    requires s == Rung().(ledger := Stop(Rung().ledger, 7, false))
    ensures var s' := Step(s, ProcMsg);
            && s'.ledger.sw == Nil && s'.ledger.queue == [] && s'.work == Ready
            && s'.Dev(false) == s.Dev(false)
  {
    hide Stop;
    StopsOld();
    var l := s.ledger;
    assert Apply(l.sw, OpRemove(Item(l.delegates, 0))) ==
           (Nil, Answer.Some(Rankable(0, TEN_SECONDS + 1)));
  }
}
