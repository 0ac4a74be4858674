/** The heap compares integer deadlines; the program compares timespecs through a 32-bit
    difference.  In a run of up to 67 years the two agree on any two timers. */
module TimerRanking {
  import opened HeapTree
  import opened Deadline
  import opened TimerLedger
  import opened TimerService

  /** The timespec of an instant after boot. */
  function Spec(t: nat): Timespec {
    Timespec(t / NSEC, t % NSEC)
  }

  lemma SpecIsInstant(t: nat)
    ensures Normal(Spec(t)) && Instant(Spec(t)) == t
  {
  }

  lemma SameInstant(a: Timespec, b: Timespec)
    requires Normal(a) && Normal(b) && Instant(a) == Instant(b)
    ensures a == b
  {
  }

  /** What start() computes is the timespec of the deadline the model stores. */
  lemma FutureTimeIsSpec(now: nat, ms: nat)
    ensures FutureTime(Spec(now), ms) == Spec(now + ms * 1_000_000)
  {
    SpecIsInstant(now);
    SpecIsInstant(now + ms * 1_000_000);
    FutureTimeIsLater(Spec(now), ms);
    SameInstant(FutureTime(Spec(now), ms), Spec(now + ms * 1_000_000));
  }

  const LONGEST: nat := (INT_SPAN - 1) * 1_000_000

  /** Timeouts are 32 bits wide. */
  ghost predicate WideTimeouts(steps: seq<Action>) {
    forall a :: a in steps && a.StartTimer? ==> a.ms < INT_SPAN
  }

  ghost predicate Within(ds: Delegates, lo: int, hi: int) {
    forall d :: d in ds ==> lo <= ds[d].deadline <= hi
  }

  ghost predicate SameTimes(l: Ledger, l': Ledger) {
    forall d :: d in l'.delegates ==>
      d in l.delegates && l'.delegates[d].deadline == l.delegates[d].deadline
  }

  lemma ClientsKeepTimes(l: Ledger, c: nat, byExpiry: bool)
    ensures SameTimes(l, NewClient(l, c)) && SameTimes(l, Destroy(l, c))
    ensures SameTimes(l, Stop(l, c, byExpiry))
  {
    StopKeepsTimes(l, c, byExpiry);
    StopKeepsTimes(l, c, false);
    hide Stop;
  }

  lemma StopKeepsTimes(l: Ledger, c: nat, byExpiry: bool)
    ensures SameTimes(l, Stop(l, c, byExpiry))
  {
  }

  lemma PopKeepsTimes(l: Ledger, wake: bool)
    requires l.Heap(wake) != Nil
    ensures SameTimes(l, PopAndExpire(l, wake))
  {
    var d, l1 := l.Heap(wake).data.addr, l.WithHeap(wake, Pop(l.Heap(wake)));
    if d in l.delegates && l.delegates[d].client.To? {
      StopKeepsTimes(l1, l.delegates[d].client.id, true);
    }
    hide Stop, Pop;
  }

  lemma MessagesKeepTimes(s: System)
    ensures SameTimes(s.ledger, OnMsg(s).ledger) && OnMsg(s).now == s.now
  {
    hide Push, Apply, PopAndExpire, UpdateSoonestTime, Drop;
    if s.work == Ready && s.ledger.queue != [] {
      match s.ledger.queue[0]
      case MsgPush(x) =>
        if x in s.ledger.delegates {
          var wake := s.ledger.delegates[x].wake;
          UpdateKeepsLedger(s.(ledger := ProcPush(s.ledger, x)), wake, Top(s.ledger.Heap(wake)));
        }
      case MsgRemove(x) =>
        if x in s.ledger.delegates && s.ledger.delegates[x].lock in s.ledger.locks {
          RemoveKeepsTimes(s.ledger, x);
          UpdateKeepsLedger(s.(ledger := ProcRemove(s.ledger, x)), s.ledger.delegates[x].wake, None);
        }
      case MsgExpire(wake) =>
        var s1 := s.(ledger := Receive(s.ledger));
        UpdateKeepsLedger(s1, wake, None);
        if s.ledger.Heap(wake) != Nil {
          PopKeepsTimes(s1.ledger, wake);
        }
    }
  }

  lemma RemoveKeepsTimes(l: Ledger, d: nat)
    requires HeadIs(l, d, MsgRemove(d)) && l.delegates[d].lock in l.locks
    ensures SameTimes(l, ProcRemove(l, d))
  {
    hide Apply;
  }

  lemma DrainKeepsTimes(s: System)
    ensures SameTimes(s.ledger, Drain(s).ledger) && Drain(s).now == s.now
  {
    hide PopAndExpire, UpdateSoonestTime;
    if s.work.Draining? {
      UpdateKeepsLedger(s.(work := Ready), s.work.wake, None);
      if s.ledger.Heap(s.work.wake) != Nil {
        PopKeepsTimes(s.ledger, s.work.wake);
      }
    }
  }

  /** Over every run deadlines lie between boot and the longest timeout from now. */
  lemma {:induction false} DeadlineRange(boot: nat, steps: seq<Action>)
    requires WideTimeouts(steps)
    ensures boot < Run(boot, steps).now
    ensures Within(Run(boot, steps).ledger.delegates, boot, Run(boot, steps).now + LONGEST)
  {
    if steps != [] {
      var init, last := steps[..|steps| - 1], steps[|steps| - 1];
      assert last in steps && forall a :: a in init ==> a in steps;
      DeadlineRange(boot, init);
      RangeStep(Run(boot, init), last, boot);
    }
  }

  lemma RangeStep(s: System, a: Action, boot: nat)
    requires boot < s.now && Within(s.ledger.delegates, boot, s.now + LONGEST)
    requires a.StartTimer? ==> a.ms < INT_SPAN
    ensures var s' := Step(s, a);
            boot < s'.now && Within(s'.ledger.delegates, boot, s'.now + LONGEST)
  {
    hide OnMsg, Drain, Stop, Destroy, NewClient, Start, Within, SameTimes, Poll, Wake, SetTime;
    var l, l' := s.ledger, Step(s, a).ledger;
    match a
    case New(c) =>
      ClientsKeepTimes(l, c, false);
      KeepsRange(l, l', boot, s.now, s.now);
    case StopTimer(c) =>
      ClientsKeepTimes(l, c, false);
      KeepsRange(l, l', boot, s.now, s.now);
    case DestroyTimer(c) =>
      ClientsKeepTimes(l, c, false);
      KeepsRange(l, l', boot, s.now, s.now);
    case ProcMsg =>
      MessagesKeepTimes(s);
      KeepsRange(l, l', boot, s.now, s.now);
    case DrainNext =>
      DrainKeepsTimes(s);
      KeepsRange(l, l', boot, s.now, s.now);
    case StartTimer(c, wake, ms, available) =>
      StartInRange(l, c, wake, ms, available, boot, s.now);
    case _ =>
      RestKeepsTimes(s, a);
      KeepsRange(l, l', boot, s.now, Step(s, a).now);
  }

  lemma KeepsRange(l: Ledger, l': Ledger, lo: int, now: int, now': int)
    requires SameTimes(l, l') && Within(l.delegates, lo, now + LONGEST) && now <= now'
    ensures Within(l'.delegates, lo, now' + LONGEST)
  {
  }

  lemma StartInRange(l: Ledger, c: nat, wake: bool, ms: nat, available: bool, lo: int, now: int)
    requires Within(l.delegates, lo, now + LONGEST) && lo < now && ms < INT_SPAN
    ensures Within(Start(l, c, wake, now + ms * 1_000_000, available).delegates, lo, now + LONGEST)
  {
  }

  lemma RestKeepsTimes(s: System, a: Action)
    requires a.Tick? || a.SetDevice? || a.PollWake? || a.PollNext?
    ensures SameTimes(s.ledger, Step(s, a).ledger) && s.now <= Step(s, a).now
  {
  }

  /** In a run of at most 2^31 - 2^23 seconds the program's ranking of any two timers is the
      order of the deadlines by which the heap is kept. */
  lemma RanksAsHeaped(boot: nat, steps: seq<Action>, d: nat, e: nat)
    requires WideTimeouts(steps)
    requires Run(boot, steps).now - boot <= (INT_HALF - 0x80_0000) * NSEC
    requires d in Run(boot, steps).ledger.delegates && e in Run(boot, steps).ledger.delegates
    ensures var ds := Run(boot, steps).ledger.delegates;
            && 0 <= ds[d].deadline && 0 <= ds[e].deadline
            && var rank := Ranks(Spec(ds[d].deadline), Spec(ds[e].deadline));
               && (rank > 0 <==> OutRanks(Item(ds, d), Item(ds, e)))
               && (rank == 0 <==> Item(ds, d).key == Item(ds, e).key)
  {
    hide Run;
    DeadlineRange(boot, steps);
    var ds := Run(boot, steps).ledger.delegates;
    CloseRanks(boot, Run(boot, steps).now, ds[d].deadline, ds[e].deadline);
  }

  lemma CloseRanks(boot: nat, now: int, t: int, u: int)
    requires boot < now && now - boot <= (INT_HALF - 0x80_0000) * NSEC
    requires boot <= t <= now + LONGEST && boot <= u <= now + LONGEST
    ensures Ranks(Spec(t), Spec(u)) > 0 <==> t < u
    ensures Ranks(Spec(t), Spec(u)) == 0 <==> t == u
  {
    SpecIsInstant(t);
    SpecIsInstant(u);
    assert -INT_HALF <= Spec(u).sec - Spec(t).sec < INT_HALF;
    RanksIsInstantOrder(Spec(t), Spec(u));
  }
}
