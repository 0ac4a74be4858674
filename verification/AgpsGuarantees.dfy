/** What the AGPS state machine guarantees its subscribers over whole runs; what concerns one
    subscriber holds exactly if its handle is not requested again at a bad moment. */
module AgpsGuarantees {
  import opened Counting
  import opened AgpsSpec

  // ---------------------------------------------------------------- the list as a table

  ghost predicate Distinct(list: seq<Subscriber>) {
    list != [] ==> Lookup(list[1..], list[0].handle) == Absent && Distinct(list[1..])
  }

  lemma {:induction false} AddLookup(list: seq<Subscriber>, s: Subscriber, h: int)
    requires Lookup(list, s.handle) == Absent
    ensures Lookup(list + [s], h) ==
              if h == s.handle then Present(s.wait, s.inactive) else Lookup(list, h)
    ensures Distinct(list) ==> Distinct(list + [s])
    ensures AnyActive(list + [s]) <==> AnyActive(list) || !s.inactive
  {
    if list == [] {
      assert list + [s] == [s];
    } else {
      assert (list + [s])[1..] == list[1..] + [s];
      AddLookup(list[1..], s, h);
      if list[0].handle != s.handle {
        AddLookup(list[1..], s, list[0].handle);
      }
    }
  }

  lemma {:induction false} DeleteLookup(list: seq<Subscriber>, h: int, g: int)
    ensures Lookup(Delete(list, h), g) == if g == h then Absent else Lookup(list, g)
    ensures Distinct(list) ==> Distinct(Delete(list, h))
    ensures Distinct(list) ==> |Delete(list, h)| == |list| - One(Lookup(list, h) != Absent)
  {
    if list != [] {
      DeleteLookup(list[1..], h, g);
      DeleteLookup(list[1..], h, list[0].handle);
    }
  }

  lemma {:induction false} DeactivateLookup(list: seq<Subscriber>, h: int, g: int)
    ensures Lookup(Deactivate(list, h), g) ==
              if g == h && Lookup(list, g).Present? then Lookup(list, g).(inactive := true)
              else Lookup(list, g)
    ensures Distinct(list) ==> Distinct(Deactivate(list, h))
    ensures |Deactivate(list, h)| == |list|
  {
    if list != [] && list[0].handle != h {
      DeactivateLookup(list[1..], h, g);
      DeactivateLookup(list[1..], h, list[0].handle);
    }
  }

  predicate Addressed(e: Entry, to: Audience) {
    e.Present? && Hears(e.inactive, to)
  }

  lemma {:induction false} OthersLookup(list: seq<Subscriber>, to: Audience, g: int)
    requires Distinct(list)
    ensures Lookup(Others(list, to), g) ==
              if Addressed(Lookup(list, g), to) then Absent else Lookup(list, g)
    ensures Distinct(Others(list, to))
  {
    if list != [] {
      OthersLookup(list[1..], to, g);
      OthersLookup(list[1..], to, list[0].handle);
    }
  }

  lemma {:induction false} ActiveIf(list: seq<Subscriber>, h: int)
    requires Lookup(list, h).Present? && !Lookup(list, h).inactive
    ensures AnyActive(list)
  {
    if list[0].handle != h {
      ActiveIf(list[1..], h);
    }
  }

  /** Telling the inactive ones leaves active ones only; telling all leaves none. */
  lemma {:induction false} OthersActive(list: seq<Subscriber>)
    ensures Others(list, InactiveOnes) == [] || AnyActive(Others(list, InactiveOnes))
    ensures Others(list, All) == []
  {
    if list != [] {
      OthersActive(list[1..]);
    }
  }

  /** Only subscribers that wait for the close are ever inactive. */
  ghost predicate InactiveWaits(list: seq<Subscriber>) {
    list != [] ==> (list[0].inactive ==> list[0].wait) && InactiveWaits(list[1..])
  }

  predicate AnyInactive(list: seq<Subscriber>) {
    list != [] && (list[0].inactive || AnyInactive(list[1..]))
  }

  lemma {:induction false} AddWaits(list: seq<Subscriber>, s: Subscriber)
    requires InactiveWaits(list) && !s.inactive
    ensures InactiveWaits(list + [s]) && AnyInactive(list + [s]) == AnyInactive(list)
  {
    if list == [] {
      assert list + [s] == [s];
    } else {
      assert (list + [s])[1..] == list[1..] + [s];
      AddWaits(list[1..], s);
    }
  }

  lemma {:induction false} OthersWaits(list: seq<Subscriber>, to: Audience)
    requires InactiveWaits(list)
    ensures InactiveWaits(Others(list, to))
  {
    if list != [] {
      OthersWaits(list[1..], to);
    }
  }

  lemma {:induction false} DeleteWaits(list: seq<Subscriber>, h: int)
    requires InactiveWaits(list) && Distinct(list)
    ensures InactiveWaits(Delete(list, h))
    ensures Lookup(list, h).Present? && !Lookup(list, h).wait ==>
              AnyInactive(Delete(list, h)) == AnyInactive(list)
  {
    if list != [] {
      DeleteWaits(list[1..], h);
      if list[0].handle == h {
        DeleteAbsent(list[1..], h);
      }
    }
  }

  lemma {:induction false} DeleteAbsent(list: seq<Subscriber>, h: int)
    requires Lookup(list, h) == Absent
    ensures Delete(list, h) == list
  {
    if list != [] {
      DeleteAbsent(list[1..], h);
    }
  }

  lemma {:induction false} DeactivateWaits(list: seq<Subscriber>, h: int)
    requires InactiveWaits(list) && Lookup(list, h).Present? && Lookup(list, h).wait
    ensures InactiveWaits(Deactivate(list, h)) && AnyInactive(Deactivate(list, h))
    ensures Deactivate(list, h) != []
  {
    if list[0].handle != h {
      DeactivateWaits(list[1..], h);
    }
  }

  // ---------------------------------------------------------------- one subscriber's life

  /** What may happen to one handle, in order: it is accepted, and may be granted once (before
      its acceptance, when the connection is already there); then it ends, told that the open
      failed (only if it was never granted) or that the connection closed, or lost to a modem
      restart; after that nothing. */
  datatype Life = Unknown | Greeted | Waiting | Served | Failed | Ended | Lost | Wrong

  function Live(life: Life, mark: Mark, h: int): Life {
    match mark
    case Accepted(g) =>
      if g != h then life
      else if life == Unknown then Waiting
      else if life == Greeted then Served
      else Wrong
    case Note(kind, g) =>
      if g != h then life
      else
        (match kind
         case OpenOk =>
           if life == Unknown then Greeted else if life == Waiting then Served else Wrong
         case OpenFail => if life == Waiting then Failed else Wrong
         case Closed => if life == Waiting || life == Served then Ended else Wrong)
    case Dropped(g) =>
      if g != h then life else if life == Waiting || life == Served then Lost else Wrong
    case _ => life
  }

  function LifeOf(trace: seq<Mark>, h: int): Life {
    if trace == [] then Unknown
    else Live(LifeOf(trace[..|trace| - 1], h), trace[|trace| - 1], h)
  }

  lemma {:induction false} LifeSnoc(trace: seq<Mark>, mark: Mark, h: int)
    ensures LifeOf(trace + [mark], h) == Live(LifeOf(trace, h), mark, h)
  {
    assert (trace + [mark])[..|trace|] == trace;
  }

  lemma Regroup<T>(a: seq<T>, x: T, b: seq<T>)
    ensures a + ([x] + b) == (a + [x]) + b
  {
  }

  lemma {:induction false} LifeNotes(trace: seq<Mark>, list: seq<Subscriber>, kind: Kind,
                                     to: Audience, h: int)
    requires Distinct(list)
    ensures LifeOf(trace + Notes(list, kind, to), h) ==
              if Addressed(Lookup(list, h), to) then Live(LifeOf(trace, h), Note(kind, h), h)
              else LifeOf(trace, h)
    decreases list
  {
    if list == [] {
      assert trace + [] == trace;
    } else if Hears(list[0].inactive, to) {
      var note := Note(kind, list[0].handle);
      Regroup(trace, note, Notes(list[1..], kind, to));
      LifeSnoc(trace, note, h);
      LifeNotes(trace + [note], list[1..], kind, to, h);
    } else {
      LifeNotes(trace, list[1..], kind, to, h);
    }
  }

  lemma {:induction false} LifeDrops(trace: seq<Mark>, list: seq<Subscriber>, h: int)
    requires Distinct(list)
    ensures LifeOf(trace + Drops(list), h) ==
              if Lookup(list, h) != Absent then Live(LifeOf(trace, h), Dropped(h), h)
              else LifeOf(trace, h)
    decreases list
  {
    hide LifeOf;
    if list == [] {
      assert trace + [] == trace;
    } else {
      var drop := Dropped(list[0].handle);
      Regroup(trace, drop, Drops(list[1..]));
      LifeSnoc(trace, drop, h);
      LifeDrops(trace + [drop], list[1..], h);
    }
  }

  /** Acceptances less endings. */
  function Balance(trace: seq<Mark>): int {
    if trace == [] then 0
    else Balance(trace[..|trace| - 1]) + Weight(trace[|trace| - 1])
  }

  function Weight(mark: Mark): int {
    match mark
    case Accepted(_) => 1
    case Dropped(_) => -1
    case Note(kind, _) => if kind == OpenOk then 0 else -1
    case _ => 0
  }

  lemma {:induction false} BalanceAppend(a: seq<Mark>, b: seq<Mark>)
    ensures Balance(a + b) == Balance(a) + Balance(b)
  {
    if b == [] {
      assert a + b == a;
    } else {
      assert (a + b)[..|a + b| - 1] == a + b[..|b| - 1];
      BalanceAppend(a, b[..|b| - 1]);
    }
  }

  lemma {:induction false} NotesBalance(list: seq<Subscriber>, kind: Kind, to: Audience)
    ensures Balance(Notes(list, kind, to)) ==
              if kind == OpenOk then 0 else |Others(list, to)| - |list|
    ensures Balance(Drops(list)) == -|list|
  {
    if list != [] {
      NotesBalance(list[1..], kind, to);
      BalanceAppend([Note(kind, list[0].handle)], Notes(list[1..], kind, to));
      BalanceAppend([Dropped(list[0].handle)], Drops(list[1..]));
    }
  }

  // ---------------------------------------------------------------- list invariant

  /** Holds on all runs, modem restarts included. */
  ghost predicate ListInv(m: Machine) {
    && Distinct(m.list) && InactiveWaits(m.list)
    && (m.state == RELEASED ==> m.list == [])
    && (m.state == PENDING || m.state == ACQUIRED ==> m.list == [] || AnyActive(m.list))
  }

  /** Holds too while no modem restart empties the list behind the machine's back. */
  ghost predicate NoRestartInv(m: Machine) {
    && (m.state == PENDING || m.state == ACQUIRED ==> AnyActive(m.list))
    && (m.state == RELEASING ==> AnyInactive(m.list))
  }

  lemma {:induction false} ListStep(m: Machine, input: Input)
    requires ListInv(m)
    ensures ListInv(Step(m, input))
    ensures NoRestartInv(m) && !input.ModemRestart? ==> NoRestartInv(Step(m, input))
  {
    hide Distinct, InactiveWaits, AnyActive, AnyInactive, Lookup, Others, Delete, Deactivate, Notes;
    var list := m.list;
    match input
    case Subscribe(h, wait) =>
      AddEffect(list, Subscriber(h, wait, false));
    case Unsubscribe(h) =>
      if Lookup(list, h).Present? {
        UnsubscribeEffect(list, h);
      }
    case Granted =>
    case ModemRestart => NothingActive();
    case _ =>
      NothingActive();
      NotifyEffect(list, All);
      NotifyEffect(list, InactiveOnes);
  }

  lemma NothingActive()
    ensures Distinct([]) && InactiveWaits([]) && !AnyActive([]) && !AnyInactive([])
  {
  }

  lemma AddEffect(list: seq<Subscriber>, s: Subscriber)
    requires Distinct(list) && InactiveWaits(list) && !s.inactive
    ensures Distinct(Add(list, s)) && InactiveWaits(Add(list, s))
    ensures AnyInactive(Add(list, s)) == AnyInactive(list)
    ensures AnyActive(list) ==> AnyActive(Add(list, s))
    ensures Lookup(list, s.handle) == Absent ==> AnyActive(Add(list, s))
    ensures list == [] ==> AnyActive(Add(list, s))
  {
    if Lookup(list, s.handle) == Absent {
      AddLookup(list, s, s.handle);
      AddWaits(list, s);
    }
  }

  lemma UnsubscribeEffect(list: seq<Subscriber>, h: int)
    requires Distinct(list) && InactiveWaits(list) && Lookup(list, h).Present?
    ensures Distinct(Delete(list, h)) && InactiveWaits(Delete(list, h))
    ensures Lookup(list, h).wait ==>
              && Distinct(Deactivate(list, h)) && InactiveWaits(Deactivate(list, h))
              && AnyInactive(Deactivate(list, h)) && Deactivate(list, h) != []
    ensures !Lookup(list, h).wait ==> AnyInactive(Delete(list, h)) == AnyInactive(list)
    ensures forall l :: l != [] && !AnyActive(l) ==> AnyInactive(l)
    ensures !AnyInactive([])
  {
    DeleteLookup(list, h, h);
    DeleteWaits(list, h);
    if Lookup(list, h).wait {
      DeactivateLookup(list, h, h);
      DeactivateWaits(list, h);
    }
  }

  lemma NotifyEffect(list: seq<Subscriber>, to: Audience)
    requires Distinct(list) && InactiveWaits(list)
    ensures Distinct(Others(list, to)) && InactiveWaits(Others(list, to))
    ensures to == All ==> Others(list, to) == []
    ensures to == InactiveOnes ==> Others(list, to) == [] || AnyActive(Others(list, to))
  {
    OthersLookup(list, to, 0);
    OthersWaits(list, to);
    OthersActive(list);
  }

  lemma {:induction false} ListInvariant(inputs: seq<Input>)
    ensures ListInv(Run(inputs))
    ensures ModemRestart !in inputs ==> NoRestartInv(Run(inputs))
  {
    if inputs != [] {
      var init, last := inputs[..|inputs| - 1], inputs[|inputs| - 1];
      assert inputs == init + [last];
      ListInvariant(init);
      ListStep(Run(init), last);
    }
  }

  /** Without modem restarts the list never becomes empty while the connection is being
      released, so leaving RELEASING on an unsubscribe does not happen. */
  lemma {:induction false} ReleasingKeepsSubscribers(inputs: seq<Input>, h: int)
    requires ModemRestart !in inputs && Run(inputs).state == RELEASING
    ensures Run(inputs + [Unsubscribe(h)]).state == RELEASING
  {
    ListInvariant(inputs + [Unsubscribe(h)]);
    ListInvariant(inputs);
    assert (inputs + [Unsubscribe(h)])[..|inputs|] == inputs;
    UnsubscribeReleasing(Run(inputs), h);
  }

  lemma UnsubscribeReleasing(m: Machine, h: int)
    requires ListInv(m) && NoRestartInv(m) && m.state == RELEASING
    ensures Step(m, Unsubscribe(h)).state == RELEASING
  {
    hide Distinct, InactiveWaits, AnyActive, AnyInactive, Lookup, Delete, Deactivate;
    if Lookup(m.list, h).Present? {
      UnsubscribeEffect(m.list, h);
    }
  }

  // ---------------------------------------------------------------- each subscriber

  /** The life a subscriber is in, by the machine's state and its entry in the list; `asked`
      is whether its handle has been used in a request yet. */
  ghost predicate LifeInv(m: Machine, h: int, asked: bool) {
    var life, e := LifeOf(m.trace, h), Lookup(m.list, h);
    && (asked <==> life != Unknown)
    && match e
       case Absent => life in {Unknown, Failed, Ended, Lost}
       case Present(_, inactive) =>
         (match m.state
          case RELEASED => false
          case PENDING => life == Waiting
          case ACQUIRED => life == Served || (inactive && life == Waiting)
          case RELEASING => life == Waiting || (inactive && life == Served))
  }

  lemma NotifyLife(m: Machine, kind: Kind, delete: bool, to: Audience, h: int)
    requires Distinct(m.list)
    ensures var m', hears := NotifyAll(m, kind, delete, to), Addressed(Lookup(m.list, h), to);
            && LifeOf(m'.trace, h) ==
                 (if hears then Live(LifeOf(m.trace, h), Note(kind, h), h) else LifeOf(m.trace, h))
            && Lookup(m'.list, h) == (if delete && hears then Absent else Lookup(m.list, h))
            && m'.state == m.state
  {
    LifeNotes(m.trace, m.list, kind, to, h);
    OthersLookup(m.list, to, h);
  }

  predicate Asks(input: Input, h: int) {
    input.Subscribe? && input.h == h
  }

  /** A request that makes a second life of the handle's, or has it told of its grant again. */
  predicate BadAgain(m: Machine, input: Input, h: int) {
    var life := LifeOf(m.trace, h);
    Asks(input, h) && (life in {Failed, Ended, Lost} || (m.state == ACQUIRED && life == Served))
  }

  lemma {:induction false} LifeSubscribe(m: Machine, g: int, wait: bool, h: int, asked: bool)
    requires ListInv(m) && LifeInv(m, h, asked) && !BadAgain(m, Subscribe(g, wait), h)
    ensures LifeInv(OnSubscribe(m, g, wait), h, asked || g == h)
  {
    hide Distinct, InactiveWaits, AnyActive, LifeOf;
    if Lookup(m.list, g) == Absent {
      AddLookup(m.list, Subscriber(g, wait, false), h);
    }
    LifeSnoc(m.trace, Note(OpenOk, g), h);
    LifeSnoc(m.trace + [Note(OpenOk, g)], Accepted(g), h);
    LifeSnoc(m.trace, Accepted(g), h);
    LifeSnoc(m.trace, Request, h);
    LifeSnoc(m.trace + [Accepted(g)], Request, h);
  }

  lemma {:induction false} LifeUnsubscribe(m: Machine, g: int, h: int, asked: bool)
    requires ListInv(m) && LifeInv(m, h, asked) && Lookup(m.list, g).Present?
    ensures LifeInv(OnUnsubscribe(m, g, Lookup(m.list, g).wait), h, asked)
  {
    hide Distinct, InactiveWaits, AnyActive, LifeOf, Lookup;
    var m' := Leave(m, g, Lookup(m.list, g).wait);
    DeactivateLookup(m.list, g, h);
    DeleteLookup(m.list, g, h);
    LifeSnoc(m.trace, Note(Closed, g), h);
    LifeSnoc(m'.trace, Release, h);
    ListedNotEmpty(m.list, g);
    ListedNotEmpty(m'.list, h);
  }

  lemma ListedNotEmpty(list: seq<Subscriber>, h: int)
    ensures Lookup(list, h).Present? ==> list != []
    ensures Lookup(list, h).Present? && !Lookup(list, h).inactive ==> AnyActive(list)
  {
    if Lookup(list, h).Present? && !Lookup(list, h).inactive {
      ActiveIf(list, h);
    }
  }

  lemma {:induction false} LifeReleasingDone(m: Machine, h: int, asked: bool)
    requires Distinct(m.list) && LifeInv(m, h, asked) && m.state == RELEASING
    ensures LifeInv(ReleasingDone(m), h, asked)
  {
    hide Distinct, AnyActive, LifeOf, NotifyAll, Lookup;
    var m' := NotifyAll(m, Closed, true, InactiveOnes);
    NotifyLife(m, Closed, true, InactiveOnes, h);
    LifeSnoc(m'.trace, Request, h);
    ListedNotEmpty(m'.list, h);
  }

  lemma {:induction false} LifeEnd(m: Machine, kind: Kind, h: int, asked: bool)
    requires Distinct(m.list) && LifeInv(m, h, asked)
    requires (m.state == ACQUIRED && kind == Closed) || (m.state == PENDING && kind == OpenFail)
    ensures LifeInv(NotifyAll(m.(state := RELEASED), kind, true, All), h, asked)
  {
    hide Distinct, LifeOf, NotifyAll, Lookup;
    NotifyLife(m.(state := RELEASED), kind, true, All, h);
  }

  lemma {:induction false} LifeGranted(m: Machine, h: int, asked: bool)
    requires Distinct(m.list) && LifeInv(m, h, asked)
    ensures LifeInv(OnGranted(m), h, asked)
  {
    hide Distinct, LifeOf, NotifyAll, Lookup;
    NotifyLife(m.(state := ACQUIRED), OpenOk, false, ActiveOnes, h);
  }

  lemma {:induction false} LifeRestart(m: Machine, h: int, asked: bool)
    requires ListInv(m) && LifeInv(m, h, asked)
    ensures LifeInv(OnRestart(m), h, asked)
  {
    hide Distinct, LifeOf, InactiveWaits;
    LifeDrops(m.trace, m.list, h);
  }

  lemma {:induction false} LifeStep(m: Machine, input: Input, h: int, asked: bool)
    requires ListInv(m) && LifeInv(m, h, asked) && !BadAgain(m, input, h)
    ensures LifeInv(Step(m, input), h, asked || Asks(input, h))
  {
    hide Distinct, InactiveWaits, AnyActive, LifeOf, Lookup, OnSubscribe, OnUnsubscribe, OnGranted,
      ReleasingDone, NotifyAll, OnRestart;
    var m1 := Emit(m, [Got(input)]);
    LifeSnoc(m.trace, Got(input), h);
    match input
    case Subscribe(g, wait) => LifeSubscribe(m1, g, wait, h, asked);
    case Unsubscribe(g) =>
      if Lookup(m.list, g).Present? {
        LifeUnsubscribe(m1, g, h, asked);
      }
    case Granted => LifeGranted(m1, h, asked);
    case ModemRestart => LifeRestart(m1, h, asked);
    case _ =>
      if m.state == RELEASING {
        LifeReleasingDone(m1, h, asked);
      } else if m.state == ACQUIRED {
        LifeEnd(m1, Closed, h, asked);
      } else if m.state == PENDING {
        LifeEnd(m1, OpenFail, h, asked);
      }
  }

  // ---------------------------------------------------------------- results

  /** The handle is not requested twice. */
  ghost predicate FreshHandle(inputs: seq<Input>, h: int) {
    forall i, j :: 0 <= i < j < |inputs| ==> !(Asks(inputs[i], h) && Asks(inputs[j], h))
  }

  ghost predicate Requested(inputs: seq<Input>, h: int) {
    exists i :: 0 <= i < |inputs| && Asks(inputs[i], h)
  }

  lemma AskedSnoc(inputs: seq<Input>, h: int)
    requires inputs != []
    ensures var init, last := inputs[..|inputs| - 1], inputs[|inputs| - 1];
            && (Requested(inputs, h) <==> Requested(init, h) || Asks(last, h))
            && (FreshHandle(inputs, h) ==>
                  FreshHandle(init, h) && !(Requested(init, h) && Asks(last, h)))
  {
    var init, last := inputs[..|inputs| - 1], inputs[|inputs| - 1];
    assert forall i :: 0 <= i < |init| ==> init[i] == inputs[i];
    assert Asks(last, h) ==> Asks(inputs[|inputs| - 1], h);
    if Requested(init, h) {
      var i :| 0 <= i < |init| && Asks(init[i], h);
      assert Asks(inputs[i], h);
    }
  }

  /** No request for the handle comes after its life is over, or while it is served. */
  ghost predicate NeverBadAgain(inputs: seq<Input>, h: int) {
    inputs != [] ==>
      && NeverBadAgain(inputs[..|inputs| - 1], h)
      && !BadAgain(Run(inputs[..|inputs| - 1]), inputs[|inputs| - 1], h)
  }

  /** Over every run a subscriber lives as `Life` allows exactly if no request for its handle is
      a bad one; and then where it is in its life follows from the machine's state and its
      entry: it is granted at most once, is told exactly one terminal result when it leaves the
      list, unless a modem restart drops it, and hears nothing afterwards. */
  lemma {:induction false} LivesAreLawful(inputs: seq<Input>, h: int)
    ensures LifeOf(Run(inputs).trace, h) != Wrong <==> NeverBadAgain(inputs, h)
    ensures NeverBadAgain(inputs, h) ==> LifeInv(Run(inputs), h, Requested(inputs, h))
  {
    hide LifeInv, BadAgain, Step;
    if inputs == [] {
      LifeInitially(h);
    } else {
      var init, last := inputs[..|inputs| - 1], inputs[|inputs| - 1];
      AskedSnoc(inputs, h);
      LivesAreLawful(init, h);
      ListInvariant(init);
      if !NeverBadAgain(init, h) {
        WrongStays(Run(init), last, h);
      } else if BadAgain(Run(init), last, h) {
        BadIsWrong(Run(init), last, h, Requested(init, h));
      } else {
        LifeStep(Run(init), last, h, Requested(init, h));
        LifeInvRight(Run(inputs), h, Requested(inputs, h));
      }
    }
  }

  lemma BadIsWrong(m: Machine, input: Input, h: int, asked: bool)
    requires LifeInv(m, h, asked) && BadAgain(m, input, h)
    ensures LifeOf(Step(m, input).trace, h) == Wrong
  {
    hide LifeOf;
    LifeSnoc(m.trace, Got(input), h);
    var t := m.trace + [Got(input)];
    LifeSnoc(t, Note(OpenOk, h), h);
    LifeSnoc(t + [Note(OpenOk, h)], Accepted(h), h);
    LifeSnoc(t, Accepted(h), h);
    LifeSnoc(t + [Accepted(h)], Request, h);
  }

  lemma {:induction false} WrongAppends(trace: seq<Mark>, more: seq<Mark>, h: int)
    requires LifeOf(trace, h) == Wrong
    ensures LifeOf(trace + more, h) == Wrong
  {
    if more == [] {
      assert trace + more == trace;
    } else {
      var init := more[..|more| - 1];
      WrongAppends(trace, init, h);
      LifeSnoc(trace + init, more[|more| - 1], h);
      assert trace + more == (trace + init) + [more[|more| - 1]];
    }
  }

  lemma TraceGrows(m: Machine, input: Input)
    ensures var t := Step(m, input).trace; |m.trace| <= |t| && t[..|m.trace|] == m.trace
  {
    hide Notes, Others, Lookup, Add, Delete, Deactivate, AnyActive, Drops;
  }

  lemma WrongStays(m: Machine, input: Input, h: int)
    requires LifeOf(m.trace, h) == Wrong
    ensures LifeOf(Step(m, input).trace, h) == Wrong
  {
    var t := Step(m, input).trace;
    TraceGrows(m, input);
    WrongAppends(m.trace, t[|m.trace|..], h);
    assert m.trace + t[|m.trace|..] == t;
  }

  /** In particular if the handle is requested only once. */
  lemma {:induction false} FreshIsNeverBad(inputs: seq<Input>, h: int)
    requires FreshHandle(inputs, h)
    ensures NeverBadAgain(inputs, h)
  {
    if inputs != [] {
      var init := inputs[..|inputs| - 1];
      AskedSnoc(inputs, h);
      FreshIsNeverBad(init, h);
      LivesAreLawful(init, h);
    }
  }

  lemma LifeInvRight(m: Machine, h: int, asked: bool)
    requires LifeInv(m, h, asked)
    ensures LifeOf(m.trace, h) != Wrong
  {
  }

  lemma LifeInitially(h: int)
    ensures LifeInv(Run([]), h, Requested([], h))
  {
  }

  predicate About(mark: Mark, h: int) {
    (mark.Note? && mark.h == h) || (mark.Accepted? && mark.h == h) || (mark.Dropped? && mark.h == h)
  }

  /** In particular, after a terminal notification or a drop there is no mark about it. */
  lemma {:induction false} NothingAfterTheEnd(inputs: seq<Input>, h: int, i: nat, j: nat)
    requires NeverBadAgain(inputs, h) && i < j < |Run(inputs).trace|
    requires Run(inputs).trace[i] in {Note(OpenFail, h), Note(Closed, h), Dropped(h)}
    ensures !About(Run(inputs).trace[j], h)
  {
    LivesAreLawful(inputs, h);
    if About(Run(inputs).trace[j], h) {
      EndedThenWrong(Run(inputs).trace, h, i, j);
    }
  }

  lemma {:induction false} EndedThenWrong(trace: seq<Mark>, h: int, i: nat, j: nat)
    requires i < j < |trace| && About(trace[j], h)
    requires trace[i] in {Note(OpenFail, h), Note(Closed, h), Dropped(h)}
    ensures LifeOf(trace, h) == Wrong
  {
    var init := trace[..|trace| - 1];
    if j < |trace| - 1 {
      EndedThenWrong(init, h, i, j);
    } else {
      EndedStays(init, h, i);
    }
  }

  lemma {:induction false} EndedStays(trace: seq<Mark>, h: int, i: nat)
    requires i < |trace|
    requires trace[i] in {Note(OpenFail, h), Note(Closed, h), Dropped(h)}
    ensures LifeOf(trace, h) in {Failed, Ended, Lost, Wrong}
  {
    if i < |trace| - 1 {
      EndedStays(trace[..|trace| - 1], h, i);
    }
  }

  // Nothing but a modem restart drops subscribers.

  ghost predicate DropFree(trace: seq<Mark>) {
    forall k :: k in trace ==> !k.Dropped?
  }

  lemma {:induction false} NotesDropFree(list: seq<Subscriber>, kind: Kind, to: Audience)
    ensures DropFree(Notes(list, kind, to))
  {
    if list != [] {
      NotesDropFree(list[1..], kind, to);
    }
  }

  lemma DropFreeStep(m: Machine, input: Input)
    requires DropFree(m.trace) && input != ModemRestart
    ensures DropFree(Step(m, input).trace)
  {
    hide Notes, Others, Lookup, Add, Delete, Deactivate, AnyActive, DropFree;
    var t := m.trace;
    EmitDropFree(t, [Got(input)]);
    t := t + [Got(input)];
    forall marks | DropFree(marks) ensures DropFree(t + marks) {
      EmitDropFree(t, marks);
    }
    NotesDropFree(m.list, OpenOk, ActiveOnes);
    NotesDropFree(m.list, OpenFail, All);
    NotesDropFree(m.list, Closed, All);
    NotesDropFree(m.list, Closed, InactiveOnes);
    match input
    case Subscribe(h, _) =>
      EmitDropFree(t, [Note(OpenOk, h)]);
      EmitDropFree(t, [Accepted(h)]);
      EmitDropFree(t, [Request]);
      EmitDropFree(t + [Note(OpenOk, h)], [Accepted(h)]);
      EmitDropFree(t + [Accepted(h)], [Request]);
    case Unsubscribe(h) =>
      EmitDropFree(t, [Note(Closed, h)]);
      EmitDropFree(t, [Release]);
      EmitDropFree(t + [Note(Closed, h)], [Release]);
    case _ => EmitDropFree(t + Notes(m.list, Closed, InactiveOnes), [Request]);
  }

  lemma EmitDropFree(trace: seq<Mark>, marks: seq<Mark>)
    requires DropFree(trace) && (DropFree(marks) || (|marks| == 1 && !marks[0].Dropped?))
    ensures DropFree(trace + marks)
  {
  }

  lemma {:induction false} NeverLost(trace: seq<Mark>, h: int)
    requires DropFree(trace)
    ensures LifeOf(trace, h) != Lost
  {
    if trace != [] {
      assert trace[|trace| - 1] in trace;
      NeverLost(trace[..|trace| - 1], h);
    }
  }

  lemma {:induction false} NoDrops(inputs: seq<Input>)
    requires ModemRestart !in inputs
    ensures DropFree(Run(inputs).trace)
  {
    if inputs != [] {
      NoDrops(inputs[..|inputs| - 1]);
      DropFreeStep(Run(inputs[..|inputs| - 1]), inputs[|inputs| - 1]);
    }
  }

  /** Without a modem restart nobody is lost: once requested, a subscriber is listed or has
      been told its one terminal result. */
  lemma {:induction false} ListedOrTold(inputs: seq<Input>, h: int)
    requires NeverBadAgain(inputs, h) && ModemRestart !in inputs && Requested(inputs, h)
    ensures Lookup(Run(inputs).list, h) == Absent <==>
              LifeOf(Run(inputs).trace, h) in {Failed, Ended}
  {
    LivesAreLawful(inputs, h);
    NoDrops(inputs);
    NeverLost(Run(inputs).trace, h);
  }

  // ---------------------------------------------------------------- what ends a life

  /** What one input does to a subscriber's life, seen from outside: it fails only when the
      request is denied; it ends when it unsubscribes without waiting, when the connection is
      taken away, or, waiting, when the connection being released is gone. */
  function NextLife(state: State, e: Entry, life: Life, input: Input, h: int): Life {
    match input
    case Subscribe(g, _) =>
      if g != h then life
      else if state == ACQUIRED then Served
      else if life == Unknown then Waiting
      else life
    case Unsubscribe(g) => if g == h && e.Present? && !e.wait then Ended else life
    case Granted => if state == PENDING && e.Present? && !e.inactive then Served else life
    case ReleasedEvent =>
      if e.Present? && (state == ACQUIRED || (state == RELEASING && e.inactive)) then Ended else life
    case Denied =>
      if e.Present? && state == PENDING then Failed
      else if e.Present? && state == RELEASING && e.inactive then Ended
      else life
    case ModemRestart => if e.Present? then Lost else life
  }

  /** And to its entry: it leaves the list exactly when its life is over. */
  function NextEntry(e: Entry, life': Life, input: Input, h: int): Entry {
    if life' in {Failed, Ended, Lost} then Absent
    else if e == Absent && Asks(input, h) then Present(input.wait, false)
    else if e.Present? && input == Unsubscribe(h) then e.(inactive := true)
    else e
  }

  lemma {:induction false} StepFollows(m: Machine, input: Input, h: int, asked: bool)
    requires ListInv(m) && LifeInv(m, h, asked) && !BadAgain(m, input, h)
    ensures var m', e := Step(m, input), Lookup(m.list, h);
            && LifeOf(m'.trace, h) == NextLife(m.state, e, LifeOf(m.trace, h), input, h)
            && Lookup(m'.list, h) == NextEntry(e, LifeOf(m'.trace, h), input, h)
  {
    hide Distinct, InactiveWaits, AnyActive, LifeOf, Lookup, OnSubscribe, OnUnsubscribe,
      NotifyAll, OnRestart;
    var m1 := Emit(m, [Got(input)]);
    LifeSnoc(m.trace, Got(input), h);
    match input
    case Subscribe(g, wait) => SubscribeFollows(m1, g, wait, h);
    case Unsubscribe(g) =>
      if Lookup(m.list, g).Present? {
        ListedNotEmpty(m.list, g);
        UnsubscribeFollows(m1, g, h);
      }
    case Granted => NotifyLife(m1.(state := ACQUIRED), OpenOk, false, ActiveOnes, h);
    case ModemRestart => RestartFollows(m1, h);
    case _ =>
      NotifyLife(m1.(state := RELEASED), Closed, true, All, h);
      NotifyLife(m1.(state := RELEASED), OpenFail, true, All, h);
      NotifyLife(m1, Closed, true, InactiveOnes, h);
      LifeSnoc(NotifyAll(m1, Closed, true, InactiveOnes).trace, Request, h);
  }

  lemma SubscribeFollows(m: Machine, g: int, wait: bool, h: int)
    requires var life := LifeOf(m.trace, h);
             g == h ==>
               if Lookup(m.list, h) == Absent then life == Unknown
               else life == Waiting || (life == Served && m.state != ACQUIRED)
    requires m.state == RELEASED ==> m.list == []
    ensures var m', life, e := OnSubscribe(m, g, wait), LifeOf(m.trace, h), Lookup(m.list, h);
            && LifeOf(m'.trace, h) ==
                 (if g != h then life
                  else if m.state == ACQUIRED then Served
                  else if life == Unknown then Waiting
                  else life)
            && Lookup(m'.list, h) == (if g == h && e == Absent then Present(wait, false) else e)
  {
    hide LifeOf;
    if Lookup(m.list, g) == Absent {
      AddLookup(m.list, Subscriber(g, wait, false), h);
    }
    LifeSnoc(m.trace, Note(OpenOk, g), h);
    LifeSnoc(m.trace + [Note(OpenOk, g)], Accepted(g), h);
    LifeSnoc(m.trace, Accepted(g), h);
    LifeSnoc(m.trace, Request, h);
    LifeSnoc(m.trace + [Accepted(g)], Request, h);
  }

  lemma UnsubscribeFollows(m: Machine, g: int, h: int)
    requires Distinct(m.list) && Lookup(m.list, g).Present? && m.state != RELEASED
    requires Lookup(m.list, h).Present? ==> LifeOf(m.trace, h) in {Waiting, Served}
    ensures var m', e := OnUnsubscribe(m, g, Lookup(m.list, g).wait), Lookup(m.list, h);
            && LifeOf(m'.trace, h) == (if g == h && !e.wait then Ended else LifeOf(m.trace, h))
            && Lookup(m'.list, h) ==
                 if g != h then e else if e.wait then e.(inactive := true) else Absent
  {
    hide Distinct, AnyActive, LifeOf, Lookup;
    var m' := Leave(m, g, Lookup(m.list, g).wait);
    DeactivateLookup(m.list, g, h);
    DeleteLookup(m.list, g, h);
    LifeSnoc(m.trace, Note(Closed, g), h);
    LifeSnoc(m'.trace, Release, h);
  }

  lemma RestartFollows(m: Machine, h: int)
    requires Distinct(m.list)
    requires Lookup(m.list, h).Present? ==> LifeOf(m.trace, h) in {Waiting, Served}
    ensures var m' := OnRestart(m);
            && LifeOf(m'.trace, h) ==
                 (if Lookup(m.list, h).Present? then Lost else LifeOf(m.trace, h))
            && Lookup(m'.list, h) == Absent
  {
    LifeDrops(m.trace, m.list, h);
  }

  /** Over every run without a bad request for its handle, each further input does to a
      subscriber exactly what NextLife says, and the list follows. */
  lemma {:induction false} LivesFollow(inputs: seq<Input>, input: Input, h: int)
    requires NeverBadAgain(inputs + [input], h)
    ensures var m, m' := Run(inputs), Run(inputs + [input]);
            && LifeOf(m'.trace, h) ==
                 NextLife(m.state, Lookup(m.list, h), LifeOf(m.trace, h), input, h)
            && Lookup(m'.list, h) ==
                 NextEntry(Lookup(m.list, h), LifeOf(m'.trace, h), input, h)
  {
    hide LifeOf, Lookup, Step, ListInv, LifeInv, NextLife, NextEntry;
    assert (inputs + [input])[..|inputs|] == inputs;
    LivesAreLawful(inputs, h);
    ListInvariant(inputs);
    StepFollows(Run(inputs), input, h, Requested(inputs, h));
  }

  /** Requested again while it is served, a handle is told of its grant a second time. */
  lemma ReusedHandleToldTwice()
    ensures var inputs := [Subscribe(5, false), Granted, Subscribe(5, false)];
            && Run(inputs).trace[|Run(inputs).trace| - 1] == Note(OpenOk, 5)
            && LifeOf(Run(inputs).trace, 5) == Wrong && !NeverBadAgain(inputs, 5)
  {
    var p1 := [Subscribe(5, false)];
    var p2 := p1 + [Granted];
    var p3 := p2 + [Subscribe(5, false)];
    assert p3 == [Subscribe(5, false), Granted, Subscribe(5, false)];
    assert p3[..2] == p2 && p2[..1] == p1 && p1[..0] == [];
    assert Run(p1) == Machine(PENDING, [Subscriber(5, false, false)],
                              [Got(p1[0]), Accepted(5), Request]);
    GrantServes(Run(p1));
    var m := Run(p2);
    assert Run(p3).trace == m.trace + [Got(p3[2])] + [Note(OpenOk, 5)];
    LifeSnoc(m.trace, Got(p3[2]), 5);
    LifeSnoc(m.trace + [Got(p3[2])], Note(OpenOk, 5), 5);
    LivesAreLawful(p3, 5);
  }

  lemma GrantServes(m: Machine)
    requires m == Machine(PENDING, [Subscriber(5, false, false)],
                          [Got(Subscribe(5, false)), Accepted(5), Request])
    ensures var m' := Step(m, Granted);
            && m'.state == ACQUIRED && Lookup(m'.list, 5).Present?
            && LifeOf(m'.trace, 5) == Served
  {
    var t0: seq<Mark> := [];
    var t1 := t0 + [Got(Subscribe(5, false))];
    var t2 := t1 + [Accepted(5)];
    LifeSnoc(t0, Got(Subscribe(5, false)), 5);
    LifeSnoc(t1, Accepted(5), 5);
    LifeSnoc(t2, Request, 5);
    LifeSnoc(m.trace, Got(Granted), 5);
    LifeSnoc(m.trace + [Got(Granted)], Note(OpenOk, 5), 5);
    assert m.trace == t2 + [Request];
    assert Notes(m.list, OpenOk, ActiveOnes) == [Note(OpenOk, 5)];
  }

  // ---------------------------------------------------------------- conservation

  lemma BalanceOne(mark: Mark)
    ensures Balance([mark]) == Weight(mark)
  {
    assert [mark][..0] == [];
  }

  lemma EmitBalance(m: Machine, marks: seq<Mark>)
    ensures Balance(Emit(m, marks).trace) == Balance(m.trace) + Balance(marks)
  {
    BalanceAppend(m.trace, marks);
  }

  lemma EmitBalanceOne(m: Machine, mark: Mark)
    ensures Balance(Emit(m, [mark]).trace) == Balance(m.trace) + Weight(mark)
  {
    BalanceAppend(m.trace, [mark]);
    BalanceOne(mark);
  }

  lemma NotifyBalance(m: Machine, kind: Kind, delete: bool, to: Audience)
    requires delete == (kind != OpenOk) && Balance(m.trace) == |m.list|
    ensures var m' := NotifyAll(m, kind, delete, to); Balance(m'.trace) == |m'.list|
  {
    EmitBalance(m, Notes(m.list, kind, to));
    NotesBalance(m.list, kind, to);
  }

  lemma SubscribeBalance(m: Machine, h: int, wait: bool)
    requires Balance(m.trace) == |m.list|
    ensures var m' := OnSubscribe(m, h, wait); Balance(m'.trace) == |m'.list|
  {
    hide Balance, Lookup;
    EmitBalanceOne(m, Note(OpenOk, h));
    EmitBalanceOne(m, Accepted(h));
    EmitBalanceOne(Emit(m, [Note(OpenOk, h)]), Accepted(h));
    EmitBalanceOne(Accept(m, h, wait), Request);
  }

  lemma UnsubscribeBalance(m: Machine, h: int)
    requires Distinct(m.list) && Balance(m.trace) == |m.list| && m.state != RELEASED
    requires Lookup(m.list, h).Present?
    ensures var m' := OnUnsubscribe(m, h, Lookup(m.list, h).wait); Balance(m'.trace) == |m'.list|
  {
    hide Balance, Distinct, AnyActive, Leave;
    LeaveBalance(m, h);
    EmitBalanceOne(Leave(m, h, Lookup(m.list, h).wait), Release);
  }

  lemma LeaveBalance(m: Machine, h: int)
    requires Distinct(m.list) && Balance(m.trace) == |m.list| && Lookup(m.list, h).Present?
    ensures var m' := Leave(m, h, Lookup(m.list, h).wait); Balance(m'.trace) == |m'.list|
  {
    DeleteLookup(m.list, h, h);
    DeactivateLookup(m.list, h, h);
    EmitBalanceOne(m, Note(Closed, h));
  }

  lemma {:induction false} BalanceStep(m: Machine, input: Input)
    requires ListInv(m) && Balance(m.trace) == |m.list|
    ensures Balance(Step(m, input).trace) == |Step(m, input).list|
  {
    hide Balance, Distinct, InactiveWaits, AnyActive, OnSubscribe, OnUnsubscribe, NotifyAll;
    var m1 := Emit(m, [Got(input)]);
    EmitBalanceOne(m, Got(input));
    match input
    case Subscribe(h, wait) => SubscribeBalance(m1, h, wait);
    case Unsubscribe(h) =>
      if Lookup(m.list, h).Present? {
        UnsubscribeBalance(m1, h);
      }
    case ModemRestart =>
      NotesBalance(m.list, OpenOk, All);
      EmitBalance(m1, Drops(m.list));
    case _ =>
      NotifyBalance(m1.(state := ACQUIRED), OpenOk, false, ActiveOnes);
      NotifyBalance(m1.(state := RELEASED), Closed, true, All);
      NotifyBalance(m1.(state := RELEASED), OpenFail, true, All);
      NotifyBalance(m1, Closed, true, InactiveOnes);
      EmitBalanceOne(NotifyAll(m1, Closed, true, InactiveOnes), Request);
  }

  /** Subscribers accepted are those still listed, those told a terminal result, and those
      dropped by a modem restart; this needs nothing of the handles. */
  lemma {:induction false} SubscribersConserved(inputs: seq<Input>)
    ensures Balance(Run(inputs).trace) == |Run(inputs).list|
  {
    if inputs != [] {
      SubscribersConserved(inputs[..|inputs| - 1]);
      ListInvariant(inputs[..|inputs| - 1]);
      BalanceStep(Run(inputs[..|inputs| - 1]), inputs[|inputs| - 1]);
    }
  }
}
