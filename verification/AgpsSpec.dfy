/** The AGPS connection state machine, and the trace of what it was told and did. */
module AgpsSpec {

  datatype State = RELEASED | PENDING | ACQUIRED | RELEASING

  datatype Subscriber = Subscriber(handle: int, wait: bool, inactive: bool)

  datatype Input =
    | Subscribe(h: int, wait: bool)
    | Unsubscribe(u: int)
    | Granted
    | ReleasedEvent
    | Denied
    | ModemRestart

  datatype Kind = OpenOk | OpenFail | Closed

  /** A call to the framework or to a subscriber, an input, or a change of the list that no
      call reports: a subscriber accepted into it or dropped by a modem restart. */
  datatype Mark =
    | Got(input: Input)
    | Note(kind: Kind, h: int)
    | Request
    | Release
    | Accepted(h: int)
    | Dropped(h: int)

  datatype Machine = Machine(state: State, list: seq<Subscriber>, trace: seq<Mark>)

  // ---------------------------------------------------------------- the subscriber list

  datatype Entry = Absent | Present(wait: bool, inactive: bool)

  /** The first entry with this handle. */
  function Lookup(list: seq<Subscriber>, h: int): Entry {
    if list == [] then Absent
    else if list[0].handle == h then Present(list[0].wait, list[0].inactive)
    else Lookup(list[1..], h)
  }

  function Add(list: seq<Subscriber>, s: Subscriber): seq<Subscriber> {
    if Lookup(list, s.handle) == Absent then list + [s] else list
  }

  function Delete(list: seq<Subscriber>, h: int): seq<Subscriber> {
    if list == [] then []
    else if list[0].handle == h then Delete(list[1..], h)
    else [list[0]] + Delete(list[1..], h)
  }

  function Deactivate(list: seq<Subscriber>, h: int): seq<Subscriber> {
    if list == [] then []
    else if list[0].handle == h then [list[0].(inactive := true)] + list[1..]
    else [list[0]] + Deactivate(list[1..], h)
  }

  predicate AnyActive(list: seq<Subscriber>) {
    list != [] && (!list[0].inactive || AnyActive(list[1..]))
  }

  datatype Audience = All | InactiveOnes | ActiveOnes

  predicate Hears(inactive: bool, to: Audience) {
    to == All || (to == InactiveOnes && inactive) || (to == ActiveOnes && !inactive)
  }

  function Notes(list: seq<Subscriber>, kind: Kind, to: Audience): seq<Mark> {
    if list == [] then []
    else if Hears(list[0].inactive, to)
    then [Note(kind, list[0].handle)] + Notes(list[1..], kind, to)
    else Notes(list[1..], kind, to)
  }

  function Others(list: seq<Subscriber>, to: Audience): seq<Subscriber> {
    if list == [] then []
    else if Hears(list[0].inactive, to) then Others(list[1..], to)
    else [list[0]] + Others(list[1..], to)
  }

  function Drops(list: seq<Subscriber>): seq<Mark> {
    if list == [] then [] else [Dropped(list[0].handle)] + Drops(list[1..])
  }

  // ---------------------------------------------------------------- event processing

  function Emit(m: Machine, marks: seq<Mark>): Machine {
    m.(trace := m.trace + marks)
  }

  function Accept(m: Machine, h: int, wait: bool): Machine {
    if Lookup(m.list, h) == Absent
    then Emit(m.(list := Add(m.list, Subscriber(h, wait, false))), [Accepted(h)])
    else m
  }

  function OnSubscribe(m: Machine, h: int, wait: bool): Machine {
    match m.state
    case RELEASED => Emit(Accept(m, h, wait), [Request]).(state := PENDING)
    case PENDING => Accept(m, h, wait)
    case ACQUIRED => Accept(Emit(m, [Note(OpenOk, h)]), h, wait)
    case RELEASING => Accept(m, h, wait)
  }

  /** The subscriber waits for the connection to close, or is told and deleted at once. */
  function Leave(m: Machine, h: int, wait: bool): Machine {
    if wait then m.(list := Deactivate(m.list, h))
    else Emit(m, [Note(Closed, h)]).(list := Delete(m.list, h))
  }

  function OnUnsubscribe(m: Machine, h: int, wait: bool): Machine {
    match m.state
    case RELEASED => Emit(m, [Note(Closed, h)])
    case RELEASING =>
      var m' := Leave(m, h, wait);
      if m'.list == [] then m'.(state := RELEASED) else m'
    case _ =>
      var m' := Leave(m, h, wait);
      if m'.list == [] then Emit(m', [Release]).(state := RELEASED)
      else if !AnyActive(m'.list) then Emit(m', [Release]).(state := RELEASING)
      else m'
  }

  function NotifyAll(m: Machine, kind: Kind, delete: bool, to: Audience): Machine {
    var m' := Emit(m, Notes(m.list, kind, to));
    if delete then m'.(list := Others(m.list, to)) else m'
  }

  function OnGranted(m: Machine): Machine {
    if m.state == PENDING then NotifyAll(m.(state := ACQUIRED), OpenOk, false, ActiveOnes) else m
  }

  /** A connection being released is gone; those waiting for a new one ask for it. */
  function ReleasingDone(m: Machine): Machine {
    var m' := NotifyAll(m, Closed, true, InactiveOnes);
    if AnyActive(m'.list) then Emit(m', [Request]).(state := PENDING)
    else m'.(state := RELEASED)
  }

  function OnReleased(m: Machine): Machine {
    match m.state
    case RELEASED => m
    case PENDING => m
    case ACQUIRED => NotifyAll(m.(state := RELEASED), Closed, true, All)
    case RELEASING => ReleasingDone(m)
  }

  function OnDenied(m: Machine): Machine {
    match m.state
    case RELEASED => m
    case ACQUIRED => m
    case PENDING => NotifyAll(m.(state := RELEASED), OpenFail, true, All)
    case RELEASING => ReleasingDone(m)
  }

  function OnRestart(m: Machine): Machine {
    Emit(m, Drops(m.list)).(list := [])
  }

  /** The manager finds the subscriber to unsubscribe by handle first, and goes no further
      if this machine has none. */
  function Step(m: Machine, input: Input): Machine {
    var m := Emit(m, [Got(input)]);
    match input
    case Subscribe(h, wait) => OnSubscribe(m, h, wait)
    case Unsubscribe(h) =>
      (match Lookup(m.list, h)
       case Absent => m
       case Present(wait, _) => OnUnsubscribe(m, h, wait))
    case Granted => OnGranted(m)
    case ReleasedEvent => OnReleased(m)
    case Denied => OnDenied(m)
    case ModemRestart => OnRestart(m)
  }

  function Run(inputs: seq<Input>): Machine {
    if inputs == [] then Machine(RELEASED, [], [])
    else Step(Run(inputs[..|inputs| - 1]), inputs[|inputs| - 1])
  }

  // ---------------------------------------------------------------- the framework's view

  datatype Demand = NoDemand | Asked | Connected | Broken

  /** Requests and releases must alternate; a demand also ends when it is denied before, or
      released after, being granted.  This looks at calls and events only. */
  function Watch(d: Demand, mark: Mark): Demand {
    match mark
    case Request => if d == NoDemand then Asked else Broken
    case Release => if d == Asked || d == Connected then NoDemand else Broken
    case Got(Granted) => if d == Asked then Connected else d
    case Got(Denied) => if d == Asked then NoDemand else d
    case Got(ReleasedEvent) => if d == Connected then NoDemand else d
    case _ => d
  }

  function Demanded(trace: seq<Mark>): Demand {
    if trace == [] then NoDemand
    else Watch(Demanded(trace[..|trace| - 1]), trace[|trace| - 1])
  }

  function DemandOf(state: State): Demand {
    match state
    case PENDING => Asked
    case ACQUIRED => Connected
    case _ => NoDemand
  }

  lemma {:induction false} DemandedSnoc(trace: seq<Mark>, mark: Mark)
    ensures Demanded(trace + [mark]) == Watch(Demanded(trace), mark)
  {
    assert (trace + [mark])[..|trace|] == trace;
  }

  predicate Neutral(mark: Mark) {
    mark.Note? || mark.Accepted? || mark.Dropped?
  }

  lemma {:induction false} DemandedQuiet(trace: seq<Mark>, marks: seq<Mark>)
    requires forall k :: k in marks ==> Neutral(k)
    ensures Demanded(trace + marks) == Demanded(trace)
  {
    if marks == [] {
      assert trace + marks == trace;
    } else {
      var init, last := marks[..|marks| - 1], marks[|marks| - 1];
      assert trace + marks == (trace + init) + [last];
      assert last in marks && Neutral(last);
      DemandedQuiet(trace, init);
      DemandedSnoc(trace + init, last);
    }
  }

  lemma {:induction false} NotesNeutral(list: seq<Subscriber>, kind: Kind, to: Audience)
    ensures forall k :: k in Notes(list, kind, to) ==> Neutral(k)
    ensures forall k :: k in Drops(list) ==> Neutral(k)
  {
    if list != [] {
      NotesNeutral(list[1..], kind, to);
    }
  }

  /** Every run keeps to the framework's protocol, modem restarts included: a request only
      when nothing is demanded, a release only when something is, and a demand is outstanding
      exactly in PENDING and ACQUIRED. */
  lemma {:induction false} DemandAlternates(inputs: seq<Input>)
    ensures Demanded(Run(inputs).trace) == DemandOf(Run(inputs).state)
  {
    if inputs != [] {
      DemandAlternates(inputs[..|inputs| - 1]);
      DemandStep(Run(inputs[..|inputs| - 1]), inputs[|inputs| - 1]);
    }
  }

  lemma {:induction false} DemandStep(m: Machine, input: Input)
    requires Demanded(m.trace) == DemandOf(m.state)
    ensures Demanded(Step(m, input).trace) == DemandOf(Step(m, input).state)
  {
    hide Demanded, OnSubscribe, OnUnsubscribe, OnReleased, OnDenied, OnGranted;
    DemandedSnoc(m.trace, Got(input));
    var m1 := Emit(m, [Got(input)]);
    match input
    case Subscribe(h, wait) => DemandSubscribe(m1, h, wait);
    case Unsubscribe(h) =>
      if Lookup(m.list, h).Present? {
        DemandUnsubscribe(m1, h, Lookup(m.list, h).wait);
      }
    case ModemRestart =>
      NotesNeutral(m.list, OpenOk, All);
      DemandedQuiet(m1.trace, Drops(m.list));
    case Granted => DemandGranted(m1);
    case ReleasedEvent => DemandReleased(m1);
    case Denied => DemandDenied(m1);
  }

  lemma DemandSubscribe(m: Machine, h: int, wait: bool)
    requires Demanded(m.trace) == DemandOf(m.state)
    ensures Demanded(OnSubscribe(m, h, wait).trace) == DemandOf(OnSubscribe(m, h, wait).state)
  {
    hide Demanded, Lookup, Add;
    DemandedSnoc(m.trace, Accepted(h));
    DemandedSnoc(m.trace, Note(OpenOk, h));
    DemandedSnoc(m.trace + [Note(OpenOk, h)], Accepted(h));
    DemandedSnoc(m.trace, Request);
    DemandedSnoc(m.trace + [Accepted(h)], Request);
  }

  lemma DemandUnsubscribe(m: Machine, h: int, wait: bool)
    requires Demanded(m.trace) == DemandOf(m.state)
    ensures Demanded(OnUnsubscribe(m, h, wait).trace) == DemandOf(OnUnsubscribe(m, h, wait).state)
  {
    hide Demanded, AnyActive, Delete, Deactivate;
    DemandedSnoc(m.trace, Note(Closed, h));
    DemandedSnoc(m.trace, Release);
    DemandedSnoc(m.trace + [Note(Closed, h)], Release);
  }

  lemma DemandNotify(m: Machine, kind: Kind, delete: bool, to: Audience)
    ensures Demanded(NotifyAll(m, kind, delete, to).trace) == Demanded(m.trace)
  {
    NotesNeutral(m.list, kind, to);
    DemandedQuiet(m.trace, Notes(m.list, kind, to));
  }

  lemma DemandGranted(m: Machine)
    requires Demanded(m.trace) == Watch(DemandOf(m.state), Got(Granted))
    ensures Demanded(OnGranted(m).trace) == DemandOf(OnGranted(m).state)
  {
    hide Demanded, Notes;
    DemandNotify(m.(state := ACQUIRED), OpenOk, false, ActiveOnes);
  }

  lemma DemandReleasingDone(m: Machine)
    requires Demanded(m.trace) == NoDemand
    ensures Demanded(ReleasingDone(m).trace) == DemandOf(ReleasingDone(m).state)
  {
    hide Demanded, Notes, Others, AnyActive;
    DemandNotify(m, Closed, true, InactiveOnes);
    DemandedSnoc(NotifyAll(m, Closed, true, InactiveOnes).trace, Request);
  }

  lemma DemandReleased(m: Machine)
    requires Demanded(m.trace) == Watch(DemandOf(m.state), Got(ReleasedEvent))
    ensures Demanded(OnReleased(m).trace) == DemandOf(OnReleased(m).state)
  {
    hide Demanded, NotifyAll, ReleasingDone;
    DemandNotify(m.(state := RELEASED), Closed, true, All);
    NotifyState(m.(state := RELEASED), Closed, true, All);
    if m.state == RELEASING {
      DemandReleasingDone(m);
    }
  }

  lemma DemandDenied(m: Machine)
    requires Demanded(m.trace) == Watch(DemandOf(m.state), Got(Denied))
    ensures Demanded(OnDenied(m).trace) == DemandOf(OnDenied(m).state)
  {
    hide Demanded, NotifyAll, ReleasingDone;
    DemandNotify(m.(state := RELEASED), OpenFail, true, All);
    NotifyState(m.(state := RELEASED), OpenFail, true, All);
    if m.state == RELEASING {
      DemandReleasingDone(m);
    }
  }

  lemma NotifyState(m: Machine, kind: Kind, delete: bool, to: Audience)
    ensures NotifyAll(m, kind, delete, to).state == m.state
  {
  }
}
