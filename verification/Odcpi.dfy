/** The on-demand position requests: a timer keeps the modem's requests from reaching the
    framework too often.  Times are in milliseconds. */
module Odcpi {

  const INJECTION_TIME: nat := 10000

  datatype Request = Request(emergency: bool, tbfMillis: nat)

  /** A request passed on to the framework; `upgrade` when an emergency replaced what was
      requested before. */
  datatype Sent = Sent(time: nat, request: Request, upgrade: bool)

  datatype Alarm = Idle | At(deadline: nat)

  /** `timerActive` is the timer's own flag; `alarm` is the timer service's side of it, and
      `expired` counts its expiries not handled yet. */
  datatype Odcpi = Odcpi(
    ready: bool,
    active: bool,
    timerActive: bool,
    request: Request,
    now: nat,
    alarm: Alarm,
    expired: nat,
    sent: seq<Sent>)

  /** `ok` is whether the timer service starts the timer, if the event comes to that; the
      program does not look. */
  datatype Event =
    | Init
    | ReportStart(request: Request, ok: bool)
    | ReportStop
    | RestartSessions
    | Advance(ms: nat)
    | Fire
    | HandleExpiry(ok: bool)

  const INITIAL :=
    Odcpi(false, false, false, Request(false, 0), 0, Idle, 0, [])

  function StartTimer(o: Odcpi, ok: bool): Odcpi {
    o.(timerActive := true, alarm := if ok then At(o.now + INJECTION_TIME) else Idle)
  }

  function StopTimer(o: Odcpi): Odcpi {
    o.(timerActive := false, alarm := Idle)
  }

  function Send(o: Odcpi, request: Request, upgrade: bool): Odcpi {
    o.(sent := o.sent + [Sent(o.now, request, upgrade)])
  }

  function Started(o: Odcpi, request: Request, ok: bool): Odcpi {
    var o' :=
      if !o.active && !o.timerActive
      then StartTimer(Send(o, request, false).(active := true), ok)
      else if !o.request.emergency && request.emergency
      then
        var o1 := Send(o, request, true).(active := true);
        if o.timerActive then StartTimer(StopTimer(o1), ok) else StartTimer(o1, ok)
      else if !o.active && o.timerActive
      then o.(active := true)
      else o;
    o'.(request := request)
  }

  function Expired(o: Odcpi, ok: bool): Odcpi {
    if o.active then StartTimer(StopTimer(Send(o, o.request, false)), ok) else StopTimer(o)
  }

  /** A timer that is armed may fire at any time, as the timer service allows it to; the expiry
      is handled later. */
  function Step(o: Odcpi, event: Event): Odcpi {
    match event
    case Init => o.(ready := true)
    case ReportStart(request, ok) => if o.ready then Started(o, request, ok) else o
    case ReportStop => if o.ready then o.(active := false) else o
    case RestartSessions => o.(active := false)
    case Advance(ms) => o.(now := o.now + ms)
    case Fire => if o.alarm.At? then o.(alarm := Idle, expired := o.expired + 1) else o
    case HandleExpiry(ok) =>
      if o.expired > 0 then Expired(o.(expired := o.expired - 1), ok) else o
  }

  function Run(events: seq<Event>): Odcpi {
    if events == [] then INITIAL
    else Step(Run(events[..|events| - 1]), events[|events| - 1])
  }

  lemma RunSnoc(events: seq<Event>, event: Event)
    ensures Run(events + [event]) == Step(Run(events), event)
  {
    assert (events + [event])[..|events|] == events;
  }

  // ---------------------------------------------------------------- every run

  /** The latest request the modem started. */
  function LatestStart(events: seq<Event>): Request {
    if events == [] then INITIAL.request
    else
      var last := events[|events| - 1];
      if last.ReportStart? && Run(events[..|events| - 1]).ready then last.request
      else LatestStart(events[..|events| - 1])
  }

  /** An emergency that replaces an ordinary request. */
  predicate Upgrades(o: Odcpi, event: Event) {
    event.ReportStart? && o.ready && !o.request.emergency && event.request.emergency
  }

  predicate Repeats(o: Odcpi, event: Event) {
    event.HandleExpiry? && o.expired > 0 && o.active
  }

  predicate StartsAfresh(o: Odcpi, event: Event) {
    event.ReportStart? && o.ready && !o.active && !o.timerActive
  }

  /** The timer service refused the latest start of the timer, which was not stopped since. */
  predicate Refused(events: seq<Event>) {
    events != [] &&
    var init := events[..|events| - 1];
    NextRefused(Run(init), events[|events| - 1], Refused(init))
  }

  predicate NextRefused(o: Odcpi, event: Event, refused: bool) {
    if Repeats(o, event) || StartsAfresh(o, event) || Upgrades(o, event) then !event.ok
    else refused && !(event.HandleExpiry? && o.expired > 0)
  }

  /** When the framework was last asked; long ago, if never. */
  function LastTime(sent: seq<Sent>): int {
    if sent == [] then 0 - INJECTION_TIME else sent[|sent| - 1].time
  }

  /** The framework was asked less than the injection time ago. */
  predicate Recent(o: Odcpi) {
    o.now < LastTime(o.sent) + INJECTION_TIME
  }

  ghost predicate AlarmInv(o: Odcpi, refused: bool) {
    && (o.active ==> o.timerActive)
    && (o.alarm.At? ==> o.timerActive && o.alarm.deadline == LastTime(o.sent) + INJECTION_TIME)
    && (o.timerActive ==> o.alarm.At? || o.expired > 0 || refused)
    && (refused ==> o.timerActive && o.alarm == Idle)
    && LastTime(o.sent) <= o.now
  }

  lemma LastSent(o: Odcpi, request: Request, upgrade: bool)
    ensures LastTime(Send(o, request, upgrade).sent) == o.now
  {
  }

  lemma AlarmStep(o: Odcpi, event: Event, refused: bool)
    requires AlarmInv(o, refused)
    ensures AlarmInv(Step(o, event), NextRefused(o, event, refused))
  {
    hide LastTime;
    if event.ReportStart? {
      LastSent(o, event.request, false);
      LastSent(o, event.request, true);
    } else if event.HandleExpiry? && o.expired > 0 {
      LastSent(o.(expired := o.expired - 1), o.request, false);
    }
  }

  /** In every run an active request has an active timer, and an active timer is armed for the
      injection time after the latest request, or has an expiry on the way, unless the timer
      service refused it; so only a refusal makes a request forgotten. */
  lemma {:induction false} ActiveHasTimer(events: seq<Event>)
    ensures AlarmInv(Run(events), Refused(events))
  {
    hide AlarmInv, Step, NextRefused;
    if events == [] {
      AlarmIdle();
    } else {
      var init := events[..|events| - 1];
      ActiveHasTimer(init);
      AlarmStep(Run(init), events[|events| - 1], Refused(init));
    }
  }

  lemma AlarmIdle()
    ensures AlarmInv(INITIAL, false)
  {
  }

  /** An upgrade never finds the timer inactive. */
  lemma UpgradeFindsTimer(events: seq<Event>, request: Request, ok: bool)
    requires var o, o' := Run(events), Run(events + [ReportStart(request, ok)]);
             o'.sent == o.sent + [Sent(o.now, request, true)]
    ensures Run(events).timerActive
  {
    hide Run, Step;
    RunSnoc(events, ReportStart(request, ok));
    ActiveHasTimer(events);
    StepSends(Run(events), ReportStart(request, ok));
    var o, o' := Run(events), Run(events + [ReportStart(request, ok)]);
    assert o'.sent[|o.sent|] == Sent(o.now, request, true);
  }

  /** A refused timer is stuck: until an upgrade nothing more is sent. */
  lemma RefusedIsStuck(events: seq<Event>, event: Event)
    requires Refused(events) && Run(events).expired == 0
    ensures var o, o' := Run(events), Run(events + [event]);
            && (o'.sent != o.sent <==> Upgrades(o, event))
            && (!Upgrades(o, event) ==> Refused(events + [event]) && o'.expired == 0)
  {
    RunSnoc(events, event);
    ActiveHasTimer(events);
    assert (events + [event])[..|events|] == events;
  }

  /** Each event sends at most one request: the latest the modem started, now; and it is
      an upgrade only if it is an emergency and the one it replaces was not. */
  lemma {:induction false} SendsLatest(events: seq<Event>)
    requires events != []
    ensures var init := events[..|events| - 1];
            var o, o', latest := Run(init), Run(events), LatestStart(events);
            || o'.sent == o.sent
            || (o'.active && o'.sent == o.sent + [Sent(o'.now, latest, false)])
            || (latest.emergency && !LatestStart(init).emergency && o'.active &&
                o'.sent == o.sent + [Sent(o'.now, latest, true)])
  {
    hide Step, LatestStart, Refused;
    var init, last := events[..|events| - 1], events[|events| - 1];
    RequestIsLatest(init);
    RequestIsLatest(events);
    ActiveHasTimer(init);
    StepSends(Run(init), last);
    StepFields(Run(init), last);
  }

  /** What else an event that has a request sent does. */
  lemma StepFields(o: Odcpi, event: Event)
    ensures var o' := Step(o, event);
            StartsAfresh(o, event) || Upgrades(o, event) || Repeats(o, event) ==>
              && o'.active && o'.now == o.now
              && o'.request == if event.ReportStart? then event.request else o.request
  {
  }

  lemma {:induction false} RequestIsLatest(events: seq<Event>)
    ensures Run(events).request == LatestStart(events)
  {
    if events != [] {
      RequestIsLatest(events[..|events| - 1]);
    }
  }

  // ---------------------------------------------------------------- the timer

  /** The timer's latest start: when it was or would have been due, whether it has fired or was
      refused, and whether the handling of an expiry has stopped it. */
  datatype Phase = Armed(deadline: nat) | Fired(deadline: nat) | Unarmed(deadline: nat)

  datatype Timer = NotStarted | Latest(phase: Phase, stopped: bool)

  function NextTimer(o: Odcpi, event: Event, t: Timer): Timer {
    if Repeats(o, event) || StartsAfresh(o, event) || Upgrades(o, event) then
      var deadline := o.now + INJECTION_TIME;
      Latest(if event.ok then Armed(deadline) else Unarmed(deadline), false)
    else if t.Latest? && event == Fire && t.phase.Armed? && !t.stopped
    then t.(phase := Fired(t.phase.deadline))
    else if t.Latest? && event.HandleExpiry? && o.expired > 0 then t.(stopped := true)
    else t
  }

  function TimerOf(events: seq<Event>): Timer {
    if events == [] then NotStarted
    else
      var init := events[..|events| - 1];
      NextTimer(Run(init), events[|events| - 1], TimerOf(init))
  }

  ghost predicate Tracks(o: Odcpi, t: Timer) {
    && (o.active ==> o.timerActive)
    && match t
       case NotStarted => o.sent == [] && !o.timerActive && o.alarm == Idle
       case Latest(phase, stopped) =>
         && o.sent != [] && phase.deadline == LastTime(o.sent) + INJECTION_TIME
         && o.timerActive == !stopped
         && o.alarm == if phase.Armed? && !stopped then At(phase.deadline) else Idle
  }

  lemma TrackStep(o: Odcpi, event: Event, t: Timer)
    requires Tracks(o, t)
    ensures Tracks(Step(o, event), NextTimer(o, event, t))
  {
  }

  /** Over every run the timer's latest start tells what the timer does now, and a request is
      recent exactly until that start's deadline. */
  lemma {:induction false} TimerTracked(events: seq<Event>)
    ensures Tracks(Run(events), TimerOf(events))
    ensures var o, t := Run(events), TimerOf(events);
            Recent(o) <==> t.Latest? && o.now < t.phase.deadline
  {
    hide Step, NextTimer;
    if events != [] {
      var init := events[..|events| - 1];
      TimerTracked(init);
      TrackStep(Run(init), events[|events| - 1], TimerOf(init));
    }
  }

  // ---------------------------------------------------------------- spacing

  /** All but upgrades come at least the injection time after the request before. */
  ghost predicate Spaced(sent: seq<Sent>) {
    forall i :: 0 < i < |sent| ==>
      && sent[i - 1].time <= sent[i].time
      && (!sent[i].upgrade ==> sent[i - 1].time + 10000 <= sent[i].time)
  }

  /** The next event would have a request sent, no upgrade, although the timer's latest start
      is not due yet: an expiry is handled, or has stopped the timer and a request comes. */
  predicate Hasty(events: seq<Event>, event: Event) {
    var o, t := Run(events), TimerOf(events);
    && t.Latest? && o.now < t.phase.deadline
    && if t.stopped then StartsAfresh(o, event) else Repeats(o, event)
  }

  lemma HastyIsRecent(events: seq<Event>, event: Event)
    ensures var o := Run(events);
            Hasty(events, event) <==> Recent(o) && (Repeats(o, event) || StartsAfresh(o, event))
  {
    hide Run, TimerOf;
    TimerTracked(events);
  }

  ghost predicate Unhurried(events: seq<Event>) {
    events != [] ==>
      && Unhurried(events[..|events| - 1])
      && !Hasty(events[..|events| - 1], events[|events| - 1])
  }

  lemma SpacedSnoc(sent: seq<Sent>, s: Sent)
    requires LastTime(sent) <= s.time
    ensures Spaced(sent + [s]) <==>
              Spaced(sent) && (s.upgrade || LastTime(sent) + INJECTION_TIME <= s.time)
    ensures LastTime(sent + [s]) == s.time
  {
    var all := sent + [s];
    if Spaced(all) {
      forall i | 0 < i < |sent|
        ensures sent[i - 1].time <= sent[i].time
        ensures !sent[i].upgrade ==> sent[i - 1].time + INJECTION_TIME <= sent[i].time
      {
        assert all[i] == sent[i] && all[i - 1] == sent[i - 1];
      }
      if sent != [] {
        assert all[|sent|] == s && all[|sent| - 1] == sent[|sent| - 1];
      }
    }
  }

  /** What an event sends, if anything. */
  lemma StepSends(o: Odcpi, event: Event)
    requires o.active ==> o.timerActive
    ensures Step(o, event).sent ==
              if StartsAfresh(o, event) then o.sent + [Sent(o.now, event.request, false)]
              else if Upgrades(o, event) then o.sent + [Sent(o.now, event.request, true)]
              else if Repeats(o, event) then o.sent + [Sent(o.now, o.request, false)]
              else o.sent
  {
  }

  /** Over every run, whatever the timer does, requests other than upgrades are spaced exactly
      if no event was hasty. */
  lemma {:induction false} SpacedIff(events: seq<Event>)
    ensures Spaced(Run(events).sent) <==> Unhurried(events)
  {
    hide Step, Spaced;
    if events == [] {
      NothingSent();
    } else {
      var init, last := events[..|events| - 1], events[|events| - 1];
      var o := Run(init);
      SpacedIff(init);
      ActiveHasTimer(init);
      StepSends(o, last);
      HastyIsRecent(init, last);
      hide Hasty;
      if StartsAfresh(o, last) {
        SpacedSnoc(o.sent, Sent(o.now, last.request, false));
      } else if Upgrades(o, last) {
        SpacedSnoc(o.sent, Sent(o.now, last.request, true));
      } else if Repeats(o, last) {
        SpacedSnoc(o.sent, Sent(o.now, o.request, false));
      }
    }
  }

  lemma NothingSent()
    ensures Spaced(INITIAL.sent)
  {
  }

  // ---------------------------------------------------------------- when nothing is hasty

  /** Nothing comes between an expiry and its handling. */
  ghost predicate Atomic(events: seq<Event>) {
    events != [] ==>
      && Atomic(events[..|events| - 1])
      && (Run(events[..|events| - 1]).expired > 0 ==> events[|events| - 1].HandleExpiry?)
  }

  /** The timer is about to fire before its time. */
  predicate FiresEarly(o: Odcpi, event: Event) {
    event == Fire && o.alarm.At? && o.now < o.alarm.deadline
  }

  /** It never does. */
  ghost predicate FiresDue(events: seq<Event>) {
    events != [] ==>
      && FiresDue(events[..|events| - 1])
      && !FiresEarly(Run(events[..|events| - 1]), events[|events| - 1])
  }

  /** With every expiry due and handled at once, an expiry not handled yet, and a timer that is
      inactive, mean that the injection time is over. */
  ghost predicate TimerInv(o: Odcpi) {
    && o.expired <= 1
    && (o.expired == 1 ==> o.alarm == Idle && !Recent(o))
    && (!o.timerActive ==> !Recent(o))
  }

  lemma {:induction false} TimerKeeps(events: seq<Event>)
    requires Atomic(events) && FiresDue(events)
    ensures TimerInv(Run(events))
  {
    if events != [] {
      var init := events[..|events| - 1];
      TimerKeeps(init);
      ActiveHasTimer(init);
      TimerStep(Run(init), events[|events| - 1]);
    }
  }

  lemma TimerStep(o: Odcpi, event: Event)
    requires TimerInv(o) && (o.expired > 0 ==> event.HandleExpiry?) && !FiresEarly(o, event)
    requires o.active ==> o.timerActive
    requires o.alarm.At? ==>
               o.timerActive && o.alarm.deadline == LastTime(o.sent) + INJECTION_TIME
    ensures TimerInv(Step(o, event))
  {
  }

  /** With every expiry due and handled at once, requests other than upgrades are spaced. */
  lemma {:induction false} RequestsAreSpaced(events: seq<Event>)
    requires Atomic(events) && FiresDue(events)
    ensures Spaced(Run(events).sent) && Unhurried(events)
  {
    hide Run, Spaced;
    if events != [] {
      var init := events[..|events| - 1];
      RequestsAreSpaced(init);
      TimerKeeps(init);
      HastyIsRecent(init, events[|events| - 1]);
      hide Hasty;
    }
    SpacedIff(events);
  }

  function Plain(sent: seq<Sent>): nat {
    if sent == [] then 0
    else Plain(sent[..|sent| - 1]) + if sent[|sent| - 1].upgrade then 0 else 1
  }

  /** Then over any stretch of `span` ms at most 1 + span / 10000 requests are not upgrades. */
  lemma RateBound(events: seq<Event>, lo: nat, hi: nat, span: nat)
    requires Atomic(events) && FiresDue(events) && lo < hi <= |Run(events).sent|
    requires Run(events).sent[hi - 1].time <= Run(events).sent[lo].time + span
    ensures Plain(Run(events).sent[lo..hi]) <= 1 + span / 10000
  {
    RequestsAreSpaced(events);
    SpacedRate(Run(events).sent, lo, hi, span);
  }

  lemma SpacedRate(sent: seq<Sent>, lo: nat, hi: nat, span: nat)
    requires Spaced(sent) && lo < hi <= |sent| && sent[hi - 1].time <= sent[lo].time + span
    ensures Plain(sent[lo..hi]) <= 1 + span / INJECTION_TIME
  {
    hide Plain, Spaced;
    SpacedPart(sent, lo, hi);
    PlainSpaced(sent[lo..hi]);
    QuotientBounds(Plain(sent[lo..hi]) - 1, span);
  }

  lemma QuotientBounds(n: int, span: nat)
    requires n * INJECTION_TIME <= span
    ensures n <= span / INJECTION_TIME
  {
  }

  lemma SpacedPart(sent: seq<Sent>, lo: nat, hi: nat)
    requires Spaced(sent) && lo < hi <= |sent|
    ensures Spaced(sent[lo..hi])
  {
  }

  lemma {:induction false} PlainSpaced(sent: seq<Sent>)
    requires Spaced(sent) && sent != []
    ensures (Plain(sent) - 1) * INJECTION_TIME <= sent[|sent| - 1].time - sent[0].time
  {
    if |sent| > 1 {
      PlainSpaced(sent[..|sent| - 1]);
    } else {
      assert sent[..0] == [];
    }
  }

  /** The clock does not pass a deadline without the timer firing. */
  ghost predicate OnTime(events: seq<Event>) {
    events != [] ==>
      var o, last := Run(events[..|events| - 1]), events[|events| - 1];
      && OnTime(events[..|events| - 1])
      && (last.Advance? && o.alarm.At? ==> o.now + last.ms <= o.alarm.deadline)
  }

  /** With the timer on time and its expiries handled at once, while it is active and was not
      refused the framework was asked within the injection time. */
  lemma {:induction false} ActiveIsServed(events: seq<Event>)
    requires Atomic(events) && OnTime(events)
    ensures var o := Run(events);
            o.timerActive && !Refused(events) ==> o.now <= LastTime(o.sent) + 10000
  {
    if events != [] {
      hide Step, NextRefused, AlarmInv, LastTime;
      var init := events[..|events| - 1];
      ActiveIsServed(init);
      ActiveHasTimer(init);
      ServedStep(Run(init), events[|events| - 1], Refused(init));
    }
  }

  lemma ServedStep(o: Odcpi, event: Event, refused: bool)
    requires AlarmInv(o, refused) && (o.expired > 0 ==> event.HandleExpiry?)
    requires event.Advance? && o.alarm.At? ==> o.now + event.ms <= o.alarm.deadline
    requires o.timerActive && !refused ==> o.now <= LastTime(o.sent) + INJECTION_TIME
    ensures var o' := Step(o, event);
            o'.timerActive && !NextRefused(o, event, refused) ==>
              o'.now <= LastTime(o'.sent) + INJECTION_TIME
  {
    hide LastTime;
    if event.ReportStart? {
      LastSent(o, event.request, false);
      LastSent(o, event.request, true);
    } else if event.HandleExpiry? && o.expired > 0 {
      LastSent(o.(expired := o.expired - 1), o.request, false);
    }
  }

  // ---------------------------------------------------------------- what comes too soon

  /** The next event has the framework asked although it was asked recently. */
  predicate AsksTooSoon(o: Odcpi, event: Event) {
    Step(o, event).sent != o.sent && Recent(o)
  }

  predicate PlainTooSoon(o: Odcpi, event: Event) {
    && AsksTooSoon(o, event)
    && var sent := Step(o, event).sent; sent != [] && !sent[|sent| - 1].upgrade
  }

  predicate Running(o: Odcpi) {
    o.alarm.At? && o.now < o.alarm.deadline
  }

  /** With every expiry due and handled at once, the framework is asked too soon exactly by an
      upgrade while the timer is running; if the timer was refused, while it would be. */
  lemma TooSoonIff(events: seq<Event>, event: Event)
    requires Atomic(events + [event]) && FiresDue(events)
    ensures var o := Run(events);
            && (AsksTooSoon(o, event) <==> Upgrades(o, event) && o.timerActive && Recent(o))
            && (!Refused(events) ==>
                  (AsksTooSoon(o, event) <==> Upgrades(o, event) && Running(o)))
  {
    hide Run, Step, Refused;
    assert (events + [event])[..|events|] == events;
    TimerKeeps(events);
    ActiveHasTimer(events);
    StepSends(Run(events), event);
  }

  /** Over every run, whatever the timer does, a request that is no upgrade is too soon exactly
      when the event is hasty. */
  lemma PlainTooSoonIff(events: seq<Event>, event: Event)
    ensures PlainTooSoon(Run(events), event) <==> Hasty(events, event)
  {
    hide Step, TimerOf, Run, Hasty;
    HastyIsRecent(events, event);
    ActiveHasTimer(events);
    StepSends(Run(events), event);
    var sent := Run(events).sent;
    if event.ReportStart? {
      LastOf(sent, Sent(Run(events).now, event.request, false));
      LastOf(sent, Sent(Run(events).now, event.request, true));
    }
    LastOf(sent, Sent(Run(events).now, Run(events).request, false));
  }

  lemma LastOf(sent: seq<Sent>, s: Sent)
    ensures (sent + [s])[|sent + [s]| - 1] == s && sent + [s] != sent
  {
    assert |sent + [s]| == |sent| + 1;
  }

  /** If no expiry is early, that start has not fired: the expiry handled was another's, or the
      timer service had refused it. */
  lemma LateTooSoonIff(events: seq<Event>, event: Event)
    requires FiresDue(events)
    ensures var o, t := Run(events), TimerOf(events);
            PlainTooSoon(o, event) <==> Hasty(events, event) && !t.phase.Fired?
  {
    hide Step, TimerOf;
    PlainTooSoonIff(events, event);
    FiredWasDue(events);
  }

  lemma {:induction false} FiredWasDue(events: seq<Event>)
    requires FiresDue(events)
    ensures var t := TimerOf(events);
            t.Latest? && t.phase.Fired? ==> t.phase.deadline <= Run(events).now
  {
    if events != [] {
      var init := events[..|events| - 1];
      FiredWasDue(init);
      TimerTracked(init);
      ClockAdvances(Run(init), events[|events| - 1]);
      hide Step;
    }
  }

  lemma ClockAdvances(o: Odcpi, event: Event)
    ensures o.now <= Step(o, event).now
  {
  }

  /** If every expiry is handled at once, that start has fired, and so it has fired early. */
  lemma EarlyTooSoonIff(events: seq<Event>, event: Event)
    requires Atomic(events + [event])
    ensures var o, t := Run(events), TimerOf(events);
            PlainTooSoon(o, event) <==> Hasty(events, event) && t.phase.Fired?
  {
    hide Step, TimerOf;
    assert (events + [event])[..|events|] == events;
    PlainTooSoonIff(events, event);
    ExpiredHasFired(events);
  }

  lemma {:induction false} ExpiredHasFired(events: seq<Event>)
    requires Atomic(events)
    ensures var o, t := Run(events), TimerOf(events);
            && o.expired <= 1
            && (o.expired == 1 || (t.Latest? && t.stopped) ==> t.Latest? && t.phase.Fired?)
  {
    if events != [] {
      var init := events[..|events| - 1];
      ExpiredHasFired(init);
      TimerTracked(init);
      PendingStep(Run(init), events[|events| - 1]);
      hide Step;
    }
  }

  lemma PendingStep(o: Odcpi, event: Event)
    requires o.expired <= 1 && (o.expired > 0 ==> event.HandleExpiry?)
    ensures var o' := Step(o, event);
            && o'.expired <= 1
            && (o'.expired == 1 ==>
                  event == Fire && o.alarm.At? && o'.sent == o.sent && o'.now == o.now)
  {
  }
}
