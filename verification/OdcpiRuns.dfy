/** Runs in which the framework is asked too soon, one for each way it can be. */
module OdcpiRuns {
  import opened Odcpi

  const ORDINARY := Request(false, 1000)
  const EMERGENCY := Request(true, 1000)

  lemma Extend(events: seq<Event>, event: Event)
    ensures Run(events + [event]) == Step(Run(events), event)
    ensures Atomic(events + [event]) <==>
              Atomic(events) && (Run(events).expired > 0 ==> event.HandleExpiry?)
    ensures FiresDue(events + [event]) <==> FiresDue(events) && !FiresEarly(Run(events), event)
    ensures Refused(events + [event]) <==> NextRefused(Run(events), event, Refused(events))
  {
    assert (events + [event])[..|events|] == events;
  }

  lemma NothingYet()
    ensures Run([]) == INITIAL && Atomic([]) && FiresDue([]) && !Refused([])
  {
  }

  lemma TooClose(sent: seq<Sent>)
    requires |sent| == 3 && !sent[2].upgrade && sent[2].time < sent[1].time + INJECTION_TIME
    ensures !Spaced(sent)
  {
  }

  /** A request is passed on at time 0; the injection time then passes. */
  function Waiting(): seq<Event> {
    [Init, ReportStart(ORDINARY, true)] + [Advance(INJECTION_TIME)]
  }

  lemma FirstAsked(ok: bool)
    ensures var events := [Init, ReportStart(ORDINARY, ok)];
            && Run(events) == Odcpi(true, true, true, ORDINARY, 0,
                                    if ok then At(INJECTION_TIME) else Idle, 0,
                                    [Sent(0, ORDINARY, false)])
            && Atomic(events) && FiresDue(events) && (Refused(events) <==> !ok)
  {
    hide Run, Atomic, FiresDue, Refused;
    NothingYet();
    Extend([], Init);
    Extend([Init], ReportStart(ORDINARY, ok));
    assert [] + [Init] == [Init];
    assert [Init] + [ReportStart(ORDINARY, ok)] == [Init, ReportStart(ORDINARY, ok)];
  }

  lemma Waits()
    ensures Run(Waiting()) == Odcpi(true, true, true, ORDINARY, INJECTION_TIME, At(INJECTION_TIME),
                                    0, [Sent(0, ORDINARY, false)])
    ensures Atomic(Waiting()) && FiresDue(Waiting())
  {
    FirstAsked(true);
    Extend([Init, ReportStart(ORDINARY, true)], Advance(INJECTION_TIME));
  }

  /** An emergency comes between the expiry, which is due, and its handling. */
  function LateRun(): seq<Event> {
    Waiting() + [Fire] + [ReportStart(EMERGENCY, true)] + [HandleExpiry(true)]
  }

  lemma LateHandlingRepeats()
    ensures FiresDue(LateRun()) && !Atomic(LateRun())
    ensures Run(LateRun()).sent ==
              [Sent(0, ORDINARY, false), Sent(INJECTION_TIME, EMERGENCY, true),
               Sent(INJECTION_TIME, EMERGENCY, false)]
    ensures !Spaced(Run(LateRun()).sent)
  {
    hide Run, Atomic, FiresDue, Refused;
    Waits();
    Extend(Waiting(), Fire);
    Extend(Waiting() + [Fire], ReportStart(EMERGENCY, true));
    Extend(Waiting() + [Fire] + [ReportStart(EMERGENCY, true)], HandleExpiry(true));
    TooClose(Run(LateRun()).sent);
  }

  /** An emergency restarts the timer as it expires, and the expiry on its way takes the new
      timer with it; it is handled at once. */
  function EarlyRun(): seq<Event> {
    Waiting() + [ReportStart(EMERGENCY, true)] + [Fire] + [HandleExpiry(true)]
  }

  lemma EarlyExpiryRepeats()
    ensures Atomic(EarlyRun()) && !FiresDue(EarlyRun())
    ensures Run(EarlyRun()).sent ==
              [Sent(0, ORDINARY, false), Sent(INJECTION_TIME, EMERGENCY, true),
               Sent(INJECTION_TIME, EMERGENCY, false)]
    ensures !Spaced(Run(EarlyRun()).sent)
  {
    hide Run, Atomic, FiresDue, Refused;
    Waits();
    Extend(Waiting(), ReportStart(EMERGENCY, true));
    Extend(Waiting() + [ReportStart(EMERGENCY, true)], Fire);
    Extend(Waiting() + [ReportStart(EMERGENCY, true)] + [Fire], HandleExpiry(true));
    TooClose(Run(EarlyRun()).sent);
  }

  /** The same `n` times over, with no time passing in between. */
  function RaceRun(n: nat): seq<Event> {
    if n == 0 then Waiting()
    else RaceRun(n - 1) + [ReportStart(EMERGENCY, true)] + [Fire] + [HandleExpiry(true)] +
         [ReportStart(ORDINARY, true)]
  }

  /** Early expiries leave no bound: within 10000 ms there are as many requests that are no
      upgrades as one likes. */
  lemma {:induction false} EarlyExpiriesAreNotBounded(n: nat)
    ensures var o := Run(RaceRun(n));
            && Atomic(RaceRun(n)) && o.now == INJECTION_TIME && Plain(o.sent) == n + 1
            && o.ready && o.active && o.timerActive && o.request == ORDINARY && o.expired == 0
            && o.alarm.At?
  {
    hide Run, Atomic, FiresDue, Refused, Plain;
    if n == 0 {
      Waits();
      PlainSnoc([], Sent(0, ORDINARY, false));
      assert [] + [Sent(0, ORDINARY, false)] == [Sent(0, ORDINARY, false)];
      PlainNone();
    } else {
      EarlyExpiriesAreNotBounded(n - 1);
      var e0 := RaceRun(n - 1);
      var e1 := e0 + [ReportStart(EMERGENCY, true)];
      var e2 := e1 + [Fire];
      var e3 := e2 + [HandleExpiry(true)];
      Extend(e0, ReportStart(EMERGENCY, true));
      Extend(e1, Fire);
      Extend(e2, HandleExpiry(true));
      Extend(e3, ReportStart(ORDINARY, true));
      PlainSnoc(Run(e0).sent, Sent(INJECTION_TIME, EMERGENCY, true));
      PlainSnoc(Run(e1).sent, Sent(INJECTION_TIME, EMERGENCY, false));
    }
  }

  lemma PlainNone()
    ensures Plain([]) == 0
  {
  }

  lemma PlainSnoc(sent: seq<Sent>, s: Sent)
    ensures Plain(sent + [s]) == Plain(sent) + if s.upgrade then 0 else 1
  {
    assert (sent + [s])[..|sent|] == sent;
  }

  /** Emergency and ordinary requests in turn, `n` times, with no time passing. */
  function ManyUpgrades(n: nat): seq<Event> {
    if n == 0 then [Init, ReportStart(ORDINARY, true)]
    else ManyUpgrades(n - 1) + [ReportStart(EMERGENCY, true)] + [ReportStart(ORDINARY, true)]
  }

  /** Upgrades are not bounded, even with every expiry due and handled at once. */
  lemma {:induction false} UpgradesAreNotBounded(n: nat)
    ensures var o := Run(ManyUpgrades(n));
            && Atomic(ManyUpgrades(n)) && FiresDue(ManyUpgrades(n))
            && o.now == 0 && |o.sent| == n + 1
            && o.ready && o.active && o.timerActive && o.request == ORDINARY && o.expired == 0
  {
    hide Run, Atomic, FiresDue, Refused;
    if n == 0 {
      FirstAsked(true);
    } else {
      UpgradesAreNotBounded(n - 1);
      var events := ManyUpgrades(n - 1);
      Extend(events, ReportStart(EMERGENCY, true));
      Extend(events + [ReportStart(EMERGENCY, true)], ReportStart(ORDINARY, true));
    }
  }

  /** The timer service refuses the timer: the request is active but nothing will come. */
  lemma RefusedRun()
    ensures var events := [Init, ReportStart(ORDINARY, false)];
            && Refused(events) && Run(events).active && Run(events).timerActive
            && Run(events).alarm == Idle && Run(events).expired == 0
  {
    FirstAsked(false);
  }
}
