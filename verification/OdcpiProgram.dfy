/** The request throttle as the adapter runs it, with the timer object it holds. */
module OdcpiProgram {
  import opened Odcpi

  class OdcpiTimer {
    var mActive: bool
    /** What the timer service has been asked for. */
    var alarm: Alarm

    constructor ()
      ensures !mActive && alarm == Idle
    {
      mActive, alarm := false, Idle;
    }

    /** `ok` is whether the timer service starts the timer; the flag is set regardless. */
    method Start(now: nat, ok: bool)
      modifies this
      ensures mActive && alarm == if ok then At(now + INJECTION_TIME) else Idle
    {
      mActive := true;
      alarm := if ok then At(now + INJECTION_TIME) else Idle;
    }

    method Stop()
      modifies this
      ensures !mActive && alarm == Idle
    {
      mActive := false;
      alarm := Idle;
    }

    method Restart(now: nat, ok: bool)
      modifies this
      ensures mActive && alarm == if ok then At(now + INJECTION_TIME) else Idle
    {
      Stop();
      Start(now, ok);
    }

    method IsActive() returns (active: bool)
      ensures active == mActive
    {
      active := mActive;
    }
  }

  class GnssAdapter {
    const mOdcpiTimer: OdcpiTimer
    var mOdcpiRequestCb: bool
    var mOdcpiRequestActive: bool
    var mOdcpiRequest: Request
    ghost var now: nat
    ghost var expired: nat
    ghost var sent: seq<Sent>

    ghost function Model(): Odcpi
      reads this, mOdcpiTimer
    {
      Odcpi(mOdcpiRequestCb, mOdcpiRequestActive, mOdcpiTimer.mActive, mOdcpiRequest, now,
            mOdcpiTimer.alarm, expired, sent)
    }

    constructor ()
      ensures Model() == Run([])
      ensures fresh(mOdcpiTimer)
    {
      mOdcpiTimer := new OdcpiTimer();
      mOdcpiRequestCb, mOdcpiRequestActive, mOdcpiRequest := false, false, Request(false, 0);
      now, expired, sent := 0, 0, [];
    }

    /** The callback to the framework. */
    method Call(request: Request, time: nat, ghost upgrade: bool)
      requires time == now
      modifies this`sent
      ensures sent == old(sent) + [Sent(now, request, upgrade)]
    {
      sent := sent + [Sent(time, request, upgrade)];
    }

    method InitOdcpi()
      modifies this
      ensures Model() == Step(old(Model()), Init)
    {
      mOdcpiRequestCb := true;
    }

    method ReportOdcpiRequest(start: bool, request: Request, time: nat, ok: bool)
      requires time == now
      modifies this, mOdcpiTimer
      ensures Model() ==
                Step(old(Model()), if start then ReportStart(request, ok) else ReportStop)
    {
      if !mOdcpiRequestCb {
        return;
      }
      var timerActive := mOdcpiTimer.IsActive();
      if start {
        if !mOdcpiRequestActive && !timerActive {
          Call(request, time, false);
          mOdcpiRequestActive := true;
          mOdcpiTimer.Start(time, ok);
        } else if !mOdcpiRequest.emergency && request.emergency {
          Call(request, time, true);
          mOdcpiRequestActive := true;
          if timerActive {
            mOdcpiTimer.Restart(time, ok);
          } else {
            mOdcpiTimer.Start(time, ok);
          }
        } else if !mOdcpiRequestActive && timerActive {
          mOdcpiRequestActive := true;
        }
        mOdcpiRequest := request;
      } else {
        mOdcpiRequestActive := false;
      }
    }

    method RestartSessions()
      modifies this
      ensures Model() == Step(old(Model()), Event.RestartSessions)
    {
      mOdcpiRequestActive := false;
    }

    /** Handles an expiry the timer reported. */
    method OdcpiTimerExpire(time: nat, ok: bool)
      requires time == now && expired > 0
      modifies this, mOdcpiTimer
      ensures Model() == Step(old(Model()), HandleExpiry(ok))
    {
      expired := expired - 1;
      if mOdcpiRequestActive {
        Call(mOdcpiRequest, time, false);
        mOdcpiTimer.Restart(time, ok);
      } else {
        mOdcpiTimer.Stop();
      }
    }
  }
}
