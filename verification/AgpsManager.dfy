/** The AGPS manager as the program runs it, on its two state machine objects. */
module AgpsManagerProgram {
  import opened AgpsSpec
  import opened AgpsMachine
  import opened AgpsRouting

  class AgpsManager {
    var mAgnssNif: AgpsStateMachine?
    var mInternetNif: AgpsStateMachine?
    ghost var replies: seq<Reply>

    ghost function NifOf(sm: AgpsStateMachine?): Nif
      reads sm
    {
      if sm == null then Missing else Running(sm.inputs)
    }

    ghost function Model(): Manager
      reads this, mAgnssNif, mInternetNif
    {
      Manager(NifOf(mAgnssNif), NifOf(mInternetNif), replies)
    }

    ghost function Subscribers(sm: AgpsStateMachine?): seq<AgpsSubscriber>
      reads sm
    {
      if sm == null then [] else sm.mSubscriberList
    }

    /** The machines share nothing. */
    ghost predicate Apart()
      reads this, mAgnssNif, mInternetNif
    {
      mAgnssNif != null && mInternetNif != null ==>
        && mAgnssNif != mInternetNif
        && forall s :: s in mAgnssNif.mSubscriberList ==> s !in mInternetNif.mSubscriberList
    }

    ghost predicate Valid()
      reads this, mAgnssNif, mInternetNif, Subscribers(mAgnssNif), Subscribers(mInternetNif)
    {
      && Apart()
      && (mAgnssNif != null ==> mAgnssNif.Lawful())
      && (mInternetNif != null ==> mInternetNif.Lawful())
    }

    constructor ()
      ensures Valid() && Model() == Handled([])
    {
      mAgnssNif, mInternetNif, replies := null, null, [];
    }

    method CreateAgpsStateMachines(agpsCapable: bool)
      requires Valid()
      modifies this
      ensures Valid() && Model() == Handle(old(Model()), Create(agpsCapable))
    {
      if mInternetNif == null {
        mInternetNif := new AgpsStateMachine();
      }
      if agpsCapable && mAgnssNif == null {
        mAgnssNif := new AgpsStateMachine();
      }
    }

    method GetAgpsStateMachine(agpsType: AgpsType) returns (sm: AgpsStateMachine?)
      ensures agpsType in {TYPE_INVALID, TYPE_SUPL, TYPE_SUPL_ES} ==> sm == mAgnssNif
      ensures agpsType in {TYPE_WWAN_ANY, TYPE_ANY, TYPE_C2K} ==> sm == mInternetNif
    {
      match agpsType
      case TYPE_INVALID => sm := mAgnssNif;
      case TYPE_SUPL => sm := mAgnssNif;
      case TYPE_SUPL_ES => sm := mAgnssNif;
      case _ => sm := mInternetNif;
    }

    /** The part of a call that one machine handles; the other machine and its subscribers are
        out of its reach. */
    method Forward(sm: AgpsStateMachine, event: AgpsEvent, ghost input: Input)
      requires Valid() && sm in {mAgnssNif, mInternetNif} && sm.Means(event, input)
      modifies sm, sm.mSubscriberList
      ensures Valid()
      ensures Model() ==
                if sm == mAgnssNif then old(Model()).(agnss := Tell(old(Model()).agnss, input))
                else old(Model()).(internet := Tell(old(Model()).internet, input))
    {
      hide AgpsStateMachine.Lawful;
      ghost var other := if sm == mAgnssNif then mInternetNif else mAgnssNif;
      sm.ProcessAgpsEvent(event, input);
      if other != null {
        other.Undisturbed();
      }
    }

    method RequestATL(connHandle: int, agpsType: AgpsType)
      requires Valid()
      modifies this`replies, mAgnssNif, mInternetNif
      modifies Subscribers(mAgnssNif), Subscribers(mInternetNif)
      ensures Valid() && Model() == Handle(old(Model()), Call.RequestATL(connHandle, agpsType))
    {
      hide Run, AgpsStateMachine.Lawful;
      var sm := GetAgpsStateMachine(agpsType);
      if sm == null {
        replies := replies + [OpenRefused(connHandle)];
        return;
      }
      var subscriber := new AgpsSubscriber(connHandle, false, false);
      Aim(sm, subscriber);
      if agpsType == TYPE_SUPL_ES {
        subscriber.mWaitForCloseComplete := true;
      }
      Forward(sm, AGPS_EVENT_SUBSCRIBE, Subscribe(connHandle, agpsType == TYPE_SUPL_ES));
    }

    method FindIn(sm: AgpsStateMachine?, connHandle: int) returns (subscriber: AgpsSubscriber?)
      requires sm != null ==> sm.Lawful()
      ensures subscriber != null <==> Lists(NifOf(sm), connHandle)
      ensures subscriber != null ==>
                sm != null && sm.IsListed(subscriber) && subscriber.mConnHandle == connHandle
    {
      subscriber := null;
      if sm != null {
        hide Run;
        subscriber := sm.GetSubscriber(connHandle);
      }
    }

    method ReleaseATL(connHandle: int)
      requires Valid()
      modifies this`replies, mAgnssNif, mInternetNif
      modifies Subscribers(mAgnssNif), Subscribers(mInternetNif)
      ensures Valid() && Model() == Handle(old(Model()), Call.ReleaseATL(connHandle))
    {
      hide Run, Lists, AgpsStateMachine.Lawful;
      var sm := mAgnssNif;
      var subscriber := FindIn(mAgnssNif, connHandle);
      if subscriber == null {
        sm := mInternetNif;
        subscriber := FindIn(mInternetNif, connHandle);
      }
      if subscriber == null {
        replies := replies + [CloseRefused(connHandle)];
      } else {
        Aim(sm, subscriber);
        Forward(sm, AGPS_EVENT_UNSUBSCRIBE, Unsubscribe(connHandle));
      }
    }

    method Aim(sm: AgpsStateMachine, subscriber: AgpsSubscriber)
      requires Valid() && sm in {mAgnssNif, mInternetNif}
      modifies sm`mCurrentSubscriber
      ensures Valid() && sm.mCurrentSubscriber == subscriber
    {
      sm.SetCurrentSubscriber(subscriber);
    }

    method ReportAtlOpenSuccess(agpsType: AgpsType)
      requires Valid() && (if UsesAgnss(agpsType) then mAgnssNif else mInternetNif) != null
      modifies this`replies, mAgnssNif, mInternetNif
      modifies Subscribers(mAgnssNif), Subscribers(mInternetNif)
      ensures Valid() && Model() == Handle(old(Model()), OpenSuccess(agpsType))
    {
      hide Run, AgpsStateMachine.Lawful;
      var sm := GetAgpsStateMachine(agpsType);
      Forward(sm, AGPS_EVENT_GRANTED, Granted);
    }

    method ReportAtlOpenFailed(agpsType: AgpsType)
      requires Valid() && (if UsesAgnss(agpsType) then mAgnssNif else mInternetNif) != null
      modifies this`replies, mAgnssNif, mInternetNif
      modifies Subscribers(mAgnssNif), Subscribers(mInternetNif)
      ensures Valid() && Model() == Handle(old(Model()), OpenFailed(agpsType))
    {
      hide Run, AgpsStateMachine.Lawful;
      var sm := GetAgpsStateMachine(agpsType);
      Forward(sm, AGPS_EVENT_DENIED, Denied);
    }

    method ReportAtlClosed(agpsType: AgpsType)
      requires Valid() && (if UsesAgnss(agpsType) then mAgnssNif else mInternetNif) != null
      modifies this`replies, mAgnssNif, mInternetNif
      modifies Subscribers(mAgnssNif), Subscribers(mInternetNif)
      ensures Valid() && Model() == Handle(old(Model()), AtlClosed(agpsType))
    {
      hide Run, AgpsStateMachine.Lawful;
      var sm := GetAgpsStateMachine(agpsType);
      Forward(sm, AGPS_EVENT_RELEASED, ReleasedEvent);
    }

    method HandleModemSSR()
      requires Valid()
      modifies this, mAgnssNif, mInternetNif
      ensures Valid() && Model() == Handle(old(Model()), ModemSSR)
    {
      hide Run;
      if mAgnssNif != null {
        mAgnssNif.HandleModemSSR();
      }
      if mInternetNif != null {
        mInternetNif.HandleModemSSR();
      }
    }
  }
}
