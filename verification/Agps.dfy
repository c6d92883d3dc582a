/**
 gps/gnss/Agps.cpp: the state machine as an object whose event handlers update it in
 place, and the manager that owns one such machine per kind of connection. Each handler
 is proved to take the transition AgpsModel gives for it.
 */
module Agps {
  import opened Wrappers
  import opened AgpsModel

  datatype NoteKind = GrantedNote | DeniedNote | ReleasedNote

  function Note(kind: NoteKind): int -> Entry {
    match kind
    case GrantedNote => NoteOpen
    case DeniedNote => NoteFailed
    case ReleasedNote => NoteClosed
  }

  lemma NotesUncons(log: seq<Entry>, subs: seq<Subscriber>, a: Audience, note: int -> Entry)
    requires subs != []
    ensures log + Notes(subs, a, note) ==
      (if Hears(a, subs[0]) then log + [note(subs[0].handle)] else log) + Notes(subs[1..], a, note)
  {}

  lemma DeafUncons(front: seq<Subscriber>, subs: seq<Subscriber>, a: Audience)
    requires subs != []
    ensures front + Deaf(subs, a) == (if Hears(a, subs[0]) then front else front + [subs[0]]) + Deaf(subs[1..], a)
  {}

  class AgpsStateMachine {
    var mState: State
    var mSubscriberList: seq<Subscriber>
    ghost var log: seq<Entry>

    constructor ()
      ensures Model() == START
    {
      mState, mSubscriberList, log := Released, [], [];
    }

    ghost function Model(): Machine
      reads this
    {
      Machine(mState, mSubscriberList, log)
    }

    method GetSubscriber(connHandle: int) returns (i: nat)
      ensures i == Find(mSubscriberList, connHandle)
    {
      i := 0;
      while i < |mSubscriberList|
        invariant i <= |mSubscriberList|
        invariant forall j :: 0 <= j < i ==> mSubscriberList[j].handle != connHandle
      {
        if mSubscriberList[i].handle == connHandle {
          return;
        }
        i := i + 1;
      }
    }

    method AnyActiveSubscribers() returns (any: bool)
      ensures any == AnyActive(mSubscriberList)
    {
      var i := 0;
      while i < |mSubscriberList|
        invariant i <= |mSubscriberList|
        invariant forall j :: 0 <= j < i ==> mSubscriberList[j].inactive
      {
        if !mSubscriberList[i].inactive {
          return true;
        }
        i := i + 1;
      }
      return false;
    }

    method AddSubscriber(s: Subscriber)
      modifies this
      ensures Model() == Add(old(Model()), s)
    {
      var i := GetSubscriber(s.handle);
      if i < |mSubscriberList| {
        return;
      }
      mSubscriberList := mSubscriberList + [s];
      log := log + [Added(s.handle)];
    }

    method DeleteSubscriber(h: int)
      modifies this
      ensures Model() == old(Model()).(subs := Without(old(mSubscriberList), h))
    {
      ghost var all := mSubscriberList;
      var it := 0;
      while it < |mSubscriberList|
        invariant it <= |mSubscriberList|
        invariant mState == old(mState) && log == old(log)
        invariant mSubscriberList[..it] + Without(mSubscriberList[it..], h) == Without(all, h)
        decreases |mSubscriberList| - it
      {
        ghost var front, rest := mSubscriberList[..it], mSubscriberList[it..];
        if mSubscriberList[it].handle == h {
          mSubscriberList := mSubscriberList[..it] + mSubscriberList[it + 1..];
          assert mSubscriberList[..it] == front && mSubscriberList[it..] == rest[1..];
        } else {
          it := it + 1;
          assert mSubscriberList[..it] == front + [rest[0]] && mSubscriberList[it..] == rest[1..];
          assert front + ([rest[0]] + Without(rest[1..], h)) == (front + [rest[0]]) + Without(rest[1..], h);
        }
      }
    }

    method NotifyAllSubscribers(kind: NoteKind, deletePostNotify: bool, a: Audience)
      modifies this
      ensures mState == old(mState) && log == old(log) + Notes(old(mSubscriberList), a, Note(kind))
      ensures mSubscriberList == if deletePostNotify then Deaf(old(mSubscriberList), a) else old(mSubscriberList)
    {
      ghost var all := mSubscriberList;
      ghost var before := log;
      var it := 0;
      while it < |mSubscriberList|
        invariant it <= |mSubscriberList|
        invariant mState == old(mState)
        invariant log + Notes(mSubscriberList[it..], a, Note(kind)) == before + Notes(all, a, Note(kind))
        invariant !deletePostNotify ==> mSubscriberList == all
        invariant deletePostNotify ==> mSubscriberList[..it] + Deaf(mSubscriberList[it..], a) == Deaf(all, a)
        decreases |mSubscriberList| - it
      {
        var subscriber := mSubscriberList[it];
        ghost var front, rest := mSubscriberList[..it], mSubscriberList[it..];
        NotesUncons(log, rest, a, Note(kind));
        DeafUncons(front, rest, a);
        if Hears(a, subscriber) {
          log := log + [Note(kind)(subscriber.handle)];
          if deletePostNotify {
            mSubscriberList := mSubscriberList[..it] + mSubscriberList[it + 1..];
          } else {
            it := it + 1;
          }
        } else {
          it := it + 1;
        }
        assert mSubscriberList[it..] == rest[1..];
        assert deletePostNotify ==> mSubscriberList[..it] == if Hears(a, rest[0]) then front else front + [rest[0]];
      }
    }
  
    // A single notification, after which the subscriber may be deleted.
    method NotifyEventToSubscriber(kind: NoteKind, h: int, deletePostNotify: bool)
      modifies this
      ensures mState == old(mState) && log == old(log) + [Note(kind)(h)]
      ensures mSubscriberList == if deletePostNotify then Without(old(mSubscriberList), h) else old(mSubscriberList)
    {
      log := log + [Note(kind)(h)];
      if deletePostNotify {
        DeleteSubscriber(h);
      }
    }

    method RequestOrReleaseDataConn(request: bool)
      modifies this`log
      ensures log == old(log) + [if request then Request else Release]
    {
      log := log + [if request then Request else Release];
    }

    method TransitionState(newState: State)
      modifies this`mState
      ensures mState == newState
    {
      mState := newState;
    }

    method ProcessSubscribe(s: Subscriber)
      modifies this
      ensures Model() == Subscribe(old(Model()), s)
    {
      match mState
      case Released =>
        AddSubscriber(s);
        RequestOrReleaseDataConn(true);
        TransitionState(Pending);
      case Pending =>
        AddSubscriber(s);
      case Acquired =>
        NotifyEventToSubscriber(GrantedNote, s.handle, false);
        AddSubscriber(s);
      case Releasing =>
        AddSubscriber(s);
    }

    // The current subscriber is the one at position i of the list.
    method ProcessUnsubscribe(i: nat)
      requires i < |mSubscriberList|
      modifies this
      ensures Model() == Unsubscribe(old(Model()), i)
    {
      if mState == Released {
        NotifyEventToSubscriber(ReleasedNote, mSubscriberList[i].handle, false);
        return;
      }
      if mSubscriberList[i].waitForClose {
        mSubscriberList := mSubscriberList[i := mSubscriberList[i].(inactive := true)];
      } else {
        NotifyEventToSubscriber(ReleasedNote, mSubscriberList[i].handle, true);
      }
      assert Model() == Retire(old(Model()), i);
      if mState == Releasing {
        if mSubscriberList == [] {
          TransitionState(Released);
        }
        return;
      }
      var active := AnyActiveSubscribers();
      if mSubscriberList == [] {
        TransitionState(Released);
        RequestOrReleaseDataConn(false);
      } else if !active {
        TransitionState(Releasing);
        RequestOrReleaseDataConn(false);
      }
    }

    method ProcessGranted()
      modifies this
      ensures Model() == Granted(old(Model()))
    {
      if mState == Pending {
        TransitionState(Acquired);
        NotifyAllSubscribers(GrantedNote, false, Active);
      }
    }

    method FinishRelease()
      requires mState == Releasing
      modifies this
      ensures Model() == CloseDone(old(Model()))
    {
      NotifyAllSubscribers(ReleasedNote, true, Inactive);
      assert Model() == Dismiss(old(Model()), Inactive, NoteClosed);
      var active := AnyActiveSubscribers();
      if active {
        TransitionState(Pending);
        RequestOrReleaseDataConn(true);
      } else {
        TransitionState(Released);
      }
    }

    method ProcessReleased()
      modifies this
      ensures Model() == ReleasedBy(old(Model()))
    {
      if mState == Acquired {
        TransitionState(Released);
        log := log + [Lost];
        NotifyAllSubscribers(ReleasedNote, true, All);
      } else if mState == Releasing {
        FinishRelease();
      }
    }

    method ProcessDenied()
      modifies this
      ensures Model() == Denied(old(Model()))
    {
      if mState == Releasing {
        FinishRelease();
      } else if mState == Pending {
        TransitionState(Released);
        log := log + [Lost];
        NotifyAllSubscribers(DeniedNote, true, All);
      }
    }

    method DropAllSubscribers()
      modifies this
      ensures Model() == DropAll(old(Model()))
    {
      ghost var all, before := mSubscriberList, log;
      while mSubscriberList != []
        invariant mState == old(mState)
        invariant log + Notes(mSubscriberList, All, NoteDropped) == before + Notes(all, All, NoteDropped)
        invariant Deaf(mSubscriberList, All) == Deaf(all, All)
        decreases |mSubscriberList|
      {
        NotesUncons(log, mSubscriberList, All, NoteDropped);
        log := log + [Dropped(mSubscriberList[0].handle)];
        mSubscriberList := mSubscriberList[1..];
      }
    }
  }

  datatype AGpsExtType = TypeInvalid | TypeAny | TypeSupl | TypeC2k | TypeWwanAny | TypeWifi | TypeSuplEs

  predicate UsesAgnss(t: AGpsExtType) {
    t.TypeInvalid? || t.TypeSupl? || t.TypeSuplEs?
  }

  class AgpsManager {
    var mAgnssNif: AgpsStateMachine?
    var mInternetNif: AgpsStateMachine?
    ghost var refused: seq<int>

    ghost predicate Valid()
      reads this
    {
      mAgnssNif != null ==> mAgnssNif != mInternetNif
    }

    ghost function MachineOf(nif: AgpsStateMachine?): Option<Machine>
      reads nif
    {
      if nif == null then None else Some(nif.Model())
    }

    ghost function Model(): Machines
      reads this, mAgnssNif, mInternetNif
    {
      Machines(MachineOf(mAgnssNif), MachineOf(mInternetNif))
    }

    constructor ()
      ensures Valid() && Model() == Machines(None, None) && refused == []
    {
      mAgnssNif, mInternetNif, refused := null, null, [];
    }

    // Machines are made once, for the kinds of connection the client supports.
    method CreateAgpsStateMachines(agpsCapable: bool, wwan: bool, supl: bool, suplEs: bool)
      requires Valid()
      modifies this
      ensures Valid() && refused == old(refused)
      ensures old(mInternetNif) != null ==> mInternetNif == old(mInternetNif)
      ensures old(mAgnssNif) != null ==> mAgnssNif == old(mAgnssNif)
      ensures old(mInternetNif) == null ==> MachineOf(mInternetNif) == if wwan then Some(START) else None
      ensures old(mAgnssNif) == null ==>
        MachineOf(mAgnssNif) == if agpsCapable && supl && suplEs then Some(START) else None
    {
      if mInternetNif == null && wwan {
        mInternetNif := new AgpsStateMachine();
      }
      if agpsCapable && mAgnssNif == null && supl && suplEs {
        mAgnssNif := new AgpsStateMachine();
      }
    }

    function GetAgpsStateMachine(t: AGpsExtType): (sm: AgpsStateMachine?)
      reads this
      ensures t in {TypeInvalid, TypeSupl, TypeSuplEs} ==> sm == mAgnssNif
      ensures t in {TypeAny, TypeC2k, TypeWwanAny, TypeWifi} ==> sm == mInternetNif
    {
      if UsesAgnss(t) then mAgnssNif else mInternetNif
    }

    method RequestATL(connHandle: int, t: AGpsExtType)
      requires Valid()
      modifies this`refused, mAgnssNif, mInternetNif
      ensures Valid() && mAgnssNif == old(mAgnssNif) && mInternetNif == old(mInternetNif)
      ensures Model() == ManagerStep(old(Model()), RequestAtl(connHandle, UsesAgnss(t)))
      ensures refused == old(refused) + if GetAgpsStateMachine(t) == null then [connHandle] else []
    {
      var sm := GetAgpsStateMachine(t);
      if sm == null {
        refused := refused + [connHandle];
        return;
      }
      sm.ProcessSubscribe(Subscriber(connHandle, true, false));
    }

    method ReleaseATL(connHandle: int)
      requires Valid()
      modifies mAgnssNif, mInternetNif
      ensures Valid() && mAgnssNif == old(mAgnssNif) && mInternetNif == old(mInternetNif)
      ensures Model() == ManagerStep(old(Model()), ReleaseAtl(connHandle))
    {
      if mAgnssNif != null {
        var i := mAgnssNif.GetSubscriber(connHandle);
        if i < |mAgnssNif.mSubscriberList| {
          mAgnssNif.ProcessUnsubscribe(i);
          return;
        }
      }
      if mInternetNif != null {
        var i := mInternetNif.GetSubscriber(connHandle);
        if i < |mInternetNif.mSubscriberList| {
          mInternetNif.ProcessUnsubscribe(i);
        }
      }
    }

    // The three reports come from the framework about a machine that it knows.
    method ReportAtlOpenSuccess(t: AGpsExtType)
      requires Valid() && GetAgpsStateMachine(t) != null
      modifies mAgnssNif, mInternetNif
      ensures Model() == ManagerStep(old(Model()), ReportAtl(Opened, UsesAgnss(t)))
    {
      GetAgpsStateMachine(t).ProcessGranted();
    }

    method ReportAtlOpenFailed(t: AGpsExtType)
      requires Valid() && GetAgpsStateMachine(t) != null
      modifies mAgnssNif, mInternetNif
      ensures Model() == ManagerStep(old(Model()), ReportAtl(Refused, UsesAgnss(t)))
    {
      GetAgpsStateMachine(t).ProcessDenied();
    }

    method ReportAtlClosed(t: AGpsExtType)
      requires Valid() && GetAgpsStateMachine(t) != null
      modifies mAgnssNif, mInternetNif
      ensures Model() == ManagerStep(old(Model()), ReportAtl(Gone, UsesAgnss(t)))
    {
      GetAgpsStateMachine(t).ProcessReleased();
    }

    method HandleModemSSR()
      requires Valid()
      modifies mAgnssNif, mInternetNif
      ensures Model() == ManagerStep(old(Model()), ModemSsr)
    {
      if mAgnssNif != null {
        mAgnssNif.DropAllSubscribers();
      }
      if mInternetNif != null {
        mInternetNif.DropAllSubscribers();
      }
    }
  }
}
