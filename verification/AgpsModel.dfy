/**
 The AGPS state machine of gps/gnss/Agps.cpp as a value: its transitions, and what
 they keep in every run.

 The log records, in order, what the machine tells the framework and its subscribers,
 and what becomes of subscribers; Lost marks a data connection that the framework has
 denied or closed by itself.
 */
module AgpsModel {
  import opened Wrappers

  datatype State = Released | Pending | Acquired | Releasing

  datatype Subscriber = Subscriber(handle: int, waitForClose: bool, inactive: bool)

  datatype Entry =
    | Request | Release | Lost
    | OpenOk(handle: int) | OpenFailed(handle: int) | Closed(handle: int)
    | Added(handle: int) | Dropped(handle: int)

  datatype Machine = Machine(state: State, subs: seq<Subscriber>, log: seq<Entry>)

  datatype Event =
    | SubscribeEv(handle: int, waitForClose: bool) | ReleaseEv(handle: int)
    | GrantedEv | ReleasedEv | DeniedEv | Ssr

  const START := Machine(Released, [], [])

  // Which subscribers a notification is for.
  datatype Audience = All | Inactive | Active

  predicate Hears(a: Audience, s: Subscriber) {
    a.All? || (a.Inactive? && s.inactive) || (a.Active? && !s.inactive)
  }

  /* The subscriber list. */

  // How many subscribers have the handle.
  function Listed(subs: seq<Subscriber>, h: int): nat {
    if subs == [] then 0 else (if subs[0].handle == h then 1 else 0) + Listed(subs[1..], h)
  }

  // The position of the first subscriber with the handle, or the length of the list.
  function Find(subs: seq<Subscriber>, h: int): (i: nat)
    ensures i <= |subs|
    ensures i < |subs| ==> subs[i].handle == h
    ensures forall j :: 0 <= j < i ==> subs[j].handle != h
  {
    if subs == [] then 0 else if subs[0].handle == h then 0 else 1 + Find(subs[1..], h)
  }

  predicate AnyActive(subs: seq<Subscriber>) {
    exists i :: 0 <= i < |subs| && !subs[i].inactive
  }

  function Without(subs: seq<Subscriber>, h: int): seq<Subscriber> {
    if subs == [] then []
    else if subs[0].handle == h then Without(subs[1..], h)
    else [subs[0]] + Without(subs[1..], h)
  }

  // The subscribers that do not hear a notification for the audience.
  function Deaf(subs: seq<Subscriber>, a: Audience): seq<Subscriber> {
    if subs == [] then []
    else if Hears(a, subs[0]) then Deaf(subs[1..], a)
    else [subs[0]] + Deaf(subs[1..], a)
  }

  function Notes(subs: seq<Subscriber>, a: Audience, note: int -> Entry): seq<Entry> {
    if subs == [] then []
    else (if Hears(a, subs[0]) then [note(subs[0].handle)] else []) + Notes(subs[1..], a, note)
  }

  function NoteOpen(h: int): Entry { OpenOk(h) }

  function NoteFailed(h: int): Entry { OpenFailed(h) }

  function NoteClosed(h: int): Entry { Closed(h) }

  function NoteDropped(h: int): Entry { Dropped(h) }

  /* The transitions. */

  function Log(m: Machine, entries: seq<Entry>): Machine {
    m.(log := m.log + entries)
  }

  function Add(m: Machine, s: Subscriber): Machine {
    if Find(m.subs, s.handle) < |m.subs| then m
    else m.(subs := m.subs + [s], log := m.log + [Added(s.handle)])
  }

  // Notify the audience; those notified leave the list.
  function Dismiss(m: Machine, a: Audience, note: int -> Entry): Machine {
    m.(subs := Deaf(m.subs, a), log := m.log + Notes(m.subs, a, note))
  }

  function Subscribe(m: Machine, s: Subscriber): Machine {
    match m.state
    case Released => Log(Add(m, s), [Request]).(state := Pending)
    case Pending => Add(m, s)
    case Acquired => Add(Log(m, [OpenOk(s.handle)]), s)
    case Releasing => Add(m, s)
  }

  // A subscriber that waits for the close becomes inactive, any other one is told at
  // once and leaves.
  function Retire(m: Machine, i: nat): Machine
    requires i < |m.subs|
  {
    if m.subs[i].waitForClose then m.(subs := m.subs[i := m.subs[i].(inactive := true)])
    else m.(subs := Without(m.subs, m.subs[i].handle), log := m.log + [Closed(m.subs[i].handle)])
  }

  function Unsubscribe(m: Machine, i: nat): Machine
    requires i < |m.subs|
  {
    match m.state
    case Released => Log(m, [Closed(m.subs[i].handle)])
    case Releasing =>
      var r := Retire(m, i);
      if r.subs == [] then r.(state := Released) else r
    case _ =>
      var r := Retire(m, i);
      if r.subs == [] then Log(r.(state := Released), [Release])
      else if !AnyActive(r.subs) then Log(r.(state := Releasing), [Release])
      else r
  }

  function Granted(m: Machine): Machine {
    if m.state.Pending? then Log(m.(state := Acquired), Notes(m.subs, Active, NoteOpen)) else m
  }

  // The data connection is gone after a release: the inactive subscribers are told, and
  // the connection is asked for again if somebody has subscribed meanwhile.
  function CloseDone(m: Machine): Machine {
    var r := Dismiss(m, Inactive, NoteClosed);
    if AnyActive(r.subs) then Log(r.(state := Pending), [Request]) else r.(state := Released)
  }

  function ReleasedBy(m: Machine): Machine {
    match m.state
    case Acquired => Dismiss(Log(m.(state := Released), [Lost]), All, NoteClosed)
    case Releasing => CloseDone(m)
    case _ => m
  }

  function Denied(m: Machine): Machine {
    match m.state
    case Pending => Dismiss(Log(m.(state := Released), [Lost]), All, NoteFailed)
    case Releasing => CloseDone(m)
    case _ => m
  }

  function DropAll(m: Machine): Machine {
    Dismiss(m, All, NoteDropped)
  }

  // AgpsManager::releaseATL looks the subscriber up first.
  function ReleaseHandle(m: Machine, h: int): Machine {
    if Find(m.subs, h) < |m.subs| then Unsubscribe(m, Find(m.subs, h)) else m
  }

  function Step(m: Machine, e: Event): Machine {
    match e
    case SubscribeEv(h, wait) => Subscribe(m, Subscriber(h, wait, false))
    case ReleaseEv(h) => ReleaseHandle(m, h)
    case GrantedEv => Granted(m)
    case ReleasedEv => ReleasedBy(m)
    case DeniedEv => Denied(m)
    case Ssr => DropAll(m)
  }

  function Run(m: Machine, events: seq<Event>): Machine
    decreases events
  {
    if events == [] then m else Run(Step(m, events[0]), events[1..])
  }

  /* What every step keeps. */

  // The data connection, as the framework entries of the log have it.
  function Open(log: seq<Entry>): bool {
    if log == [] then false
    else
      match log[|log| - 1]
      case Request => true
      case Release => false
      case Lost => false
      case _ => Open(log[..|log| - 1])
  }

  // The connection is requested only when there is none, and released or lost only when
  // there is one.
  ghost predicate Alternates(log: seq<Entry>) {
    log != [] ==>
      var before := log[..|log| - 1];
      && Alternates(before)
      && (log[|log| - 1].Request? ==> !Open(before))
      && (log[|log| - 1].Release? || log[|log| - 1].Lost? ==> Open(before))
  }

  ghost predicate Unique(subs: seq<Subscriber>) {
    forall i, j :: 0 <= i < j < |subs| ==> subs[i].handle != subs[j].handle
  }

  function Delta(e: Entry, h: int): int {
    match e
    case Added(k) => if k == h then 1 else 0
    case OpenFailed(k) => if k == h then -1 else 0
    case Closed(k) => if k == h then -1 else 0
    case Dropped(k) => if k == h then -1 else 0
    case _ => 0
  }

  // Insertions of the handle less its failed opens, closes and drops.
  function Balance(log: seq<Entry>, h: int): int {
    if log == [] then 0 else Balance(log[..|log| - 1], h) + Delta(log[|log| - 1], h)
  }

  ghost predicate Ledger(m: Machine) {
    forall h :: Balance(m.log, h) == Listed(m.subs, h)
  }

  // The part of the invariant that does not depend on the state.
  ghost predicate Sound(m: Machine) {
    Unique(m.subs) && Alternates(m.log) && Ledger(m)
  }

  ghost predicate Inv(m: Machine) {
    && Sound(m)
    && (m.state.Released? ==> m.subs == [])
    && (Open(m.log) <==> m.state.Pending? || m.state.Acquired?)
  }

  // Holds as long as the modem does not restart.
  ghost predicate Attended(m: Machine) {
    && (m.state.Pending? || m.state.Acquired? ==> AnyActive(m.subs))
    && (m.state.Releasing? ==> m.subs != [])
  }

  predicate Quiet(entries: seq<Entry>) {
    forall i :: 0 <= i < |entries| ==> !entries[i].Request? && !entries[i].Release? && !entries[i].Lost?
  }

  lemma LastEntry(log: seq<Entry>, e: Entry)
    ensures (log + [e])[..|log + [e]| - 1] == log
  {}

  lemma {:induction false} QuietKeeps(log: seq<Entry>, entries: seq<Entry>)
    requires Quiet(entries)
    ensures Open(log + entries) == Open(log)
    ensures Alternates(log) ==> Alternates(log + entries)
  {
    if entries == [] {
      assert log + entries == log;
    } else {
      var n := |entries| - 1;
      QuietKeeps(log, entries[..n]);
      assert log + entries == (log + entries[..n]) + [entries[n]];
      LastEntry(log + entries[..n], entries[n]);
    }
  }

  lemma {:induction false} BalanceAppend(log: seq<Entry>, entries: seq<Entry>, h: int)
    ensures Balance(log + entries, h) == Balance(log, h) + Balance(entries, h)
  {
    if entries == [] {
      assert log + entries == log;
    } else {
      var n := |entries| - 1;
      BalanceAppend(log, entries[..n], h);
      assert log + entries == (log + entries[..n]) + [entries[n]];
      LastEntry(log + entries[..n], entries[n]);
    }
  }

  lemma {:induction false} ListedAppend(a: seq<Subscriber>, b: seq<Subscriber>, h: int)
    ensures Listed(a + b, h) == Listed(a, h) + Listed(b, h)
  {
    if a == [] {
      assert a + b == b;
    } else {
      assert (a + b)[1..] == a[1..] + b;
      ListedAppend(a[1..], b, h);
    }
  }

  lemma AddKeeps(m: Machine, s: Subscriber)
    requires Sound(m)
    ensures Sound(Add(m, s)) && Open(Add(m, s).log) == Open(m.log)
  {
    var r := Add(m, s);
    if r != m {
      QuietKeeps(m.log, [Added(s.handle)]);
      forall h ensures Balance(r.log, h) == Listed(r.subs, h) {
        BalanceAppend(m.log, [Added(s.handle)], h);
        ListedAppend(m.subs, [s], h);
      }
    }
  }

  lemma LogKeeps(m: Machine, entries: seq<Entry>)
    requires Sound(m) && Quiet(entries) && forall h :: Balance(entries, h) == 0
    ensures Sound(Log(m, entries)) && Open(Log(m, entries).log) == Open(m.log)
  {
    QuietKeeps(m.log, entries);
    forall h ensures Balance(m.log + entries, h) == Balance(m.log, h) {
      BalanceAppend(m.log, entries, h);
    }
  }

  lemma FrameworkKeeps(m: Machine, e: Entry)
    requires Sound(m) && if Open(m.log) then e.Release? || e.Lost? else e.Request?
    ensures Sound(Log(m, [e])) && Open(Log(m, [e]).log) == e.Request?
  {
    LastEntry(m.log, e);
    forall h ensures Balance(m.log + [e], h) == Balance(m.log, h) {
      BalanceAppend(m.log, [e], h);
    }
  }

  // A notification that ends a subscription.
  predicate Ends(note: int -> Entry, h: int) {
    note(h) == OpenFailed(h) || note(h) == Closed(h) || note(h) == Dropped(h)
  }

  lemma {:induction false} DismissCounts(subs: seq<Subscriber>, a: Audience, note: int -> Entry, h: int)
    requires forall k :: Ends(note, k)
    ensures Quiet(Notes(subs, a, note))
    ensures Balance(Notes(subs, a, note), h) + Listed(subs, h) == Listed(Deaf(subs, a), h)
  {
    if subs != [] {
      DismissCounts(subs[1..], a, note, h);
      assert Ends(note, subs[0].handle);
      var first := if Hears(a, subs[0]) then [note(subs[0].handle)] else [];
      BalanceAppend(first, Notes(subs[1..], a, note), h);
      assert Deaf(subs, a) == (if Hears(a, subs[0]) then [] else [subs[0]]) + Deaf(subs[1..], a);
      assert Hears(a, subs[0]) ==> first[..0] == [] && Balance(first, h) == Delta(first[0], h);
    }
  }

  lemma {:induction false} DeafIsPart(subs: seq<Subscriber>, a: Audience)
    ensures Unique(subs) ==> Unique(Deaf(subs, a))
    ensures forall i :: 0 <= i < |Deaf(subs, a)| ==> Deaf(subs, a)[i] in subs && !Hears(a, Deaf(subs, a)[i])
  {
    if subs != [] {
      DeafIsPart(subs[1..], a);
    }
  }

  lemma DismissKeeps(m: Machine, a: Audience, note: int -> Entry)
    requires Sound(m) && forall k :: Ends(note, k)
    ensures Sound(Dismiss(m, a, note)) && Open(Dismiss(m, a, note).log) == Open(m.log)
    ensures a.All? ==> Dismiss(m, a, note).subs == []
  {
    var r := Dismiss(m, a, note);
    DismissCounts(m.subs, a, note, 0);
    QuietKeeps(m.log, Notes(m.subs, a, note));
    DeafIsPart(m.subs, a);
    forall h ensures Balance(r.log, h) == Listed(r.subs, h) {
      DismissCounts(m.subs, a, note, h);
      BalanceAppend(m.log, Notes(m.subs, a, note), h);
    }
  }

  lemma {:induction false} WithoutCounts(subs: seq<Subscriber>, k: int, h: int)
    ensures Listed(Without(subs, k), h) == if h == k then 0 else Listed(subs, h)
  {
    if subs != [] {
      WithoutCounts(subs[1..], k, h);
      ListedAppend([subs[0]], Without(subs[1..], k), h);
    }
  }

  lemma {:induction false} WithoutIsPart(subs: seq<Subscriber>, k: int)
    ensures Unique(subs) ==> Unique(Without(subs, k))
    ensures forall i :: 0 <= i < |Without(subs, k)| ==> Without(subs, k)[i] in subs
  {
    if subs != [] {
      WithoutIsPart(subs[1..], k);
    }
  }

  lemma {:induction false} ListedOnce(subs: seq<Subscriber>, i: nat)
    requires Unique(subs) && i < |subs|
    ensures Listed(subs, subs[i].handle) == 1
  {
    if i == 0 {
      NotListed(subs[1..], subs[0].handle);
    } else {
      ListedOnce(subs[1..], i - 1);
    }
  }

  lemma {:induction false} NotListed(subs: seq<Subscriber>, h: int)
    requires forall i :: 0 <= i < |subs| ==> subs[i].handle != h
    ensures Listed(subs, h) == 0
  {
    if subs != [] {
      NotListed(subs[1..], h);
    }
  }

  lemma {:induction false} SameHandles(a: seq<Subscriber>, b: seq<Subscriber>, h: int)
    requires |a| == |b| && forall i :: 0 <= i < |a| ==> a[i].handle == b[i].handle
    ensures Listed(a, h) == Listed(b, h)
  {
    if a != [] {
      SameHandles(a[1..], b[1..], h);
    }
  }

  lemma RetireKeeps(m: Machine, i: nat)
    requires Sound(m) && i < |m.subs|
    ensures Sound(Retire(m, i)) && Open(Retire(m, i).log) == Open(m.log)
  {
    var r, k := Retire(m, i), m.subs[i].handle;
    if m.subs[i].waitForClose {
      forall h ensures Listed(r.subs, h) == Listed(m.subs, h) {
        SameHandles(r.subs, m.subs, h);
      }
    } else {
      QuietKeeps(m.log, [Closed(k)]);
      ListedOnce(m.subs, i);
      forall h ensures Balance(r.log, h) == Listed(r.subs, h) {
        BalanceAppend(m.log, [Closed(k)], h);
        WithoutCounts(m.subs, k, h);
      }
      WithoutIsPart(m.subs, k);
    }
  }

  lemma {:induction false} GrantsAreQuiet(subs: seq<Subscriber>, h: int)
    ensures Quiet(Notes(subs, Active, NoteOpen))
    ensures Balance(Notes(subs, Active, NoteOpen), h) == 0
  {
    if subs != [] {
      GrantsAreQuiet(subs[1..], h);
      var first := if Hears(Active, subs[0]) then [NoteOpen(subs[0].handle)] else [];
      BalanceAppend(first, Notes(subs[1..], Active, NoteOpen), h);
    }
  }

  /* Every run. */

  lemma SubscribeKeeps(m: Machine, s: Subscriber)
    requires Inv(m)
    ensures Inv(Subscribe(m, s))
  {
    AddKeeps(m, s);
    match m.state
    case Released => FrameworkKeeps(Add(m, s), Request);
    case Acquired =>
      LogKeeps(m, [OpenOk(s.handle)]);
      AddKeeps(Log(m, [OpenOk(s.handle)]), s);
    case _ =>
  }

  lemma ReleaseKeeps(r: Machine, state: State, m: Machine)
    requires Sound(r) && Open(r.log) && (state.Releasing? || (state.Released? && r.subs == []))
    requires m == Log(r.(state := state), [Release])
    ensures Inv(m)
  {
    FrameworkKeeps(r.(state := state), Release);
  }

  lemma UnsubscribeKeeps(m: Machine, i: nat)
    requires Inv(m) && i < |m.subs|
    ensures Inv(Unsubscribe(m, i))
  {
    var r := Retire(m, i);
    RetireKeeps(m, i);
    if Open(m.log) {
      if r.subs == [] {
        ReleaseKeeps(r, Released, Unsubscribe(m, i));
      } else if !AnyActive(r.subs) {
        ReleaseKeeps(r, Releasing, Unsubscribe(m, i));
      }
    }
  }

  lemma CloseDoneKeeps(m: Machine)
    requires Inv(m) && m.state.Releasing?
    ensures Inv(CloseDone(m))
  {
    DismissKeeps(m, Inactive, NoteClosed);
    DeafIsPart(m.subs, Inactive);
    var r := Dismiss(m, Inactive, NoteClosed);
    if r.subs != [] {
      assert !Hears(Inactive, r.subs[0]);
    }
    if AnyActive(r.subs) {
      FrameworkKeeps(r, Request);
    }
  }

  lemma StepKeeps(m: Machine, e: Event)
    requires Inv(m)
    ensures Inv(Step(m, e))
  {
    match e
    case SubscribeEv(h, wait) => SubscribeKeeps(m, Subscriber(h, wait, false));
    case ReleaseEv(h) =>
      if Find(m.subs, h) < |m.subs| { UnsubscribeKeeps(m, Find(m.subs, h)); }
    case GrantedEv =>
      var grants := Notes(m.subs, Active, NoteOpen);
      forall h ensures Balance(grants, h) == 0 { GrantsAreQuiet(m.subs, h); }
      GrantsAreQuiet(m.subs, 0);
      LogKeeps(m, grants);
    case ReleasedEv =>
      if m.state.Releasing? { CloseDoneKeeps(m); }
      if m.state.Acquired? {
        FrameworkKeeps(m, Lost);
        DismissKeeps(Log(m.(state := Released), [Lost]), All, NoteClosed);
      }
    case DeniedEv =>
      if m.state.Releasing? { CloseDoneKeeps(m); }
      if m.state.Pending? {
        FrameworkKeeps(m, Lost);
        DismissKeeps(Log(m.(state := Released), [Lost]), All, NoteFailed);
      }
    case Ssr => DismissKeeps(m, All, NoteDropped);
  }

  lemma {:induction false} RunKeeps(m: Machine, events: seq<Event>)
    requires Inv(m)
    ensures Inv(Run(m, events))
    decreases events
  {
    if events != [] {
      StepKeeps(m, events[0]);
      RunKeeps(Step(m, events[0]), events[1..]);
    }
  }

  lemma StepStaysAttended(m: Machine, e: Event)
    requires Inv(m) && Attended(m) && !e.Ssr?
    ensures Attended(Step(m, e))
  {
    if e.SubscribeEv? {
      var s := Subscriber(e.handle, e.waitForClose, false);
      AddStaysActive(m.subs, s);
    } else if (e.ReleasedEv? || e.DeniedEv?) && m.state.Releasing? {
      assert Attended(CloseDone(m));
    }
  }

  lemma AddStaysActive(subs: seq<Subscriber>, s: Subscriber)
    requires !s.inactive
    ensures AnyActive(subs + [s])
  {
    assert !(subs + [s])[|subs|].inactive;
  }

  lemma {:induction false} RunStaysAttended(m: Machine, events: seq<Event>)
    requires Inv(m) && Attended(m) && Ssr !in events
    ensures Attended(Run(m, events))
    decreases events
  {
    if events != [] {
      StepKeeps(m, events[0]);
      StepStaysAttended(m, events[0]);
      RunStaysAttended(Step(m, events[0]), events[1..]);
    }
  }

  // A restart of the modem leaves the machine attended exactly when it is idle, ...
  lemma SsrAttended(m: Machine)
    requires Inv(m)
    ensures Inv(Step(m, Ssr)) && (Attended(Step(m, Ssr)) <==> m.state.Released?)
  {
    StepKeeps(m, Ssr);
    DismissKeeps(m, All, NoteDropped);
  }

  // ... and the next subscriber mends what it broke.
  lemma SubscribeMends(m: Machine, h: int, wait: bool)
    requires Inv(m) && m.subs == []
    ensures Attended(Step(m, SubscribeEv(h, wait)))
  {
    AddStaysActive([], Subscriber(h, wait, false));
  }

  // Every restart of the modem in the run comes while the machine is idle.
  ghost predicate IdleRestarts(m: Machine, events: seq<Event>)
    decreases events
  {
    events != [] ==> (events[0].Ssr? ==> m.state.Released?) && IdleRestarts(Step(m, events[0]), events[1..])
  }

  ghost predicate AlwaysAttended(m: Machine, events: seq<Event>)
    decreases events
  {
    Attended(m) && (events != [] ==> AlwaysAttended(Step(m, events[0]), events[1..]))
  }

  // So a run is attended throughout exactly when it has no other restarts.
  lemma {:induction false} RunAttended(m: Machine, events: seq<Event>)
    requires Inv(m) && Attended(m)
    ensures AlwaysAttended(m, events) <==> IdleRestarts(m, events)
    decreases events
  {
    if events != [] {
      var e, m' := events[0], Step(m, events[0]);
      StepKeeps(m, e);
      if e.Ssr? {
        SsrAttended(m);
      } else {
        StepStaysAttended(m, e);
      }
      if Attended(m') {
        RunAttended(m', events[1..]);
      }
    }
  }

  // The shortest run that is not: a restart while the first request is pending.
  lemma RestartLeavesRequest(h: int, wait: bool)
    ensures var m := Run(START, [SubscribeEv(h, wait), Ssr]);
      m.state.Pending? && m.subs == [] && Open(m.log) && !Attended(m)
  {
    var events := [SubscribeEv(h, wait), Ssr];
    var m1 := Step(START, events[0]);
    assert m1.state.Pending?;
    var m2 := Step(m1, Ssr);
    assert events[1..] == [Ssr] && [Ssr][1..] == [];
    assert Run(START, events) == Run(m1, [Ssr]) == Run(m2, []) == m2;
    RunKeeps(START, events);
    StepKeeps(START, events[0]);
    SsrAttended(m1);
    DismissKeeps(m1, All, NoteDropped);
  }

  // Between two requests the connection has been released or lost, and between two
  // releases or losses it has been requested.
  lemma {:induction false} Alternation(log: seq<Entry>, i: nat, j: nat)
    requires Alternates(log) && i < j < |log|
    ensures log[i].Request? && log[j].Request? ==> exists k :: i < k < j && (log[k].Release? || log[k].Lost?)
    ensures (log[i].Release? || log[i].Lost?) && (log[j].Release? || log[j].Lost?) ==>
      exists k :: i < k < j && log[k].Request?
  {
    if j < |log| - 1 {
      Alternation(log[..|log| - 1], i, j);
    } else {
      LastChange(log[..j], i);
    }
  }

  // What decides whether the connection is open is the last change after i, or i itself.
  lemma {:induction false} LastChange(log: seq<Entry>, i: nat)
    requires i < |log|
    ensures log[i].Request? && !Open(log) ==> exists k :: i < k < |log| && (log[k].Release? || log[k].Lost?)
    ensures (log[i].Release? || log[i].Lost?) && Open(log) ==> exists k :: i < k < |log| && log[k].Request?
  {
    if i < |log| - 1 {
      LastChange(log[..|log| - 1], i);
    }
  }

  // All of it for a machine from its creation on.
  lemma EveryRun(events: seq<Event>)
    ensures var m := Run(START, events);
      && Inv(m)
      && (Ssr !in events ==> Attended(m))
  {
    RunKeeps(START, events);
    if Ssr !in events {
      RunStaysAttended(START, events);
    }
  }

  /* The manager: a machine for assisted positioning and one for other connections. */

  datatype Machines = Machines(agnss: Option<Machine>, internet: Option<Machine>)

  datatype Report = Opened | Refused | Gone

  datatype ManagerEvent =
    | RequestAtl(handle: int, toAgnss: bool) | ReleaseAtl(handle: int)
    | ReportAtl(report: Report, toAgnss: bool) | ModemSsr

  function ReportEvent(r: Report): Event {
    match r
    case Opened => GrantedEv
    case Refused => DeniedEv
    case Gone => ReleasedEv
  }

  function StepOpt(m: Option<Machine>, e: Event): Option<Machine> {
    if m.None? then None else Some(Step(m.value, e))
  }

  function Route(ms: Machines, e: Event, toAgnss: bool): Machines {
    if toAgnss then ms.(agnss := StepOpt(ms.agnss, e)) else ms.(internet := StepOpt(ms.internet, e))
  }

  predicate Holds(m: Option<Machine>, h: int) {
    m.Some? && Find(m.value.subs, h) < |m.value.subs|
  }

  function ManagerStep(ms: Machines, e: ManagerEvent): Machines {
    match e
    case RequestAtl(h, toAgnss) => Route(ms, SubscribeEv(h, true), toAgnss)
    case ReleaseAtl(h) => Route(ms, ReleaseEv(h), Holds(ms.agnss, h))
    case ReportAtl(r, toAgnss) => Route(ms, ReportEvent(r), toAgnss)
    case ModemSsr => Machines(StepOpt(ms.agnss, Ssr), StepOpt(ms.internet, Ssr))
  }

  function ManagerRun(ms: Machines, events: seq<ManagerEvent>): Machines
    decreases events
  {
    if events == [] then ms else ManagerRun(ManagerStep(ms, events[0]), events[1..])
  }

  ghost predicate Fine(m: Option<Machine>, attended: bool) {
    m.Some? ==> Inv(m.value) && (attended ==> Attended(m.value))
  }

  lemma StepOptKeeps(m: Option<Machine>, e: Event, attended: bool)
    requires Fine(m, attended) && (attended ==> !e.Ssr?)
    ensures Fine(StepOpt(m, e), attended)
  {
    if m.Some? {
      StepKeeps(m.value, e);
      if attended {
        StepStaysAttended(m.value, e);
      }
    }
  }

  lemma ManagerStepKeeps(ms: Machines, e: ManagerEvent, attended: bool)
    requires Fine(ms.agnss, attended) && Fine(ms.internet, attended) && (attended ==> !e.ModemSsr?)
    ensures Fine(ManagerStep(ms, e).agnss, attended) && Fine(ManagerStep(ms, e).internet, attended)
  {
    var event := match e
      case RequestAtl(h, _) => SubscribeEv(h, true)
      case ReleaseAtl(h) => ReleaseEv(h)
      case ReportAtl(r, _) => ReportEvent(r)
      case ModemSsr => Ssr;
    StepOptKeeps(ms.agnss, event, attended);
    StepOptKeeps(ms.internet, event, attended);
  }

  // Whatever the modem and the framework do, both machines keep the invariant, and as
  // long as the modem does not restart no connection is held that nobody wants.
  lemma {:induction false} ManagerRunKeeps(ms: Machines, events: seq<ManagerEvent>, attended: bool)
    requires Fine(ms.agnss, attended) && Fine(ms.internet, attended)
    requires attended ==> ModemSsr !in events
    ensures Fine(ManagerRun(ms, events).agnss, attended) && Fine(ManagerRun(ms, events).internet, attended)
    decreases events
  {
    if events != [] {
      ManagerStepKeeps(ms, events[0], attended);
      ManagerRunKeeps(ManagerStep(ms, events[0]), events[1..], attended);
    }
  }
}
