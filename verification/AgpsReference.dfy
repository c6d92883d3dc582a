/**
 The AGPS state machine told on a plain table of subscribers, without a list: what each
 event makes of the connection and the table, and what is said because of it. The
 machine of AgpsModel does just this.
 */
module AgpsReference {
  import opened Wrappers
  import opened AgpsModel

  datatype Wish = Wish(waits: bool, leaving: bool)

  // The state of the connection and who is subscribed, by handle.
  datatype Table = Table(conn: State, subs: map<int, Wish>)

  /* The reference. */

  predicate Wanted(subs: map<int, Wish>) {
    exists h :: h in subs && !subs[h].leaving
  }

  function Staying(subs: map<int, Wish>): map<int, Wish> {
    map h | h in subs && !subs[h].leaving :: subs[h]
  }

  // A subscriber that waits for the close is marked, any other one goes at once.
  function Parted(subs: map<int, Wish>, h: int): map<int, Wish>
    requires h in subs
  {
    if subs[h].waits then subs[h := Wish(true, true)] else subs - {h}
  }

  function AfterClose(t: Table): Table {
    var subs := Staying(t.subs);
    Table(if subs == map[] then Released else Pending, subs)
  }

  function Next(t: Table, e: Event): Table {
    match e
    case SubscribeEv(h, waits) =>
      Table(
        if t.conn == Released then Pending else t.conn,
        if h in t.subs then t.subs else t.subs[h := Wish(waits, false)])
    case ReleaseEv(h) =>
      if h !in t.subs then t
      else
        var subs := Parted(t.subs, h);
        Table(
          if subs == map[] then Released
          else if (t.conn == Pending || t.conn == Acquired) && !Wanted(subs) then Releasing
          else t.conn,
          subs)
    case GrantedEv => if t.conn == Pending then Table(Acquired, t.subs) else t
    case ReleasedEv =>
      if t.conn == Acquired then Table(Released, map[]) else if t.conn == Releasing then AfterClose(t) else t
    case DeniedEv =>
      if t.conn == Pending then Table(Released, map[]) else if t.conn == Releasing then AfterClose(t) else t
    case Ssr => Table(t.conn, map[])
  }

  // The entries that are said of an event: each of them once, and no other.
  predicate Says(t: Table, e: Event, x: Entry) {
    match x
    case Request =>
      (e.SubscribeEv? && t.conn == Released) ||
      ((e.ReleasedEv? || e.DeniedEv?) && t.conn == Releasing && Staying(t.subs) != map[])
    case Release =>
      && e.ReleaseEv? && e.handle in t.subs && (t.conn == Pending || t.conn == Acquired)
      && !Wanted(Parted(t.subs, e.handle))
    case Lost => (e.ReleasedEv? && t.conn == Acquired) || (e.DeniedEv? && t.conn == Pending)
    case OpenOk(h) =>
      (e.SubscribeEv? && e.handle == h && t.conn == Acquired) ||
      (e.GrantedEv? && t.conn == Pending && h in t.subs && !t.subs[h].leaving)
    case OpenFailed(h) => e.DeniedEv? && t.conn == Pending && h in t.subs
    case Closed(h) =>
      || (e.ReleaseEv? && e.handle == h && h in t.subs && !t.subs[h].waits)
      || (e.ReleasedEv? && t.conn == Acquired && h in t.subs)
      || ((e.ReleasedEv? || e.DeniedEv?) && t.conn == Releasing && h in t.subs && t.subs[h].leaving)
    case Added(h) => e.SubscribeEv? && e.handle == h && h !in t.subs
    case Dropped(h) => e.Ssr? && h in t.subs
  }

  /* The machine as a table. */

  function ByHandle(subs: seq<Subscriber>): map<int, Wish> {
    if subs == [] then map[] else ByHandle(subs[1..])[subs[0].handle := Wish(subs[0].waitForClose, subs[0].inactive)]
  }

  function TableOf(m: Machine): Table {
    Table(m.state, ByHandle(m.subs))
  }

  lemma {:induction false} ByHandleAt(subs: seq<Subscriber>, h: int)
    requires Unique(subs)
    ensures h in ByHandle(subs) <==> exists i :: 0 <= i < |subs| && subs[i].handle == h
    ensures forall i :: 0 <= i < |subs| && subs[i].handle == h ==>
      ByHandle(subs)[h] == Wish(subs[i].waitForClose, subs[i].inactive)
  {
    if subs != [] {
      ByHandleAt(subs[1..], h);
      assert Unique(subs[1..]);
      if exists i :: 0 <= i < |subs| && subs[i].handle == h {
        var i :| 0 <= i < |subs| && subs[i].handle == h;
        assert i > 0 ==> subs[1..][i - 1] == subs[i];
      }
      forall i | 0 <= i < |subs| && subs[i].handle == h
        ensures ByHandle(subs)[h] == Wish(subs[i].waitForClose, subs[i].inactive)
      {
        if i > 0 {
          assert subs[1..][i - 1] == subs[i] && subs[0].handle != subs[i].handle;
        }
      }
    }
  }

  lemma ByHandleSame(a: seq<Subscriber>, m: map<int, Wish>)
    requires Unique(a)
    requires forall h :: h in m <==> exists i :: 0 <= i < |a| && a[i].handle == h
    requires forall i :: 0 <= i < |a| ==> a[i].handle in m && m[a[i].handle] == Wish(a[i].waitForClose, a[i].inactive)
    ensures ByHandle(a) == m
  {
    forall h ensures h in ByHandle(a) <==> h in m {
      ByHandleAt(a, h);
    }
    forall h | h in m ensures ByHandle(a)[h] == m[h] {
      ByHandleAt(a, h);
      var i :| 0 <= i < |a| && a[i].handle == h;
    }
  }

  lemma ActiveIsWanted(subs: seq<Subscriber>)
    requires Unique(subs)
    ensures AnyActive(subs) <==> Wanted(ByHandle(subs))
    ensures subs == [] <==> ByHandle(subs) == map[]
  {
    if AnyActive(subs) {
      var i :| 0 <= i < |subs| && !subs[i].inactive;
      ByHandleAt(subs, subs[i].handle);
    }
    if Wanted(ByHandle(subs)) {
      var h :| h in ByHandle(subs) && !ByHandle(subs)[h].leaving;
      ByHandleAt(subs, h);
      var i :| 0 <= i < |subs| && subs[i].handle == h;
    }
    if subs != [] {
      assert subs[0].handle in ByHandle(subs);
    }
  }

  lemma FoundByHandle(subs: seq<Subscriber>, h: int)
    requires Unique(subs)
    ensures Find(subs, h) < |subs| <==> h in ByHandle(subs)
    ensures Find(subs, h) < |subs| ==>
      var s := subs[Find(subs, h)]; s.handle == h && ByHandle(subs)[h] == Wish(s.waitForClose, s.inactive)
  {
    ByHandleAt(subs, h);
  }

  lemma AddedByHandle(subs: seq<Subscriber>, s: Subscriber)
    requires Unique(subs) && Find(subs, s.handle) == |subs|
    ensures ByHandle(subs + [s]) == ByHandle(subs)[s.handle := Wish(s.waitForClose, s.inactive)]
  {
    var a, m := subs + [s], ByHandle(subs)[s.handle := Wish(s.waitForClose, s.inactive)];
    forall h ensures h in m <==> exists i :: 0 <= i < |a| && a[i].handle == h {
      ByHandleAt(subs, h);
      assert a[|subs|] == s;
      if exists i :: 0 <= i < |subs| && subs[i].handle == h {
        var i :| 0 <= i < |subs| && subs[i].handle == h;
        assert a[i].handle == h;
      }
    }
    forall i | 0 <= i < |a| ensures a[i].handle in m && m[a[i].handle] == Wish(a[i].waitForClose, a[i].inactive) {
      ByHandleAt(subs, a[i].handle);
    }
    ByHandleSame(a, m);
  }

  lemma MarkedByHandle(subs: seq<Subscriber>, i: nat)
    requires Unique(subs) && i < |subs|
    ensures Unique(subs[i := subs[i].(inactive := true)])
    ensures ByHandle(subs[i := subs[i].(inactive := true)]) ==
      ByHandle(subs)[subs[i].handle := Wish(subs[i].waitForClose, true)]
  {
    var a := subs[i := subs[i].(inactive := true)];
    var m := ByHandle(subs)[subs[i].handle := Wish(subs[i].waitForClose, true)];
    forall h ensures h in m <==> exists j :: 0 <= j < |a| && a[j].handle == h {
      ByHandleAt(subs, h);
      if exists j :: 0 <= j < |subs| && subs[j].handle == h {
        var j :| 0 <= j < |subs| && subs[j].handle == h;
        assert a[j].handle == h;
      }
      if exists j :: 0 <= j < |a| && a[j].handle == h {
        var j :| 0 <= j < |a| && a[j].handle == h;
        assert subs[j].handle == h;
      }
    }
    forall j | 0 <= j < |a| ensures a[j].handle in m && m[a[j].handle] == Wish(a[j].waitForClose, a[j].inactive) {
      ByHandleAt(subs, a[j].handle);
      assert subs[j].handle == a[j].handle;
    }
    ByHandleSame(a, m);
  }

  lemma {:induction false} WithoutByHandle(subs: seq<Subscriber>, h: int)
    requires Unique(subs)
    ensures ByHandle(Without(subs, h)) == ByHandle(subs) - {h}
  {
    if subs != [] {
      WithoutByHandle(subs[1..], h);
      assert subs[0].handle !in ByHandle(subs[1..]) by { ByHandleAt(subs[1..], subs[0].handle); }
      assert subs[0].handle != h ==> ([subs[0]] + Without(subs[1..], h))[1..] == Without(subs[1..], h);
    }
  }

  // The part of the table that does not hear a notification.
  function NotFor(subs: map<int, Wish>, a: Audience): map<int, Wish> {
    match a
    case All => map[]
    case Inactive => Staying(subs)
    case Active => map h | h in subs && subs[h].leaving :: subs[h]
  }

  lemma {:induction false} DeafByHandle(subs: seq<Subscriber>, a: Audience)
    requires Unique(subs)
    ensures ByHandle(Deaf(subs, a)) == NotFor(ByHandle(subs), a)
  {
    if subs != [] {
      DeafByHandle(subs[1..], a);
      assert subs[0].handle !in ByHandle(subs[1..]) by { ByHandleAt(subs[1..], subs[0].handle); }
      assert !Hears(a, subs[0]) ==> ([subs[0]] + Deaf(subs[1..], a))[1..] == Deaf(subs[1..], a);
    }
  }

  /* What is said. */

  // A subscriber is told this.
  ghost predicate Told(subs: map<int, Wish>, a: Audience, note: int -> Entry, x: Entry) {
    exists h :: h in subs && h !in NotFor(subs, a) && note(h) == x
  }

  lemma {:induction false} NotesCount(subs: seq<Subscriber>, a: Audience, note: int -> Entry, x: Entry)
    requires Unique(subs) && forall h, k :: note(h) == note(k) ==> h == k
    ensures multiset(Notes(subs, a, note))[x] == if Told(ByHandle(subs), a, note, x) then 1 else 0
  {
    if subs != [] {
      var s, rest := subs[0], subs[1..];
      NotesCount(rest, a, note, x);
      assert s.handle !in ByHandle(rest) by { ByHandleAt(rest, s.handle); }
      var first := if Hears(a, s) then [note(s.handle)] else [];
      assert Notes(subs, a, note) == first + Notes(rest, a, note);
      TellsFirst(ByHandle(rest), s, a, note, x);
      assert ByHandle(subs) == ByHandle(rest)[s.handle := Wish(s.waitForClose, s.inactive)];
      assert multiset(first)[x] == if Hears(a, s) && note(s.handle) == x then 1 else 0;
    }
  }

  lemma TellsFirst(rest: map<int, Wish>, s: Subscriber, a: Audience, note: int -> Entry, x: Entry)
    requires s.handle !in rest && forall h, k :: note(h) == note(k) ==> h == k
    ensures var subs := rest[s.handle := Wish(s.waitForClose, s.inactive)];
      && (Told(subs, a, note, x) <==> (Hears(a, s) && note(s.handle) == x) || Told(rest, a, note, x))
      && !(Hears(a, s) && note(s.handle) == x && Told(rest, a, note, x))
  {
    var subs := rest[s.handle := Wish(s.waitForClose, s.inactive)];
    if Told(subs, a, note, x) {
      var h :| h in subs && h !in NotFor(subs, a) && note(h) == x;
      if h != s.handle {
        assert h in rest && h !in NotFor(rest, a);
      }
    }
    if Told(rest, a, note, x) {
      var h :| h in rest && h !in NotFor(rest, a) && note(h) == x;
      assert h in subs && h !in NotFor(subs, a);
    }
    if Hears(a, s) && note(s.handle) == x {
      assert s.handle in subs && s.handle !in NotFor(subs, a);
    }
  }

  // The tail of the log says just what is to be said.
  ghost predicate Spoken(tail: seq<Entry>, t: Table, e: Event) {
    forall x :: multiset(tail)[x] == if Says(t, e, x) then 1 else 0
  }

  // The machine has gone to the table that the event leads to, and said what is to be
  // said of it.
  ghost predicate Follows(m: Machine, e: Event, m': Machine) {
    && m.log <= m'.log
    && TableOf(m') == Next(TableOf(m), e)
    && Spoken(m'.log[|m.log|..], TableOf(m), e)
  }

  lemma TailIs(log: seq<Entry>, tail: seq<Entry>)
    ensures log <= log + tail && (log + tail)[|log|..] == tail
  {}

  // Follows, with the tail of the log named.
  lemma FollowsBy(m: Machine, e: Event, m': Machine, tail: seq<Entry>)
    requires m'.log == m.log + tail
    requires TableOf(m') == Next(TableOf(m), e)
    requires Spoken(tail, TableOf(m), e)
    ensures Follows(m, e, m')
  {
    TailIs(m.log, tail);
  }

  lemma CountBoth(a: seq<Entry>, b: seq<Entry>, x: Entry)
    ensures multiset(a + b)[x] == multiset(a)[x] + multiset(b)[x]
  {}

  // An entry that is there on a condition.
  function Perhaps(there: bool, e: Entry): seq<Entry> {
    if there then [e] else []
  }

  lemma CountPerhaps(there: bool, e: Entry, x: Entry)
    ensures multiset(Perhaps(there, e))[x] == if there && x == e then 1 else 0
  {}

  // What is said of a subscriber: the notice of an open connection, the new entry of the
  // list, the request.
  function SubscribeTail(state: State, listed: bool, h: int): seq<Entry> {
    Perhaps(state == Acquired, OpenOk(h)) + Perhaps(!listed, Added(h)) + Perhaps(state == Released, Request)
  }

  lemma SubscribeLog(m: Machine, s: Subscriber, m': Machine)
    requires m' == Subscribe(m, s)
    ensures m'.log == m.log + SubscribeTail(m.state, Find(m.subs, s.handle) < |m.subs|, s.handle)
  {}

  lemma SubscribeTable(m: Machine, s: Subscriber, m': Machine)
    requires Unique(m.subs) && !s.inactive && m' == Subscribe(m, s)
    ensures TableOf(m') == Next(TableOf(m), SubscribeEv(s.handle, s.waitForClose))
  {
    FoundByHandle(m.subs, s.handle);
    if Find(m.subs, s.handle) == |m.subs| {
      AddedByHandle(m.subs, s);
    }
  }

  lemma SubscribeSaid(t: Table, e: Event, tail: seq<Entry>)
    requires e.SubscribeEv? && tail == SubscribeTail(t.conn, e.handle in t.subs, e.handle)
    ensures Spoken(tail, t, e)
  {
    forall x ensures multiset(tail)[x] == if Says(t, e, x) then 1 else 0 {
      SubscribeCount(t.conn, e.handle in t.subs, e.handle, x);
      SubscribeSays(t, e, e.handle in t.subs, x);
    }
  }

  lemma SubscribeSays(t: Table, e: Event, listed: bool, x: Entry)
    requires e.SubscribeEv? && (listed <==> e.handle in t.subs)
    ensures Says(t, e, x) <==>
      || (t.conn == Acquired && x == OpenOk(e.handle))
      || (!listed && x == Added(e.handle))
      || (t.conn == Released && x == Request)
  {}

  lemma SubscribeCount(state: State, listed: bool, h: int, x: Entry)
    ensures multiset(SubscribeTail(state, listed, h))[x] ==
      if || (state == Acquired && x == OpenOk(h))
         || (!listed && x == Added(h))
         || (state == Released && x == Request) then 1 else 0
  {
    var a, b := Perhaps(state == Acquired, OpenOk(h)), Perhaps(!listed, Added(h));
    var c := Perhaps(state == Released, Request);
    CountBoth(a, b, x);
    CountBoth(a + b, c, x);
    CountPerhaps(state == Acquired, OpenOk(h), x);
    CountPerhaps(!listed, Added(h), x);
    CountPerhaps(state == Released, Request, x);
  }

  lemma SubscribeFollows(m: Machine, h: int, waits: bool)
    requires Inv(m)
    ensures Follows(m, SubscribeEv(h, waits), Step(m, SubscribeEv(h, waits)))
  {
    var s, e := Subscriber(h, waits, false), SubscribeEv(h, waits);
    var tail := SubscribeTail(m.state, Find(m.subs, h) < |m.subs|, h);
    FoundByHandle(m.subs, h);
    SubscribeLog(m, s, Step(m, e));
    SubscribeTable(m, s, Step(m, e));
    SubscribeSaid(TableOf(m), e, tail);
    FollowsBy(m, e, Step(m, e), tail);
  }

  lemma RetireByHandle(m: Machine, i: nat)
    requires Unique(m.subs) && i < |m.subs|
    ensures var h := m.subs[i].handle;
      && h in ByHandle(m.subs) && ByHandle(m.subs)[h].waits == m.subs[i].waitForClose
      && Unique(Retire(m, i).subs) && ByHandle(Retire(m, i).subs) == Parted(ByHandle(m.subs), h)
      && Retire(m, i).log == m.log + if m.subs[i].waitForClose then [] else [Closed(h)]
  {
    ByHandleAt(m.subs, m.subs[i].handle);
    if m.subs[i].waitForClose {
      MarkedByHandle(m.subs, i);
    } else {
      WithoutByHandle(m.subs, m.subs[i].handle);
      WithoutIsPart(m.subs, m.subs[i].handle);
    }
  }

  lemma ReleaseTable(m: Machine, i: nat, m': Machine)
    requires Inv(m) && i < |m.subs| && m' == Unsubscribe(m, i)
    ensures TableOf(m') == Next(TableOf(m), ReleaseEv(m.subs[i].handle))
  {
    RetireByHandle(m, i);
    ActiveIsWanted(Retire(m, i).subs);
  }

  // What is said of an unsubscriber: the close to one that does not wait for it, and the
  // release if it was the last active one.
  function ReleaseTail(waits: bool, last: bool, h: int): seq<Entry> {
    Perhaps(!waits, Closed(h)) + Perhaps(last, Release)
  }

  lemma ReleaseLog(m: Machine, i: nat, r: Machine, m': Machine)
    requires i < |m.subs| && !m.state.Released? && r == Retire(m, i) && m' == Unsubscribe(m, i)
    ensures m'.log ==
      m.log + ReleaseTail(m.subs[i].waitForClose, m.state != Releasing && !AnyActive(r.subs), m.subs[i].handle)
  {}

  lemma ReleaseSaid(t: Table, h: int, last: bool, tail: seq<Entry>)
    requires h in t.subs && (last <==> (t.conn == Pending || t.conn == Acquired) && !Wanted(Parted(t.subs, h)))
    requires tail == ReleaseTail(t.subs[h].waits, last, h)
    ensures Spoken(tail, t, ReleaseEv(h))
  {
    var waits := t.subs[h].waits;
    forall x ensures multiset(tail)[x] == if Says(t, ReleaseEv(h), x) then 1 else 0 {
      CountBoth(Perhaps(!waits, Closed(h)), Perhaps(last, Release), x);
      CountPerhaps(!waits, Closed(h), x);
      CountPerhaps(last, Release, x);
      ReleaseSays(t, h, waits, last, x);
    }
  }

  lemma ReleaseSays(t: Table, h: int, waits: bool, last: bool, x: Entry)
    requires h in t.subs && waits == t.subs[h].waits
    requires last <==> (t.conn == Pending || t.conn == Acquired) && !Wanted(Parted(t.subs, h))
    ensures Says(t, ReleaseEv(h), x) <==> (!waits && x == Closed(h)) || (last && x == Release)
  {}

  lemma UnsubscribeFollows(m: Machine, i: nat, h: int, m': Machine)
    requires Inv(m) && i < |m.subs| && m.subs[i].handle == h && m' == Unsubscribe(m, i)
    ensures Follows(m, ReleaseEv(h), m')
  {
    var r := Retire(m, i);
    var last := m.state != Releasing && !AnyActive(r.subs);
    var tail := ReleaseTail(m.subs[i].waitForClose, last, h);
    RetireByHandle(m, i);
    ActiveIsWanted(r.subs);
    ReleaseLog(m, i, r, m');
    ReleaseTable(m, i, m');
    ReleaseSaid(TableOf(m), h, last, tail);
    FollowsBy(m, ReleaseEv(h), m', tail);
  }

  lemma ReleaseFollows(m: Machine, h: int)
    requires Inv(m)
    ensures Follows(m, ReleaseEv(h), Step(m, ReleaseEv(h)))
  {
    FoundByHandle(m.subs, h);
    var i := Find(m.subs, h);
    if i < |m.subs| {
      UnsubscribeFollows(m, i, h, Unsubscribe(m, i));
    } else {
      UnknownFollows(m, h);
    }
  }

  lemma UnknownFollows(m: Machine, h: int)
    requires h !in ByHandle(m.subs)
    ensures Follows(m, ReleaseEv(h), m)
  {
    assert m.log[|m.log|..] == [];
  }

  lemma GrantFollows(m: Machine)
    requires Inv(m)
    ensures Follows(m, GrantedEv, Step(m, GrantedEv))
  {
    if m.state == Pending {
      var tail := Notes(m.subs, Active, NoteOpen);
      GrantSaid(m, tail);
      FollowsBy(m, GrantedEv, Step(m, GrantedEv), tail);
    } else {
      assert m.log[|m.log|..] == [];
    }
  }

  lemma GrantSaid(m: Machine, tail: seq<Entry>)
    requires Unique(m.subs) && m.state == Pending && tail == Notes(m.subs, Active, NoteOpen)
    ensures Spoken(tail, TableOf(m), GrantedEv)
  {
    var t := TableOf(m);
    forall x ensures multiset(tail)[x] == if Says(t, GrantedEv, x) then 1 else 0 {
      NotesCount(m.subs, Active, NoteOpen, x);
      GrantSays(t, x);
    }
  }

  lemma GrantSays(t: Table, x: Entry)
    requires t.conn == Pending
    ensures Says(t, GrantedEv, x) <==> Told(t.subs, Active, NoteOpen, x)
  {
    ToldOpen(t.subs, x);
  }

  lemma ToldOpen(subs: map<int, Wish>, x: Entry)
    ensures Told(subs, Active, NoteOpen, x) <==> x.OpenOk? && x.handle in subs && !subs[x.handle].leaving
  {
    if x.OpenOk? && x.handle in subs && !subs[x.handle].leaving {
      assert NoteOpen(x.handle) == x && x.handle !in NotFor(subs, Active);
    }
  }

  lemma ToldAll(subs: map<int, Wish>, x: Entry)
    ensures Told(subs, All, NoteFailed, x) <==> x.OpenFailed? && x.handle in subs
    ensures Told(subs, All, NoteClosed, x) <==> x.Closed? && x.handle in subs
    ensures Told(subs, All, NoteDropped, x) <==> x.Dropped? && x.handle in subs
    ensures Told(subs, Inactive, NoteClosed, x) <==> x.Closed? && x.handle in subs && subs[x.handle].leaving
  {
    if x.OpenFailed? && x.handle in subs {
      assert NoteFailed(x.handle) == x;
    }
    if x.Closed? && x.handle in subs {
      assert NoteClosed(x.handle) == x;
    }
    if x.Dropped? && x.handle in subs {
      assert NoteDropped(x.handle) == x;
    }
  }

  lemma SsrFollows(m: Machine)
    requires Inv(m)
    ensures Follows(m, Ssr, Step(m, Ssr))
  {
    var tail := Notes(m.subs, All, NoteDropped);
    DeafByHandle(m.subs, All);
    SsrSaid(m, tail);
    FollowsBy(m, Ssr, Step(m, Ssr), tail);
  }

  lemma SsrSaid(m: Machine, tail: seq<Entry>)
    requires Unique(m.subs) && tail == Notes(m.subs, All, NoteDropped)
    ensures Spoken(tail, TableOf(m), Ssr)
  {
    var t := TableOf(m);
    forall x ensures multiset(tail)[x] == if Says(t, Ssr, x) then 1 else 0 {
      NotesCount(m.subs, All, NoteDropped, x);
      SsrSays(t, x);
    }
  }

  lemma SsrSays(t: Table, x: Entry)
    ensures Says(t, Ssr, x) <==> Told(t.subs, All, NoteDropped, x)
  {
    ToldAll(t.subs, x);
  }

  // The framework takes the connection away: everybody is told and goes.
  lemma LossFollows(m: Machine, e: Event, note: int -> Entry, m': Machine)
    requires Inv(m)
    requires
      || (e.ReleasedEv? && m.state.Acquired? && note == NoteClosed)
      || (e.DeniedEv? && m.state.Pending? && note == NoteFailed)
    requires m' == Dismiss(Log(m.(state := Released), [Lost]), All, note)
    ensures Follows(m, e, m')
  {
    var notes := Notes(m.subs, All, note);
    DeafByHandle(m.subs, All);
    assert m'.log == m.log + ([Lost] + notes);
    LossSaid(m, e, note, notes);
    FollowsBy(m, e, m', [Lost] + notes);
  }

  lemma LossSaid(m: Machine, e: Event, note: int -> Entry, notes: seq<Entry>)
    requires Unique(m.subs) && notes == Notes(m.subs, All, note)
    requires
      || (e.ReleasedEv? && m.state.Acquired? && note == NoteClosed)
      || (e.DeniedEv? && m.state.Pending? && note == NoteFailed)
    ensures Spoken([Lost] + notes, TableOf(m), e)
  {
    forall x ensures multiset([Lost] + notes)[x] == if Says(TableOf(m), e, x) then 1 else 0 {
      NotesCount(m.subs, All, note, x);
      CountBoth([Lost], notes, x);
      LossSays(TableOf(m), e, note, x);
    }
  }

  lemma LossSays(t: Table, e: Event, note: int -> Entry, x: Entry)
    requires
      || (e.ReleasedEv? && t.conn.Acquired? && note == NoteClosed)
      || (e.DeniedEv? && t.conn.Pending? && note == NoteFailed)
    ensures Says(t, e, x) <==> x == Lost || Told(t.subs, All, note, x)
    ensures !Told(t.subs, All, note, Lost)
  {
    ToldAll(t.subs, x);
    ToldAll(t.subs, Lost);
  }

  lemma CloseFollows(m: Machine, e: Event)
    requires Inv(m) && m.state.Releasing? && (e.ReleasedEv? || e.DeniedEv?)
    ensures Follows(m, e, CloseDone(m))
  {
    var r, notes := Dismiss(m, Inactive, NoteClosed), Notes(m.subs, Inactive, NoteClosed);
    DeafByHandle(m.subs, Inactive);
    StayingAreActive(m.subs, r.subs);
    var tail := notes + Perhaps(r.subs != [], Request);
    assert CloseDone(m).log == m.log + tail;
    CloseSaid(m, e, notes, r.subs != []);
    FollowsBy(m, e, CloseDone(m), tail);
  }

  lemma StayingAreActive(subs: seq<Subscriber>, rest: seq<Subscriber>)
    requires Unique(subs) && rest == Deaf(subs, Inactive)
    ensures (AnyActive(rest) <==> rest != []) && (rest != [] <==> ByHandle(rest) != map[])
  {
    DeafIsPart(subs, Inactive);
    ActiveIsWanted(rest);
    if rest != [] {
      assert !Hears(Inactive, rest[0]);
    }
  }

  lemma CloseSaid(m: Machine, e: Event, notes: seq<Entry>, again: bool)
    requires Unique(m.subs) && m.state.Releasing? && (e.ReleasedEv? || e.DeniedEv?)
    requires notes == Notes(m.subs, Inactive, NoteClosed) && (again <==> Staying(ByHandle(m.subs)) != map[])
    ensures Spoken(notes + Perhaps(again, Request), TableOf(m), e)
  {
    var b, t := Perhaps(again, Request), TableOf(m);
    forall x ensures multiset(notes + b)[x] == if Says(t, e, x) then 1 else 0 {
      NotesCount(m.subs, Inactive, NoteClosed, x);
      CloseSays(t, e, again, x);
      CountBoth(notes, b, x);
      CountPerhaps(again, Request, x);
    }
  }

  lemma CloseSays(t: Table, e: Event, again: bool, x: Entry)
    requires t.conn.Releasing? && (e.ReleasedEv? || e.DeniedEv?) && (again <==> Staying(t.subs) != map[])
    ensures Says(t, e, x) <==> (again && x == Request) || Told(t.subs, Inactive, NoteClosed, x)
    ensures !Told(t.subs, Inactive, NoteClosed, Request)
  {
    ToldAll(t.subs, x);
    ToldAll(t.subs, Request);
  }

  lemma StepFollows(m: Machine, e: Event)
    requires Inv(m)
    ensures Follows(m, e, Step(m, e))
  {
    match e
    case SubscribeEv(h, waits) => SubscribeFollows(m, h, waits);
    case ReleaseEv(h) => ReleaseFollows(m, h);
    case GrantedEv => GrantFollows(m);
    case ReleasedEv =>
      if m.state.Acquired? {
        LossFollows(m, e, NoteClosed, Step(m, e));
      } else if m.state.Releasing? {
        CloseFollows(m, e);
      }
    case DeniedEv =>
      if m.state.Pending? {
        LossFollows(m, e, NoteFailed, Step(m, e));
      } else if m.state.Releasing? {
        CloseFollows(m, e);
      }
    case Ssr => SsrFollows(m);
  }

  function NextRun(t: Table, events: seq<Event>): Table
    decreases events
  {
    if events == [] then t else NextRun(Next(t, events[0]), events[1..])
  }

  // How often an entry is said in a run.
  function SaidRun(t: Table, events: seq<Event>, x: Entry): nat
    decreases events
  {
    if events == [] then 0
    else (if Says(t, events[0], x) then 1 else 0) + SaidRun(Next(t, events[0]), events[1..], x)
  }

  // Every run of the machine is the run of the reference, and says what it says.
  lemma {:induction false} RunFollows(m: Machine, events: seq<Event>, x: Entry)
    requires Inv(m)
    ensures TableOf(Run(m, events)) == NextRun(TableOf(m), events)
    ensures multiset(Run(m, events).log)[x] == multiset(m.log)[x] + SaidRun(TableOf(m), events, x)
    decreases events
  {
    if events != [] {
      var m' := Step(m, events[0]);
      StepFollows(m, events[0]);
      StepKeeps(m, events[0]);
      assert m'.log == m.log + m'.log[|m.log|..];
      RunFollows(m', events[1..], x);
    }
  }

  /* Who has heard that the connection is open. */

  // Told so since the connection was last requested.
  ghost predicate HeardOpen(log: seq<Entry>, h: int) {
    exists i :: 0 <= i < |log| && log[i] == OpenOk(h) && Request !in log[i..]
  }

  // While the connection is there, every active subscriber has heard of it; while it is
  // awaited, nobody has.
  ghost predicate Served(m: Machine) {
    && (m.state.Acquired? ==>
        forall i :: 0 <= i < |m.subs| && !m.subs[i].inactive ==> HeardOpen(m.log, m.subs[i].handle))
    && (m.state.Pending? ==> forall h :: !HeardOpen(m.log, h))
  }

  ghost predicate TableServed(t: Table, log: seq<Entry>) {
    && (t.conn.Acquired? ==> forall h :: h in t.subs && !t.subs[h].leaving ==> HeardOpen(log, h))
    && (t.conn.Pending? ==> forall h :: !HeardOpen(log, h))
  }

  lemma ServedIsTableServed(m: Machine)
    requires Unique(m.subs)
    ensures Served(m) <==> TableServed(TableOf(m), m.log)
  {
    var t := TableOf(m);
    if Served(m) {
      forall h | h in t.subs && !t.subs[h].leaving && m.state.Acquired? ensures HeardOpen(m.log, h) {
        ByHandleAt(m.subs, h);
        var i :| 0 <= i < |m.subs| && m.subs[i].handle == h;
      }
    }
    if TableServed(t, m.log) {
      forall i | 0 <= i < |m.subs| && !m.subs[i].inactive && m.state.Acquired?
        ensures HeardOpen(m.log, m.subs[i].handle)
      {
        ByHandleAt(m.subs, m.subs[i].handle);
      }
    }
  }

  lemma HeardBefore(log: seq<Entry>, tail: seq<Entry>, h: int)
    requires HeardOpen(log, h) && Request !in tail
    ensures HeardOpen(log + tail, h)
  {
    var i :| 0 <= i < |log| && log[i] == OpenOk(h) && Request !in log[i..];
    assert (log + tail)[i..] == log[i..] + tail;
    assert (log + tail)[i] == OpenOk(h);
  }

  lemma HeardNow(log: seq<Entry>, tail: seq<Entry>, h: int)
    requires OpenOk(h) in tail && Request !in tail
    ensures HeardOpen(log + tail, h)
  {
    var i :| 0 <= i < |tail| && tail[i] == OpenOk(h);
    assert (log + tail)[|log| + i..] == tail[i..];
    assert (log + tail)[|log| + i] == OpenOk(h);
  }

  lemma NotHeard(log: seq<Entry>, tail: seq<Entry>, h: int)
    requires OpenOk(h) !in tail && (Request in tail || !HeardOpen(log, h))
    ensures !HeardOpen(log + tail, h)
  {
    forall i | 0 <= i < |log + tail| && (log + tail)[i] == OpenOk(h) ensures Request in (log + tail)[i..] {
      assert i < |log|;
      assert (log + tail)[i..] == log[i..] + tail;
    }
  }

  lemma SpokenIn(tail: seq<Entry>, t: Table, e: Event, x: Entry)
    requires Spoken(tail, t, e)
    ensures x in tail <==> Says(t, e, x)
  {
    assert x in tail <==> x in multiset(tail);
  }

  lemma NextServed(t: Table, e: Event, t': Table, log: seq<Entry>, tail: seq<Entry>)
    requires TableServed(t, log) && t' == Next(t, e) && Spoken(tail, t, e)
    requires t.conn.Released? ==> t.subs == map[]
    ensures TableServed(t', log + tail)
  {
    SpokenIn(tail, t, e, Request);
    if t'.conn.Acquired? {
      forall h | h in t'.subs && !t'.subs[h].leaving ensures HeardOpen(log + tail, h) {
        SpokenIn(tail, t, e, OpenOk(h));
        if Says(t, e, OpenOk(h)) {
          HeardNow(log, tail, h);
        } else {
          HeardBefore(log, tail, h);
        }
      }
    }
    if t'.conn.Pending? {
      forall h ensures !HeardOpen(log + tail, h) {
        SpokenIn(tail, t, e, OpenOk(h));
        NotHeard(log, tail, h);
      }
    }
  }

  // Who has to know knows, after every event, ...
  lemma StepServed(m: Machine, e: Event)
    requires Inv(m) && Served(m)
    ensures Served(Step(m, e))
  {
    var m' := Step(m, e);
    StepFollows(m, e);
    StepKeeps(m, e);
    ServedIsTableServed(m);
    ServedIsTableServed(m');
    assert m'.log == m.log + m'.log[|m.log|..];
    NextServed(TableOf(m), e, TableOf(m'), m.log, m'.log[|m.log|..]);
  }

  // ... and so in every run.
  lemma {:induction false} RunServed(m: Machine, events: seq<Event>)
    requires Inv(m) && Served(m)
    ensures Served(Run(m, events))
    decreases events
  {
    if events != [] {
      StepKeeps(m, events[0]);
      StepServed(m, events[0]);
      RunServed(Step(m, events[0]), events[1..]);
    }
  }

  // A machine from its creation on that is granted the connection it has asked for has
  // it, and its active subscribers know.
  lemma EveryGrantServed(events: seq<Event>)
    requires Run(START, events).state == Pending
    ensures var m, m' := Run(START, events), Step(Run(START, events), GrantedEv);
      && m'.state == Acquired && m'.subs == m.subs
      && forall i :: 0 <= i < |m.subs| && !m.subs[i].inactive ==>
          HeardOpen(m'.log, m.subs[i].handle) && !HeardOpen(m.log, m.subs[i].handle)
  {
    RunKeeps(START, events);
    RunServed(START, events);
    StepServed(Run(START, events), GrantedEv);
  }

  /* What each machine of the manager sees. */

  // A handle is released in the first machine that lists it; to the other one, and to
  // one that does not list it, nothing happens.
  function SeenByAgnss(e: ManagerEvent): seq<Event> {
    match e
    case RequestAtl(h, true) => [SubscribeEv(h, true)]
    case ReleaseAtl(h) => [ReleaseEv(h)]
    case ReportAtl(Opened, true) => [GrantedEv]
    case ReportAtl(Refused, true) => [DeniedEv]
    case ReportAtl(Gone, true) => [ReleasedEv]
    case ModemSsr => [Ssr]
    case _ => []
  }

  function SeenByInternet(e: ManagerEvent, taken: map<int, Wish>): seq<Event> {
    match e
    case RequestAtl(h, false) => [SubscribeEv(h, true)]
    case ReleaseAtl(h) => if h in taken then [] else [ReleaseEv(h)]
    case ReportAtl(Opened, false) => [GrantedEv]
    case ReportAtl(Refused, false) => [DeniedEv]
    case ReportAtl(Gone, false) => [ReleasedEv]
    case ModemSsr => [Ssr]
    case _ => []
  }

  function AgnssEvents(events: seq<ManagerEvent>): seq<Event> {
    if events == [] then [] else SeenByAgnss(events[0]) + AgnssEvents(events[1..])
  }

  // The table of the first machine goes along, if there is one.
  function InternetEvents(t: Option<Table>, events: seq<ManagerEvent>): seq<Event>
    decreases events
  {
    if events == [] then []
    else
      var e := events[0];
      if t.None? then SeenByInternet(e, map[]) + InternetEvents(None, events[1..])
      else SeenByInternet(e, t.value.subs) + InternetEvents(Some(NextRun(t.value, SeenByAgnss(e))), events[1..])
  }

  function RunOpt(m: Option<Machine>, events: seq<Event>): Option<Machine> {
    if m.None? then None else Some(Run(m.value, events))
  }

  function TableOpt(m: Option<Machine>): Option<Table> {
    if m.None? then None else Some(TableOf(m.value))
  }

  lemma {:induction false} RunAppend(m: Machine, a: seq<Event>, b: seq<Event>)
    ensures Run(m, a + b) == Run(Run(m, a), b)
    decreases a
  {
    if a == [] {
      assert a + b == b;
    } else {
      assert (a + b)[1..] == a[1..] + b;
      RunAppend(Step(m, a[0]), a[1..], b);
    }
  }

  lemma RunOne(m: Machine, e: Event)
    ensures Run(m, [e]) == Step(m, e)
  {
    assert [e][1..] == [];
  }

  lemma SeenIsStep(ms: Machines, e: ManagerEvent)
    requires Fine(ms.agnss, false)
    ensures ManagerStep(ms, e).agnss == RunOpt(ms.agnss, SeenByAgnss(e))
    ensures ManagerStep(ms, e).internet ==
      RunOpt(ms.internet, SeenByInternet(e, if ms.agnss.None? then map[] else ByHandle(ms.agnss.value.subs)))
  {
    var seen := match e
      case RequestAtl(h, _) => SubscribeEv(h, true)
      case ReleaseAtl(h) => ReleaseEv(h)
      case ReportAtl(r, _) => ReportEvent(r)
      case ModemSsr => Ssr;
    if ms.agnss.Some? {
      RunOne(ms.agnss.value, seen);
      if e.ReleaseAtl? {
        FoundByHandle(ms.agnss.value.subs, e.handle);
      }
    }
    if ms.internet.Some? {
      RunOne(ms.internet.value, seen);
    }
  }

  // A run of the manager is a run of each of its machines over what that machine sees.
  lemma {:induction false} ManagerRunIs(ms: Machines, events: seq<ManagerEvent>)
    requires Fine(ms.agnss, false) && Fine(ms.internet, false)
    ensures ManagerRun(ms, events).agnss == RunOpt(ms.agnss, AgnssEvents(events))
    ensures ManagerRun(ms, events).internet == RunOpt(ms.internet, InternetEvents(TableOpt(ms.agnss), events))
    decreases events
  {
    if events != [] {
      var e, ms' := events[0], ManagerStep(ms, events[0]);
      SeenIsStep(ms, e);
      ManagerStepKeeps(ms, e, false);
      ManagerRunIs(ms', events[1..]);
      var taken := if ms.agnss.None? then map[] else ByHandle(ms.agnss.value.subs);
      if ms.agnss.Some? {
        RunAppend(ms.agnss.value, SeenByAgnss(e), AgnssEvents(events[1..]));
        RunFollows(ms.agnss.value, SeenByAgnss(e), Request);
      }
      if ms.internet.Some? {
        RunAppend(ms.internet.value, SeenByInternet(e, taken), InternetEvents(TableOpt(ms'.agnss), events[1..]));
      }
    }
  }
}
