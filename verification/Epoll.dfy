/** The epoll ready list: interests that may be ready are listed once, all others
    have a waker waiting at their file.  Interest objects are named by integers; an
    object is alive while the interest map holds it.  Looking at a file and registering
    with it are single steps, but files may change any number of times in between, which
    is what the second look in `repoll` is for. */
module Epoll {
  import opened Base

  type Events = bv32

  datatype Key = Key(fd: int, file: int)
  datatype Interest = Interest(key: Key, mask: Events, data: int, edge: bool, oneshot: bool, enabled: bool, ready: bool)

  /** `files` gives the current events of every file that is still open; `wakers`
      the interests whose waker is registered with their file; `waiters` the tasks that
      are registered with the instance itself. */
  datatype State = State(
    interests: map<Key, int>,
    objs: map<int, Interest>,
    ready: seq<int>,
    files: map<int, Events>,
    wakers: set<int>,
    waiters: set<int>)

  datatype Report = Report(interest: int, events: Events, data: int)
  datatype Error = EEXIST | ENOENT | EBADF

  /** A file takes on new events and fires some of the wakers registered with it. */
  datatype Change = Change(file: int, events: Events, fired: seq<int>)

  /** The changes that come in while a call is at work: before a round of `poll_events`
      starts; in the round, after the interest is unlisted, after it is polled, and after
      its flag is cleared; and in `repoll` before and after the registration, and before
      it wakes what it found ready. */
  datatype Noise = Noise(
    before: seq<Change>, popped: seq<Change>, polled: seq<Change>,
    settle: seq<Change>, look: seq<Change>, armed: seq<Change>, woken: seq<Change>)

  const SILENCE := Noise([], [], [], [], [], [], [])

  predicate Meets(events: Events, mask: Events) {
    events & mask != 0
  }

  /** Events meet a mask exactly if some event is in both. */
  lemma MeetsIff(events: Events, mask: Events)
    ensures Meets(events, mask) <==> exists m :: Common(events, mask, m)
  {
    hide Common;
    CommonIff(events, mask);
  }

  /** The weak reference to the interest can be upgraded. */
  predicate Live(st: State, i: int) {
    i in st.objs && st.objs[i].key in st.interests && st.interests[st.objs[i].key] == i
  }

  /** Alive, enabled, and on an open file. */
  predicate Armed(st: State, i: int) {
    Live(st, i) && st.objs[i].enabled && st.objs[i].key.file in st.files
  }

  /** `EpollInterest::poll` would report the file's current events. */
  predicate Hot(st: State, i: int)
    requires Armed(st, i)
  {
    Meets(st.files[st.objs[i].key.file], st.objs[i].mask)
  }

  // ----------------------------------------------------------------------- steps

  function SetReady(st: State, i: int, ready: bool): State
    requires i in st.objs
  {
    st.(objs := st.objs[i := st.objs[i].(ready := ready)])
  }

  /** `EntryWaker::wake_by_ref`. */
  function Wake(st: State, i: int): State {
    if !Live(st, i) || st.objs[i].ready then st
    else SetReady(st, i, true).(ready := st.ready + [i], waiters := {})
  }

  function WakeAll(st: State, fired: seq<int>): State
    decreases |fired|
  {
    if fired == [] then st else WakeAll(Wake(st, fired[0]), fired[1..])
  }

  predicate Rises(st: State, i: int, f: int, events: Events)
    requires i in st.objs && f in st.files
  {
    !Meets(st.files[f], st.objs[i].mask) && Meets(events, st.objs[i].mask)
  }

  /** A file's poll set fires wakers of its own, and all of them whose mask the file
      comes to meet. */
  predicate Fires(st: State, f: int, events: Events, fired: seq<int>) {
    && f in st.files
    && (forall i :: i in fired ==> i in st.wakers && i in st.objs && st.objs[i].key.file == f)
    && (forall i :: i in st.wakers && i in st.objs && st.objs[i].key.file == f && Rises(st, i, f, events) ==>
                      i in fired)
  }

  function FileChange(st: State, f: int, events: Events, fired: seq<int>): State {
    WakeAll(st.(files := st.files[f := events], wakers := st.wakers - set i | i in fired), fired)
  }

  /** A change, if it is one that its file could cause. */
  function Disturb(st: State, c: Change): State {
    if Fires(st, c.file, c.events, c.fired) then FileChange(st, c.file, c.events, c.fired) else st
  }

  function DisturbAll(st: State, cs: seq<Change>): State
    decreases |cs|
  {
    if cs == [] then st else DisturbAll(Disturb(st, cs[0]), cs[1..])
  }

  function Close(st: State, f: int): State {
    st.(files := st.files - {f}, wakers := set i | i in st.wakers && i in st.objs && st.objs[i].key.file != f)
  }

  /** `Epoll::repoll`. */
  function Repoll(st: State, i: int, noise: Noise): State {
    if !Armed(st, i) then st
    else if Hot(st, i) then Wake(DisturbAll(st, noise.woken), i)
    else
      var st1 := DisturbAll(st, noise.look);
      var st2 := DisturbAll(st1.(wakers := st1.wakers + {i}), noise.armed);
      if Armed(st2, i) && Hot(st2, i) then Wake(DisturbAll(st2, noise.woken), i) else st2
  }

  function Install(st: State, key: Key, i: int, obj: Interest, noise: Noise): State {
    Repoll(st.(interests := st.interests[key := i], objs := st.objs[i := obj]), i, noise)
  }

  // ------------------------------------------------------------------ invariants

  ghost predicate Listed(st: State) {
    && NoDup(st.ready)
    && (forall k :: k in st.interests ==> st.interests[k] in st.objs && st.objs[st.interests[k]].key == k)
    && (forall i :: i in st.ready || i in st.wakers ==> i in st.objs)
    && (forall i :: Live(st, i) ==> (st.objs[i].ready <==> i in st.ready || !st.objs[i].enabled))
    && (forall i :: Live(st, i) && !st.objs[i].enabled ==> i !in st.ready)
  }

  /** Readiness of `i` is not lost: it is listed or waiting, and listed if hot. */
  ghost predicate Covered(st: State, i: int) {
    Armed(st, i) ==> (i in st.ready || i in st.wakers) && (Hot(st, i) ==> i in st.ready)
  }

  ghost predicate Inv(st: State) {
    Listed(st) && forall i :: Covered(st, i)
  }

  ghost predicate InvBut(st: State, but: int) {
    Listed(st) && forall i :: i != but ==> Covered(st, i)
  }

  /** Either nothing was listed anew, or all waiters were woken. */
  ghost predicate Stirred(st: State, st': State) {
    st'.waiters == {} || (st'.waiters == st.waiters && st'.ready == st.ready)
  }

  /** `st'` lists more interests than `st` and is otherwise the same, except that waiters
      are woken. */
  ghost predicate Grown(st: State, st': State) {
    && Stirred(st, st')
    && st'.interests == st.interests && st'.files == st.files && st'.wakers == st.wakers
    && st'.objs.Keys == st.objs.Keys
    && (forall i :: i in st.objs ==> st'.objs[i] == st.objs[i].(ready := st'.objs[i].ready))
    && st.ready <= st'.ready
  }

  lemma WakeGrows(st: State, i: int)
    ensures Grown(st, Wake(st, i))
  {
  }

  lemma WakeListed(st: State, i: int)
    requires Listed(st)
    ensures Listed(Wake(st, i))
    ensures Armed(st, i) ==> i in Wake(st, i).ready
  {
    var st' := Wake(st, i);
    assert forall j :: Live(st', j) == Live(st, j);
  }

  lemma GrownCovers(st: State, st': State, j: int)
    requires Grown(st, st') && (Covered(st, j) || j in st'.ready)
    ensures Covered(st', j)
  {
  }

  lemma {:induction false} WakeAllGrows(st: State, fired: seq<int>)
    ensures Grown(st, WakeAll(st, fired))
    decreases |fired|
  {
    hide Wake;
    if fired != [] {
      WakeGrows(st, fired[0]);
      WakeAllGrows(Wake(st, fired[0]), fired[1..]);
    }
  }

  lemma {:induction false} WakeAllListed(st: State, fired: seq<int>)
    requires Listed(st)
    ensures Listed(WakeAll(st, fired)) && Grown(st, WakeAll(st, fired))
    ensures forall i :: i in fired && Armed(st, i) ==> i in WakeAll(st, fired).ready
    decreases |fired|
  {
    hide Listed;
    hide Wake;
    if fired != [] {
      WakeListed(st, fired[0]);
      WakeGrows(st, fired[0]);
      WakeAllListed(Wake(st, fired[0]), fired[1..]);
      assert forall i :: Armed(Wake(st, fired[0]), i) == Armed(st, i);
    }
  }

  lemma FileChangeListed(st: State, f: int, events: Events, fired: seq<int>)
    requires Listed(st) && f in st.files
    ensures var st0 := st.(files := st.files[f := events], wakers := st.wakers - set i | i in fired);
            Listed(st0) && Listed(FileChange(st, f, events, fired)) && Grown(st0, FileChange(st, f, events, fired))
  {
    var st0 := st.(files := st.files[f := events], wakers := st.wakers - set i | i in fired);
    assert forall j :: Live(st0, j) == Live(st, j);
    assert Listed(st0);
    WakeAllListed(st0, fired);
  }

  /** A file that wakes on becoming ready leaves nobody behind. */
  lemma FileChangeCovers(st: State, f: int, events: Events, fired: seq<int>, j: int)
    requires Listed(st) && Fires(st, f, events, fired) && Covered(st, j)
    ensures Covered(FileChange(st, f, events, fired), j)
  {
    var st0 := st.(files := st.files[f := events], wakers := st.wakers - set i | i in fired);
    var st' := FileChange(st, f, events, fired);
    FileChangeListed(st, f, events, fired);
    WakeAllListed(st0, fired);
    assert Armed(st0, j) == Armed(st, j);
    if j !in fired {
      assert Covered(st0, j);
    }
    GrownCovers(st0, st', j);
  }

  /** `st'` may list more than `st`, and has the same interests with the same settings. */
  ghost predicate Onward(st: State, st': State) {
    && st.ready <= st'.ready && Stirred(st, st')
    && st'.interests == st.interests && st'.files.Keys == st.files.Keys && st'.objs.Keys == st.objs.Keys
    && forall i :: i in st.objs ==> st'.objs[i] == st.objs[i].(ready := st'.objs[i].ready)
  }

  lemma OnwardTrans(a: State, b: State, c: State)
    requires Onward(a, b) && Onward(b, c)
    ensures Onward(a, c)
  {
  }

  /** A change leaves interests and their settings alone, and other files. */
  lemma DisturbOnward(st: State, c: Change)
    ensures var st' := Disturb(st, c);
            && Onward(st, st')
            && (st'.files == st.files || (c.file in st.files && st'.files == st.files[c.file := c.events]))
  {
    if Fires(st, c.file, c.events, c.fired) {
      WakeAllGrows(st.(files := st.files[c.file := c.events], wakers := st.wakers - set i | i in c.fired), c.fired);
    }
  }

  lemma {:induction false} DisturbAllOnward(st: State, cs: seq<Change>)
    ensures Onward(st, DisturbAll(st, cs))
    decreases |cs|
  {
    hide Disturb;
    if cs != [] {
      DisturbOnward(st, cs[0]);
      DisturbAllOnward(Disturb(st, cs[0]), cs[1..]);
      OnwardTrans(st, Disturb(st, cs[0]), DisturbAll(st, cs));
    }
  }

  lemma ArmedStill(st: State, cs: seq<Change>, i: int)
    ensures Onward(st, DisturbAll(st, cs)) && Armed(DisturbAll(st, cs), i) == Armed(st, i)
  {
    DisturbAllOnward(st, cs);
    OnwardArmed(st, DisturbAll(st, cs), i);
  }

  lemma DisturbKeeps(st: State, c: Change, but: int)
    requires InvBut(st, but)
    ensures InvBut(Disturb(st, c), but)
  {
    if Fires(st, c.file, c.events, c.fired) {
      FileChangeListed(st, c.file, c.events, c.fired);
      hide FileChange;
      hide Listed;
      forall j | j != but ensures Covered(FileChange(st, c.file, c.events, c.fired), j) {
        FileChangeCovers(st, c.file, c.events, c.fired, j);
      }
    }
  }

  /** However often files change, no readiness is lost. */
  lemma {:induction false} DisturbAllKeeps(st: State, cs: seq<Change>, but: int)
    requires InvBut(st, but)
    ensures InvBut(DisturbAll(st, cs), but) && Onward(st, DisturbAll(st, cs))
    decreases |cs|
  {
    hide InvBut;
    hide Disturb;
    DisturbAllOnward(st, cs);
    if cs != [] {
      DisturbKeeps(st, cs[0], but);
      DisturbAllKeeps(Disturb(st, cs[0]), cs[1..], but);
    }
  }

  lemma OnwardArmed(st: State, st': State, i: int)
    requires Onward(st, st')
    ensures Live(st', i) == Live(st, i) && Armed(st', i) == Armed(st, i)
  {
  }

  /** An interest that is listed or has its waker registered remains so. */
  ghost predicate Waiting(st: State, i: int) {
    i in st.ready || i in st.wakers
  }

  lemma DisturbWaits(st: State, c: Change, i: int)
    requires Listed(st) && Armed(st, i) && Waiting(st, i)
    ensures Waiting(Disturb(st, c), i)
  {
    if Fires(st, c.file, c.events, c.fired) {
      FileChangeListed(st, c.file, c.events, c.fired);
      var st0 := st.(files := st.files[c.file := c.events], wakers := st.wakers - set j | j in c.fired);
      WakeAllListed(st0, c.fired);
      assert Armed(st0, i);
    }
  }

  lemma {:induction false} DisturbAllWaits(st: State, cs: seq<Change>, i: int)
    requires InvBut(st, i) && Armed(st, i) && Waiting(st, i)
    ensures Waiting(DisturbAll(st, cs), i)
    decreases |cs|
  {
    hide Listed;
    hide Disturb;
    hide Armed;
    hide Waiting;
    if cs != [] {
      DisturbKeeps(st, cs[0], i);
      DisturbOnward(st, cs[0]);
      OnwardArmed(st, Disturb(st, cs[0]), i);
      DisturbWaits(st, cs[0], i);
      DisturbAllWaits(Disturb(st, cs[0]), cs[1..], i);
    }
  }

  lemma RegisterKeeps(st: State, i: int)
    requires InvBut(st, i) && i in st.objs
    ensures var st' := st.(wakers := st.wakers + {i}); InvBut(st', i) && Onward(st, st')
  {
    var st' := st.(wakers := st.wakers + {i});
    assert forall j :: Live(st', j) == Live(st, j);
    forall j | j != i ensures Covered(st', j) { assert Covered(st, j); }
  }

  lemma WakeInv(st: State, i: int)
    requires InvBut(st, i) && Armed(st, i)
    ensures Inv(Wake(st, i))
  {
    WakeListed(st, i);
    WakeGrows(st, i);
    hide Listed;
    hide Wake;
    forall j ensures Covered(Wake(st, i), j) { GrownCovers(st, Wake(st, i), j); }
  }

  /** Waking an interest that was found ready, whatever has changed since. */
  lemma LateWake(st: State, cs: seq<Change>, i: int)
    requires InvBut(st, i) && Armed(st, i)
    ensures var st' := Wake(DisturbAll(st, cs), i); Inv(st') && Onward(st, st')
  {
    hide InvBut;
    hide Inv;
    hide DisturbAll;
    hide Wake;
    var st1 := DisturbAll(st, cs);
    DisturbAllKeeps(st, cs, i);
    ArmedStill(st, cs, i);
    WakeInv(st1, i);
    WakeGrows(st1, i);
    OnwardTrans(st, st1, Wake(st1, i));
  }

  /** Registering: whatever changes before and after it, the interest ends up waiting. */
  lemma ArmKeeps(st: State, i: int, noise: Noise)
    requires InvBut(st, i) && Armed(st, i)
    ensures var st1 := DisturbAll(st, noise.look);
            var st2 := DisturbAll(st1.(wakers := st1.wakers + {i}), noise.armed);
            InvBut(st2, i) && Onward(st, st2) && Waiting(st2, i)
  {
    var st1 := DisturbAll(st, noise.look);
    var st1' := st1.(wakers := st1.wakers + {i});
    var st2 := DisturbAll(st1', noise.armed);
    hide InvBut;
    hide DisturbAll;
    DisturbAllKeeps(st, noise.look, i);
    OnwardArmed(st, st1, i);
    RegisterKeeps(st1, i);
    OnwardArmed(st1, st1', i);
    DisturbAllKeeps(st1', noise.armed, i);
    DisturbAllWaits(st1', noise.armed, i);
    OnwardTrans(st, st1, st1');
    OnwardTrans(st, st1', st2);
  }

  /** However files change meanwhile, a repolled interest ends up listed or waiting, and
      listed if its file is ready. */
  lemma RepollInv(st: State, i: int, noise: Noise)
    requires InvBut(st, i)
    ensures Inv(Repoll(st, i, noise)) && Onward(st, Repoll(st, i, noise))
  {
    hide Listed;
    hide DisturbAll;
    hide Wake;
    if Armed(st, i) {
      if Hot(st, i) {
        LateWake(st, noise.woken, i);
      } else {
        ArmKeeps(st, i, noise);
        var st1 := DisturbAll(st, noise.look);
        var st2 := DisturbAll(st1.(wakers := st1.wakers + {i}), noise.armed);
        OnwardArmed(st, st2, i);
        if Hot(st2, i) {
          LateWake(st2, noise.woken, i);
          OnwardTrans(st, st2, Wake(DisturbAll(st2, noise.woken), i));
        }
      }
    }
  }

  // ------------------------------------------------------- add, modify and delete

  function NewInterest(key: Key, mask: Events, data: int, edge: bool, oneshot: bool): Interest {
    Interest(key, mask, data, edge, oneshot, true, false)
  }

  /** A new object takes over a key, whether or not another had it before. */
  lemma InstallInv(st: State, key: Key, i: int, obj: Interest, noise: Noise)
    requires Inv(st) && i !in st.objs && obj.key == key && obj.enabled && !obj.ready
    ensures Inv(Install(st, key, i, obj, noise))
  {
    hide InvBut;
    hide Inv;
    hide Repoll;
    InstalledBut(st, key, i, obj);
    RepollInv(st.(interests := st.interests[key := i], objs := st.objs[i := obj]), i, noise);
  }

  lemma InstalledBut(st: State, key: Key, i: int, obj: Interest)
    requires Inv(st) && i !in st.objs && obj.key == key && obj.enabled && !obj.ready
    ensures InvBut(st.(interests := st.interests[key := i], objs := st.objs[i := obj]), i)
  {
    var st' := st.(interests := st.interests[key := i], objs := st.objs[i := obj]);
    assert forall j :: j != i && Live(st', j) ==> Live(st, j);
    assert Listed(st');
    forall j | j != i ensures Covered(st', j) { assert Covered(st, j); }
  }

  function Delete(st: State, key: Key): State {
    st.(interests := st.interests - {key})
  }

  lemma DeleteInv(st: State, key: Key)
    requires Inv(st)
    ensures Inv(Delete(st, key))
  {
    var st' := Delete(st, key);
    assert forall j :: Live(st', j) ==> Live(st, j);
    forall j ensures Covered(st', j) { assert Covered(st, j); }
  }

  lemma CloseInv(st: State, f: int)
    requires Inv(st)
    ensures Inv(Close(st, f))
  {
    var st' := Close(st, f);
    assert forall j :: Live(st', j) == Live(st, j);
    forall j ensures Covered(st', j) { assert Covered(st, j); }
  }

  // ------------------------------------------------- an interest that is taken off

  /** `i` has been taken off the list and its flag is still set, so that a waker fired
      now finds the flag set and does nothing.  All is well but for `i`. */
  ghost predicate Unlisted(st: State, i: int) {
    && i in st.objs && Armed(st, i) && st.objs[i].ready
    && InvBut(SetReady(st, i, false), i)
  }

  function Without(fired: seq<int>, i: int): seq<int> {
    if fired == [] then [] else (if fired[0] == i then [] else [fired[0]]) + Without(fired[1..], i)
  }

  lemma {:induction false} WithoutMembers(fired: seq<int>, i: int, j: int)
    ensures j in Without(fired, i) <==> j in fired && j != i
  {
    if fired != [] {
      WithoutMembers(fired[1..], i, j);
    }
  }

  lemma WakeUnlisted(st: State, i: int, j: int)
    requires i in st.objs && st.objs[i].ready
    ensures var st' := Wake(st, j);
            && i in st'.objs && st'.objs[i].ready
            && SetReady(st', i, false) == if j == i then SetReady(st, i, false) else Wake(SetReady(st, i, false), j)
  {
    var clear := SetReady(st, i, false);
    assert Live(clear, j) == Live(st, j);
    if j != i && Live(st, j) && !st.objs[j].ready {
      assert SetReady(Wake(st, j), i, false).objs == Wake(clear, j).objs;
    }
  }

  /** While the flag is set, wakers do what they would do with it clear, but for `i`'s own. */
  lemma {:induction false} WakeAllUnlisted(st: State, fired: seq<int>, i: int)
    requires i in st.objs && st.objs[i].ready
    ensures var st' := WakeAll(st, fired);
            && i in st'.objs && st'.objs[i].ready
            && SetReady(st', i, false) == WakeAll(SetReady(st, i, false), Without(fired, i))
    decreases |fired|
  {
    hide Wake;
    hide SetReady;
    if fired != [] {
      var rest := Without(fired[1..], i);
      WakeUnlisted(st, i, fired[0]);
      WakeAllUnlisted(Wake(st, fired[0]), fired[1..], i);
      if fired[0] == i { assert [] + rest == rest; } else { assert ([fired[0]] + rest)[1..] == rest; }
    }
  }

  /** A waker that `i` itself has or has not does not matter to the others. */
  lemma UnregisterKeeps(st: State, i: int)
    requires InvBut(st, i)
    ensures InvBut(st.(wakers := st.wakers - {i}), i)
  {
    var st' := st.(wakers := st.wakers - {i});
    assert forall j :: Live(st', j) == Live(st, j);
    forall j | j != i ensures Covered(st', j) { assert Covered(st, j); }
  }

  /** The same change, seen with the flag clear: without `i`'s waker, if that was fired. */
  lemma ClearedChange(st: State, c: Change, i: int) returns (base: State, c': Change)
    requires i in st.objs && Armed(st, i) && st.objs[i].ready && Fires(st, c.file, c.events, c.fired)
    ensures var clear := SetReady(st, i, false);
            base == if i in c.fired then clear.(wakers := clear.wakers - {i}) else clear
    ensures Fires(base, c'.file, c'.events, c'.fired)
    ensures i in Disturb(st, c).objs && SetReady(Disturb(st, c), i, false) == Disturb(base, c')
  {
    var clear := SetReady(st, i, false);
    c' := c.(fired := Without(c.fired, i));
    base := if i in c.fired then clear.(wakers := clear.wakers - {i}) else clear;
    forall j ensures j in c'.fired <==> j in c.fired && j != i { WithoutMembers(c.fired, i, j); }
    var st0 := st.(files := st.files[c.file := c.events], wakers := st.wakers - set j | j in c.fired);
    WakeAllUnlisted(st0, c.fired, i);
    assert base.wakers - (set j | j in c'.fired) == st0.wakers;
    assert SetReady(st0, i, false) ==
           base.(files := base.files[c.file := c.events], wakers := base.wakers - set j | j in c'.fired);
  }

  lemma DisturbUnlisted(st: State, c: Change, i: int)
    requires Unlisted(st, i)
    ensures Unlisted(Disturb(st, c), i)
  {
    if Fires(st, c.file, c.events, c.fired) {
      var base, c' := ClearedChange(st, c, i);
      UnregisterKeeps(SetReady(st, i, false), i);
      hide InvBut;
      hide Fires;
      DisturbKeeps(base, c', i);
      DisturbOnward(st, c);
      OnwardArmed(st, Disturb(st, c), i);
      var st0 := st.(files := st.files[c.file := c.events], wakers := st.wakers - set j | j in c.fired);
      WakeAllUnlisted(st0, c.fired, i);
    }
  }

  lemma {:induction false} DisturbAllUnlisted(st: State, cs: seq<Change>, i: int)
    requires Unlisted(st, i)
    ensures Unlisted(DisturbAll(st, cs), i)
    decreases |cs|
  {
    hide Unlisted;
    hide Disturb;
    if cs != [] {
      DisturbUnlisted(st, cs[0], i);
      DisturbAllUnlisted(Disturb(st, cs[0]), cs[1..], i);
    }
  }

  /** Listing it again, or disabling it for good, makes all well. */
  lemma RelistInv(st: State, i: int)
    requires Unlisted(st, i)
    ensures Inv(st.(ready := st.ready + [i]))
    ensures Inv(st.(objs := st.objs[i := st.objs[i].(enabled := false)]))
  {
    var clear := SetReady(st, i, false);
    var listed, spent := st.(ready := st.ready + [i]), st.(objs := st.objs[i := st.objs[i].(enabled := false)]);
    assert i !in clear.ready;
    assert forall j :: Live(listed, j) == Live(clear, j) && Live(spent, j) == Live(clear, j);
    assert Listed(listed) && Listed(spent);
    forall j ensures Covered(listed, j) && Covered(spent, j) {
      if j != i { assert Covered(clear, j); }
    }
  }

  // ----------------------------------------------------------------- poll_events

  /** What a round does with an unlisted interest once it has been polled. */
  function Settle(st: State, i: int, hot: bool, noise: Noise): State
    requires i in st.objs
  {
    var obj := st.objs[i];
    if hot && obj.oneshot then st.(objs := st.objs[i := obj.(enabled := false)])
    else if hot && !obj.edge then st.(ready := st.ready + [i])
    else Repoll(DisturbAll(SetReady(st, i, false), noise.settle), i, noise)
  }

  /** One round of the loop in `poll_events`: take the first listed interest. */
  function PollOne(st: State, noise: Noise): (State, Option<Report>)
    requires st.ready != []
  {
    var i := st.ready[0];
    var st' := st.(ready := st.ready[1..]);
    if !Live(st', i) || !st'.objs[i].enabled then (st', None)
    else if !Armed(st', i) then (Delete(st', st'.objs[i].key), None)
    else
      var st1 := DisturbAll(st', noise.popped);
      ArmedStill(st', noise.popped, i);
      var obj := st1.objs[i];
      var report := if Hot(st1, i) then Some(Report(i, st1.files[obj.key.file], obj.data)) else None;
      ArmedStill(st1, noise.polled, i);
      (Settle(DisturbAll(st1, noise.polled), i, report.Some?, noise), report)
  }

  /** The loop: `n` rounds are left and `m` output slots. */
  function PollLoop(st: State, n: nat, m: nat, noises: seq<Noise>): (State, seq<Report>)
    decreases n
  {
    if n == 0 || m == 0 then (st, [])
    else
      var noise, rest := if noises == [] then SILENCE else noises[0], if noises == [] then [] else noises[1..];
      var st0 := DisturbAll(st, noise.before);
      if st0.ready == [] then (st0, [])
      else
        var (st', report) := PollOne(st0, noise);
        var r := PollLoop(st', n - 1, if report.Some? then m - 1 else m, rest);
        (r.0, (if report.Some? then [report.value] else []) + r.1)
  }

  function PollEvents(st: State, m: nat, noises: seq<Noise>): (State, seq<Report>) {
    PollLoop(st, |st.ready|, m, noises)
  }

  /** Unlisting the first interest and clearing its flag upsets no other. */
  lemma PopKeeps(st: State)
    requires Inv(st) && st.ready != []
    ensures var i, st' := st.ready[0], st.(ready := st.ready[1..]);
            && i in st.objs && i !in st'.ready
            && (forall j :: j != i ==> Covered(st', j))
            && (Live(st, i) ==> st.objs[i].ready && st.objs[i].enabled)
  {
    var i, st' := st.ready[0], st.(ready := st.ready[1..]);
    assert i in st.ready;
    forall j | j != i ensures Covered(st', j) {
      assert Covered(st, j);
      assert j in st.ready ==> j in st.ready[1..];
    }
  }

  lemma PopIdle(st: State)
    requires Inv(st) && st.ready != [] && !Live(st, st.ready[0])
    ensures Inv(st.(ready := st.ready[1..]))
  {
    PopKeeps(st);
    var i, st' := st.ready[0], st.(ready := st.ready[1..]);
    assert forall j :: Live(st', j) == Live(st, j);
    assert Listed(st') by { assert forall j :: j != i && j in st.ready ==> j in st'.ready; }
  }

  lemma PopClosed(st: State)
    requires Inv(st) && st.ready != [] && Live(st, st.ready[0]) && !Armed(st, st.ready[0])
    ensures Inv(Delete(st.(ready := st.ready[1..]), st.objs[st.ready[0]].key))
  {
    PopKeeps(st);
    var i := st.ready[0];
    var st' := Delete(st.(ready := st.ready[1..]), st.objs[i].key);
    assert forall j :: Live(st', j) ==> Live(st, j) && j != i;
    assert Listed(st') by { assert forall j :: j != i && j in st.ready ==> j in st'.ready; }
    forall j ensures Covered(st', j) { assert Covered(st, j); }
  }

  lemma PopRepolled(st: State)
    requires Inv(st) && st.ready != [] && Armed(st, st.ready[0])
    ensures InvBut(SetReady(st.(ready := st.ready[1..]), st.ready[0], false), st.ready[0])
  {
    PopKeeps(st);
    var i := st.ready[0];
    var st1 := st.(ready := st.ready[1..]);
    var st' := SetReady(st1, i, false);
    assert forall j :: Live(st', j) == Live(st, j);
    assert Listed(st') by { assert forall j :: j != i && j in st.ready ==> j in st'.ready; }
    forall j | j != i ensures Covered(st', j) { assert Covered(st1, j); }
  }

  /** Whatever changes before it is polled and after, the interest stays taken off. */
  lemma PopUnlisted(st: State, noise: Noise)
    requires Inv(st) && st.ready != [] && Armed(st, st.ready[0])
    ensures var i, st' := st.ready[0], st.(ready := st.ready[1..]);
            var st1 := DisturbAll(st', noise.popped);
            var st2 := DisturbAll(st1, noise.polled);
            Unlisted(st2, i) && Onward(st', st1) && Onward(st1, st2) && Onward(st', st2) && Armed(st1, i)
  {
    PopRepolled(st);
    PopKeeps(st);
    var i, st' := st.ready[0], st.(ready := st.ready[1..]);
    assert Armed(st', i);
    assert Unlisted(st', i);
    hide Inv;
    hide Unlisted;
    hide DisturbAll;
    ArmedStill(st', noise.popped, i);
    var st1 := DisturbAll(st', noise.popped);
    DisturbAllUnlisted(st', noise.popped, i);
    ArmedStill(st1, noise.polled, i);
    DisturbAllUnlisted(st1, noise.polled, i);
    OnwardTrans(st', st1, DisturbAll(st1, noise.polled));
  }

  lemma SettleAgain(st: State, i: int, noise: Noise)
    requires Unlisted(st, i)
    ensures var st1 := SetReady(st, i, false);
            var st2 := Repoll(DisturbAll(st1, noise.settle), i, noise);
            Inv(st2) && Onward(st1, st2)
  {
    hide InvBut;
    hide Inv;
    hide Repoll;
    hide DisturbAll;
    var st1 := SetReady(st, i, false);
    var st2 := DisturbAll(st1, noise.settle);
    DisturbAllKeeps(st1, noise.settle, i);
    RepollInv(st2, i, noise);
    OnwardTrans(st1, st2, Repoll(st2, i, noise));
  }

  lemma SettleInv(st: State, i: int, hot: bool, noise: Noise)
    requires Unlisted(st, i)
    ensures Inv(Settle(st, i, hot, noise))
  {
    RelistInv(st, i);
    SettleAgain(st, i, noise);
  }

  lemma PollOneInv(st: State, noise: Noise)
    requires Inv(st) && st.ready != []
    ensures Inv(PollOne(st, noise).0)
  {
    PopKeeps(st);
    hide Inv;
    hide Repoll;
    hide DisturbAll;
    hide Settle;
    var i, st' := st.ready[0], st.(ready := st.ready[1..]);
    assert Live(st', i) == Live(st, i) && Armed(st', i) == Armed(st, i);
    if !Live(st, i) {
      PopIdle(st);
    } else if !Armed(st, i) {
      PopClosed(st);
    } else {
      PopUnlisted(st, noise);
      var st1 := DisturbAll(st', noise.popped);
      SettleInv(DisturbAll(st1, noise.polled), i, Hot(st1, i), noise);
    }
  }

  /** Changes before a round keep the invariant. */
  lemma BeforeKeeps(st: State, cs: seq<Change>)
    requires Inv(st)
    ensures Inv(DisturbAll(st, cs)) && Onward(st, DisturbAll(st, cs))
  {
    hide DisturbAll;
    hide Listed;
    hide Covered;
    forall but ensures InvBut(DisturbAll(st, cs), but) && Onward(st, DisturbAll(st, cs)) {
      DisturbAllKeeps(st, cs, but);
    }
    assert InvBut(DisturbAll(st, cs), 0) && InvBut(DisturbAll(st, cs), 1);
  }

  lemma {:induction false} PollLoopInv(st: State, n: nat, m: nat, noises: seq<Noise>)
    requires Inv(st)
    ensures Inv(PollLoop(st, n, m, noises).0) && |PollLoop(st, n, m, noises).1| <= m
    decreases n
  {
    hide Inv;
    hide PollOne;
    hide DisturbAll;
    if n > 0 && m > 0 {
      var noise, rest := if noises == [] then SILENCE else noises[0], if noises == [] then [] else noises[1..];
      var st0 := DisturbAll(st, noise.before);
      BeforeKeeps(st, noise.before);
      if st0.ready != [] {
        PollOneInv(st0, noise);
        var (st', report) := PollOne(st0, noise);
        PollLoopInv(st', n - 1, if report.Some? then m - 1 else m, rest);
      }
    }
  }

  // -------------------------------------------------- what one call can report

  /** The same key, mask and data, whatever else has changed. */
  predicate SameAim(a: Interest, b: Interest) {
    a.key == b.key && a.mask == b.mask && a.data == b.data
  }

  ghost predicate SameAims(st: State, st': State) {
    st'.objs.Keys == st.objs.Keys && forall i :: i in st.objs ==> SameAim(st'.objs[i], st.objs[i])
  }

  lemma SettleOnward(st: State, i: int, hot: bool, noise: Noise)
    requires Unlisted(st, i)
    ensures st.ready <= Settle(st, i, hot, noise).ready && SameAims(st, Settle(st, i, hot, noise))
    ensures !hot ==> Stirred(st, Settle(st, i, hot, noise))
    ensures st.waiters == {} ==> Settle(st, i, hot, noise).waiters == {}
  {
    SettleAgain(st, i, noise);
    hide Repoll;
    hide DisturbAll;
    var st1 := SetReady(st, i, false);
  }

  /** What a round that polls its interest leaves, put in order. */
  lemma PollOneParts(st: State, noise: Noise) returns (st1: State, st2: State)
    requires Inv(st) && st.ready != [] && Armed(st, st.ready[0])
    ensures st1 == DisturbAll(st.(ready := st.ready[1..]), noise.popped) && st2 == DisturbAll(st1, noise.polled)
    ensures Onward(st.(ready := st.ready[1..]), st1) && Onward(st.(ready := st.ready[1..]), st2)
    ensures Unlisted(st2, st.ready[0]) && Armed(st1, st.ready[0])
    ensures PollOne(st, noise).0 == Settle(st2, st.ready[0], Hot(st1, st.ready[0]), noise)
    ensures PollOne(st, noise).1.Some? <==> Hot(st1, st.ready[0])
    ensures Hot(st1, st.ready[0]) ==>
              var obj := st1.objs[st.ready[0]];
              PollOne(st, noise).1.value == Report(st.ready[0], st1.files[obj.key.file], obj.data)
  {
    hide Inv;
    hide Settle;
    hide DisturbAll;
    hide Unlisted;
    PopUnlisted(st, noise);
    var i, st' := st.ready[0], st.(ready := st.ready[1..]);
    assert Live(st', i) == Live(st, i) && Armed(st', i) == Armed(st, i);
    st1 := DisturbAll(st', noise.popped);
    st2 := DisturbAll(st1, noise.polled);
  }

  /** What becomes of an interest that is reported and stays enabled, if its file does not
      change after the poll's flag is cleared: a level-triggered one is listed again at once,
      whatever its file does, without a waker and without waking anybody; an edge-triggered
      one is listed exactly if its file is still ready, and otherwise has its waker registered. */
  lemma ReportedListedIff(st: State, noise: Noise) returns (st2: State)
    requires Inv(st) && st.ready != [] && Armed(st, st.ready[0]) && !st.objs[st.ready[0]].oneshot
    requires PollOne(st, noise).1.Some?
    requires noise.settle == noise.look == noise.armed == noise.woken == []
    ensures st2 == DisturbAll(DisturbAll(st.(ready := st.ready[1..]), noise.popped), noise.polled)
    ensures var i, edge, st' := st.ready[0], st.objs[st.ready[0]].edge, PollOne(st, noise).0;
            && Armed(st2, i)
            && (i in st'.ready <==> !edge || Hot(st2, i))
            && st'.wakers == st2.wakers + (if edge && !Hot(st2, i) then {i} else {})
            && st'.waiters == (if edge && Hot(st2, i) then {} else st2.waiters)
  {
    hide Inv;
    hide DisturbAll;
    var i := st.ready[0];
    var st1, after := PollOneParts(st, noise);
    st2 := after;
    hide PollOne;
    SettledListedIff(st2, i, noise);
  }

  lemma SettledListedIff(st: State, i: int, noise: Noise)
    requires Unlisted(st, i) && !st.objs[i].oneshot
    requires noise.settle == noise.look == noise.armed == noise.woken == []
    ensures var edge, st' := st.objs[i].edge, Settle(st, i, true, noise);
            && (i in st'.ready <==> !edge || Hot(st, i))
            && st'.wakers == st.wakers + (if edge && !Hot(st, i) then {i} else {})
            && st'.waiters == (if edge && Hot(st, i) then {} else st.waiters)
  {
    var clear := SetReady(st, i, false);
    assert i !in clear.ready;
    assert Armed(clear, i) && Hot(clear, i) == Hot(st, i);
    assert forall x: State :: DisturbAll(x, []) == x;
    hide InvBut;
  }

  lemma PollOneOnward(st: State, noise: Noise)
    requires Inv(st) && st.ready != []
    ensures st.ready[1..] <= PollOne(st, noise).0.ready && SameAims(st, PollOne(st, noise).0)
    ensures PollOne(st, noise).1.None? ==> Stirred(st.(ready := st.ready[1..]), PollOne(st, noise).0)
    ensures st.waiters == {} ==> PollOne(st, noise).0.waiters == {}
  {
    hide Inv;
    hide Settle;
    hide DisturbAll;
    hide Unlisted;
    var i, st' := st.ready[0], st.(ready := st.ready[1..]);
    assert Armed(st', i) == Armed(st, i);
    if Armed(st, i) {
      var st1, st2 := PollOneParts(st, noise);
      SettleOnward(st2, i, Hot(st1, i), noise);
    }
  }

  lemma PollOneReport(st: State, noise: Noise)
    requires Inv(st) && st.ready != []
    ensures st.ready[0] !in st.ready[1..]
    ensures var r := PollOne(st, noise).1; r.Some? ==> Genuine(st, [r.value], [st.ready[0]])
  {
    PopKeeps(st);
    hide Inv;
    hide Settle;
    hide DisturbAll;
    hide Unlisted;
    var i := st.ready[0];
    assert Armed(st.(ready := st.ready[1..]), i) == Armed(st, i);
    if Armed(st, i) {
      var st1, st2 := PollOneParts(st, noise);
    }
  }

  /** Reports on distinct interests out of `among`, each with events that meet the
      interest's mask and with the interest's own data. */
  ghost predicate Genuine(st: State, out: seq<Report>, among: seq<int>) {
    && (forall r :: r in out ==>
          && r.interest in among && r.interest in st.objs
          && Meets(r.events, st.objs[r.interest].mask) && r.data == st.objs[r.interest].data)
    && (forall a, b :: 0 <= a < b < |out| ==> out[a].interest != out[b].interest)
  }

  lemma GenuineMore(st: State, st': State, report: Option<Report>, out: seq<Report>, i: int, among: seq<int>)
    requires Genuine(st', out, among) && i !in among && SameAims(st, st')
    requires report.Some? ==> Genuine(st, [report.value], [i])
    ensures Genuine(st, (if report.Some? then [report.value] else []) + out, [i] + among)
  {
    var all := (if report.Some? then [report.value] else []) + out;
    forall x | x in all ensures x in out || (report.Some? && x == report.value) { }
    if report.Some? {
      assert report.value in [report.value];
      forall b | 0 <= b < |out| ensures out[b].interest != i { assert out[b] in out; }
    } else {
      assert all == out;
    }
  }

  lemma GenuineSame(st: State, st': State, out: seq<Report>, among: seq<int>)
    requires Genuine(st', out, among) && SameAims(st, st')
    ensures Genuine(st, out, among)
  {
  }

  /** One call reports each interest at most once, only interests that were listed
      when it began, and only events that meet the interest's mask. */
  lemma {:induction false} PollReports(st: State, n: nat, m: nat, noises: seq<Noise>)
    requires Inv(st) && n <= |st.ready|
    ensures Genuine(st, PollLoop(st, n, m, noises).1, st.ready[..n])
    decreases n
  {
    hide Inv;
    hide PollOne;
    hide Genuine;
    hide DisturbAll;
    if n > 0 && m > 0 {
      var noise, rest := if noises == [] then SILENCE else noises[0], if noises == [] then [] else noises[1..];
      var st0 := DisturbAll(st, noise.before);
      BeforeKeeps(st, noise.before);
      PollOneInv(st0, noise);
      PollOneOnward(st0, noise);
      PollOneReport(st0, noise);
      var (st', report) := PollOne(st0, noise);
      var m' := if report.Some? then m - 1 else m;
      PollReports(st', n - 1, m', rest);
      assert st0.ready[..n] == st.ready[..n];
      assert st'.ready[..n - 1] == st0.ready[1..n];
      assert st0.ready[..n] == [st0.ready[0]] + st0.ready[1..n];
      assert st0.ready[1..n] <= st0.ready[1..];
      GenuineMore(st0, st', report, PollLoop(st', n - 1, m', rest).1, st0.ready[0], st0.ready[1..n]);
      GenuineSame(st, st0, PollLoop(st, n, m, noises).1, st.ready[..n]);
    } else {
      GenuineNone(st, st.ready[..n]);
    }
  }

  lemma GenuineNone(st: State, among: seq<int>)
    ensures Genuine(st, [], among)
  {
  }

  // ------------------------------------------------------------------- fairness

  /** An enabled interest whose file is ready, of whatever kind. */
  ghost predicate Steady(st: State, i: int) {
    i in st.objs && Armed(st, i) && Hot(st, i)
  }

  /** The change leaves the file of `obj` ready for its mask. */
  predicate Spares(c: Change, obj: Interest) {
    c.file == obj.key.file ==> Meets(c.events, obj.mask)
  }

  ghost predicate AllSpare(cs: seq<Change>, obj: Interest) {
    forall k :: 0 <= k < |cs| ==> Spares(cs[k], obj)
  }

  ghost predicate SparesAll(noise: Noise, obj: Interest) {
    && AllSpare(noise.before, obj) && AllSpare(noise.popped, obj) && AllSpare(noise.polled, obj)
    && AllSpare(noise.settle, obj) && AllSpare(noise.look, obj) && AllSpare(noise.armed, obj)
    && AllSpare(noise.woken, obj)
  }

  /** The file of `obj` stays ready, whatever other files do. */
  ghost predicate StaysReady(noises: seq<Noise>, obj: Interest) {
    forall k :: 0 <= k < |noises| ==> SparesAll(noises[k], obj)
  }

  lemma DisturbSteady(st: State, c: Change, i: int)
    requires Steady(st, i) && Spares(c, st.objs[i])
    ensures Steady(Disturb(st, c), i)
  {
    hide Disturb;
    DisturbOnward(st, c);
  }

  lemma {:induction false} DisturbAllSteady(st: State, cs: seq<Change>, i: int)
    requires Steady(st, i) && AllSpare(cs, st.objs[i])
    ensures Steady(DisturbAll(st, cs), i)
    decreases |cs|
  {
    hide Disturb;
    hide Hot;
    if cs != [] {
      DisturbOnward(st, cs[0]);
      DisturbSteady(st, cs[0], i);
      DisturbAllSteady(Disturb(st, cs[0]), cs[1..], i);
    }
  }

  lemma ArmSteady(st: State, j: int, noise: Noise, i: int)
    requires Steady(st, i) && SparesAll(noise, st.objs[i])
    ensures var st1 := DisturbAll(st, noise.look);
            Steady(DisturbAll(st1.(wakers := st1.wakers + {j}), noise.armed), i)
  {
    var st1 := DisturbAll(st, noise.look);
    var st1' := st1.(wakers := st1.wakers + {j});
    hide DisturbAll;
    DisturbAllOnward(st, noise.look);
    DisturbAllSteady(st, noise.look, i);
    DisturbAllSteady(st1', noise.armed, i);
  }

  lemma LateWakeSteady(st: State, cs: seq<Change>, j: int, i: int)
    requires Steady(st, i) && AllSpare(cs, st.objs[i])
    ensures Steady(Wake(DisturbAll(st, cs), j), i)
  {
    hide DisturbAll;
    hide Wake;
    var st1 := DisturbAll(st, cs);
    DisturbAllSteady(st, cs, i);
    WakeGrows(st1, j);
  }

  lemma RepollSteady(st: State, j: int, noise: Noise, i: int)
    requires Steady(st, i) && SparesAll(noise, st.objs[i])
    ensures Steady(Repoll(st, j, noise), i)
  {
    hide DisturbAll;
    hide Wake;
    if Armed(st, j) {
      var st1 := DisturbAll(st, noise.look);
      var st2 := DisturbAll(st1.(wakers := st1.wakers + {j}), noise.armed);
      LateWakeSteady(st, noise.woken, j, i);
      ArmSteady(st, j, noise, i);
      DisturbAllOnward(st, noise.look);
      DisturbAllOnward(st1.(wakers := st1.wakers + {j}), noise.armed);
      LateWakeSteady(st2, noise.woken, j, i);
    }
  }

  /** Settling another interest leaves it steady. */
  lemma SettleSteady(st: State, j: int, hot: bool, noise: Noise, i: int)
    requires j in st.objs && Steady(st, i) && SparesAll(noise, st.objs[i]) && j != i
    ensures Steady(Settle(st, j, hot, noise), i)
  {
    hide DisturbAll;
    hide Repoll;
    var st1 := SetReady(st, j, false);
    assert Steady(st1, i);
    DisturbAllOnward(st1, noise.settle);
    DisturbAllSteady(st1, noise.settle, i);
    RepollSteady(DisturbAll(st1, noise.settle), j, noise, i);
  }

  lemma PopSteady(st: State, noise: Noise, i: int)
    requires Inv(st) && st.ready != [] && Steady(st, i) && !Armed(st, st.ready[0])
    ensures Steady(PollOne(st, noise).0, i)
  {
    hide DisturbAll;
    hide Settle;
    var j, st' := st.ready[0], st.(ready := st.ready[1..]);
    assert Live(st', j) == Live(st, j) && Armed(st', j) == Armed(st, j);
  }

  lemma PollOneSteady(st: State, noise: Noise, i: int)
    requires Inv(st) && st.ready != [] && Steady(st, i) && SparesAll(noise, st.objs[i])
    ensures i != st.ready[0] ==> Steady(PollOne(st, noise).0, i)
    ensures i == st.ready[0] ==> PollOne(st, noise).1.Some? && PollOne(st, noise).1.value.interest == i
  {
    hide Inv;
    hide PollOne;
    hide Settle;
    hide DisturbAll;
    hide Unlisted;
    var j, st' := st.ready[0], st.(ready := st.ready[1..]);
    if Armed(st, j) {
      var st1, st2 := PollOneParts(st, noise);
      assert Steady(st', i);
      DisturbAllSteady(st', noise.popped, i);
      DisturbAllSteady(st1, noise.polled, i);
      if i != j { SettleSteady(st2, j, Hot(st1, j), noise, i); }
    } else {
      PopSteady(st, noise, i);
    }
  }

  /** Changes before a round leave a steady interest where it is. */
  lemma BeforeSteady(st: State, cs: seq<Change>, i: int)
    requires Inv(st) && Steady(st, i) && AllSpare(cs, st.objs[i])
    ensures var st0 := DisturbAll(st, cs);
            Inv(st0) && Steady(st0, i) && SameAim(st0.objs[i], st.objs[i]) && st.ready <= st0.ready
  {
    hide DisturbAll;
    hide Listed;
    hide Covered;
    BeforeKeeps(st, cs);
    DisturbAllSteady(st, cs, i);
  }

  ghost predicate Reported(out: seq<Report>, i: int) {
    exists a :: 0 <= a < |out| && out[a].interest == i
  }

  /** Within one call of `m` slots, a steady interest at position `p` is reported or
      moves at least `m` places to the front. */
  lemma {:induction false} PollAdvances(st: State, n: nat, m: nat, noises: seq<Noise>, i: int, p: nat) returns (q: int)
    requires Inv(st) && p < n <= |st.ready| && st.ready[p] == i
    requires Steady(st, i) && StaysReady(noises, st.objs[i])
    ensures var (st', out) := PollLoop(st, n, m, noises);
            || Reported(out, i)
            || (&& Steady(st', i) && SameAim(st'.objs[i], st.objs[i])
                && 0 <= q <= p - m && q < |st'.ready| && st'.ready[q] == i)
    decreases n
  {
    hide Inv;
    hide PollOne;
    hide DisturbAll;
    hide Armed;
    hide Hot;
    q := p;
    if m > 0 {
      var noise, rest := if noises == [] then SILENCE else noises[0], if noises == [] then [] else noises[1..];
      assert SparesAll(noise, st.objs[i]);
      var st0 := DisturbAll(st, noise.before);
      BeforeSteady(st, noise.before, i);
      PollOneInv(st0, noise);
      PollOneSteady(st0, noise, i);
      PollOneOnward(st0, noise);
      LoopRound(st, n, m, noises);
      var (st', report) := PollOne(st0, noise);
      var m' := if report.Some? then m - 1 else m;
      hide PollLoop;
      hide StaysReady;
      var out' := PollLoop(st', n - 1, m', rest).1;
      if p > 0 {
        assert st'.ready[p - 1] == st0.ready[1..][p - 1] == st0.ready[p];
        FirstOnce(st0, p);
        assert StaysReady(rest, st'.objs[i]) by { StaysSame(noises, rest, st.objs[i], st'.objs[i]); }
        q := PollAdvances(st', n - 1, m', rest, i, p - 1);
        if Reported(out', i) { ReportedLater(report, out', i); }
      } else {
        assert ([report.value] + out')[0].interest == i;
      }
    }
  }

  lemma FirstOnce(st: State, p: nat)
    requires Inv(st) && 0 < p < |st.ready|
    ensures st.ready[p] != st.ready[0]
  {
  }

  lemma StaysSame(noises: seq<Noise>, rest: seq<Noise>, a: Interest, b: Interest)
    requires StaysReady(noises, a) && SameAim(a, b) && rest == if noises == [] then [] else noises[1..]
    ensures StaysReady(rest, b)
  {
    forall k | 0 <= k < |rest| ensures SparesAll(rest[k], b) { assert SparesAll(noises[k + 1], a); }
  }

  lemma ReportedLater(report: Option<Report>, out: seq<Report>, i: int)
    requires Reported(out, i)
    ensures Reported((if report.Some? then [report.value] else []) + out, i)
  {
    var first := if report.Some? then [report.value] else [];
    var a :| 0 <= a < |out| && out[a].interest == i;
    assert (first + out)[|first| + a] == out[a];
  }

  // ------------------------------------------------------------ what a call reports

  /** `j` is alive, enabled, on an open file, and that file is ready. */
  predicate Due(st: State, j: int) {
    Armed(st, j) && Hot(st, j)
  }

  lemma WakeOnward(st: State, i: int)
    ensures Onward(st, Wake(st, i)) && Wake(st, i).files == st.files
  {
    WakeGrows(st, i);
  }

  lemma RegisterOnward(st: State, i: int)
    ensures Onward(st, st.(wakers := st.wakers + {i}))
  {
  }

  lemma SilentRepoll(st: State, i: int)
    ensures var st' := Repoll(st, i, SILENCE); Onward(st, st') && st'.files == st.files
  {
    hide Wake;
    hide Onward;
    var st1 := st.(wakers := st.wakers + {i});
    RegisterOnward(st, i);
    WakeOnward(st, i);
    WakeOnward(st1, i);
    OnwardTrans(st, st1, Wake(st1, i));
    assert Onward(st, st) by { OnwardSame(st); }
  }

  lemma OnwardSame(st: State)
    ensures Onward(st, st)
  {
  }

  /** A round without changes reports its interest exactly if that is due, and does not
      change what else is due. */
  lemma SilentRound(st: State, j: int)
    requires Inv(st) && st.ready != []
    ensures var (st', report) := PollOne(st, SILENCE);
            && (report.Some? <==> Due(st, st.ready[0])) && (report.Some? ==> report.value.interest == st.ready[0])
            && (j != st.ready[0] ==> Due(st', j) == Due(st, j))
  {
    PopKeeps(st);
    hide Inv;
    hide Settle;
    var i, popped := st.ready[0], st.(ready := st.ready[1..]);
    assert Live(popped, i) == Live(st, i) && Armed(popped, i) == Armed(st, i) && Due(popped, j) == Due(st, j);
    if Armed(st, i) && j != i {
    }
  }

  lemma {:induction false} PollExactLoop(st: State, n: nat, m: nat, i: int)
    requires Inv(st) && n <= |st.ready| && n <= m
    ensures Reported(PollLoop(st, n, m, []).1, i) <==> i in st.ready[..n] && Due(st, i)
    decreases n
  {
    hide Inv;
    hide PollOne;
    hide Due;
    if n > 0 {
      LoopRound(st, n, m, []);
      hide PollLoop;
      var j := st.ready[0];
      SilentRound(st, i);
      PollOneInv(st, SILENCE);
      PollOneOnward(st, SILENCE);
      PollOneReport(st, SILENCE);
      var (st', report) := PollOne(st, SILENCE);
      var m' := if report.Some? then m - 1 else m;
      PollExactLoop(st', n - 1, m', i);
      var rest := PollLoop(st', n - 1, m', []).1;
      ReportedSplit(report, rest, i);
      assert st'.ready[..n - 1] == st.ready[1..n];
      assert st.ready[..n] == [j] + st.ready[1..n];
      assert st.ready[1..n] <= st.ready[1..];
    }
  }

  lemma ReportedSplit(report: Option<Report>, out: seq<Report>, i: int)
    ensures Reported((if report.Some? then [report.value] else []) + out, i) <==>
            Reported(out, i) || (report.Some? && report.value.interest == i)
  {
    var first := if report.Some? then [report.value] else [];
    if Reported(out, i) { ReportedLater(report, out, i); }
    if report.Some? && report.value.interest == i { assert (first + out)[0].interest == i; }
    if a :| 0 <= a < |first + out| && (first + out)[a].interest == i {
      if a >= |first| { assert out[a - |first|] == (first + out)[a]; }
    }
  }

  /** With slots enough and no changes meanwhile, a call reports exactly the interests that
      are due, edge-triggered or not: an edge-triggered one is reported again exactly if its
      file is still ready, whether or not there was a new edge. */
  lemma PollExact(st: State, m: nat, i: int)
    requires Inv(st) && |st.ready| <= m
    ensures Reported(PollEvents(st, m, []).1, i) <==> Due(st, i)
  {
    PollExactLoop(st, |st.ready|, m, i);
    assert st.ready[..|st.ready|] == st.ready;
    assert Covered(st, i);
  }

  /** The reports have all events of their files, whatever was asked for, and the data given. */
  ghost predicate Current(st: State, out: seq<Report>) {
    forall r :: r in out ==>
      && r.interest in st.objs && st.objs[r.interest].key.file in st.files
      && r.events == st.files[st.objs[r.interest].key.file] && r.data == st.objs[r.interest].data
  }

  lemma SilentReport(st: State)
    requires Inv(st) && st.ready != []
    ensures var (st', report) := PollOne(st, SILENCE);
            st'.files == st.files && (report.Some? ==> Current(st, [report.value]))
  {
    PopKeeps(st);
    var i, popped := st.ready[0], st.(ready := st.ready[1..]);
    assert Live(popped, i) == Live(st, i) && Armed(popped, i) == Armed(st, i);
    hide Inv;
    hide Repoll;
    if Armed(st, i) { SilentRepoll(SetReady(popped, i, false), i); }
  }

  lemma CurrentMore(st: State, st': State, report: Option<Report>, out: seq<Report>)
    requires Current(st', out) && SameAims(st, st') && st'.files == st.files
    requires report.Some? ==> Current(st, [report.value])
    ensures Current(st, (if report.Some? then [report.value] else []) + out)
  {
    var all := (if report.Some? then [report.value] else []) + out;
    forall r | r in all ensures r in out || (report.Some? && r in [report.value]) { }
  }

  /** Without changes meanwhile, a report has the file's events as they are, unmasked. */
  lemma {:induction false} PollCurrent(st: State, n: nat, m: nat)
    requires Inv(st)
    ensures Current(st, PollLoop(st, n, m, []).1)
    decreases n
  {
    hide Inv;
    hide PollOne;
    if n > 0 && m > 0 {
      LoopRound(st, n, m, []);
      hide PollLoop;
      if st.ready != [] {
        SilentReport(st);
        PollOneInv(st, SILENCE);
        PollOneOnward(st, SILENCE);
        var (st', report) := PollOne(st, SILENCE);
        var m' := if report.Some? then m - 1 else m;
        PollCurrent(st', n - 1, m');
        hide Current;
        CurrentMore(st, st', report, PollLoop(st', n - 1, m', []).1);
      }
    }
  }

  /** No event is outside the mask. */
  predicate Only(events: Events, mask: Events) {
    events & !mask == 0
  }

  /** A report has nothing but what was asked for exactly if the file has nothing else. */
  lemma AskedOnlyIff(st: State, m: nat, r: Report)
    requires Inv(st) && r in PollEvents(st, m, []).1
    ensures r.interest in st.objs && st.objs[r.interest].key.file in st.files
    ensures var obj := st.objs[r.interest];
            Only(r.events, obj.mask) <==> Only(st.files[obj.key.file], obj.mask)
  {
    hide Only;
    PollCurrent(st, |st.ready|, m);
  }

  /** That an interest is due is not changed by reporting it, if it is edge-triggered. */
  lemma EdgeStaysDue(st: State, i: int)
    requires Inv(st) && st.ready == [i] && Due(st, i) && st.objs[i].edge && !st.objs[i].oneshot
    ensures var st' := PollEvents(st, 1, []).0; Inv(st') && st'.ready == [i] && Due(st', i)
  {
    PollLoopInv(st, 1, 1, []);
    LoopRound(st, 1, 1, []);
    var popped := st.(ready := []);
    assert st.ready[1..] == [];
    assert Armed(popped, i) == Armed(st, i);
    var clear := SetReady(popped, i, false);
    assert Due(clear, i);
    assert Repoll(clear, i, SILENCE) == Wake(clear, i);
    LoopEnd(PollOne(st, SILENCE).0, 0, 0, []);
    assert [] + [i] == [i];
  }

  // ------------------------------------------------------------------------ runs

  datatype Step =
    | StepOpen(file: int, events: Events)
    | StepFile(change: Change)
    | StepClose(file: int)
    | StepAdd(key: Key, i: int, mask: Events, data: int, edge: bool, oneshot: bool, noise: Noise)
    | StepModify(key: Key, i: int, mask: Events, data: int, edge: bool, oneshot: bool, noise: Noise)
    | StepDelete(key: Key)
    | StepPoll(m: nat, noises: seq<Noise>)
    | StepSleep(task: int, m: nat, noises: seq<Noise>)
    | StepLeave(task: int)

  /** `EPOLL_CTL_ADD` on an open descriptor; a key already present is EEXIST. */
  function Add(st: State, key: Key, i: int, mask: Events, data: int, edge: bool, oneshot: bool, noise: Noise): State
  {
    if key in st.interests then st else Install(st, key, i, NewInterest(key, mask, data, edge, oneshot), noise)
  }

  /** `EPOLL_CTL_MOD`; a key not present is ENOENT. */
  function Modify(st: State, key: Key, i: int, mask: Events, data: int, edge: bool, oneshot: bool, noise: Noise): State
  {
    if key !in st.interests then st else Install(st, key, i, NewInterest(key, mask, data, edge, oneshot), noise)
  }

  /** `Pollable::register`: a waiter joins the instance's poll set. */
  function Register(st: State, task: int): State {
    st.(waiters := st.waiters + {task})
  }

  /** New files and interests are fresh, and files wake when they become ready.  A task
      goes to sleep when it has registered, tried once more and found nothing. */
  ghost predicate Next(st: State, step: Step, st': State) {
    match step
    case StepOpen(f, events) =>
      && f !in st.files && (forall i :: i in st.objs ==> st.objs[i].key.file != f)
      && st' == st.(files := st.files[f := events])
    case StepFile(c) => Fires(st, c.file, c.events, c.fired) && st' == Disturb(st, c)
    case StepClose(f) => st' == Close(st, f)
    case StepAdd(key, i, mask, data, edge, oneshot, noise) =>
      key.file in st.files && i !in st.objs && st' == Add(st, key, i, mask, data, edge, oneshot, noise)
    case StepModify(key, i, mask, data, edge, oneshot, noise) =>
      key.file in st.files && i !in st.objs && st' == Modify(st, key, i, mask, data, edge, oneshot, noise)
    case StepDelete(key) => st' == Delete(st, key)
    case StepPoll(m, noises) => st' == PollEvents(st, m, noises).0
    case StepSleep(task, m, noises) => m > 0 && PollEvents(Register(st, task), m, noises) == (st', [])
    case StepLeave(task) => st' == st.(waiters := st.waiters - {task})
  }

  lemma OpenInv(st: State, f: int, events: Events)
    requires Inv(st) && f !in st.files && (forall i :: i in st.objs ==> st.objs[i].key.file != f)
    ensures Inv(st.(files := st.files[f := events]))
  {
    var st' := st.(files := st.files[f := events]);
    assert forall j :: Live(st', j) == Live(st, j);
    forall j ensures Covered(st', j) { assert Covered(st, j); }
  }

  /** Who waits for the instance does not matter to the interests. */
  lemma WaitersFrame(st: State, waiters: set<int>)
    requires Inv(st)
    ensures Inv(st.(waiters := waiters))
  {
    var st' := st.(waiters := waiters);
    assert forall j :: Live(st', j) == Live(st, j);
    forall j ensures Covered(st', j) { assert Covered(st, j); }
  }

  lemma NextInv(st: State, step: Step, st': State)
    requires Inv(st) && Next(st, step, st')
    ensures Inv(st')
  {
    hide Inv;
    hide Install;
    hide Fires;
    hide Disturb;
    hide PollLoop;
    match step
    case StepOpen(f, events) => OpenInv(st, f, events);
    case StepFile(c) =>
      BeforeKeeps(st, [c]);
      assert DisturbAll(st, [c]) == Disturb(st, c);
    case StepClose(f) => CloseInv(st, f);
    case StepAdd(key, i, mask, data, edge, oneshot, noise) =>
      InstallInv(st, key, i, NewInterest(key, mask, data, edge, oneshot), noise);
    case StepModify(key, i, mask, data, edge, oneshot, noise) =>
      InstallInv(st, key, i, NewInterest(key, mask, data, edge, oneshot), noise);
    case StepDelete(key) => DeleteInv(st, key);
    case StepPoll(m, noises) => PollLoopInv(st, |st.ready|, m, noises);
    case StepSleep(task, m, noises) =>
      WaitersFrame(st, st.waiters + {task});
      PollLoopInv(Register(st, task), |st.ready|, m, noises);
    case StepLeave(task) => WaitersFrame(st, st.waiters - {task});
  }

  // ------------------------------------------------------------ waiting for events

  /** Nobody sleeps beside a ready list that has entries. */
  ghost predicate Hushed(st: State) {
    st.waiters != {} ==> st.ready == []
  }

  /** At most `n` entries are listed that a sleeper has not been woken for. */
  ghost predicate Few(st: State, n: int) {
    st.waiters != {} ==> |st.ready| <= n
  }

  lemma PollOneFew(st: State, noise: Noise, n: nat)
    requires Inv(st) && st.ready != [] && Few(st, n) && PollOne(st, noise).1.None?
    ensures Few(PollOne(st, noise).0, n - 1)
  {
    hide Inv;
    hide PollOne;
    PollOneOnward(st, noise);
  }

  /** A call that finds nothing has gone through the whole list: what is listed after it
      was listed while it ran, and that has woken everybody. */
  lemma {:induction false} PollEmpties(st: State, n: nat, m: nat, noises: seq<Noise>)
    requires Inv(st) && m > 0 && Few(st, n) && PollLoop(st, n, m, noises).1 == []
    ensures Hushed(PollLoop(st, n, m, noises).0)
    decreases n
  {
    hide Inv;
    hide PollOne;
    hide DisturbAll;
    if n > 0 {
      var noise, rest := if noises == [] then SILENCE else noises[0], if noises == [] then [] else noises[1..];
      var st0 := DisturbAll(st, noise.before);
      BeforeKeeps(st, noise.before);
      if st0.ready != [] {
        PollOneInv(st0, noise);
        PollOneFew(st0, noise, n);
        PollEmpties(PollOne(st0, noise).0, n - 1, m, rest);
      }
    }
  }

  lemma SilentWaiters(st: State)
    requires Inv(st) && st.ready != [] && PollOne(st, SILENCE).1.None?
    ensures PollOne(st, SILENCE).0.waiters == st.waiters
  {
    PopKeeps(st);
    hide Inv;
    var i, popped := st.ready[0], st.(ready := st.ready[1..]);
    assert Live(popped, i) == Live(st, i) && Armed(popped, i) == Armed(st, i);
    if Armed(st, i) {
      var clear := SetReady(popped, i, false);
      assert Armed(clear, i) && !Hot(clear, i);
      assert Repoll(clear, i, SILENCE) == clear.(wakers := clear.wakers + {i});
    }
  }

  lemma {:induction false} SilentSleep(st: State, n: nat, m: nat)
    requires Inv(st) && PollLoop(st, n, m, []).1 == []
    ensures PollLoop(st, n, m, []).0.waiters == st.waiters
    decreases n
  {
    hide Inv;
    hide PollOne;
    if n > 0 && m > 0 && st.ready != [] {
      SilentLoop(st, n, m);
      hide PollLoop;
      SilentWaiters(st);
      PollOneInv(st, SILENCE);
      SilentSleep(PollOne(st, SILENCE).0, n - 1, m);
    }
  }

  lemma SilentLoop(st: State, n: nat, m: nat)
    requires n > 0 && m > 0 && st.ready != [] && PollLoop(st, n, m, []).1 == []
    ensures PollOne(st, SILENCE).1.None? && PollLoop(st, n, m, []) == PollLoop(PollOne(st, SILENCE).0, n - 1, m, [])
  {
    hide PollOne;
  }

  /** A task that registers, finds nothing due and sees no change meanwhile is asleep, beside
      all that were; if something is due, it gets a report instead. */
  lemma SleepsIff(st: State, task: int, m: nat)
    requires Inv(st) && |st.ready| <= m
    ensures var (st', out) := PollEvents(Register(st, task), m, []);
            && (out == [] <==> forall i :: !Due(st, i))
            && (out == [] ==> st'.waiters == st.waiters + {task})
  {
    var st0 := Register(st, task);
    WaitersFrame(st, st.waiters + {task});
    assert forall i :: Due(st0, i) == Due(st, i);
    hide Inv;
    hide Due;
    hide PollLoop;
    var out := PollEvents(st0, m, []).1;
    forall i ensures Reported(out, i) <==> Due(st0, i) { PollExact(st0, m, i); }
    if out == [] {
      SilentSleep(st0, |st0.ready|, m);
    } else {
      assert Reported(out, out[0].interest);
    }
  }

  lemma {:induction false} PollWakesOnly(st: State, n: nat, m: nat, noises: seq<Noise>)
    requires Inv(st)
    ensures st.waiters == {} ==> PollLoop(st, n, m, noises).0.waiters == {}
    decreases n
  {
    hide Inv;
    hide PollOne;
    hide DisturbAll;
    if n > 0 && m > 0 {
      var noise, rest := if noises == [] then SILENCE else noises[0], if noises == [] then [] else noises[1..];
      var st0 := DisturbAll(st, noise.before);
      BeforeKeeps(st, noise.before);
      if st0.ready != [] {
        PollOneInv(st0, noise);
        PollOneOnward(st0, noise);
        var (st', report) := PollOne(st0, noise);
        PollWakesOnly(st', n - 1, if report.Some? then m - 1 else m, rest);
      }
    }
  }

  lemma InstallStirs(st: State, key: Key, i: int, obj: Interest, noise: Noise)
    requires Inv(st) && i !in st.objs && obj.key == key && obj.enabled && !obj.ready
    ensures Stirred(st, Install(st, key, i, obj, noise)) && st.ready <= Install(st, key, i, obj, noise).ready
  {
    var st' := st.(interests := st.interests[key := i], objs := st.objs[i := obj]);
    InstalledBut(st, key, i, obj);
    hide InvBut;
    hide Repoll;
    RepollInv(st', i, noise);
  }

  lemma NextHushed(st: State, step: Step, st': State)
    requires Inv(st) && Hushed(st) && Next(st, step, st')
    ensures Hushed(st')
  {
    hide Inv;
    hide Install;
    hide Fires;
    hide Disturb;
    hide PollLoop;
    match step
    case StepFile(c) =>
      BeforeKeeps(st, [c]);
      assert DisturbAll(st, [c]) == Disturb(st, c);
    case StepAdd(key, i, mask, data, edge, oneshot, noise) =>
      InstallStirs(st, key, i, NewInterest(key, mask, data, edge, oneshot), noise);
    case StepModify(key, i, mask, data, edge, oneshot, noise) =>
      InstallStirs(st, key, i, NewInterest(key, mask, data, edge, oneshot), noise);
    case StepPoll(m, noises) =>
      PollWakesOnly(st, |st.ready|, m, noises);
      if st.waiters != {} { LoopEnd(st, 0, m, noises); }
    case StepSleep(task, m, noises) =>
      WaitersFrame(st, st.waiters + {task});
      PollEmpties(Register(st, task), |st.ready|, m, noises);
    case _ =>
  }

  lemma LoopEnd(st: State, n: nat, m: nat, noises: seq<Noise>)
    requires n == 0 || m == 0
    ensures PollLoop(st, n, m, noises) == (st, [])
  {
  }

  lemma LoopRound(st: State, n: nat, m: nat, noises: seq<Noise>)
    requires n > 0 && m > 0
    ensures var noise, rest := if noises == [] then SILENCE else noises[0], if noises == [] then [] else noises[1..];
            var st0 := DisturbAll(st, noise.before);
            var all := PollLoop(st, n, m, noises);
            if st0.ready == [] then all == (st0, [])
            else
              var (st', report) := PollOne(st0, noise);
              var r := PollLoop(st', n - 1, if report.Some? then m - 1 else m, rest);
              all.0 == r.0 && all.1 == (if report.Some? then [report.value] else []) + r.1
  {
    hide PollOne;
    hide DisturbAll;
  }

  const INITIAL := State(map[], map[], [], map[], {}, {})

  ghost predicate Run(states: seq<State>, steps: seq<Step>) {
    && |states| == |steps| + 1 && states[0] == INITIAL
    && forall k :: 0 <= k < |steps| ==> Next(states[k], steps[k], states[k + 1])
  }

  lemma {:induction false} RunInv(states: seq<State>, steps: seq<Step>, n: nat)
    requires Run(states, steps) && n < |states|
    ensures Inv(states[n]) && Hushed(states[n])
  {
    hide Next;
    if n > 0 {
      RunInv(states, steps, n - 1);
      NextInv(states[n - 1], steps[n - 1], states[n]);
      NextHushed(states[n - 1], steps[n - 1], states[n]);
    }
  }

  /** In every state of every run: the ready list has no duplicates, an armed interest
      has its flag set exactly when it is listed, it is listed or its waker is
      registered, and it is listed whenever its file's events meet its mask. */
  lemma RunNeverLoses(states: seq<State>, steps: seq<Step>, n: nat, i: int)
    requires Run(states, steps) && n < |states|
    ensures NoDup(states[n].ready)
    ensures Armed(states[n], i) ==>
              && (states[n].objs[i].ready <==> i in states[n].ready)
              && (i in states[n].ready || i in states[n].wakers)
              && (Hot(states[n], i) ==> i in states[n].ready)
  {
    RunInv(states, steps, n);
    assert Covered(states[n], i);
  }

  /** Nobody sleeps through an event: while a task is asleep, no enabled interest on an
      open file is ready. */
  lemma RunNobodySleepsOver(states: seq<State>, steps: seq<Step>, n: nat, i: int)
    requires Run(states, steps) && n < |states| && states[n].waiters != {} && Armed(states[n], i)
    ensures !Hot(states[n], i)
  {
    RunInv(states, steps, n);
    RunNeverLoses(states, steps, n, i);
  }

  // ------------------------------------------------------ what the calls have set up

  lemma RepollOnward(st: State, i: int, noise: Noise)
    ensures Onward(st, Repoll(st, i, noise))
  {
    hide Wake;
    hide DisturbAll;
    hide Onward;
    OnwardSame(st);
    if Armed(st, i) {
      var st1 := DisturbAll(st, noise.look);
      var st1' := st1.(wakers := st1.wakers + {i});
      var st2 := DisturbAll(st1', noise.armed);
      LateWakeOnward(st, noise.woken, i);
      LateWakeOnward(st2, noise.woken, i);
      DisturbAllOnward(st, noise.look);
      RegisterOnward(st1, i);
      DisturbAllOnward(st1', noise.armed);
      OnwardTrans(st, st1, st1');
      OnwardTrans(st, st1', st2);
      OnwardTrans(st, st2, Wake(DisturbAll(st2, noise.woken), i));
    }
  }

  lemma LateWakeOnward(st: State, cs: seq<Change>, i: int)
    ensures Onward(st, Wake(DisturbAll(st, cs), i))
  {
    hide Onward;
    DisturbAllOnward(st, cs);
    WakeOnward(DisturbAll(st, cs), i);
    OnwardTrans(st, DisturbAll(st, cs), Wake(DisturbAll(st, cs), i));
  }

  /** What a poll with reports `out` does to the interests.  They keep their settings; a
      one-shot interest is disabled exactly if it is reported; only enabled interests are
      reported; and none on an open file is dropped. */
  ghost predicate Polled(st: State, out: seq<Report>, st': State) {
    && st'.objs.Keys == st.objs.Keys && st'.files.Keys == st.files.Keys
    && (forall j :: j in st.objs ==>
          && st'.objs[j] == st.objs[j].(ready := st'.objs[j].ready, enabled := st'.objs[j].enabled)
          && (st'.objs[j].enabled <==> st.objs[j].enabled && !(st.objs[j].oneshot && Reported(out, j))))
    && (forall j :: Reported(out, j) ==> Live(st, j) && st.objs[j].enabled)
    && (forall k :: k in st'.interests ==> k in st.interests && st'.interests[k] == st.interests[k])
    && (forall k :: k in st.interests && k.file in st.files ==> k in st'.interests)
  }

  lemma OnwardPolled(st: State, st': State)
    requires Onward(st, st')
    ensures Polled(st, [], st')
  {
  }

  lemma PolledLive(st: State, out: seq<Report>, st': State, j: int)
    requires Polled(st, out, st') && Live(st', j)
    ensures Live(st, j)
  {
  }

  lemma PolledTrans(a: State, out1: seq<Report>, b: State, out2: seq<Report>, c: State)
    requires Polled(a, out1, b) && Polled(b, out2, c)
    ensures Polled(a, out1 + out2, c)
  {
    forall j ensures Reported(out1 + out2, j) <==> Reported(out1, j) || Reported(out2, j) {
      ReportedJoin(out1, out2, j);
    }
    forall j | Live(b, j) ensures Live(a, j) { PolledLive(a, out1, b, j); }
    hide Reported;
  }

  lemma ReportedJoin(out1: seq<Report>, out2: seq<Report>, j: int)
    ensures Reported(out1 + out2, j) <==> Reported(out1, j) || Reported(out2, j)
  {
    if a :| 0 <= a < |out1| && out1[a].interest == j { assert (out1 + out2)[a] == out1[a]; }
    if a :| 0 <= a < |out2| && out2[a].interest == j { assert (out1 + out2)[|out1| + a] == out2[a]; }
    if a :| 0 <= a < |out1 + out2| && (out1 + out2)[a].interest == j {
      if a >= |out1| { assert out2[a - |out1|] == (out1 + out2)[a]; }
    }
  }

  lemma SettlePolled(st: State, i: int, report: Option<Report>, noise: Noise)
    requires i in st.objs && Live(st, i) && st.objs[i].enabled && (report.Some? ==> report.value.interest == i)
    ensures Polled(st, if report.Some? then [report.value] else [], Settle(st, i, report.Some?, noise))
  {
    hide DisturbAll;
    hide Repoll;
    var clear := SetReady(st, i, false);
    var st1 := DisturbAll(clear, noise.settle);
    DisturbAllOnward(clear, noise.settle);
    RepollOnward(st1, i, noise);
    OnwardTrans(clear, st1, Repoll(st1, i, noise));
    var out := if report.Some? then [report.value] else [];
    ReportedOne(report, out);
    hide Reported;
    hide Onward;
    if !(report.Some? && (st.objs[i].oneshot || !st.objs[i].edge)) {
      ClearedPolled(st, i, Repoll(st1, i, noise), out);
    }
  }

  /** A flag cleared, and more listed. */
  lemma ClearedPolled(st: State, i: int, st': State, out: seq<Report>)
    requires i in st.objs && Live(st, i) && st.objs[i].enabled && Onward(SetReady(st, i, false), st')
    requires forall j :: Reported(out, j) ==> j == i && !st.objs[i].oneshot
    ensures Polled(st, out, st')
  {
    hide Reported;
  }

  lemma ReportedOne(report: Option<Report>, out: seq<Report>)
    requires out == if report.Some? then [report.value] else []
    ensures forall j :: Reported(out, j) <==> report.Some? && j == report.value.interest
  {
    forall j ensures Reported(out, j) <==> report.Some? && j == report.value.interest {
      ReportedSplit(report, [], j);
      assert out + [] == out;
    }
  }

  /** A round that does not poll its interest drops it, or its key if the file is gone. */
  lemma PoppedPolled(st: State, noise: Noise)
    requires st.ready != [] && !Armed(st, st.ready[0])
    ensures Polled(st, [], PollOne(st, noise).0) && PollOne(st, noise).1.None?
  {
    hide DisturbAll;
    hide Settle;
    var i, st' := st.ready[0], st.(ready := st.ready[1..]);
    assert Live(st', i) == Live(st, i) && Armed(st', i) == Armed(st, i);
  }

  lemma PollOnePolled(st: State, noise: Noise)
    requires Inv(st) && st.ready != []
    ensures var (st', r) := PollOne(st, noise); Polled(st, if r.Some? then [r.value] else [], st')
  {
    hide Inv;
    hide Settle;
    hide DisturbAll;
    hide Unlisted;
    hide Polled;
    var i, popped := st.ready[0], st.(ready := st.ready[1..]);
    if Armed(st, i) {
      var st1, st2 := PollOneParts(st, noise);
      var r := PollOne(st, noise).1;
      hide PollOne;
      assert Polled(st, [], st2) by { PoppedOnward(st, st2); }
      assert Armed(popped, i);
      OnwardArmed(popped, st2, i);
      SettlePolled(st2, i, r, noise);
      PolledTrans(st, [], st2, if r.Some? then [r.value] else [], PollOne(st, noise).0);
      assert [] + (if r.Some? then [r.value] else []) == if r.Some? then [r.value] else [];
    } else {
      PoppedPolled(st, noise);
    }
  }

  lemma PoppedOnward(st: State, st': State)
    requires st.ready != [] && Onward(st.(ready := st.ready[1..]), st')
    ensures Polled(st, [], st')
  {
  }

  lemma {:induction false} PollLoopPolled(st: State, n: nat, m: nat, noises: seq<Noise>)
    requires Inv(st)
    ensures Polled(st, PollLoop(st, n, m, noises).1, PollLoop(st, n, m, noises).0)
    decreases n
  {
    hide Inv;
    hide PollOne;
    hide DisturbAll;
    hide Polled;
    if n > 0 && m > 0 {
      LoopRound(st, n, m, noises);
      var noise, rest := if noises == [] then SILENCE else noises[0], if noises == [] then [] else noises[1..];
      var st0 := DisturbAll(st, noise.before);
      BeforeKeeps(st, noise.before);
      OnwardPolled(st, st0);
      if st0.ready != [] {
        PollOneInv(st0, noise);
        PollOnePolled(st0, noise);
        var (st', report) := PollOne(st0, noise);
        var m' := if report.Some? then m - 1 else m;
        PollLoopPolled(st', n - 1, m', rest);
        hide PollLoop;
        var first := if report.Some? then [report.value] else [];
        var (end, out) := PollLoop(st', n - 1, m', rest);
        PolledTrans(st, [], st0, first, st');
        PolledTrans(st, [] + first, st', out, end);
        assert [] + first == first;
      }
    } else {
      OnwardSame(st);
      OnwardPolled(st, st);
    }
  }

  /** What the calls of `epoll_ctl` ask for: the last successful one on each key. */
  function Settings(steps: seq<Step>): map<Key, (int, Interest)> {
    if steps == [] then map[] else Set(Settings(steps[..|steps| - 1]), steps[|steps| - 1])
  }

  function Set(s: map<Key, (int, Interest)>, step: Step): map<Key, (int, Interest)> {
    match step
    case StepAdd(key, i, mask, data, edge, oneshot, _) =>
      if key in s then s else s[key := (i, NewInterest(key, mask, data, edge, oneshot))]
    case StepModify(key, i, mask, data, edge, oneshot, _) =>
      if key in s then s[key := (i, NewInterest(key, mask, data, edge, oneshot))] else s
    case StepDelete(key) => s - {key}
    case _ => s
  }

  /** On open files the interests are the ones asked for, with those settings. */
  ghost predicate Configured(st: State, s: map<Key, (int, Interest)>) {
    && (forall k :: k in st.interests ==> k in s && st.interests[k] == s[k].0)
    && (forall k :: k in s && k.file in st.files ==> k in st.interests)
    && (forall k :: k in s ==>
          var (i, obj) := s[k];
          && i in st.objs && st.objs[i].key == k
          && st.objs[i] == obj.(ready := st.objs[i].ready, enabled := st.objs[i].enabled))
  }

  lemma PolledConfigured(st: State, out: seq<Report>, st': State, s: map<Key, (int, Interest)>)
    requires Configured(st, s) && Polled(st, out, st')
    ensures Configured(st', s)
  {
    hide Reported;
    hide Live;
  }

  lemma EnteredConfigured(st: State, key: Key, i: int, obj: Interest, s: map<Key, (int, Interest)>)
    requires Configured(st, s) && i !in st.objs && obj.key == key
    ensures Configured(st.(interests := st.interests[key := i], objs := st.objs[i := obj]), s[key := (i, obj)])
  {
  }

  lemma InstallConfigured(st: State, key: Key, i: int, obj: Interest, noise: Noise, s: map<Key, (int, Interest)>)
    requires Configured(st, s) && i !in st.objs && obj.key == key
    ensures Configured(Install(st, key, i, obj, noise), s[key := (i, obj)])
  {
    var st' := st.(interests := st.interests[key := i], objs := st.objs[i := obj]);
    EnteredConfigured(st, key, i, obj, s);
    hide Configured;
    hide Repoll;
    RepollOnward(st', i, noise);
    OnwardPolled(st', Repoll(st', i, noise));
    PolledConfigured(st', [], Repoll(st', i, noise), s[key := (i, obj)]);
  }

  /** What a step reports. */
  function Out(st: State, step: Step): seq<Report> {
    if step.StepPoll? then PollEvents(st, step.m, step.noises).1 else []
  }

  lemma QuietPolled(st: State, step: Step, st': State)
    requires Inv(st) && Next(st, step, st') && (step.StepFile? || step.StepPoll? || step.StepSleep? || step.StepLeave?)
    ensures Polled(st, Out(st, step), st')
  {
    hide Inv;
    hide Disturb;
    hide PollLoop;
    hide Polled;
    match step
    case StepFile(c) =>
      DisturbOnward(st, c);
      OnwardPolled(st, st');
    case StepPoll(m, noises) => PollLoopPolled(st, |st.ready|, m, noises);
    case StepSleep(task, m, noises) =>
      var st0 := Register(st, task);
      WaitersFrame(st, st.waiters + {task});
      PollLoopPolled(st0, |st.ready|, m, noises);
      WaitersPolled(st, st0);
      var none: seq<Report> := [];
      PolledTrans(st, none, st0, none, st');
      assert none + none == none;
    case StepLeave(task) => WaitersPolled(st, st');
  }

  lemma WaitersPolled(st: State, st': State)
    requires st' == st.(waiters := st'.waiters)
    ensures Polled(st, [], st')
  {
  }

  lemma NextConfigured(st: State, step: Step, st': State, s: map<Key, (int, Interest)>)
    requires Inv(st) && Next(st, step, st') && Configured(st, s)
    ensures Configured(st', Set(s, step))
  {
    hide Inv;
    hide Install;
    hide PollLoop;
    hide Disturb;
    hide Fires;
    match step
    case StepOpen(f, events) => assert forall k :: k in s ==> k.file != f;
    case StepClose(f) =>
    case StepAdd(key, i, mask, data, edge, oneshot, noise) =>
      if key !in s { InstallConfigured(st, key, i, NewInterest(key, mask, data, edge, oneshot), noise, s); }
    case StepModify(key, i, mask, data, edge, oneshot, noise) =>
      if key in s { InstallConfigured(st, key, i, NewInterest(key, mask, data, edge, oneshot), noise, s); }
    case StepDelete(key) =>
    case _ =>
      QuietPolled(st, step, st');
      PolledConfigured(st, Out(st, step), st', s);
  }

  /** In every run the instance watches, on open files, exactly the keys that were added and
      not deleted, with the mask, data and flags last given for them. */
  lemma {:induction false} RunConfigured(states: seq<State>, steps: seq<Step>, n: nat)
    requires Run(states, steps) && n < |states|
    ensures Configured(states[n], Settings(steps[..n]))
  {
    hide Next;
    if n > 0 {
      RunConfigured(states, steps, n - 1);
      RunInv(states, steps, n - 1);
      assert steps[..n][..n - 1] == steps[..n - 1];
      NextConfigured(states[n - 1], steps[n - 1], states[n], Settings(steps[..n - 1]));
    }
  }

  // ------------------------------------------------------------ one-shot interests

  /** The call at step `k` reports `i`. */
  ghost predicate ReportsAt(states: seq<State>, steps: seq<Step>, k: int, i: int) {
    0 <= k < |steps| && k < |states| && Reported(Out(states[k], steps[k]), i)
  }

  /** Some call before step `n` has reported `i`. */
  ghost predicate ReportedBefore(states: seq<State>, steps: seq<Step>, n: nat, i: int) {
    exists k :: k < n && ReportsAt(states, steps, k, i)
  }

  /** A step disables an interest exactly if it is one-shot and the step reports it. */
  ghost predicate Kept(st: State, step: Step, st': State, j: int)
    requires j in st.objs
  {
    && j in st'.objs && st'.objs[j].oneshot == st.objs[j].oneshot && st'.objs[j].key == st.objs[j].key
    && (st'.objs[j].enabled <==> st.objs[j].enabled && !(st.objs[j].oneshot && Reported(Out(st, step), j)))
  }

  lemma InstallKeeps(st: State, key: Key, i: int, obj: Interest, noise: Noise)
    requires i !in st.objs
    ensures var st' := Install(st, key, i, obj, noise);
            && st'.objs.Keys == st.objs.Keys + {i} && st'.objs[i].enabled == obj.enabled
            && forall j :: j in st.objs ==>
                 && st'.objs[j].enabled == st.objs[j].enabled && st'.objs[j].oneshot == st.objs[j].oneshot
                 && st'.objs[j].key == st.objs[j].key
  {
    var st' := st.(interests := st.interests[key := i], objs := st.objs[i := obj]);
    hide Repoll;
    RepollOnward(st', i, noise);
  }

  lemma NextKeeps(st: State, step: Step, st': State, j: int)
    requires Inv(st) && Next(st, step, st')
    ensures if j in st.objs then Kept(st, step, st', j) else j in st'.objs ==> st'.objs[j].enabled
    ensures Reported(Out(st, step), j) ==> j in st.objs && st.objs[j].enabled
  {
    hide Inv;
    hide Install;
    hide PollLoop;
    hide Disturb;
    hide Fires;
    assert !Reported([], j);
    hide Reported;
    match step
    case StepOpen(_, _) =>
    case StepClose(_) =>
    case StepAdd(key, i, mask, data, edge, oneshot, noise) =>
      InstallKeeps(st, key, i, NewInterest(key, mask, data, edge, oneshot), noise);
    case StepModify(key, i, mask, data, edge, oneshot, noise) =>
      InstallKeeps(st, key, i, NewInterest(key, mask, data, edge, oneshot), noise);
    case StepDelete(_) =>
    case _ => QuietPolled(st, step, st');
  }

  /** In every run an interest is disabled exactly if it is one-shot and a call has reported
      it already. */
  lemma {:induction false} RunEnabledIff(states: seq<State>, steps: seq<Step>, n: nat, i: int)
    requires Run(states, steps) && n < |states|
    ensures ReportedBefore(states, steps, n, i) ==> i in states[n].objs
    ensures i in states[n].objs ==>
              (states[n].objs[i].enabled <==> !(states[n].objs[i].oneshot && ReportedBefore(states, steps, n, i)))
  {
    hide Next;
    hide Reported;
    if n > 0 {
      RunEnabledIff(states, steps, n - 1, i);
      RunInv(states, steps, n - 1);
      NextKeeps(states[n - 1], steps[n - 1], states[n], i);
      BeforeNext(states, steps, n, i);
      hide ReportedBefore;
      hide Run;
    }
  }

  lemma BeforeNext(states: seq<State>, steps: seq<Step>, n: nat, i: int)
    requires n > 0
    ensures ReportedBefore(states, steps, n, i) <==>
            ReportedBefore(states, steps, n - 1, i) || ReportsAt(states, steps, n - 1, i)
  {
    hide ReportsAt;
  }

  /** In every run a one-shot interest is reported by at most one call, and once by that. */
  lemma OneshotOnce(states: seq<State>, steps: seq<Step>, k: nat, i: int)
    requires Run(states, steps) && ReportsAt(states, steps, k, i) && i in states[k].objs && states[k].objs[i].oneshot
    ensures forall l :: ReportsAt(states, steps, l, i) ==> l == k
    ensures var out := Out(states[k], steps[k]);
            forall a, b :: 0 <= a < |out| && 0 <= b < |out| && out[a].interest == i && out[b].interest == i ==> a == b
  {
    hide Next;
    hide Out;
    forall l | ReportsAt(states, steps, l, i) ensures l == k {
      if l < k {
        NotTwice(states, steps, l, k, i);
        RunSame(states, steps, l, k, i);
      }
      if k < l { NotTwice(states, steps, k, l, i); }
    }
    RunInv(states, steps, k);
    DistinctReports(states[k], steps[k]);
  }

  lemma DistinctReports(st: State, step: Step)
    requires Inv(st)
    ensures forall a, b :: 0 <= a < b < |Out(st, step)| ==> Out(st, step)[a].interest != Out(st, step)[b].interest
  {
    if step.StepPoll? { PollReports(st, |st.ready|, step.m, step.noises); }
  }

  lemma {:induction false} RunSame(states: seq<State>, steps: seq<Step>, k: nat, l: nat, i: int)
    requires Run(states, steps) && k <= l < |states| && i in states[k].objs
    ensures i in states[l].objs
    ensures states[l].objs[i].oneshot == states[k].objs[i].oneshot && states[l].objs[i].key == states[k].objs[i].key
    decreases l
  {
    hide Next;
    hide Reported;
    if k < l {
      RunSame(states, steps, k, l - 1, i);
      RunInv(states, steps, l - 1);
      NextKeeps(states[l - 1], steps[l - 1], states[l], i);
      assert Kept(states[l - 1], steps[l - 1], states[l], i);
    }
  }

  lemma NotTwice(states: seq<State>, steps: seq<Step>, k: nat, l: nat, i: int)
    requires Run(states, steps) && k < l && ReportsAt(states, steps, k, i) && ReportsAt(states, steps, l, i)
    ensures i in states[k].objs && !states[k].objs[i].oneshot
  {
    hide Next;
    hide Reported;
    hide Out;
    RunEnabledIff(states, steps, l, i);
    ReportedLive(states, steps, k, i);
    ReportedLive(states, steps, l, i);
    RunSame(states, steps, k, l, i);
    assert ReportedBefore(states, steps, l, i);
  }

  lemma ReportedLive(states: seq<State>, steps: seq<Step>, k: nat, i: int)
    requires Run(states, steps) && ReportsAt(states, steps, k, i)
    ensures Live(states[k], i) && states[k].objs[i].enabled && steps[k].StepPoll?
  {
    hide Next;
    RunInv(states, steps, k);
    assert !Reported([], i);
    PollLoopPolled(states[k], |states[k].ready|, steps[k].m, steps[k].noises);
    hide PollLoop;
    hide Reported;
  }

  /** The step sets up `key` anew: an add of a key that is not there, or a modify of one that is. */
  predicate Renews(s: map<Key, (int, Interest)>, step: Step, key: Key) {
    (step.StepAdd? && step.key == key && key !in s) || (step.StepModify? && step.key == key && key in s)
  }

  /** Once a one-shot interest has been reported, no call reports anything for its key until
      the key is set up anew. */
  lemma OneshotSilent(states: seq<State>, steps: seq<Step>, k: nat, l: nat, i: int, j: int)
    requires Run(states, steps) && ReportsAt(states, steps, k, i) && i in states[k].objs && states[k].objs[i].oneshot
    requires k < l && ReportsAt(states, steps, l, j)
    requires forall a :: k < a < l ==> !Renews(Settings(steps[..a]), steps[a], states[k].objs[i].key)
    ensures j in states[l].objs && states[l].objs[j].key != states[k].objs[i].key
  {
    hide Next;
    hide Reported;
    hide Out;
    var key := states[k].objs[i].key;
    ReportedLive(states, steps, k, i);
    ReportedLive(states, steps, l, j);
    RunConfigured(states, steps, k);
    RunConfigured(states, steps, l);
    SettingsSame(steps, k, l, key);
    hide Run;
    if states[l].objs[j].key == key {
      assert i == j;
      NotTwice(states, steps, k, l, i);
    }
  }

  lemma {:induction false} SettingsSame(steps: seq<Step>, k: nat, l: nat, key: Key)
    requires k <= l <= |steps| && forall a :: k <= a < l ==> !Renews(Settings(steps[..a]), steps[a], key)
    ensures key in Settings(steps[..l]) ==>
              key in Settings(steps[..k]) && Settings(steps[..l])[key] == Settings(steps[..k])[key]
    decreases l
  {
    if k < l {
      SettingsSame(steps, k, l - 1, key);
      assert steps[..l][..l - 1] == steps[..l - 1];
    }
  }

  /** A run that shows it: one edge-triggered interest on a file that is ready throughout
      and never changes is reported by each of two successive calls. */
  lemma EdgeRepeats() returns (states: seq<State>, steps: seq<Step>)
    ensures Run(states, steps) && |states| == 5 && steps[2] == StepPoll(1, []) && steps[3] == StepPoll(1, [])
    ensures 0 in states[2].objs && states[2].objs[0].edge
    ensures Reported(PollEvents(states[2], 1, []).1, 0) && Reported(PollEvents(states[3], 1, []).1, 0)
  {
    hide PollLoop;
    hide Inv;
    hide Due;
    var s1, s2, add := EdgeSetup();
    var s3 := PollEvents(s2, 1, []).0;
    var s4 := PollEvents(s3, 1, []).0;
    states, steps := [INITIAL, s1, s2, s3, s4], [StepOpen(7, 1), add, StepPoll(1, []), StepPoll(1, [])];
    assert Next(s2, steps[2], s3) && Next(s3, steps[3], s4);
    hide Next;
    forall k | 0 <= k < 4 ensures Next(states[k], steps[k], states[k + 1]) { }
    RunInv(states, steps, 2);
    EdgeStaysDue(s2, 0);
    PollExact(s2, 1, 0);
    PollExact(s3, 1, 0);
  }

  /** A run in which an interest that asked for one event is reported with two. */
  lemma UnaskedReported() returns (states: seq<State>, steps: seq<Step>)
    ensures Run(states, steps) && |states| == 3 && 0 in states[2].objs && states[2].objs[0].mask == 1
    ensures exists r :: r in PollEvents(states[2], 1, []).1 && r.interest == 0 && r.events == 3
  {
    hide PollLoop;
    hide Inv;
    var s1, s2, add := BroadSetup();
    states, steps := [INITIAL, s1, s2], [StepOpen(7, 3), add];
    hide Next;
    forall k | 0 <= k < 2 ensures Next(states[k], steps[k], states[k + 1]) { }
    RunInv(states, steps, 2);
    PollExact(s2, 1, 0);
    PollCurrent(s2, |s2.ready|, 1);
    var out := PollEvents(s2, 1, []).1;
    var a :| 0 <= a < |out| && out[a].interest == 0;
    assert out[a] in out;
  }

  lemma BroadSetup() returns (s1: State, s2: State, add: Step)
    ensures Next(INITIAL, StepOpen(7, 3), s1) && Next(s1, add, s2)
    ensures s2.ready == [0] && 0 in s2.objs && Due(s2, 0) && s2.objs[0].mask == 1
    ensures s2.objs[0].key == Key(3, 7) && s2.files == map[7 := 3]
  {
    var key, obj := Key(3, 7), NewInterest(Key(3, 7), 1, 5, false, false);
    s1 := INITIAL.(files := INITIAL.files[7 := 3]);
    add := StepAdd(key, 0, 1, 5, false, false, SILENCE);
    s2 := Install(s1, key, 0, obj, SILENCE);
    var st := s1.(interests := map[key := 0], objs := map[0 := obj]);
    assert s1.interests[key := 0] == map[key := 0] && s1.objs[0 := obj] == map[0 := obj];
    assert Due(st, 0);
    assert s2 == Wake(st, 0) && [] + [0] == [0];
    assert Due(s2, 0) && s2.objs[0] == obj.(ready := true);
    assert Next(INITIAL, StepOpen(7, 3), s1);
    assert s2 == Add(s1, key, 0, 1, 5, false, false, SILENCE);
  }

  lemma EdgeSetup() returns (s1: State, s2: State, add: Step)
    ensures Next(INITIAL, StepOpen(7, 1), s1) && Next(s1, add, s2)
    ensures s2.ready == [0] && 0 in s2.objs && Due(s2, 0) && s2.objs[0].edge && !s2.objs[0].oneshot
  {
    var key, obj := Key(3, 7), NewInterest(Key(3, 7), 1, 5, true, false);
    s1 := INITIAL.(files := INITIAL.files[7 := 1]);
    add := StepAdd(key, 0, 1, 5, true, false, SILENCE);
    s2 := Install(s1, key, 0, obj, SILENCE);
    var st := s1.(interests := map[key := 0], objs := map[0 := obj]);
    assert s1.interests[key := 0] == map[key := 0] && s1.objs[0 := obj] == map[0 := obj];
    assert Due(st, 0);
    assert s2 == Wake(st, 0) && [] + [0] == [0];
    assert Due(s2, 0) && s2.objs[0] == obj.(ready := true);
    assert Next(INITIAL, StepOpen(7, 1), s1);
    assert s2 == Add(s1, key, 0, 1, 5, true, false, SILENCE);
  }

  /** After any run, a call with slots enough and no changes meanwhile reports exactly what
      `epoll_ctl` last asked for on files that are open and ready for the mask given, save
      one-shot interests that were reported already. */
  lemma RunPollExact(states: seq<State>, steps: seq<Step>, n: nat, m: nat, i: int)
    requires Run(states, steps) && n < |states| && |states[n].ready| <= m
    ensures Reported(PollEvents(states[n], m, []).1, i) <==>
            exists key :: Asked(states[n].files, Settings(steps[..n]), key, i)
                          && !(Settings(steps[..n])[key].1.oneshot && ReportedBefore(states, steps, n, i))
  {
    RunInv(states, steps, n);
    PollExact(states[n], m, i);
    RunConfigured(states, steps, n);
    RunEnabledIff(states, steps, n, i);
    hide Run;
    hide PollEvents;
    hide Settings;
    hide ReportedBefore;
    DueIff(states[n], Settings(steps[..n]), i);
  }

  /** `i` was set up for `key`, whose file is open and ready for the mask given. */
  ghost predicate Asked(files: map<int, Events>, s: map<Key, (int, Interest)>, key: Key, i: int) {
    key in s && s[key].0 == i && key.file in files && Meets(files[key.file], s[key].1.mask)
  }

  lemma DueIff(st: State, s: map<Key, (int, Interest)>, i: int)
    requires Configured(st, s)
    ensures Due(st, i) ==> Asked(st.files, s, st.objs[i].key, i)
    ensures forall key :: Asked(st.files, s, key, i) ==>
              && i in st.objs && st.objs[i].oneshot == s[key].1.oneshot && st.objs[i].key == key
              && (st.objs[i].enabled ==> Due(st, i))
  {
  }

  // ---------------------------------------------------------------- fairness of runs

  /** The step leaves the interest alone, and its file ready. */
  ghost predicate Sparing(step: Step, obj: Interest) {
    match step
    case StepFile(c) => Spares(c, obj)
    case StepClose(f) => f != obj.key.file
    case StepAdd(_, _, _, _, _, _, noise) => SparesAll(noise, obj)
    case StepModify(key, _, _, _, _, _, noise) => key != obj.key && SparesAll(noise, obj)
    case StepDelete(key) => key != obj.key
    case StepPoll(_, noises) => StaysReady(noises, obj)
    case StepSleep(_, _, noises) => StaysReady(noises, obj)
    case _ => true
  }

  /** The output slots of all calls together. */
  function Slots(steps: seq<Step>): nat {
    if steps == [] then 0 else (if steps[0].StepPoll? then steps[0].m else 0) + Slots(steps[1..])
  }

  /** Steady at position `p` of the ready list. */
  ghost predicate SteadyAt(st: State, i: int, p: int, obj: Interest) {
    0 <= p < |st.ready| && st.ready[p] == i && Steady(st, i) && SameAim(st.objs[i], obj)
  }

  lemma InstallSteady(st: State, key: Key, j: int, obj: Interest, noise: Noise, i: int)
    requires Inv(st) && j !in st.objs && obj.key == key && obj.enabled && !obj.ready
    requires Steady(st, i) && key != st.objs[i].key && SparesAll(noise, st.objs[i])
    ensures var st' := Install(st, key, j, obj, noise); Steady(st', i) && SameAim(st'.objs[i], st.objs[i])
  {
    var st' := st.(interests := st.interests[key := j], objs := st.objs[j := obj]);
    InstalledBut(st, key, j, obj);
    assert Steady(st', i);
    hide InvBut;
    hide Repoll;
    RepollSteady(st', j, noise, i);
    RepollInv(st', j, noise);
  }

  /** A step other than a poll leaves a steady interest at its place, or nearer. */
  lemma QuietStep(st: State, step: Step, st': State, i: int, p: nat) returns (q: nat)
    requires Inv(st) && Next(st, step, st') && i in st.objs && SteadyAt(st, i, p, st.objs[i])
    requires Sparing(step, st.objs[i])
    requires !step.StepPoll?
    ensures q <= p && SteadyAt(st', i, q, st.objs[i])
  {
    hide Inv;
    hide Install;
    hide Fires;
    hide Disturb;
    hide PollLoop;
    q := p;
    match step
    case StepOpen(f, events) =>
    case StepFile(c) =>
      assert DisturbAll(st, [c]) == Disturb(st, c);
      BeforeSteady(st, [c], i);
    case StepClose(f) =>
    case StepAdd(key, j, mask, data, edge, oneshot, noise) =>
      if key !in st.interests {
        InstallSteady(st, key, j, NewInterest(key, mask, data, edge, oneshot), noise, i);
        InstallStirs(st, key, j, NewInterest(key, mask, data, edge, oneshot), noise);
      }
    case StepModify(key, j, mask, data, edge, oneshot, noise) =>
      if key in st.interests {
        InstallSteady(st, key, j, NewInterest(key, mask, data, edge, oneshot), noise, i);
        InstallStirs(st, key, j, NewInterest(key, mask, data, edge, oneshot), noise);
      }
    case StepDelete(key) =>
    case StepSleep(task, m, noises) =>
      WaitersFrame(st, st.waiters + {task});
      q := PollAdvances(Register(st, task), |st.ready|, m, noises, i, p);
    case StepLeave(task) =>
  }

  /** In any stretch of steps that leave it alone, a steady interest at position `p` is
      reported by one of the calls once their slots together exceed `p`: with `n` listed
      and `m` slots each, within ceil(n / m) calls. */
  lemma {:induction false} Fair(states: seq<State>, steps: seq<Step>, i: int, p: nat) returns (k: nat)
    requires |states| == |steps| + 1 && forall j :: 0 <= j < |steps| ==> Next(states[j], steps[j], states[j + 1])
    requires Inv(states[0]) && p < |states[0].ready| && states[0].ready[p] == i && Steady(states[0], i)
    requires forall j :: 0 <= j < |steps| ==> Sparing(steps[j], states[0].objs[i])
    requires Slots(steps) > p
    ensures k < |steps| && steps[k].StepPoll? && Reported(PollEvents(states[k], steps[k].m, steps[k].noises).1, i)
    decreases |steps|
  {
    hide Inv;
    hide Armed;
    hide Hot;
    hide PollLoop;
    var st, step, st', obj := states[0], steps[0], states[1], states[0].objs[i];
    NextInv(st, step, st');
    var q: int := p;
    if step.StepPoll? {
      q := PollAdvances(st, |st.ready|, step.m, step.noises, i, p);
      if Reported(PollEvents(st, step.m, step.noises).1, i) { return 0; }
    } else {
      q := QuietStep(st, step, st', i, p);
    }
    hide Next;
    forall j | 0 <= j < |steps| - 1 ensures Sparing(steps[1..][j], st'.objs[i]) {
    }
    var d := Fair(states[1..], steps[1..], i, q);
    k := d + 1;
  }

  // ---------------------------------------------------------------------- code

  class Instance {
    var interests: map<Key, int>
    var objs: map<int, Interest>
    var ready: seq<int>
    var files: map<int, Events>
    var wakers: set<int>
    var waiters: set<int>

    function Value(): State
      reads this
    {
      State(interests, objs, ready, files, wakers, waiters)
    }

    /** Listing an interest wakes whoever waits for the instance. */
    method WakeByRef(i: int)
      modifies this
      ensures Value() == Wake(old(Value()), i)
    {
      if i in objs && objs[i].key in interests && interests[objs[i].key] == i {
        if objs[i].ready { return; }
        objs := objs[i := objs[i].(ready := true)];
        ready := ready + [i];
        waiters := {};
      }
    }

    /** What files do while a call is at work. */
    method Happen(cs: seq<Change>)
      modifies this
      ensures Value() == DisturbAll(old(Value()), cs)
    {
      var st := DisturbAll(Value(), cs);
      interests, objs, ready := st.interests, st.objs, st.ready;
      files, wakers, waiters := st.files, st.wakers, st.waiters;
    }

    method RepollInterest(i: int, noise: Noise)
      modifies this
      ensures Value() == Repoll(old(Value()), i, noise)
    {
      hide DisturbAll;
      if !Live(Value(), i) || !objs[i].enabled { return; }
      var f := objs[i].key.file;
      if f !in files { return; }
      if Meets(files[f], objs[i].mask) {
        Happen(noise.woken);
        WakeByRef(i);
        return;
      }
      Happen(noise.look);
      wakers := wakers + {i};
      Happen(noise.armed);
      if Armed(Value(), i) && Meets(files[objs[i].key.file], objs[i].mask) {
        Happen(noise.woken);
        WakeByRef(i);
      }
    }

    method AddInterest(key: Key, i: int, mask: Events, data: int, edge: bool, oneshot: bool, noise: Noise)
      returns (e: Option<Error>)
      modifies this
      ensures e == if key.file !in old(files) then Some(EBADF)
                   else if key in old(interests) then Some(EEXIST) else None
      ensures Value() == if key.file !in old(files) then old(Value())
                         else Add(old(Value()), key, i, mask, data, edge, oneshot, noise)
    {
      if key.file !in files { return Some(EBADF); }
      if key in interests { return Some(EEXIST); }
      objs := objs[i := NewInterest(key, mask, data, edge, oneshot)];
      interests := interests[key := i];
      RepollInterest(i, noise);
      e := None;
    }

    method ModifyInterest(key: Key, i: int, mask: Events, data: int, edge: bool, oneshot: bool, noise: Noise)
      returns (e: Option<Error>)
      modifies this
      ensures e == if key.file !in old(files) then Some(EBADF)
                   else if key !in old(interests) then Some(ENOENT) else None
      ensures Value() == if key.file !in old(files) then old(Value())
                         else Modify(old(Value()), key, i, mask, data, edge, oneshot, noise)
    {
      if key.file !in files { return Some(EBADF); }
      if key !in interests { return Some(ENOENT); }
      objs := objs[i := NewInterest(key, mask, data, edge, oneshot)];
      interests := interests[key := i];
      RepollInterest(i, noise);
      e := None;
    }

    method DeleteInterest(key: Key) returns (e: Option<Error>)
      modifies this
      ensures e == if key.file !in old(files) then Some(EBADF)
                   else if key !in old(interests) then Some(ENOENT) else None
      ensures Value() == if key.file !in old(files) then old(Value()) else Delete(old(Value()), key)
    {
      if key.file !in files { return Some(EBADF); }
      if key !in interests {
        assert interests - {key} == interests;
        return Some(ENOENT);
      }
      interests := interests - {key};
      e := None;
    }

    method PollFirst(noise: Noise) returns (report: Option<Report>)
      requires ready != []
      modifies this
      ensures Value() == PollOne(old(Value()), noise).0 && report == PollOne(old(Value()), noise).1
    {
      hide DisturbAll;
      hide Repoll;
      var i := ready[0];
      ready := ready[1..];
      report := None;
      if !Live(Value(), i) || !objs[i].enabled { return; }
      if objs[i].key.file !in files {
        interests := interests - {objs[i].key};
        return;
      }
      ArmedStill(Value(), noise.popped, i);
      Happen(noise.popped);
      var events, data := files[objs[i].key.file], objs[i].data;
      var hot := Meets(events, objs[i].mask);
      ArmedStill(Value(), noise.polled, i);
      Happen(noise.polled);
      if hot {
        report := Some(Report(i, events, data));
        if objs[i].oneshot {
          objs := objs[i := objs[i].(enabled := false)];
          return;
        }
        if !objs[i].edge {
          ready := ready + [i];
          return;
        }
      }
      objs := objs[i := objs[i].(ready := false)];
      Happen(noise.settle);
      RepollInterest(i, noise);
    }

    /** `poll_events`: no report at all is EAGAIN. */
    method PollReady(m: nat, noises: seq<Noise>) returns (r: Option<seq<Report>>)
      modifies this
      ensures Value() == PollEvents(old(Value()), m, noises).0
      ensures var out := PollEvents(old(Value()), m, noises).1; r == if out == [] then None else Some(out)
    {
      hide PollOne;
      hide DisturbAll;
      hide PollLoop;
      var out: seq<Report> := [];
      var n, rest := |ready|, noises;
      ghost var all := PollEvents(Value(), m, noises);
      while n > 0 && |out| < m
        invariant 0 <= n && |out| <= m
        invariant all.0 == PollLoop(Value(), n, m - |out|, rest).0
        invariant all.1 == out + PollLoop(Value(), n, m - |out|, rest).1
        decreases n
      {
        LoopRound(Value(), n, m - |out|, rest);
        var noise := if rest == [] then SILENCE else rest[0];
        Happen(noise.before);
        if ready == [] {
          n := 0;
          LoopEnd(Value(), n, m - |out|, rest);
        } else {
          var report := PollFirst(noise);
          if report.Some? { out := out + [report.value]; }
          rest := if rest == [] then [] else rest[1..];
          n := n - 1;
        }
      }
      LoopEnd(Value(), n, m - |out|, rest);
      assert out == all.1;
      r := if out == [] then None else Some(out);
    }
  }
}
