/** Interval timers and process times.  Times are in nanoseconds and taken to stay
    below the width of the source's counters; the clock never runs backwards. */
module Timers {
  import opened Base

  datatype Kind = Real | Virtual | Prof
  datatype Mode = Idle | User | Kernel
  datatype ITimer = ITimer(interval: nat, remained: nat)

  /** `ITimer::update`: (the timer afterwards, whether it fired). */
  function Update(t: ITimer, delta: nat): (ITimer, bool) {
    if t.remained == 0 then (t, false)
    else if t.remained > delta then (t.(remained := t.remained - delta), false)
    else (t.(remained := t.interval), true)
  }

  datatype Manager = Manager(utime: nat, stime: nat, last: nat, mode: Mode, wall: ITimer, virt: ITimer, prof: ITimer)

  const NEW := Manager(0, 0, 0, Idle, ITimer(0, 0), ITimer(0, 0), ITimer(0, 0))

  function Timer(m: Manager, k: Kind): ITimer {
    match k
    case Real => m.wall
    case Virtual => m.virt
    case Prof => m.prof
  }

  /** The time that counts towards a timer: all, user, or user and kernel time. */
  function Own(m: Manager, k: Kind): nat {
    match k
    case Real => m.last
    case Virtual => m.utime
    case Prof => m.utime + m.stime
  }

  /** The share of `delta` that counts towards timer `k` in the manager's mode. */
  predicate Counts(m: Manager, k: Kind) {
    match k
    case Real => true
    case Virtual => m.mode.User?
    case Prof => m.mode.User? || m.mode.Kernel?
  }

  function Advance(m: Manager, k: Kind, delta: nat): (ITimer, bool) {
    if Counts(m, k) then Update(Timer(m, k), delta) else (Timer(m, k), false)
  }

  /** `TimeManager::poll`: (the manager afterwards, the timers that fired). */
  function Poll(m: Manager, now: nat): (Manager, set<Kind>)
    requires now >= m.last
  {
    var delta := now - m.last;
    (Manager(
       if m.mode.User? then m.utime + delta else m.utime,
       if m.mode.Kernel? then m.stime + delta else m.stime,
       now, m.mode,
       Advance(m, Real, delta).0, Advance(m, Virtual, delta).0, Advance(m, Prof, delta).0),
     set k | k in {Real, Virtual, Prof} && Advance(m, k, delta).1)
  }

  /** `set_itimer`. */
  function SetTimer(m: Manager, k: Kind, t: ITimer): Manager {
    match k
    case Real => m.(wall := t)
    case Virtual => m.(virt := t)
    case Prof => m.(prof := t)
  }

  // ------------------------------------------------------------------------ runs

  datatype Event = EvPoll(now: nat) | EvMode(mode: Mode) | EvSet(kind: Kind, timer: ITimer)

  predicate Enabled(m: Manager, e: Event) {
    e.EvPoll? ==> e.now >= m.last
  }

  function Step(m: Manager, e: Event): Manager
    requires Enabled(m, e)
  {
    match e
    case EvPoll(now) => Poll(m, now).0
    case EvMode(mode) => m.(mode := mode)
    case EvSet(k, t) => SetTimer(m, k, t)
  }

  /** Clock readings in `es` never decrease, starting from `m`. */
  predicate Ordered(m: Manager, es: seq<Event>)
    decreases |es|
  {
    es == [] || (Enabled(m, es[0]) && Ordered(Step(m, es[0]), es[1..]))
  }

  function Play(m: Manager, es: seq<Event>): Manager
    requires Ordered(m, es)
    decreases |es|
  {
    if es == [] then m else Play(Step(m, es[0]), es[1..])
  }

  /** Time that passed while the process was in neither mode. */
  function Unattributed(m: Manager, es: seq<Event>): nat
    requires Ordered(m, es)
    decreases |es|
  {
    if es == [] then 0
    else (if es[0].EvPoll? && m.mode.Idle? then es[0].now - m.last else 0) + Unattributed(Step(m, es[0]), es[1..])
  }

  /** How many signals timer `k` sends. */
  function Signals(m: Manager, es: seq<Event>, k: Kind): nat
    requires Ordered(m, es)
    decreases |es|
  {
    if es == [] then 0
    else (if es[0].EvPoll? && k in Poll(m, es[0].now).1 then 1 else 0) + Signals(Step(m, es[0]), es[1..], k)
  }

  /** No time is lost or counted twice. */
  lemma {:induction false} TimeConserved(m: Manager, es: seq<Event>)
    requires Ordered(m, es)
    ensures var m' := Play(m, es);
            m'.utime + m'.stime + Unattributed(m, es) + m.last == m'.last + m.utime + m.stime
    decreases |es|
  {
    if es != [] {
      TimeConserved(Step(m, es[0]), es[1..]);
    }
  }

  /** The time that passed in `mode`, told from the mode changes and the clock alone. */
  function TimeIn(mode: Mode, current: Mode, last: nat, es: seq<Event>): int
    decreases |es|
  {
    if es == [] then 0
    else match es[0]
      case EvPoll(now) => (if current == mode then now - last else 0) + TimeIn(mode, current, now, es[1..])
      case EvMode(next) => TimeIn(mode, next, last, es[1..])
      case EvSet(_, _) => TimeIn(mode, current, last, es[1..])
  }

  /** User and kernel time are exactly the time that passed in those modes. */
  lemma {:induction false} TimesExact(m: Manager, es: seq<Event>)
    requires Ordered(m, es)
    ensures Play(m, es).utime == m.utime + TimeIn(User, m.mode, m.last, es)
    ensures Play(m, es).stime == m.stime + TimeIn(Kernel, m.mode, m.last, es)
    decreases |es|
  {
    if es != [] {
      TimesExact(Step(m, es[0]), es[1..]);
    }
  }

  /** Setting a timer sets that timer, and neither the others nor the times. */
  lemma SetOnly(m: Manager, k: Kind, t: ITimer, j: Kind)
    ensures var m' := SetTimer(m, k, t);
            && Timer(m', j) == (if j == k then t else Timer(m, j))
            && m'.utime == m.utime && m'.stime == m.stime && m'.last == m.last && m'.mode == m.mode
  {
  }

  /** Timer `k` is not set anew during `es`. */
  predicate Untouched(es: seq<Event>, k: Kind) {
    forall i :: 0 <= i < |es| && es[i].EvSet? ==> es[i].kind != k
  }

  /** `n` signals of a timer, and what it has left, fit into its own time. */
  ghost predicate Budget(t: ITimer, t': ITimer, n: nat, own: int) {
    && t'.interval == t.interval
    && (n == 0 ==> own + t'.remained >= t.remained && (t.remained == 0 ==> t'.remained == 0))
    && (n > 0 ==> own >= t.remained + (n - 1) * t.interval && t.remained > 0)
    && (n > 0 && t'.remained > 0 ==> own + t'.remained >= t.remained + n * t.interval)
    && (n > 0 && t.interval == 0 ==> n == 1 && t'.remained == 0)
  }

  lemma BudgetStep(t: ITimer, t': ITimer, n: nat, own: int, delta: nat)
    requires Budget(t, t', n, own)
    ensures var (t'', fired) := Update(t', delta); Budget(t, t'', if fired then n + 1 else n, own + delta)
  {
    assert (n + 1) * t.interval == n * t.interval + t.interval;
    assert n > 0 ==> n * t.interval == (n - 1) * t.interval + t.interval;
  }

  lemma {:induction false} SignalsFitOwnTime(m: Manager, es: seq<Event>, k: Kind, t: ITimer, n: nat, own: int)
    requires Ordered(m, es) && Untouched(es, k) && Budget(t, Timer(m, k), n, own)
    ensures Budget(t, Timer(Play(m, es), k), n + Signals(m, es, k), own + Own(Play(m, es), k) - Own(m, k))
    decreases |es|
  {
    hide Budget;
    if es != [] {
      var e, m' := es[0], Step(m, es[0]);
      if e.EvPoll? && Counts(m, k) {
        BudgetStep(t, Timer(m, k), n, own, e.now - m.last);
      }
      var n' := if e.EvPoll? && k in Poll(m, e.now).1 then n + 1 else n;
      SignalsFitOwnTime(m', es[1..], k, t, n', own + Own(m', k) - Own(m, k));
    }
  }

  /** The n-th signal of a timer never comes before initial + (n - 1) * interval of the
      time that counts towards it, and a zero interval gives at most one signal. */
  lemma NthSignalNotEarly(m: Manager, es: seq<Event>, k: Kind)
    requires Ordered(m, es) && Untouched(es, k)
    ensures var n, t := Signals(m, es, k), Timer(m, k);
            && (n > 0 ==> Own(Play(m, es), k) - Own(m, k) >= t.remained + (n - 1) * t.interval)
            && (t.interval == 0 ==> n <= 1) && (t.remained == 0 ==> n == 0)
  {
    SignalsFitOwnTime(m, es, k, Timer(m, k), 0, 0);
  }

  /** An armed timer stays silent exactly as long as its own time has not used up
      what it had left, so no signal is late by more than one poll. */
  lemma {:induction false} SilentIff(m: Manager, es: seq<Event>, k: Kind)
    requires Ordered(m, es) && Untouched(es, k) && Timer(m, k).remained > 0
    ensures Signals(m, es, k) == 0 <==> Own(Play(m, es), k) - Own(m, k) < Timer(m, k).remained
    decreases |es|
  {
    if es != [] {
      var e, m' := es[0], Step(m, es[0]);
      if e.EvPoll? && k in Poll(m, e.now).1 {
        OwnGrows(m', es[1..], k);
      } else {
        SilentIff(m', es[1..], k);
      }
    }
  }

  /** After a signal the next one comes exactly when the timer's own time has advanced by the
      interval, or never if that is zero. */
  lemma NextSignalIff(m: Manager, now: nat, es: seq<Event>, k: Kind)
    requires now >= m.last && k in Poll(m, now).1 && Ordered(Poll(m, now).0, es) && Untouched(es, k)
    ensures var m' := Poll(m, now).0;
            Signals(m', es, k) == 0 <==>
            Timer(m, k).interval == 0 || Own(Play(m', es), k) - Own(m', k) < Timer(m, k).interval
  {
    var m' := Poll(m, now).0;
    assert Timer(m', k).remained == Timer(m, k).interval;
    if Timer(m, k).interval == 0 { NthSignalNotEarly(m', es, k); } else { SilentIff(m', es, k); }
  }

  lemma {:induction false} OwnGrows(m: Manager, es: seq<Event>, k: Kind)
    requires Ordered(m, es)
    ensures Own(Play(m, es), k) >= Own(m, k)
    decreases |es|
  {
    if es != [] {
      OwnGrows(Step(m, es[0]), es[1..], k);
    }
  }

  // ---------------------------------------------------------- alarms for the timers

  /** Who runs when an event happens: the thread that the manager belongs to, or
      the alarm task, which polls it through `poll_timer`. */
  datatype Task = Thread | AlarmTask

  /** `current()`, and the wall-clock readings that `renew_timer` takes, one per timer. */
  datatype Context = Context(task: Task, wall: nat, virt: nat, prof: nat)

  /** An entry of the alarm list.  When its deadline has come, the alarm task polls the
      thread it is addressed to; an entry addressed to the alarm task itself does nothing. */
  datatype Entry = Entry(kind: Kind, deadline: nat, task: Task)

  function Reading(c: Context, k: Kind): nat {
    match k
    case Real => c.wall
    case Virtual => c.virt
    case Prof => c.prof
  }

  /** `renew_timer`: the entry that an armed timer pushes, addressed to the current task. */
  function Renewal(k: Kind, t: ITimer, c: Context): seq<Entry> {
    if t.remained > 0 then [Entry(k, Reading(c, k) + t.remained, c.task)] else []
  }

  /** What advancing timer `k` by `delta` pushes: its next alarm, if it fires. */
  function Renewed(m: Manager, k: Kind, delta: nat, c: Context): seq<Entry> {
    var (t, fired) := Advance(m, k, delta);
    if fired then Renewal(k, t, c) else []
  }

  /** What an event pushes to the alarm list. */
  function Alarms(m: Manager, e: Event, c: Context): seq<Entry>
    requires Enabled(m, e)
  {
    match e
    case EvPoll(now) =>
      var delta := now - m.last;
      Renewed(m, Virtual, delta, c) + Renewed(m, Prof, delta, c) + Renewed(m, Real, delta, c)
    case EvMode(mode) => []
    case EvSet(k, t) => Renewal(k, t, c)
  }

  /** All that a run of events pushes. */
  function AllAlarms(m: Manager, es: seq<Event>, cs: seq<Context>): seq<Entry>
    requires Ordered(m, es) && |cs| == |es|
    decreases |es|
  {
    if es == [] then [] else Alarms(m, es[0], cs[0]) + AllAlarms(Step(m, es[0]), es[1..], cs[1..])
  }

  /** The last entry of a real timer. */
  function LatestReal(entries: seq<Entry>): Option<Entry> {
    if entries == [] then None
    else if entries[|entries| - 1].kind.Real? then Some(entries[|entries| - 1])
    else LatestReal(entries[..|entries| - 1])
  }

  lemma {:induction false} LatestAppend(a: seq<Entry>, b: seq<Entry>)
    ensures LatestReal(a + b) == if LatestReal(b).Some? then LatestReal(b) else LatestReal(a)
    decreases |b|
  {
    if b == [] {
      assert a + b == a;
    } else {
      assert (a + b)[..|a + b| - 1] == a + b[..|b| - 1];
      LatestAppend(a, b[..|b| - 1]);
    }
  }

  /** How the real timer came to be armed: who ran, the wall clock it read, the
      manager's time from which the timer counts, and how much it was set to. */
  datatype Arming = Arming(task: Task, reading: nat, since: nat, amount: nat)

  /** The real timer's arming after an event: by a set, or by a fire that starts it anew. */
  function Rearm(m: Manager, e: Event, c: Context, prev: Option<Arming>): Option<Arming>
    requires Enabled(m, e)
  {
    match e
    case EvPoll(now) =>
      if !Advance(m, Real, now - m.last).1 then prev
      else if m.wall.interval > 0 then Some(Arming(c.task, c.wall, now, m.wall.interval))
      else None
    case EvMode(mode) => prev
    case EvSet(k, t) =>
      if !k.Real? then prev else if t.remained > 0 then Some(Arming(c.task, c.wall, m.last, t.remained)) else None
  }

  function LastArming(m: Manager, es: seq<Event>, cs: seq<Context>, prev: Option<Arming>): Option<Arming>
    requires Ordered(m, es) && |cs| == |es|
    decreases |es|
  {
    if es == [] then prev else LastArming(Step(m, es[0]), es[1..], cs[1..], Rearm(m, es[0], cs[0], prev))
  }

  /** An armed real timer counts down from its last arming, and the last real entry of the
      alarm list is the one that arming pushed. */
  ghost predicate Alarmed(m: Manager, entries: seq<Entry>, a: Option<Arming>) {
    && (a.Some? <==> m.wall.remained > 0)
    && (a.Some? ==>
          && m.wall.remained + m.last == a.value.amount + a.value.since
          && LatestReal(entries) == Some(Entry(Real, a.value.reading + a.value.amount, a.value.task)))
  }

  lemma RenewalLatest(k: Kind, t: ITimer, c: Context)
    ensures LatestReal(Renewal(k, t, c)) ==
            if k.Real? && t.remained > 0 then Some(Entry(Real, c.wall + t.remained, c.task)) else None
  {
    var entries := Renewal(k, t, c);
    if entries != [] { assert LatestReal(entries[..0]) == None; }
  }

  lemma RenewedLatest(m: Manager, k: Kind, delta: nat, c: Context)
    ensures LatestReal(Renewed(m, k, delta, c)) ==
            if k.Real? && Advance(m, k, delta).1 && m.wall.interval > 0
            then Some(Entry(Real, c.wall + m.wall.interval, c.task)) else None
  {
    hide LatestReal;
    hide Renewal;
    assert LatestReal([]) == None by { LatestNone(); }
    RenewalLatest(k, Advance(m, k, delta).0, c);
  }

  lemma LatestNone()
    ensures LatestReal([]) == None
  {
  }

  /** The last real entry that an event pushes is that of its arming, if it arms. */
  lemma AlarmsLatest(m: Manager, e: Event, c: Context)
    requires Enabled(m, e)
    ensures var a := Rearm(m, e, c, None);
            LatestReal(Alarms(m, e, c)) ==
            if a.Some? then Some(Entry(Real, a.value.reading + a.value.amount, a.value.task)) else None
  {
    hide LatestReal;
    hide Renewed;
    hide Renewal;
    hide Advance;
    match e
    case EvPoll(now) =>
      var delta := now - m.last;
      var v, p, w := Renewed(m, Virtual, delta, c), Renewed(m, Prof, delta, c), Renewed(m, Real, delta, c);
      RenewedLatest(m, Virtual, delta, c);
      RenewedLatest(m, Prof, delta, c);
      RenewedLatest(m, Real, delta, c);
      LatestAppend(v, p);
      LatestAppend(v + p, w);
    case EvMode(mode) => LatestNone();
    case EvSet(k, t) => RenewalLatest(k, t, c);
  }

  lemma StepAlarmed(m: Manager, e: Event, c: Context, entries: seq<Entry>, a: Option<Arming>)
    requires Enabled(m, e) && Alarmed(m, entries, a)
    ensures Alarmed(Step(m, e), entries + Alarms(m, e, c), Rearm(m, e, c, a))
  {
    hide LatestReal;
    hide Alarms;
    AlarmsLatest(m, e, c);
    LatestAppend(entries, Alarms(m, e, c));
  }

  lemma {:induction false} RunAlarmed(m: Manager, es: seq<Event>, cs: seq<Context>,
                                      entries: seq<Entry>, a: Option<Arming>)
    requires Ordered(m, es) && |cs| == |es| && Alarmed(m, entries, a)
    ensures Alarmed(Play(m, es), entries + AllAlarms(m, es, cs), LastArming(m, es, cs, a))
    decreases |es|
  {
    hide Alarmed;
    hide Alarms;
    hide Rearm;
    if es == [] {
      assert entries + [] == entries;
    } else {
      StepAlarmed(m, es[0], cs[0], entries, a);
      var more := Alarms(m, es[0], cs[0]);
      RunAlarmed(Step(m, es[0]), es[1..], cs[1..], entries + more, Rearm(m, es[0], cs[0], a));
      assert entries + more + AllAlarms(Step(m, es[0]), es[1..], cs[1..]) == entries + AllAlarms(m, es, cs);
    }
  }

  /** After any run from a new manager, an armed real timer's last alarm is the one its last
      arming pushed, for the reading taken then and the amount set then.  So it is addressed
      to the timer's own thread exactly if that arming ran on that thread. */
  lemma LatestAlarm(es: seq<Event>, cs: seq<Context>)
    requires Ordered(NEW, es) && |cs| == |es|
    ensures var m, a, last := Play(NEW, es), LastArming(NEW, es, cs, None), LatestReal(AllAlarms(NEW, es, cs));
            && (a.Some? <==> m.wall.remained > 0)
            && (a.Some? ==>
                  && m.wall.remained + m.last == a.value.amount + a.value.since
                  && last == Some(Entry(Real, a.value.reading + a.value.amount, a.value.task))
                  && (last.value.task == Thread <==> a.value.task == Thread))
  {
    RunAlarmed(NEW, es, cs, [], None);
    assert [] + AllAlarms(NEW, es, cs) == AllAlarms(NEW, es, cs);
  }

  /** A poll at the last alarm's time or later makes the timer fire, if the wall clock is
      `offset` ahead of the manager's and was read no earlier than the timer counts from. */
  lemma AlarmFires(es: seq<Event>, cs: seq<Context>, offset: nat, now: nat)
    requires Ordered(NEW, es) && |cs| == |es| && Play(NEW, es).wall.remained > 0 && now >= Play(NEW, es).last
    ensures var a, last := LastArming(NEW, es, cs, None), LatestReal(AllAlarms(NEW, es, cs));
            && a.Some? && last.Some?
            && (a.value.reading >= offset + a.value.since && offset + now >= last.value.deadline ==>
                  Real in Poll(Play(NEW, es), now).1)
  {
    hide LatestReal;
    hide AllAlarms;
    hide LastArming;
    LatestAlarm(es, cs);
  }

  /** While only the alarm task polls a thread, nothing that is pushed is addressed to it. */
  lemma {:induction false} BlockedGetsNone(m: Manager, es: seq<Event>, cs: seq<Context>, i: nat)
    requires Ordered(m, es) && |cs| == |es| && i < |AllAlarms(m, es, cs)|
    requires forall j :: 0 <= j < |cs| ==> cs[j].task == AlarmTask
    ensures AllAlarms(m, es, cs)[i].task == AlarmTask
    decreases |es|
  {
    hide Alarms;
    if es != [] {
      var n := |Alarms(m, es[0], cs[0])|;
      if i < n { AddressedTo(m, es[0], cs[0], i); } else { BlockedGetsNone(Step(m, es[0]), es[1..], cs[1..], i - n); }
    }
  }

  lemma AddressedTo(m: Manager, e: Event, c: Context, i: nat)
    requires Enabled(m, e) && i < |Alarms(m, e, c)|
    ensures Alarms(m, e, c)[i].task == c.task
  {
    hide Advance;
  }

  /** It happens: a thread sets a timer of 10 that repeats every 10, and blocks.  The alarm
      task fires it at 10, and the next alarm, for 20, goes to the alarm task.  The timer is
      armed, and no alarm that is still to come is for the thread. */
  lemma AlarmAstray() returns (es: seq<Event>, cs: seq<Context>)
    ensures Ordered(NEW, es) && |cs| == |es| == 2 && cs[0].task == Thread && cs[1].task == AlarmTask
    ensures AllAlarms(NEW, es, cs) == [Entry(Real, 10, Thread), Entry(Real, 20, AlarmTask)]
    ensures Signals(NEW, es, Real) == 1 && Play(NEW, es).last == 10 && Play(NEW, es).wall == ITimer(10, 10)
  {
    var set0, poll1 := EvSet(Real, ITimer(10, 10)), EvPoll(10);
    es, cs := [set0, poll1], [Context(Thread, 0, 0, 0), Context(AlarmTask, 10, 10, 10)];
    var m1 := Step(NEW, set0);
    var m2 := Step(m1, poll1);
    assert es[1..] == [poll1] && [poll1][1..] == [] && cs[1..] == [cs[1]];
    assert m1.wall == ITimer(10, 10) && m2.wall == ITimer(10, 10) && m2.last == 10;
    assert Ordered(m2, []) && Ordered(m1, [poll1]);
    assert Play(m1, [poll1]) == Play(m2, []) == m2;
    assert Real in Poll(m1, 10).1 && Signals(m2, [], Real) == 0 && Signals(m1, [poll1], Real) == 1;
    assert Alarms(NEW, set0, cs[0]) == [Entry(Real, 10, Thread)];
    assert Alarms(m1, poll1, cs[1]) == [Entry(Real, 20, AlarmTask)];
    assert AllAlarms(m1, [poll1], [cs[1]]) == Alarms(m1, poll1, cs[1]) + AllAlarms(m2, [], []);
  }

  // ---------------------------------------------------------------------- code

  class TimeManager {
    var utime: nat
    var stime: nat
    var last: nat
    var mode: Mode
    var timers: array<ITimer>
    var alarms: seq<Entry>

    ghost predicate Valid()
      reads this
    {
      timers.Length == 3
    }

    function Value(): Manager
      requires Valid()
      reads this, timers
    {
      Manager(utime, stime, last, mode, timers[0], timers[1], timers[2])
    }

    constructor ()
      ensures Valid() && fresh(timers) && Value() == NEW && alarms == []
    {
      utime, stime, last, mode, alarms := 0, 0, 0, Idle, [];
      timers := new ITimer[3](_ => ITimer(0, 0));
    }

    /** `ITimer::update` on the timer in place, renewing it when it fires. */
    method UpdateTimer(k: Kind, delta: nat, c: Context) returns (fired: bool)
      requires Valid()
      modifies timers, this`alarms
      ensures Valid() && Value() == SetTimer(old(Value()), k, Update(Timer(old(Value()), k), delta).0)
      ensures fired == Update(Timer(old(Value()), k), delta).1
      ensures alarms == old(alarms) + if fired then Renewal(k, Timer(Value(), k), c) else []
    {
      var i := match k case Real => 0 case Virtual => 1 case Prof => 2;
      var t := timers[i];
      if t.remained == 0 { return false; }
      if t.remained > delta {
        timers[i] := t.(remained := t.remained - delta);
        fired := false;
      } else {
        timers[i] := t.(remained := t.interval);
        RenewTimer(k, timers[i], c);
        fired := true;
      }
    }

    /** `renew_timer`: the entry is addressed to whatever task runs. */
    method RenewTimer(k: Kind, t: ITimer, c: Context)
      modifies this`alarms
      ensures alarms == old(alarms) + Renewal(k, t, c)
    {
      if t.remained > 0 {
        alarms := alarms + [Entry(k, Reading(c, k) + t.remained, c.task)];
      }
    }

    /** The time goes to the mode the process is in, and to that mode's timers. */
    method ChargeMode(delta: nat, c: Context) returns (virt: bool, prof: bool)
      requires Valid()
      modifies this`utime, this`stime, this`alarms, timers
      ensures Valid() && virt == Advance(old(Value()), Virtual, delta).1 && prof == Advance(old(Value()), Prof, delta).1
      ensures var m := old(Value());
              Value() == m.(utime := if mode.User? then m.utime + delta else m.utime,
                            stime := if mode.Kernel? then m.stime + delta else m.stime,
                            virt := Advance(m, Virtual, delta).0, prof := Advance(m, Prof, delta).0)
      ensures alarms == old(alarms) + (Renewed(old(Value()), Virtual, delta, c) + Renewed(old(Value()), Prof, delta, c))
    {
      hide Update;
      hide Renewal;
      virt, prof := false, false;
      match mode {
        case User =>
          utime := utime + delta;
          virt := UpdateTimer(Virtual, delta, c);
          prof := UpdateTimer(Prof, delta, c);
        case Kernel =>
          stime := stime + delta;
          prof := UpdateTimer(Prof, delta, c);
        case Idle =>
      }
    }

    method PollTimers(now: nat, c: Context) returns (signals: set<Kind>)
      requires Valid() && now >= last
      modifies this, timers
      ensures Valid() && timers == old(timers)
      ensures Value() == Poll(old(Value()), now).0 && signals == Poll(old(Value()), now).1
      ensures alarms == old(alarms) + Alarms(old(Value()), EvPoll(now), c)
    {
      hide Update;
      hide Renewal;
      var delta := now - last;
      var virt, prof := ChargeMode(delta, c);
      var wall := UpdateTimer(Real, delta, c);
      last := now;
      signals := (if wall then {Real} else {}) + (if virt then {Virtual} else {}) + (if prof then {Prof} else {});
    }

    method SetITimer(k: Kind, t: ITimer, c: Context) returns (was: ITimer)
      requires Valid()
      modifies timers, this`alarms
      ensures Valid() && Value() == SetTimer(old(Value()), k, t) && was == Timer(old(Value()), k)
      ensures alarms == old(alarms) + Alarms(old(Value()), EvSet(k, t), c)
    {
      var i := match k case Real => 0 case Virtual => 1 case Prof => 2;
      RenewTimer(k, t, c);
      was := timers[i];
      timers[i] := t;
    }
  }
}
