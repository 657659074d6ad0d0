/** The alarm task: a heap of deadlines, pushed by any thread that renews a timer,
    and one task that sleeps until the earliest deadline or a notification.
    Looking at the heap, pushing, registering a listener, notifying and popping are
    separate steps.  A pusher may have read the clock long before it pushes, so any
    deadline can be pushed at any time; a push is timely if its deadline is still ahead,
    as it is when the clock is read and the deadline pushed in one step. */
module Alarm {
  import opened Base

  datatype Entry = Entry(deadline: int, task: int)

  /** Where the alarm task is in its loop.  `d` is the deadline it looked up. */
  datatype Pc =
    | Look
    | EmptyListen
    | EmptyCheck
    | EmptySleep
    | DueListen(d: int)
    | DueCheck(d: int)
    | DueSleep(d: int)
    | Work(d: int)
    | Pop(d: int)

  /** `listener` is the alarm task's listener, if it has one, and whether it has been
      notified; `owed` counts pushers that have pushed but not notified yet; `stale` is
      history: a deadline earlier than the one looked up was pushed since the look. */
  datatype State = State(heap: multiset<Entry>, now: int, pc: Pc, listener: Option<bool>, owed: nat, stale: bool)

  /** The heap's order is reversed: the greatest entry is an earliest one. */
  predicate AtMost(a: Entry, b: Entry) {
    b.deadline <= a.deadline
  }

  /** What `peek` and `pop` may return. */
  ghost predicate Top(heap: multiset<Entry>, e: Entry) {
    e in heap && forall x :: x in heap ==> AtMost(x, e)
  }

  ghost predicate Earliest(heap: multiset<Entry>, d: int) {
    exists e :: Top(heap, e) && e.deadline == d
  }

  ghost predicate ShouldWake(heap: multiset<Entry>, d: int) {
    forall x :: x in heap ==> x.deadline > d
  }

  /** The alarm task is between its look and its pop, and `e` comes before what it saw. */
  predicate Undercuts(pc: Pc, e: Entry) {
    (pc.Work? || pc.Pop?) && e.deadline < pc.d
  }

  /** `renew_timer`: push, and owe a notification if the entry becomes the first. */
  ghost predicate Push(s: State, e: Entry, s': State) {
    s' == s.(heap := s.heap + multiset{e},
             owed := s.owed + (if ShouldWake(s.heap, e.deadline) then 1 else 0),
             stale := s.stale || Undercuts(s.pc, e))
  }

  ghost predicate Notify(s: State, s': State) {
    s.owed > 0 && s' == s.(owed := s.owed - 1, listener := if s.listener.Some? then Some(true) else None)
  }

  ghost predicate TaskStep(s: State, s': State) {
    match s.pc
    case Look =>
      || (s.heap == multiset{} && s' == s.(pc := EmptyListen))
      || (exists e :: Top(s.heap, e)
                      && s' == s.(pc := if e.deadline <= s.now then Work(e.deadline) else DueListen(e.deadline),
                                  stale := false))
    case EmptyListen => s' == s.(listener := Some(false), pc := EmptyCheck)
    case EmptyCheck =>
      s' == if s.heap != multiset{} then s.(listener := None, pc := Look) else s.(pc := EmptySleep)
    case EmptySleep => s.listener == Some(true) && s' == s.(listener := None, pc := Look)
    case DueListen(d) => s' == s.(listener := Some(false), pc := DueCheck(d))
    case DueCheck(d) =>
      s' == if Earliest(s.heap, d) then s.(pc := DueSleep(d)) else s.(listener := None, pc := Look)
    case DueSleep(d) => (s.listener == Some(true) || s.now >= d) && s' == s.(listener := None, pc := Look)
    case Work(d) => s' == s.(pc := Pop(d))
    case Pop(d) => exists e :: Top(s.heap, e) && s' == s.(heap := s.heap - multiset{e}, pc := Look)
  }

  ghost predicate Next(s: State, s': State) {
    || (s'.now >= s.now && s' == s.(now := s'.now))
    || (exists e :: Push(s, e, s'))
    || Notify(s, s')
    || TaskStep(s, s')
  }

  /** A notification has reached the sleeper or is on its way. */
  predicate Pending(s: State) {
    s.listener == Some(true) || s.owed > 0
  }

  /** Whether the deadline looked up is still the earliest one, as `stale` says. */
  ghost predicate Looked(s: State, d: int) {
    && d <= s.now
    && (!s.stale ==> Earliest(s.heap, d))
    && (s.stale ==> exists x :: x in s.heap && x.deadline < d)
  }

  ghost predicate Inv(s: State) {
    match s.pc
    case Work(d) => Looked(s, d)
    case Pop(d) => Looked(s, d)
    case EmptyCheck => s.listener.Some?
    case DueCheck(d) => s.listener.Some?
    case EmptySleep => s.listener.Some? && (Pending(s) || s.heap == multiset{})
    case DueSleep(d) => s.listener.Some? && (Pending(s) || Earliest(s.heap, d))
    case _ => true
  }

  lemma PushEarliest(heap: multiset<Entry>, e: Entry, d: int)
    requires Earliest(heap, d)
    ensures Earliest(heap + multiset{e}, d) <==> e.deadline >= d
  {
    var t :| Top(heap, t) && t.deadline == d;
    if e.deadline >= d {
      assert Top(heap + multiset{e}, t);
    } else {
      assert e in heap + multiset{e};
    }
  }

  lemma PushLooked(s: State, e: Entry, s': State, d: int)
    requires Looked(s, d) && Push(s, e, s') && (s.pc == Work(d) || s.pc == Pop(d))
    ensures Looked(s', d)
  {
    if s.stale {
      var x :| x in s.heap && x.deadline < d;
      assert x in s'.heap;
    } else {
      PushEarliest(s.heap, e, d);
      assert e in s'.heap;
    }
  }

  /** A push that becomes the first owes a notification, so a sleeper is not left behind. */
  lemma PushInv(s: State, e: Entry, s': State)
    requires Inv(s) && Push(s, e, s')
    ensures Inv(s')
    ensures s'.owed > s.owed <==> forall x :: x in s.heap ==> e.deadline < x.deadline
  {
    match s.pc
    case Work(d) => PushLooked(s, e, s', d);
    case Pop(d) => PushLooked(s, e, s', d);
    case DueSleep(d) =>
      if Earliest(s.heap, d) {
        PushEarliest(s.heap, e, d);
        var t :| Top(s.heap, t) && t.deadline == d;
        assert e.deadline < d ==> ShouldWake(s.heap, e.deadline);
      }
    case _ =>
  }

  lemma NextInv(s: State, s': State)
    requires Inv(s) && Next(s, s')
    ensures Inv(s')
  {
    if e :| Push(s, e, s') {
      PushInv(s, e, s');
    } else if TaskStep(s, s') {
    }
  }

  ghost predicate Run(run: seq<State>) {
    && |run| > 0 && run[0].pc == Look && run[0].heap == multiset{} && run[0].listener == None && run[0].owed == 0
    && !run[0].stale
    && forall k :: 0 <= k < |run| - 1 ==> Next(run[k], run[k + 1])
  }

  lemma {:induction false} RunInv(run: seq<State>, n: nat)
    requires Run(run) && n < |run|
    ensures Inv(run[n])
  {
    if n > 0 {
      RunInv(run, n - 1);
      NextInv(run[n - 1], run[n]);
    }
  }

  /** There is always an entry to pop, and it has the deadline the alarm task looked up
      exactly if no earlier deadline was pushed since. */
  lemma PopMatchesIff(run: seq<State>, n: nat, e: Entry)
    requires Run(run) && n < |run| && run[n].pc.Pop?
    ensures run[n].heap != multiset{}
    ensures Top(run[n].heap, e) ==> (e.deadline == run[n].pc.d <==> !run[n].stale)
  {
    RunInv(run, n);
    var s := run[n];
    if s.stale {
      var x :| x in s.heap && x.deadline < s.pc.d;
      assert Top(s.heap, e) ==> AtMost(x, e);
    }
  }

  /** A deadline that is pushed is still ahead at that moment. */
  ghost predicate Timely(s: State, s': State) {
    forall e :: Push(s, e, s') ==> e.deadline > s.now
  }

  ghost predicate TimelyRun(run: seq<State>) {
    Run(run) && forall k :: 0 <= k < |run| - 1 ==> Timely(run[k], run[k + 1])
  }

  lemma TimelyStep(s: State, s': State)
    requires Inv(s) && Next(s, s') && Timely(s, s') && !s.stale
    ensures !s'.stale
  {
    hide Earliest;
    hide ShouldWake;
    hide Top;
  }

  lemma {:induction false} TimelyNeverStale(run: seq<State>, n: nat)
    requires TimelyRun(run) && n < |run|
    ensures !run[n].stale
  {
    hide Next;
    hide Inv;
    hide Timely;
    if n > 0 {
      TimelyNeverStale(run, n - 1);
      RunInv(run, n - 1);
      TimelyStep(run[n - 1], run[n]);
    }
  }

  /** Whatever timers are pushed while it works, if they are timely the entry the alarm task
      pops has the deadline it looked up: the assertion after the pop holds. */
  lemma PopMatches(run: seq<State>, n: nat, e: Entry)
    requires TimelyRun(run) && n < |run| && run[n].pc.Pop?
    ensures run[n].heap != multiset{}
    ensures Top(run[n].heap, e) ==> e.deadline == run[n].pc.d
  {
    TimelyNeverStale(run, n);
    PopMatchesIff(run, n, e);
  }

  /** While the alarm task sleeps with no notification pending, it sleeps until the earliest
      deadline, or the heap is empty and it waits for a push. */
  lemma SleepsUntilEarliest(run: seq<State>, n: nat)
    requires Run(run) && n < |run| && !Pending(run[n])
    ensures run[n].pc.DueSleep? ==> Earliest(run[n].heap, run[n].pc.d)
    ensures run[n].pc.EmptySleep? ==> run[n].heap == multiset{}
  {
    RunInv(run, n);
  }

  /** The alarm task is not waiting. */
  ghost predicate CanStep(s: State) {
    exists s' :: TaskStep(s, s')
  }

  /** Some deadline in the heap has come. */
  ghost predicate SomeDue(s: State) {
    exists x :: x in s.heap && x.deadline <= s.now
  }

  /** A sleeper moves on exactly when it has been notified or its deadline has come. */
  lemma SleeperMovesIff(s: State)
    ensures s.pc.DueSleep? ==> (CanStep(s) <==> s.listener == Some(true) || s.now >= s.pc.d)
    ensures s.pc.EmptySleep? ==> (CanStep(s) <==> s.listener == Some(true))
  {
    var s' := s.(listener := None, pc := Look);
    if s.pc.DueSleep? && (s.listener == Some(true) || s.now >= s.pc.d) { assert TaskStep(s, s'); }
    if s.pc.EmptySleep? && s.listener == Some(true) { assert TaskStep(s, s'); }
  }

  /** Some entry of a heap that is not empty is a top. */
  lemma {:induction false} HasTop(heap: multiset<Entry>) returns (e: Entry)
    requires heap != multiset{}
    ensures Top(heap, e)
    decreases |heap|
  {
    e :| e in heap;
    var rest := heap - multiset{e};
    assert forall x :: x in heap ==> x == e || x in rest;
    if rest != multiset{} {
      var f := HasTop(rest);
      if f.deadline < e.deadline { e := f; }
    }
  }

  /** Awake, the alarm task can always go on. */
  lemma AwakeSteps(s: State)
    requires Inv(s) && !s.pc.DueSleep? && !s.pc.EmptySleep?
    ensures CanStep(s)
  {
    match s.pc
    case Look =>
      if s.heap == multiset{} {
        assert TaskStep(s, s.(pc := EmptyListen));
      } else {
        var e := HasTop(s.heap);
        var pc := if e.deadline <= s.now then Work(e.deadline) else DueListen(e.deadline);
        assert TaskStep(s, s.(pc := pc, stale := false));
      }
    case EmptyListen => assert TaskStep(s, s.(listener := Some(false), pc := EmptyCheck));
    case EmptyCheck =>
      assert TaskStep(s, if s.heap != multiset{} then s.(listener := None, pc := Look) else s.(pc := EmptySleep));
    case DueListen(d) => assert TaskStep(s, s.(listener := Some(false), pc := DueCheck(d)));
    case DueCheck(d) =>
      var s' := if Earliest(s.heap, d) then s.(pc := DueSleep(d)) else s.(listener := None, pc := Look);
      assert TaskStep(s, s');
    case Work(d) => assert TaskStep(s, s.(pc := Pop(d)));
    case Pop(d) =>
      assert s.heap != multiset{} by { PopHas(s, d); }
      var e := HasTop(s.heap);
      assert TaskStep(s, s.(heap := s.heap - multiset{e}, pc := Look));
  }

  lemma PopHas(s: State, d: int)
    requires Looked(s, d)
    ensures s.heap != multiset{}
  {
  }

  /** In every run, while no notification is pending, the alarm task waits exactly if it is
      asleep and no deadline has come; while one is on its way, the one who owes it can
      deliver it, and then the alarm task moves on. */
  lemma WaitsIff(run: seq<State>, n: nat)
    requires Run(run) && n < |run|
    ensures var s := run[n];
            var asleep := s.pc.DueSleep? || s.pc.EmptySleep?;
            && (!Pending(s) ==> (CanStep(s) <==> !asleep || SomeDue(s)))
            && (s.listener == Some(true) ==> CanStep(s))
            && (s.owed > 0 && asleep ==>
                  forall s' :: Notify(s, s') ==> CanStep(s'))
  {
    RunInv(run, n);
    var s := run[n];
    hide TaskStep;
    SleeperMovesIff(s);
    if s.pc.DueSleep? {
      if !Pending(s) {
        var t :| Top(s.heap, t) && t.deadline == s.pc.d;
        assert SomeDue(s) <==> t.deadline <= s.now;
      }
    } else if s.pc.EmptySleep? {
    } else {
      AwakeSteps(s);
    }
    forall s' | Notify(s, s') && (s.pc.DueSleep? || s.pc.EmptySleep?) ensures CanStep(s') { SleeperMovesIff(s'); }
  }

  /** Nothing is popped before its deadline has come. */
  lemma PopNotEarly(run: seq<State>, n: nat, e: Entry)
    requires Run(run) && n < |run| && run[n].pc.Pop? && Top(run[n].heap, e)
    ensures e.deadline <= run[n].now
  {
    RunInv(run, n);
    PopMatchesIff(run, n, e);
    if run[n].stale {
      var x :| x in run[n].heap && x.deadline < run[n].pc.d;
      assert AtMost(x, e);
    }
  }

  /** A run in which the pop disagrees: a thread read the clock at 0 for a deadline of 3 and
      pushes it at 10, after the alarm task has looked up the deadline 5. */
  lemma StalePush() returns (run: seq<State>, e: Entry)
    ensures Run(run) && |run| == 7 && run[6].pc == Pop(5) && Top(run[6].heap, e) && e.deadline == 3
  {
    hide Next;
    hide Top;
    e := Entry(3, 2);
    var s0, s1, s2, s3 := StaleBegin();
    var s4, s5, s6 := StaleEnd(s3);
    run := [s0, s1, s2, s3, s4, s5, s6];
    forall k | 0 <= k < 6 ensures Next(run[k], run[k + 1]) { }
  }

  lemma StaleBegin() returns (s0: State, s1: State, s2: State, s3: State)
    ensures s0 == State(multiset{}, 0, Look, None, 0, false)
    ensures Next(s0, s1) && Next(s1, s2) && Next(s2, s3)
    ensures s3 == State(multiset{Entry(5, 1)}, 10, Look, None, 0, false)
  {
    var a := Entry(5, 1);
    s0 := State(multiset{}, 0, Look, None, 0, false);
    s1 := s0.(heap := s0.heap + multiset{a}, owed := 1);
    s2 := s1.(owed := 0);
    s3 := s2.(now := 10);
    assert s1.heap == multiset{a};
    assert Push(s0, a, s1) && Notify(s1, s2);
  }

  lemma StaleEnd(s3: State) returns (s4: State, s5: State, s6: State)
    requires s3 == State(multiset{Entry(5, 1)}, 10, Look, None, 0, false)
    ensures Next(s3, s4) && Next(s4, s5) && Next(s5, s6)
    ensures s6.pc == Pop(5) && Top(s6.heap, Entry(3, 2))
  {
    var a, b := Entry(5, 1), Entry(3, 2);
    s4 := s3.(pc := Work(5));
    s5 := s4.(heap := s4.heap + multiset{b}, owed := 1, stale := true);
    s6 := s5.(pc := Pop(5));
    assert Top(s3.heap, a) && TaskStep(s3, s4);
    assert Push(s4, b, s5) && TaskStep(s5, s6);
    assert b in s6.heap;
  }
}
