/**
 The loop's queue of functors from any thread, the eventfd that wakes the loop, and the
 loop's own cycle, as a state machine over the atomic actions of all threads.
 */
module EventLoop {
  type Functor = nat
  type ThreadId = nat

  /** Where the loop's thread is. */
  datatype Place =
    | BeforeLoop
    | CheckQuit
    | Polling
    | Handling(wakeupActive: bool)
    | Calling
    | Running(batch: seq<Functor>, next: nat)
    | Stopped

  /**
   The shared state, the threads that still owe a wakeup (between their push or quit and
   the eventfd write), and the history: everything pushed, everything run, what the loop's
   own thread has queued outside loop() since the latest swap, and how much had been pushed
   at that swap.
   */
  datatype State = State(
    place: Place, pendingFunctors: seq<Functor>, callingPendingFunctors: bool, quit: bool,
    wakeups: nat, iteration: nat, owing: set<ThreadId>,
    pushed: seq<Functor>, ran: seq<Functor>, early: seq<Functor>, swapped: bool, swappedAt: nat)

  const Created := State(BeforeLoop, [], false, false, 0, 0, {}, [], [], [], false, 0)

  datatype Action =
    // another thread: queueInLoop is a push and then a wakeup, quit sets a flag and then wakes
    | OtherPush(t: ThreadId, f: Functor)
    | OtherQuit(t: ThreadId)
    | OtherWakeup(t: ThreadId)
    // the loop's thread, from its own code, a handler or a functor
    | OwnPush(f: Functor)
    | OwnQuit
    // the loop
    | StartLoop
    | TestQuit
    | PollReturn(wakeupActive: bool)
    | ReadWakeup
    | StartCalling
    | Swap
    | RunNext
    | DoneCalling

  /** The loop's thread is not inside loop(), and may call it, for the first time or again. */
  predicate Outside(s: State) {
    s.place.BeforeLoop? || s.place.Stopped?
  }

  predicate Enabled(s: State, a: Action) {
    match a
    case OtherPush(t, _) => t !in s.owing
    case OtherQuit(t) => t !in s.owing
    case OtherWakeup(t) => t in s.owing
    case OwnPush(_) => Outside(s) || s.place.Handling? || s.place.Running?
    case OwnQuit => Outside(s) || s.place.Handling? || s.place.Running?
    case StartLoop => Outside(s)
    case TestQuit => s.place.CheckQuit?
    case PollReturn(active) => s.place.Polling? && (active ==> s.wakeups > 0)
    case ReadWakeup => s.place.Handling? && s.place.wakeupActive
    case StartCalling => s.place.Handling?
    case Swap => s.place.Calling?
    case RunNext => s.place.Running? && s.place.next < |s.place.batch|
    case DoneCalling => s.place.Running? && s.place.next == |s.place.batch|
  }

  function Push(s: State, f: Functor): State {
    s.(pendingFunctors := s.pendingFunctors + [f], pushed := s.pushed + [f])
  }

  function Step(s: State, a: Action): State
    requires Enabled(s, a)
  {
    match a
    case OtherPush(t, f) => Push(s, f).(owing := s.owing + {t})
    case OtherQuit(t) => s.(quit := true, owing := s.owing + {t})
    case OtherWakeup(t) => s.(wakeups := s.wakeups + 1, owing := s.owing - {t})
    case OwnPush(f) =>
      // the loop's own thread wakes itself only while functors are being called
      Push(s, f).(
        wakeups := if s.callingPendingFunctors then s.wakeups + 1 else s.wakeups,
        early := if Outside(s) then s.early + [f] else s.early)
    case OwnQuit => s.(quit := true)
    case StartLoop => s.(place := CheckQuit, quit := false)
    case TestQuit => s.(place := if s.quit then Stopped else Polling)
    case PollReturn(active) => s.(place := Handling(active), iteration := s.iteration + 1)
    case ReadWakeup => s.(wakeups := 0)
    case StartCalling => s.(place := Calling, callingPendingFunctors := true)
    case Swap =>
      s.(place := Running(s.pendingFunctors, 0), pendingFunctors := [],
         early := [], swapped := true, swappedAt := |s.pushed|)
    case RunNext =>
      s.(ran := s.ran + [s.place.batch[s.place.next]], place := Running(s.place.batch, s.place.next + 1))
    case DoneCalling => s.(place := CheckQuit, callingPendingFunctors := false)
  }

  // ----- the same actions, as the object's methods -----

  class Loop {
    var place: Place
    var pendingFunctors: seq<Functor>
    var callingPendingFunctors: bool
    var quit: bool
    var wakeups: nat
    var iteration: nat
    ghost var owing: set<ThreadId>
    ghost var pushed: seq<Functor>
    ghost var ran: seq<Functor>
    ghost var early: seq<Functor>
    ghost var swapped: bool
    ghost var swappedAt: nat

    ghost function View(): State
      reads this
    {
      State(place, pendingFunctors, callingPendingFunctors, quit, wakeups, iteration, owing,
            pushed, ran, early, swapped, swappedAt)
    }

    constructor ()
      ensures View() == Created
    {
      place, pendingFunctors, callingPendingFunctors, quit, wakeups, iteration := BeforeLoop, [], false, false, 0, 0;
      owing, pushed, ran, early, swapped, swappedAt := {}, [], [], [], false, 0;
    }

    /** The locked part of queueInLoop; a caller from another thread owes a wakeup. */
    method PushFromOther(ghost t: ThreadId, f: Functor)
      requires Enabled(View(), OtherPush(t, f))
      modifies this
      ensures View() == Step(old(View()), OtherPush(t, f))
    {
      pendingFunctors := pendingFunctors + [f];
      pushed := pushed + [f];
      owing := owing + {t};
    }

    method Wakeup(ghost t: ThreadId)
      requires Enabled(View(), OtherWakeup(t))
      modifies this
      ensures View() == Step(old(View()), OtherWakeup(t))
    {
      wakeups := wakeups + 1;
      owing := owing - {t};
    }

    method QuitFromOther(ghost t: ThreadId)
      requires Enabled(View(), OtherQuit(t))
      modifies this
      ensures View() == Step(old(View()), OtherQuit(t))
    {
      quit := true;
      owing := owing + {t};
    }

    /** queueInLoop called by the loop's own thread. */
    method QueueInLoop(f: Functor)
      requires Enabled(View(), OwnPush(f))
      modifies this
      ensures View() == Step(old(View()), OwnPush(f))
    {
      pendingFunctors := pendingFunctors + [f];
      pushed := pushed + [f];
      early := if place.BeforeLoop? || place.Stopped? then early + [f] else early;
      if callingPendingFunctors {
        wakeups := wakeups + 1;
      }
    }

    method HandleRead()
      requires Enabled(View(), ReadWakeup)
      modifies this
      ensures View() == Step(old(View()), ReadWakeup)
    {
      wakeups := 0;
    }

    method SwapPending()
      requires Enabled(View(), Swap)
      modifies this
      ensures View() == Step(old(View()), Swap)
    {
      place := Running(pendingFunctors, 0);
      pendingFunctors := [];
      early, swapped, swappedAt := [], true, |pushed|;
    }

    /** The head of loop(). */
    method Start()
      requires Enabled(View(), StartLoop)
      modifies this
      ensures View() == Step(old(View()), StartLoop)
    {
      quit := false;
      place := CheckQuit;
    }

    /** quit called by the loop's own thread. */
    method Quit()
      requires Enabled(View(), OwnQuit)
      modifies this
      ensures View() == Step(old(View()), OwnQuit)
    {
      quit := true;
    }

    /** The loop over the swapped functors, when none of them queues more and no other thread acts. */
    method CallFunctors()
      requires place.Running? && place.next <= |place.batch|
      modifies this`place, this`ran
      ensures place == old(Running(place.batch, |place.batch|))
      ensures ran == old(ran) + old(place.batch[place.next..])
    {
      var functors, i := place.batch, place.next;
      ghost var before, start := ran, i;
      assert functors[start..i] == [] && before + [] == before;
      while i < |functors|
        invariant start <= i <= |functors| && place == Running(functors, i)
        invariant ran == before + functors[start..i]
      {
        OneMore(before, functors, start, i);
        ran := ran + [functors[i]];
        i := i + 1;
        place := Running(functors, i);
      }
      assert functors[start..i] == functors[start..];
    }
  }

  lemma OneMore(before: seq<Functor>, fs: seq<Functor>, start: nat, i: nat)
    requires start <= i < |fs|
    ensures before + fs[start..i] + [fs[i]] == before + fs[start..i + 1]
  {
    assert fs[start..i + 1] == fs[start..i] + [fs[i]];
  }

  // ----- what every action keeps -----

  /** Functors taken out of the queue but not run yet. */
  function Rest(s: State): seq<Functor> {
    if s.place.Running? && s.place.next <= |s.place.batch| then s.place.batch[s.place.next..] else []
  }

  /** Some wakeup has been written and not read, or is about to be written. */
  predicate WakeupComing(s: State) {
    s.wakeups > 0 || s.owing != {}
  }

  /** The places from which the loop polls without swapping the queue first. */
  predicate NextPollsFirst(s: State) {
    Outside(s) || s.place.CheckQuit? || s.place.Polling? || s.place.Running?
  }

  predicate Inv(s: State) {
    && s.ran + Rest(s) + s.pendingFunctors == s.pushed
    && (s.place.Running? ==> s.place.next <= |s.place.batch|)
    && (s.callingPendingFunctors <==> s.place.Calling? || s.place.Running?)
    && (s.swapped ==> |s.ran| + |Rest(s)| == s.swappedAt)
    && (s.place.BeforeLoop? ==> !s.swapped)
    && (s.place.Running? ==> s.swapped)
    && (s.swapped ==> s.iteration > 0)
    && (!s.swapped ==> s.iteration <= 1 && (s.iteration == 1 ==> s.place.Handling? || s.place.Calling?))
    && (s.place.Handling? || s.place.Calling? ==> s.iteration > 0)
    && (NextPollsFirst(s) && !WakeupComing(s) ==> s.pendingFunctors == s.early)
    && (s.place.Polling? && s.quit ==> WakeupComing(s))
  }

  lemma RunNextKeepsOrder(s: State)
    requires s.ran + Rest(s) + s.pendingFunctors == s.pushed && Enabled(s, RunNext)
    ensures var d := Step(s, RunNext);
      d.ran + Rest(d) + d.pendingFunctors == d.pushed && |d.ran| + |Rest(d)| == |s.ran| + |Rest(s)|
  {
    var b, i := s.place.batch, s.place.next;
    assert b[i..] == [b[i]] + b[i + 1..];
    assert s.ran + ([b[i]] + b[i + 1..]) == (s.ran + [b[i]]) + b[i + 1..];
  }

  /** Every action of any thread keeps the invariant. */
  lemma StepKeepsInv(s: State, a: Action)
    requires Inv(s) && Enabled(s, a)
    ensures Inv(Step(s, a))
  {
    match a
    case RunNext => RunNextKeepsOrder(s);
    case OtherPush(_, f) => assert s.ran + Rest(s) + (s.pendingFunctors + [f]) == s.pushed + [f];
    case OwnPush(f) => assert s.ran + Rest(s) + (s.pendingFunctors + [f]) == s.pushed + [f];
    case Swap =>
      assert s.pendingFunctors[0..] == s.pendingFunctors;
      assert s.ran + [] + s.pendingFunctors == s.ran + s.pendingFunctors + [];
    case OtherQuit(_) =>
    case OtherWakeup(_) =>
    case OwnQuit =>
    case StartLoop =>
    case TestQuit =>
    case PollReturn(_) =>
    case ReadWakeup =>
    case StartCalling =>
    case DoneCalling =>
  }

  /** The states of a run: any interleaving of the threads' actions. */
  ghost predicate Run(ss: seq<State>, acts: seq<Action>) {
    && |ss| == |acts| + 1
    && ss[0] == Created
    && forall i | 0 <= i < |acts| :: Enabled(ss[i], acts[i]) && ss[i + 1] == Step(ss[i], acts[i])
  }

  lemma {:induction false} RunKeepsInv(ss: seq<State>, acts: seq<Action>, k: nat)
    requires Run(ss, acts) && k < |ss|
    ensures Inv(ss[k])
  {
    hide Step, Inv, Enabled;
    if k == 0 {
      CreatedIsFine();
    } else {
      RunKeepsInv(ss, acts, k - 1);
      StepKeepsInv(ss[k - 1], acts[k - 1]);
    }
  }

  lemma CreatedIsFine()
    ensures Inv(Created)
  {
  }

  /**
   Each action of the loop brings it to the next place of its cycle; pushes, quits and wakeups
   leave it where it is.
   */
  lemma CycleGoesOn(s: State, a: Action)
    requires Enabled(s, a)
    ensures var p, n := s.place, Step(s, a).place;
      match a
      case StartLoop => n == CheckQuit
      case TestQuit => n == (if s.quit then Stopped else Polling)
      case PollReturn(active) => n == Handling(active)
      case StartCalling => n == Calling
      case Swap => n == Running(s.pendingFunctors, 0) && Step(s, a).pendingFunctors == []
      case RunNext => n == Running(p.batch, p.next + 1)
      case DoneCalling => n == CheckQuit
      case _ => n == p
  {
  }

  // ----- history, read off the run alone -----

  /** Everything any thread queued among the first k actions, in order. */
  function Queued(acts: seq<Action>, k: nat): seq<Functor>
    requires k <= |acts|
  {
    if k == 0 then []
    else Queued(acts, k - 1) + (if acts[k - 1].OtherPush? || acts[k - 1].OwnPush? then [acts[k - 1].f] else [])
  }

  /** What the loop's own thread has queued outside loop() since the functors were last swapped out. */
  function QueuedOutside(ss: seq<State>, acts: seq<Action>, k: nat): seq<Functor>
    requires k <= |acts| < |ss|
  {
    if k == 0 || acts[k - 1] == Swap then []
    else
      QueuedOutside(ss, acts, k - 1)
      + (if acts[k - 1].OwnPush? && (ss[k - 1].place.BeforeLoop? || ss[k - 1].place.Stopped?) then [acts[k - 1].f] else [])
  }

  function Polls(acts: seq<Action>, k: nat): nat
    requires k <= |acts|
  {
    if k == 0 then 0 else Polls(acts, k - 1) + (if acts[k - 1].PollReturn? then 1 else 0)
  }

  function Calls(acts: seq<Action>, k: nat): nat
    requires k <= |acts|
  {
    if k == 0 then 0 else Calls(acts, k - 1) + (if acts[k - 1] == RunNext then 1 else 0)
  }

  lemma StepRecords(s: State, a: Action)
    requires Enabled(s, a)
    ensures var n := Step(s, a);
      && n.pushed == s.pushed + (if a.OtherPush? || a.OwnPush? then [a.f] else [])
      && |n.ran| == |s.ran| + (if a == RunNext then 1 else 0)
      && n.iteration == s.iteration + (if a.PollReturn? then 1 else 0)
      && n.early == if a == Swap then []
                    else s.early + (if a.OwnPush? && (s.place.BeforeLoop? || s.place.Stopped?) then [a.f] else [])
  {
  }

  /** The history is what happened: everything queued, one call for each functor that ran, one turn for each poll. */
  lemma {:induction false} HistoryIsWhatHappened(ss: seq<State>, acts: seq<Action>, k: nat)
    requires Run(ss, acts) && k < |ss|
    ensures ss[k].pushed == Queued(acts, k) && |ss[k].ran| == Calls(acts, k)
    ensures ss[k].iteration == Polls(acts, k) && ss[k].early == QueuedOutside(ss, acts, k)
  {
    hide Step, Enabled;
    if k > 0 {
      HistoryIsWhatHappened(ss, acts, k - 1);
      StepRecords(ss[k - 1], acts[k - 1]);
    }
  }

  lemma CallUnfolds(s: State)
    requires Inv(s) && Enabled(s, RunNext)
    ensures var f := s.place.batch[s.place.next];
      && |s.ran| < |s.pushed| && f == s.pushed[|s.ran|]
      && Step(s, RunNext).ran == s.ran + [f]
  {
    var b, i := s.place.batch, s.place.next;
    assert s.pushed == s.ran + (b[i..] + s.pendingFunctors);
    assert b[i..][0] == b[i];
  }

  /** The functor that the loop calls, as its (n + 1)st, is the (n + 1)st that any thread queued. */
  lemma CallsInPushOrder(ss: seq<State>, acts: seq<Action>, k: nat)
    requires Run(ss, acts) && k < |acts| && acts[k] == RunNext
    ensures var n := Calls(acts, k); var f := ss[k].place.batch[ss[k].place.next];
      n < |Queued(acts, k)| && f == Queued(acts, k)[n]
  {
    RunKeepsInv(ss, acts, k);
    HistoryIsWhatHappened(ss, acts, k);
    CallUnfolds(ss[k]);
  }

  // ----- since the latest start -----

  predicate FromOther(a: Action) {
    a.OtherPush? || a.OtherQuit?
  }

  /** Of the first k actions, the one at j is the latest call of loop(). */
  predicate LatestStart(acts: seq<Action>, j: nat, k: nat) {
    j < k <= |acts| && acts[j] == StartLoop && forall i | j < i < k :: acts[i] != StartLoop
  }

  lemma StartStep(s: State, a: Action)
    requires Enabled(s, a)
    ensures var d := Step(s, a); d.place.BeforeLoop? <==> s.place.BeforeLoop? && a != StartLoop
  {
  }

  /** Whatever the loop does, it does after a latest start. */
  lemma {:induction false} StartFound(ss: seq<State>, acts: seq<Action>, k: nat) returns (j: nat)
    requires Run(ss, acts) && k < |ss| && !ss[k].place.BeforeLoop?
    ensures LatestStart(acts, j, k)
  {
    hide Step, Enabled;
    assert k > 0;
    StartStep(ss[k - 1], acts[k - 1]);
    if acts[k - 1] == StartLoop {
      j := k - 1;
    } else {
      j := StartFound(ss, acts, k - 1);
    }
  }

  predicate NoPollYet(s: State) {
    s.place.CheckQuit? || s.place.Polling? || s.place.Stopped?
  }

  lemma NoPollStep(s: State, a: Action)
    requires Inv(s) && Enabled(s, a)
    requires a == StartLoop || (NoPollYet(s) && !a.PollReturn?)
    ensures NoPollYet(Step(s, a))
    ensures WakeupComing(Step(s, a)) <==> WakeupComing(s) || FromOther(a)
  {
  }

  /** Until the first poll of a loop() returns, wakeups come from other threads only, and none is used up. */
  lemma {:induction false} FirstRound(ss: seq<State>, acts: seq<Action>, j: nat, k: nat)
    requires Run(ss, acts) && LatestStart(acts, j, k)
    requires forall i | j < i < k :: !acts[i].PollReturn?
    ensures NoPollYet(ss[k])
    ensures WakeupComing(ss[k]) <==> WakeupComing(ss[j]) || exists i | j < i < k :: FromOther(acts[i])
  {
    hide Step, Inv, Enabled, WakeupComing, FromOther, NoPollYet;
    RunKeepsInv(ss, acts, k - 1);
    if j + 1 < k {
      FirstRound(ss, acts, j, k - 1);
    } else {
      assert !FromOther(acts[j]) by { StartIsOwn(); }
    }
    NoPollStep(ss[k - 1], acts[k - 1]);
  }

  lemma StartIsOwn()
    ensures !FromOther(StartLoop)
  {
  }

  /** From the return of a poll on the queue is swapped before the next poll. */
  predicate SwapsFirst(s: State) {
    || s.place.Handling? || s.place.Calling? || s.place.Stopped?
    || (!s.place.BeforeLoop? && s.early == [])
  }

  lemma SwapsFirstStep(s: State, a: Action)
    requires Inv(s) && Enabled(s, a) && a != StartLoop && (SwapsFirst(s) || a.PollReturn?)
    ensures SwapsFirst(Step(s, a))
  {
  }

  lemma {:induction false} LaterRounds(ss: seq<State>, acts: seq<Action>, i: nat, k: nat)
    requires Run(ss, acts) && i < k < |ss| && acts[i].PollReturn?
    requires forall m | i < m < k :: acts[m] != StartLoop
    ensures SwapsFirst(ss[k])
    decreases k
  {
    hide Step, Inv, Enabled, SwapsFirst;
    RunKeepsInv(ss, acts, k - 1);
    if i + 1 < k {
      LaterRounds(ss, acts, i, k - 1);
    }
    SwapsFirstStep(ss[k - 1], acts[k - 1]);
  }

  /**
   A poll with functors pending has a wakeup waiting or coming exactly when it is not the first poll
   since loop() was called, or a wakeup was coming at the call, or another thread has pushed or quit since.
   */
  lemma WakeupExactly(ss: seq<State>, acts: seq<Action>, j: nat, k: nat)
    requires Run(ss, acts) && LatestStart(acts, j, k)
    requires ss[k].place.Polling? && ss[k].pendingFunctors != []
    ensures WakeupComing(ss[k]) <==>
      WakeupComing(ss[j]) || exists i | j < i < k :: acts[i].PollReturn? || FromOther(acts[i])
    ensures !WakeupComing(ss[k]) ==> ss[k].pendingFunctors == ss[k].early
  {
    RunKeepsInv(ss, acts, k);
    hide Run, WakeupComing, FromOther;
    if exists i | j < i < k :: acts[i].PollReturn? {
      var i :| j < i < k && acts[i].PollReturn?;
      LaterRounds(ss, acts, i, k);
    } else {
      FirstRound(ss, acts, j, k);
    }
  }

  /**
   For the first loop() of all: a wakeup is coming at its call exactly when another thread has
   pushed or quit before.
   */
  lemma {:induction false} WakeupAtFirstStart(ss: seq<State>, acts: seq<Action>, k: nat)
    requires Run(ss, acts) && k < |ss| && ss[k].place.BeforeLoop?
    ensures WakeupComing(ss[k]) <==> exists i | 0 <= i < k :: FromOther(acts[i])
  {
    hide Step, Inv, Enabled, WakeupComing, FromOther;
    if k == 0 {
      assert !WakeupComing(ss[0]) by { NoneAtFirst(); }
    } else {
      RunKeepsInv(ss, acts, k - 1);
      StartStep(ss[k - 1], acts[k - 1]);
      BeforeLoopStep(ss[k - 1], acts[k - 1]);
      WakeupAtFirstStart(ss, acts, k - 1);
    }
  }

  lemma BeforeLoopStep(s: State, a: Action)
    requires Inv(s) && Enabled(s, a) && s.place.BeforeLoop?
    ensures WakeupComing(Step(s, a)) <==> WakeupComing(s) || FromOther(a)
  {
  }

  lemma NoneAtFirst()
    ensures !WakeupComing(Created)
  {
  }

  // ----- quitting -----

  predicate IsQuit(a: Action) {
    a.OtherQuit? || a.OwnQuit?
  }

  lemma QuitStep(s: State, a: Action)
    requires Enabled(s, a)
    ensures Step(s, a).quit <==> a != StartLoop && (s.quit || IsQuit(a))
  {
  }

  /** The flag is set exactly when somebody has quit since loop() was last called; an earlier quit is overwritten. */
  lemma {:induction false} QuitFlagExactly(ss: seq<State>, acts: seq<Action>, j: nat, k: nat)
    requires Run(ss, acts) && LatestStart(acts, j, k)
    ensures ss[k].quit <==> exists i | j < i < k :: IsQuit(acts[i])
  {
    hide Step, Enabled, IsQuit;
    QuitStep(ss[k - 1], acts[k - 1]);
    if j + 1 < k {
      QuitFlagExactly(ss, acts, j, k - 1);
    }
  }

  /** The loop stops at its test exactly when somebody has quit since loop() was last called. */
  lemma StopsExactly(ss: seq<State>, acts: seq<Action>, j: nat, k: nat)
    requires Run(ss, acts) && k < |acts| && acts[k] == TestQuit && LatestStart(acts, j, k)
    ensures ss[k + 1].place.Stopped? <==> exists i | j < i < k :: IsQuit(acts[i])
  {
    QuitFlagExactly(ss, acts, j, k);
  }

  /** Such a quit does not leave the loop asleep: a poll that follows it has a wakeup waiting or coming. */
  lemma QuitWakesPoll(ss: seq<State>, acts: seq<Action>, j: nat, i: nat, k: nat)
    requires Run(ss, acts) && LatestStart(acts, j, k) && j < i < k && IsQuit(acts[i])
    requires ss[k].place.Polling?
    ensures WakeupComing(ss[k])
  {
    RunKeepsInv(ss, acts, k);
    QuitFlagExactly(ss, acts, j, k);
  }

  /** The loop at its first handling of events, with nothing queued and the flag of an early quit overwritten. */
  lemma EarlyQuitOverwritten() returns (ss: seq<State>, acts: seq<Action>)
    ensures Run(ss, acts) && |acts| == 6 && acts[0].OtherQuit?
    ensures ss[6] == Created.(place := Handling(true), iteration := 1)
  {
    acts := [OtherQuit(1), OtherWakeup(1), StartLoop, TestQuit, PollReturn(true), ReadWakeup];
    var s1 := Created.(quit := true, owing := {1});
    var s2 := s1.(wakeups := 1, owing := {});
    var s3 := s2.(place := CheckQuit, quit := false);
    var s4 := s3.(place := Polling);
    var s5 := s4.(place := Handling(true), iteration := 1);
    ss := [Created, s1, s2, s3, s4, s5, s5.(wakeups := 0)];
  }

  lemma RunGoesOn(ss: seq<State>, acts: seq<Action>, a: Action)
    requires Run(ss, acts) && Enabled(ss[|acts|], a)
    ensures Run(ss + [Step(ss[|acts|], a)], acts + [a])
  {
    hide Step, Enabled;
  }

  /** A quit another thread issues before the start is lost: the loop polls on, with no wakeup left. */
  lemma EarlyQuitIsLost() returns (ss: seq<State>, acts: seq<Action>)
    ensures Run(ss, acts) && |acts| == 10 && acts[0].OtherQuit?
    ensures ss[10].place.Polling? && !ss[10].quit && !WakeupComing(ss[10])
  {
    hide Run;
    ss, acts := EarlyQuitOverwritten();
    assert |ss| == 7 by { RunLength(ss, acts); }
    var s6 := ss[6];
    RunGoesOn(ss, acts, StartCalling);
    var s7 := Step(s6, StartCalling);
    RunGoesOn(ss + [s7], acts + [StartCalling], Swap);
    var s8 := Step(s7, Swap);
    RunGoesOn(ss + [s7] + [s8], acts + [StartCalling] + [Swap], DoneCalling);
    var s9 := Step(s8, DoneCalling);
    RunGoesOn(ss + [s7] + [s8] + [s9], acts + [StartCalling] + [Swap] + [DoneCalling], TestQuit);
    ss := ss + [s7] + [s8] + [s9] + [Step(s9, TestQuit)];
    acts := acts + [StartCalling] + [Swap] + [DoneCalling] + [TestQuit];
  }

  lemma RunLength(ss: seq<State>, acts: seq<Action>)
    requires Run(ss, acts)
    ensures |ss| == |acts| + 1
  {
  }

  /** Functors run once each and in push order: what ran is a prefix of what was pushed, and nothing disappears. */
  lemma RunsInPushOrder(ss: seq<State>, acts: seq<Action>, k: nat)
    requires Run(ss, acts) && k < |ss|
    ensures ss[k].ran <= ss[k].pushed
    ensures ss[k].pushed == ss[k].ran + Rest(ss[k]) + ss[k].pendingFunctors
  {
    RunKeepsInv(ss, acts, k);
  }

  // ----- every functor is served by the next round -----

  /** By the time the loop has gone past round n, all of `due` has been taken out of the queue. */
  predicate ServedAfter(s: State, due: seq<Functor>, n: nat) {
    && due <= s.pushed
    && s.iteration >= n
    && (s.iteration == n ==> s.place.Polling?)
    && (|| s.iteration == n
        || (s.iteration == n + 1 && (s.place.Handling? || s.place.Calling?))
        || (s.swapped && |due| <= s.swappedAt))
  }

  lemma StepServes(s: State, a: Action, due: seq<Functor>, n: nat)
    requires Inv(s) && Enabled(s, a) && ServedAfter(s, due, n)
    ensures ServedAfter(Step(s, a), due, n)
  {
  }

  lemma {:induction false} RunServes(ss: seq<State>, acts: seq<Action>, i: nat, k: nat)
    requires Run(ss, acts) && i <= k < |ss| && ss[i].place.Polling?
    ensures ServedAfter(ss[k], ss[i].pushed, ss[i].iteration)
  {
    hide Step, Inv, Enabled;
    if k > i {
      RunServes(ss, acts, i, k - 1);
      RunKeepsInv(ss, acts, k - 1);
      StepServes(ss[k - 1], acts[k - 1], ss[i].pushed, ss[i].iteration);
    }
  }

  /** Everything pushed before a poll has been run when the loop polls again. */
  lemma ServedBeforeNextPoll(ss: seq<State>, acts: seq<Action>, i: nat, k: nat)
    requires Run(ss, acts) && i < k < |ss|
    requires ss[i].place.Polling? && ss[k].place.Polling? && ss[k].iteration > ss[i].iteration
    ensures ss[i].pushed <= ss[k].ran
  {
    RunServes(ss, acts, i, k);
    RunKeepsInv(ss, acts, k);
    var s := ss[k];
    assert s.pushed == s.ran + [] + s.pendingFunctors;
    assert |s.ran| >= |ss[i].pushed|;
    assert s.ran == s.pushed[..|s.ran|];
  }

  /**
   A first poll without a wakeup happens: a functor the loop's thread queues before looping waits
   without a wakeup.
   */
  lemma EarlyFunctorWaits() returns (ss: seq<State>, acts: seq<Action>)
    ensures Run(ss, acts) && |acts| == 3
    ensures ss[3].place.Polling? && ss[3].pendingFunctors == ss[3].early == [7] && !WakeupComing(ss[3])
  {
    acts := [OwnPush(7), StartLoop, TestQuit];
    var s1 := Step(Created, acts[0]);
    var s2 := Step(s1, acts[1]);
    var s3 := Step(s2, acts[2]);
    ss := [Created, s1, s2, s3];
  }

  /** A loop() that has been left again by a quit from within, with nothing queued. */
  lemma LoopLeft() returns (ss: seq<State>, acts: seq<Action>)
    ensures Run(ss, acts) && |acts| == 8 && |ss| == 9 && ss[8].place.Stopped?
    ensures ss[8] == Created.(place := Stopped, quit := true, iteration := 1, swapped := true)
  {
    hide Run;
    acts := [StartLoop, TestQuit, PollReturn(false), OwnQuit];
    var s1 := Created.(place := CheckQuit);
    var s2 := s1.(place := Polling);
    var s3 := s2.(place := Handling(false), iteration := 1);
    var s4 := s3.(quit := true);
    ss := [Created, s1, s2, s3, s4];
    assert Run(ss, acts) by { IsRun(ss, acts); }
    var s5 := Step(s4, StartCalling);
    var s6 := Step(s5, Swap);
    var s7 := Step(s6, DoneCalling);
    RunGoesOn(ss, acts, StartCalling);
    RunGoesOn(ss + [s5], acts + [StartCalling], Swap);
    RunGoesOn(ss + [s5] + [s6], acts + [StartCalling] + [Swap], DoneCalling);
    RunGoesOn(ss + [s5] + [s6] + [s7], acts + [StartCalling] + [Swap] + [DoneCalling], TestQuit);
    ss := ss + [s5] + [s6] + [s7] + [Step(s7, TestQuit)];
    acts := acts + [StartCalling] + [Swap] + [DoneCalling] + [TestQuit];
  }

  lemma IsRun(ss: seq<State>, acts: seq<Action>)
    requires |ss| == |acts| + 1 && ss[0] == Created
    requires forall i | 0 <= i < |acts| :: Enabled(ss[i], acts[i]) && ss[i + 1] == Step(ss[i], acts[i])
    ensures Run(ss, acts)
  {
  }

  /** The same happens to what it queues between two calls of loop(), at the first poll of the second. */
  lemma FunctorBetweenLoopsWaits() returns (ss: seq<State>, acts: seq<Action>)
    ensures Run(ss, acts) && |acts| == 11 && acts[9] == StartLoop && ss[8].place.Stopped?
    ensures ss[11].place.Polling? && ss[11].pendingFunctors == [7] && !WakeupComing(ss[11])
  {
    hide Run;
    ss, acts := LoopLeft();
    var s9 := Step(ss[8], OwnPush(7));
    var s10 := Step(s9, StartLoop);
    RunGoesOn(ss, acts, OwnPush(7));
    RunGoesOn(ss + [s9], acts + [OwnPush(7)], StartLoop);
    RunGoesOn(ss + [s9] + [s10], acts + [OwnPush(7)] + [StartLoop], TestQuit);
    ss := ss + [s9] + [s10] + [Step(s10, TestQuit)];
    acts := acts + [OwnPush(7)] + [StartLoop] + [TestQuit];
  }
}
