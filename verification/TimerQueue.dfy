/**
 The timers of an event loop. Timers are objects freed by hand, so the heap is part of the
 state: a map from addresses to timers, in which an address may be used again once freed.
 */
module TimerQueue {
  /** sequence numbers the timer among all timers ever created; times are in microseconds. */
  datatype Timer = Timer(expiration: int, interval: int, repeat: bool, sequence: nat)

  /** A key of the set ordered by time, and a key of the set that cancel searches. */
  datatype Entry = Entry(when: int, timer: nat)

  datatype TimerId = TimerId(timer: nat, sequence: nat)

  /** No object has this address: an upper bound for all entries of a moment. */
  const MaxAddress: nat := 0xFFFF_FFFF_FFFF_FFFF

  /** The timerfd: due at a moment, set at a moment. */
  datatype Alarm = Off | On(due: int, since: int)

  datatype Phase = Quiet | Calling | Resetting

  /** A timer that ran: when, and in which batch. */
  datatype Ran = Ran(timer: Timer, now: int, batch: nat)

  /**
   pending: created, with the functor that will insert them still queued in the loop.
   expired, next, now: the batch being handled and how far its callbacks, then its reset, have come.
   */
  datatype State = State(
    heap: map<nat, Timer>, pending: set<nat>, timers: set<Entry>, active: set<TimerId>,
    phase: Phase, canceling: set<TimerId>, expired: seq<Entry>, next: nat, now: int,
    alarm: Alarm, created: nat, batches: nat, log: seq<Ran>)

  const Start := State(map[], {}, {}, {}, Quiet, {}, [], 0, 0, Off, 0, 0, [])

  // ----- ordered sets -----

  predicate Before(a: Entry, b: Entry) {
    a.when < b.when || (a.when == b.when && a.timer < b.timer)
  }

  lemma {:induction false} FirstExists(ts: set<Entry>)
    requires ts != {}
    ensures exists e :: e in ts && forall x | x in ts :: x == e || Before(e, x)
  {
    var e :| e in ts;
    if ts != {e} {
      FirstExists(ts - {e});
      var f :| f in ts - {e} && forall x | x in ts - {e} :: x == f || Before(f, x);
      var g := if Before(e, f) then e else f;
      forall x | x in ts ensures x == g || Before(g, x) {
        assert x == e || x in ts - {e};
      }
    }
  }

  ghost function First(ts: set<Entry>): (e: Entry)
    requires ts != {}
    ensures e in ts && forall x | x in ts :: x == e || Before(e, x)
  {
    FirstExists(ts);
    var e :| e in ts && forall x | x in ts :: x == e || Before(e, x);
    e
  }

  /** The entries of a set in order. */
  ghost function Ascending(ts: set<Entry>): (es: seq<Entry>)
    ensures |es| == |ts|
    ensures forall i, j | 0 <= i < j < |es| :: Before(es[i], es[j])
    ensures forall e :: e in es <==> e in ts
    decreases |ts|
  {
    if ts == {} then [] else
      var f := First(ts);
      var rest := Ascending(ts - {f});
      assert forall e | e in rest :: e in ts - {f};
      [f] + rest
  }

  // ----- the actions -----

  datatype Action =
    // any thread: a new timer, whose insertion is left to the loop
    | Create(p: nat, when: int, interval: int, repeat: bool)
    // the loop's thread
    | AddInLoop(p: nat, at: int)
    | Cancel(id: TimerId)
    | FireBegin(now: int, read: bool)
    | Callback
    | BeginReset
    | ResetNext
    | EndReset(at: int)

  predicate Enabled(s: State, a: Action) {
    match a
    case Create(p, _, interval, repeat) => p !in s.heap && p < MaxAddress && (repeat ==> interval >= 0)
    case AddInLoop(p, _) => p in s.pending && !s.phase.Resetting?
    case Cancel(_) => !s.phase.Resetting?
    case FireBegin(now, _) => s.phase.Quiet? && now > 0
    case Callback => s.phase.Calling? && s.next < |s.expired|
    case BeginReset => s.phase.Calling? && s.next == |s.expired|
    case ResetNext => s.phase.Resetting? && s.next < |s.expired|
    case EndReset(_) => s.phase.Resetting? && s.next == |s.expired|
  }

  function Max(a: int, b: int): int {
    if a < b then b else a
  }

  /** The timerfd is set to go off after the time left, and not before 100 microseconds. */
  function Armed(expiration: int, at: int): Alarm {
    On(at + Max(expiration - at, 100), at)
  }

  /** What an address holds; the default stands for memory that is not a timer. */
  function At(heap: map<nat, Timer>, p: nat): Timer {
    if p in heap then heap[p] else Timer(0, 0, false, 0)
  }

  function Id(heap: map<nat, Timer>, p: nat): (d: TimerId)
    ensures d.timer == p
  {
    TimerId(p, At(heap, p).sequence)
  }

  function IdsOf(heap: map<nat, Timer>, es: set<Entry>): set<TimerId> {
    set e | e in es :: Id(heap, e.timer)
  }

  function EntryOf(heap: map<nat, Timer>, p: nat): (e: Entry)
    ensures e.timer == p
  {
    Entry(At(heap, p).expiration, p)
  }

  /** Both sets gain the timer. */
  function Insert(s: State, p: nat): State {
    s.(timers := s.timers + {EntryOf(s.heap, p)}, active := s.active + {Id(s.heap, p)})
  }

  predicate EarliestChanges(ts: set<Entry>, when: int) {
    forall e | e in ts :: when < e.when
  }

  /** Everything before the sentry (now, MaxAddress). */
  function Due(ts: set<Entry>, now: int): set<Entry> {
    set e | e in ts && Before(e, Entry(now, MaxAddress))
  }

  ghost function Step(s: State, a: Action): State {
    match a
    case Create(p, when, interval, repeat) =>
      s.(heap := s.heap[p := Timer(when, interval, repeat, s.created + 1)],
         pending := s.pending + {p}, created := s.created + 1)
    case AddInLoop(p, at) =>
      var when := At(s.heap, p).expiration;
      Insert(s, p).(
        pending := s.pending - {p},
        alarm := if EarliestChanges(s.timers, when) then Armed(when, at) else s.alarm)
    case Cancel(id) =>
      if id in s.active then
        s.(timers := s.timers - {EntryOf(s.heap, id.timer)},
           heap := s.heap - {id.timer}, active := s.active - {id})
      else if s.phase.Calling? then s.(canceling := s.canceling + {id})
      else s
    case FireBegin(now, read) =>
      var due := Due(s.timers, now);
      s.(phase := Calling, canceling := {}, expired := Ascending(due), next := 0, now := now,
         timers := s.timers - due, active := s.active - IdsOf(s.heap, due),
         alarm := if read then Off else s.alarm, batches := s.batches + 1)
    case Callback =>
      if s.next < |s.expired| then
        s.(log := s.log + [Ran(At(s.heap, s.expired[s.next].timer), s.now, s.batches)], next := s.next + 1)
      else s
    case BeginReset => s.(phase := Resetting, next := 0)
    case ResetNext => if s.next < |s.expired| then ResetOne(s, s.expired[s.next].timer) else s
    case EndReset(at) =>
      s.(phase := Quiet, expired := [], next := 0,
         alarm := if s.timers != {} && First(s.timers).when > 0 then Armed(First(s.timers).when, at) else s.alarm)
  }

  /** A repeating timer that was not cancelled restarts; any other is freed. */
  function ResetOne(s: State, p: nat): State {
    var t := At(s.heap, p);
    if t.repeat && Id(s.heap, p) !in s.canceling then
      Insert(s.(heap := s.heap[p := t.(expiration := s.now + t.interval)]), p).(next := s.next + 1)
    else
      s.(heap := s.heap - {p}, next := s.next + 1)
  }

  // ----- the invariant -----

  /** The part of the batch that is still to be reset, and how much of the batch has run. */
  function From(s: State): nat {
    if s.phase.Resetting? then s.next else 0
  }

  function RanTo(s: State): nat {
    if s.phase.Calling? then s.next else |s.expired|
  }

  function Held(s: State): (ps: set<nat>) {
    set i | From(s) <= i < |s.expired| :: s.expired[i].timer
  }

  function Called(s: State): (ps: set<nat>) {
    set i | From(s) <= i < |s.expired| && i < RanTo(s) :: s.expired[i].timer
  }

  /** The two sets index the same timers. */
  predicate IndexedBy(heap: map<nat, Timer>, timers: set<Entry>, active: set<TimerId>) {
    && (forall e | e in timers :: e.timer in heap && e == EntryOf(heap, e.timer))
    && (forall d | d in active :: d.timer in heap && d == Id(heap, d.timer))
    && (forall p | p in heap :: EntryOf(heap, p) in timers <==> Id(heap, p) in active)
  }

  predicate Indexed(s: State) {
    IndexedBy(s.heap, s.timers, s.active)
  }

  /** The batch: each timer once, with its own time, which has come. */
  predicate Batched(s: State) {
    && (s.phase.Quiet? ==> s.expired == [])
    && (!s.phase.Quiet? ==> s.now > 0)
    && s.next <= |s.expired|
    && (forall i, j | 0 <= i < j < |s.expired| :: s.expired[i].timer != s.expired[j].timer)
    && (forall i | From(s) <= i < |s.expired| ::
          s.expired[i].timer in s.heap && s.expired[i] == EntryOf(s.heap, s.expired[i].timer) && s.expired[i].when <= s.now)
  }

  /** Every timer in the heap belongs to exactly one owner: the sets, the batch, or a queued insertion. */
  predicate Owned(s: State) {
    && s.pending <= s.heap.Keys
    && s.pending !! Held(s)
    && (forall p | p in s.heap :: Id(s.heap, p) in s.active <==> p !in s.pending && p !in Held(s))
  }

  predicate Numbered(s: State) {
    && (forall p | p in s.heap ::
          p < MaxAddress && 0 < s.heap[p].sequence <= s.created && (s.heap[p].repeat ==> s.heap[p].interval >= 0))
    && (forall p, q | p in s.heap && q in s.heap && s.heap[p].sequence == s.heap[q].sequence :: p == q)
  }

  /** The alarm goes off by the moment e, or within 100 microseconds of being set. */
  predicate Covers(alarm: Alarm, e: int) {
    alarm.On? && alarm.due <= Max(e, alarm.since + 100)
  }

  /** Outside a batch the alarm covers every timer; within one, those whose time is not positive. */
  predicate Watched(s: State) {
    forall e | e in s.timers && (s.phase.Quiet? || e.when <= 0) :: Covers(s.alarm, e.when)
  }

  /** What the log says about a timer in the heap that has run before. */
  predicate Recalls(s: State, p: nat, r: Ran)
    requires p in s.heap
  {
    var t := s.heap[p];
    && p !in s.pending
    && t.repeat == r.timer.repeat && t.interval == r.timer.interval
    && (p in Called(s) ==> r.now <= s.now)
    && (p !in Called(s) ==> t.repeat && r.now + t.interval <= t.expiration && (p in Held(s) ==> r.batch < s.batches))
  }

  /** Two runs of one timer: it repeats, and they lie in two batches, at least its interval apart. */
  predicate Spaced(r: Ran, later: Ran) {
    r.timer.sequence == later.timer.sequence ==>
      && r.timer.repeat
      && r.batch < later.batch
      && r.now + r.timer.interval <= later.now
  }

  predicate Logged(s: State) {
    && (forall k | 0 <= k < |s.log| ::
          s.log[k].timer.sequence <= s.created && s.log[k].batch <= s.batches
          && s.log[k].timer.expiration <= s.log[k].now)
    && (forall j, k | 0 <= j < k < |s.log| :: Spaced(s.log[j], s.log[k]))
    && (forall p, k | p in s.heap && 0 <= k < |s.log| && s.log[k].timer.sequence == s.heap[p].sequence ::
          Recalls(s, p, s.log[k]))
  }

  predicate Shape(s: State) {
    Indexed(s) && Batched(s) && Owned(s) && Numbered(s)
  }

  predicate Inv(s: State) {
    Shape(s) && Watched(s) && Logged(s)
  }

  lemma StartIsFine()
    ensures Inv(Start)
  {
  }

  // ----- each action keeps the shape -----

  predicate Plain(a: Action) {
    a.Create? || a.AddInLoop? || a.Cancel? || a.BeginReset? || a.EndReset?
  }

  lemma SameBatch(s: State, a: Action)
    requires Plain(a) && Enabled(s, a) && Batched(s)
    ensures Held(Step(s, a)) == Held(s) && Called(Step(s, a)) == Called(s)
  {
  }

  lemma PlainKeepsShape(s: State, a: Action)
    requires Shape(s) && Enabled(s, a) && Plain(a)
    ensures Shape(Step(s, a))
  {
    if a.Cancel? {
      CancelKeepsShape(s, a);
    } else if a.AddInLoop? {
      AddKeepsShape(s, a);
    } else if a.Create? {
      CreateKeepsShape(s, a);
    } else {
      SameBatch(s, a);
      hide Called;
    }
  }

  /** A timer outside both sets can be stored, freed, or put into both; one in both can be taken out. */
  lemma IndexAfterStore(heap: map<nat, Timer>, timers: set<Entry>, active: set<TimerId>, p: nat, t: Timer)
    requires IndexedBy(heap, timers, active) && (p in heap ==> Id(heap, p) !in active)
    ensures IndexedBy(heap[p := t], timers, active)
    ensures IndexedBy(heap[p := t], timers + {Entry(t.expiration, p)}, active + {TimerId(p, t.sequence)})
    ensures IndexedBy(heap - {p}, timers, active)
  {
    assert forall e | e in timers :: e.timer != p;
    assert forall d | d in active :: d.timer != p;
  }

  lemma IndexAfterRemoval(heap: map<nat, Timer>, timers: set<Entry>, active: set<TimerId>, p: nat)
    requires IndexedBy(heap, timers, active) && p in heap && Id(heap, p) in active
    ensures IndexedBy(heap - {p}, timers - {EntryOf(heap, p)}, active - {Id(heap, p)})
  {
  }

  lemma CreateKeepsShape(s: State, a: Action)
    requires Shape(s) && Enabled(s, a) && a.Create?
    ensures Shape(Step(s, a))
  {
    SameBatch(s, a);
    HeldOnes(s);
    var n := Step(s, a);
    IndexAfterStore(s.heap, s.timers, s.active, a.p, n.heap[a.p]);
    hide Called, Held, IndexedBy;
    assert forall d | d in s.active :: d.timer in s.heap by {
      IdsInHeap(s);
    }
  }

  lemma IdsInHeap(s: State)
    requires Indexed(s)
    ensures forall d | d in s.active :: d.timer in s.heap && d == Id(s.heap, d.timer)
  {
  }

  lemma AddKeepsShape(s: State, a: Action)
    requires Shape(s) && Enabled(s, a) && a.AddInLoop?
    ensures Shape(Step(s, a))
  {
    SameBatch(s, a);
    hide Called, Held;
  }

  lemma HeldOnes(s: State)
    ensures forall i | From(s) <= i < |s.expired| :: s.expired[i].timer in Held(s)
    ensures Batched(s) ==> Held(s) <= s.heap.Keys
  {
  }

  lemma CancelKeepsShape(s: State, a: Action)
    requires Shape(s) && Enabled(s, a) && a.Cancel?
    ensures Shape(Step(s, a))
  {
    SameBatch(s, a);
    HeldOnes(s);
    IdsInHeap(s);
    if a.id in s.active {
      IndexAfterRemoval(s.heap, s.timers, s.active, a.id.timer);
    }
    hide Called, Held, IndexedBy;
  }

  /** The begin of a batch takes exactly the entries whose time has come. */
  lemma TakenAreDue(s: State, now: int)
    requires Indexed(s) && Numbered(s)
    ensures forall e :: e in Due(s.timers, now) <==> e in s.timers && e.when <= now
  {
  }

  lemma TakenOnce(s: State, a: Action)
    requires Indexed(s) && a.FireBegin?
    ensures var n := Step(s, a);
      && (forall i | 0 <= i < |n.expired| :: n.expired[i] in Due(s.timers, a.now))
      && (forall i, j | 0 <= i < j < |n.expired| :: n.expired[i].timer != n.expired[j].timer)
  {
    var n, due := Step(s, a), Due(s.timers, a.now);
    forall i, j | 0 <= i < j < |n.expired|
      ensures n.expired[i].timer != n.expired[j].timer
    {
      assert n.expired[i] in due && n.expired[j] in due;
      assert Before(n.expired[i], n.expired[j]);
    }
  }

  /** It moves them from both sets to the batch. */
  lemma Taken(s: State, a: Action)
    requires Shape(s) && Enabled(s, a) && a.FireBegin?
    ensures var n, due := Step(s, a), Due(s.timers, a.now);
      && Held(s) == Called(n) == {}
      && (forall p | p in s.heap :: p in Held(n) <==> EntryOf(s.heap, p) in due)
      && (forall p | p in Held(n) :: p in s.heap)
      && (forall d :: d in n.active <==> d in s.active && EntryOf(s.heap, d.timer) !in due)
      && n.timers == s.timers - due && n.heap == s.heap && n.pending == s.pending
  {
    hide Ascending, Due, Held, Called;
    assert Held(s) == Called(Step(s, a)) == {} by { NoneHeld(s, a); }
    DueAreHeld(s, a);
    HeldAreDue(s, a);
  }

  lemma NoneHeld(s: State, a: Action)
    requires Batched(s) && Enabled(s, a) && a.FireBegin?
    ensures Held(s) == Called(s) == Called(Step(s, a)) == {}
  {
  }

  lemma DueAreHeld(s: State, a: Action)
    requires Indexed(s) && Enabled(s, a) && a.FireBegin?
    ensures forall e | e in Due(s.timers, a.now) :: e.timer in Held(Step(s, a))
  {
    var n := Step(s, a);
    HeldOnes(n);
    forall e | e in Due(s.timers, a.now)
      ensures e.timer in Held(n)
    {
      assert e in n.expired;
    }
  }

  lemma HeldAreDue(s: State, a: Action)
    requires Indexed(s) && Enabled(s, a) && a.FireBegin?
    ensures forall p | p in Held(Step(s, a)) :: p in s.heap && EntryOf(s.heap, p) in Due(s.timers, a.now)
  {
    TakenOnce(s, a);
    var n, due := Step(s, a), Due(s.timers, a.now);
    forall i | 0 <= i < |n.expired|
      ensures n.expired[i].timer in s.heap && EntryOf(s.heap, n.expired[i].timer) in due
    {
      assert n.expired[i] in due && n.expired[i] in s.timers;
    }
  }

  lemma FireBeginKeepsIndexed(s: State, a: Action)
    requires Shape(s) && Enabled(s, a) && a.FireBegin?
    ensures Indexed(Step(s, a))
  {
    Taken(s, a);
    hide Step, Called, Held, Due, Owned, Batched, Numbered, EntryOf, Id;
  }

  lemma FireBeginKeepsBatched(s: State, a: Action)
    requires Shape(s) && Enabled(s, a) && a.FireBegin?
    ensures Batched(Step(s, a)) && Numbered(Step(s, a))
  {
    TakenOnce(s, a);
    TakenAreDue(s, a.now);
    hide Owned, Called, Held, Due, Ascending, EntryOf, Id;
  }

  lemma FireBeginKeepsOwned(s: State, a: Action)
    requires Shape(s) && Enabled(s, a) && a.FireBegin?
    ensures Owned(Step(s, a))
  {
    Taken(s, a);
    hide Step, Called, Held, Due, Batched, Numbered, Id, EntryOf;
  }

  lemma FireBeginKeepsShape(s: State, a: Action)
    requires Shape(s) && Enabled(s, a) && a.FireBegin?
    ensures Shape(Step(s, a))
  {
    FireBeginKeepsIndexed(s, a);
    FireBeginKeepsBatched(s, a);
    FireBeginKeepsOwned(s, a);
  }

  lemma CallbackKeepsShape(s: State, a: Action)
    requires Shape(s) && Enabled(s, a) && a.Callback?
    ensures Shape(Step(s, a))
  {
    assert Held(Step(s, a)) == Held(s);
  }

  lemma ResetNextMoves(s: State, a: Action)
    requires Shape(s) && Enabled(s, a) && a.ResetNext?
    ensures var n, p := Step(s, a), s.expired[s.next].timer;
      p in Held(s) && p in s.heap && p !in s.pending && Id(s.heap, p) !in s.active && Held(n) == Held(s) - {p}
  {
    HeldOnes(s);
  }

  lemma ResetNextKeepsIndexed(s: State, a: Action)
    requires Shape(s) && Enabled(s, a) && a.ResetNext?
    ensures Indexed(Step(s, a))
  {
    ResetNextMoves(s, a);
    var p := s.expired[s.next].timer;
    IndexAfterStore(s.heap, s.timers, s.active, p, s.heap[p].(expiration := s.now + s.heap[p].interval));
    hide Called, Held, Owned, Batched, Numbered, IndexedBy;
  }

  lemma ResetNextKeepsNumbered(s: State, a: Action)
    requires Shape(s) && Enabled(s, a) && a.ResetNext?
    ensures Numbered(Step(s, a))
  {
    hide Called, Held, Owned, Indexed;
  }

  lemma ResetNextKeepsBatched(s: State, a: Action)
    requires Shape(s) && Enabled(s, a) && a.ResetNext?
    ensures Batched(Step(s, a))
  {
    hide Called, Held, Owned, Indexed, Numbered;
  }

  lemma ResetNextKeepsOwned(s: State, a: Action)
    requires Shape(s) && Enabled(s, a) && a.ResetNext?
    ensures Owned(Step(s, a))
  {
    ResetNextMoves(s, a);
    hide Called, Held, Batched, Numbered;
  }

  lemma ResetNextKeepsShape(s: State, a: Action)
    requires Shape(s) && Enabled(s, a) && a.ResetNext?
    ensures Shape(Step(s, a))
  {
    ResetNextKeepsIndexed(s, a);
    ResetNextKeepsNumbered(s, a);
    ResetNextKeepsBatched(s, a);
    ResetNextKeepsOwned(s, a);
  }

  lemma StepKeepsShape(s: State, a: Action)
    requires Shape(s) && Enabled(s, a)
    ensures Shape(Step(s, a))
  {
    hide Step, Shape, Enabled;
    match a {
      case FireBegin(_, _) => FireBeginKeepsShape(s, a);
      case Callback => CallbackKeepsShape(s, a);
      case ResetNext => ResetNextKeepsShape(s, a);
      case _ => PlainKeepsShape(s, a);
    }
  }

  // ----- each action keeps the alarm right -----

  lemma StepKeepsWatched(s: State, a: Action)
    requires Shape(s) && Watched(s) && Enabled(s, a)
    ensures Watched(Step(s, a))
  {
    hide Owned, Held, Called;
    match a {
      case FireBegin(now, _) =>
        hide Ascending;
      case EndReset(at) =>
        hide Batched;
      case _ =>
    }
  }

  // ----- each action keeps the log right -----

  lemma CreateKeepsLogged(s: State, a: Action)
    requires Shape(s) && Logged(s) && Enabled(s, a) && a.Create?
    ensures Logged(Step(s, a))
  {
    SameBatch(s, a);
    var n := Step(s, a);
    forall p, k | p in n.heap && 0 <= k < |n.log| && n.log[k].timer.sequence == n.heap[p].sequence
      ensures Recalls(n, p, n.log[k])
    {
      assert p in s.heap && n.heap[p] == s.heap[p];
      assert Recalls(s, p, s.log[k]);
    }
    hide Shape, Called, Held, Spaced, Recalls;
  }

  lemma AddKeepsLogged(s: State, a: Action)
    requires Shape(s) && Logged(s) && Enabled(s, a) && a.AddInLoop?
    ensures Logged(Step(s, a))
  {
    SameBatch(s, a);
    var n := Step(s, a);
    hide Shape, Called, Held, Spaced;
    assert forall p, k | p in s.heap && 0 <= k < |s.log| && s.log[k].timer.sequence == s.heap[p].sequence ::
        Recalls(n, p, s.log[k]);
  }

  lemma PlainKeepsLogged(s: State, a: Action)
    requires Shape(s) && Logged(s) && Enabled(s, a) && Plain(a)
    ensures Logged(Step(s, a))
  {
    if a.Create? {
      CreateKeepsLogged(s, a);
    } else if a.AddInLoop? {
      AddKeepsLogged(s, a);
    } else {
      SameBatch(s, a);
      var n := Step(s, a);
      hide Called, Held, Spaced, Batched, Numbered;
      forall p, k | p in n.heap && 0 <= k < |n.log| && n.log[k].timer.sequence == n.heap[p].sequence
        ensures Recalls(n, p, n.log[k])
      {
        assert p in s.heap && n.heap[p] == s.heap[p];
        assert Recalls(s, p, s.log[k]);
      }
      hide Recalls, Shape;
    }
  }

  lemma FireBeginKeepsLogged(s: State, a: Action)
    requires Shape(s) && Logged(s) && Enabled(s, a) && a.FireBegin?
    ensures Logged(Step(s, a))
  {
    hide Held, Called, Ascending, Due, Spaced;
    Taken(s, a);
    assert Called(s) == {} by { NoneHeld(s, a); }
  }

  lemma CallbackKeepsLogged(s: State, a: Action)
    requires Shape(s) && Logged(s) && Enabled(s, a) && a.Callback?
    ensures Logged(Step(s, a))
  {
    var n, p := Step(s, a), s.expired[s.next].timer;
    assert Held(n) == Held(s) && Called(n) == Called(s) + {p};
    assert p in Held(s) && p !in Called(s);
    hide Called, Held;
  }

  lemma ResetNextKeepsLogged(s: State, a: Action)
    requires Shape(s) && Logged(s) && Enabled(s, a) && a.ResetNext?
    ensures Logged(Step(s, a))
  {
    var n, p := Step(s, a), s.expired[s.next].timer;
    ResetNextMoves(s, a);
    assert Called(n) == Called(s) - {p} && p in Called(s);
    hide Called, Held, Spaced, IndexedBy;
    forall q, k | q in n.heap && 0 <= k < |n.log| && n.log[k].timer.sequence == n.heap[q].sequence
      ensures Recalls(n, q, n.log[k])
    {
      assert q in s.heap && s.heap[q].sequence == n.heap[q].sequence;
      assert Recalls(s, q, s.log[k]);
    }
    hide Recalls, Shape;
  }

  lemma StepKeepsLogged(s: State, a: Action)
    requires Shape(s) && Logged(s) && Enabled(s, a)
    ensures Logged(Step(s, a))
  {
    hide Step, Shape, Logged, Enabled;
    match a {
      case FireBegin(_, _) => FireBeginKeepsLogged(s, a);
      case Callback => CallbackKeepsLogged(s, a);
      case ResetNext => ResetNextKeepsLogged(s, a);
      case _ => PlainKeepsLogged(s, a);
    }
  }

  lemma StepKeepsInv(s: State, a: Action)
    requires Inv(s) && Enabled(s, a)
    ensures Inv(Step(s, a))
  {
    hide Step, Shape, Logged, Watched, Enabled;
    StepKeepsShape(s, a);
    StepKeepsWatched(s, a);
    StepKeepsLogged(s, a);
  }

  // ----- runs -----

  ghost predicate Legal(s: State, run: seq<Action>)
    decreases |run|
  {
    run != [] ==> Enabled(s, run[0]) && Legal(Step(s, run[0]), run[1..])
  }

  ghost function After(s: State, run: seq<Action>): State
    decreases |run|
  {
    if run == [] then s else After(Step(s, run[0]), run[1..])
  }

  lemma {:induction false} RunKeepsInv(s: State, run: seq<Action>)
    requires Inv(s) && Legal(s, run)
    ensures Inv(After(s, run))
    decreases |run|
  {
    hide Step, Inv, Enabled;
    if run != [] {
      StepKeepsInv(s, run[0]);
      RunKeepsInv(Step(s, run[0]), run[1..]);
    }
  }

  lemma {:induction false} RunsJoin(s: State, a: seq<Action>, b: seq<Action>)
    ensures Legal(s, a + b) <==> Legal(s, a) && Legal(After(s, a), b)
    ensures After(s, a + b) == After(After(s, a), b)
    decreases |a|
  {
    hide Step, Enabled;
    if a == [] {
      assert a + b == b;
    } else {
      assert (a + b)[0] == a[0] && (a + b)[1..] == a[1..] + b;
      RunsJoin(Step(s, a[0]), a[1..], b);
    }
  }

  // ----- memory -----

  /** The addresses whose timers an action reads, and those it frees. */
  function Touches(s: State, a: Action): set<nat> {
    match a
    case AddInLoop(p, _) => {p}
    case Cancel(id) => if id in s.active then {id.timer} else {}
    case FireBegin(now, _) => set e | e in Due(s.timers, now) :: e.timer
    case Callback => if s.next < |s.expired| then {s.expired[s.next].timer} else {}
    case ResetNext => if s.next < |s.expired| then {s.expired[s.next].timer} else {}
    case EndReset(_) => set e | e in s.timers :: e.timer
    case _ => {}
  }

  ghost function Freed(s: State, a: Action): set<nat> {
    s.heap.Keys - Step(s, a).heap.Keys
  }

  /** Nothing freed is used: every address an action reads is a live timer, and only such an address is freed. */
  lemma OnlyLiveTimersAreTouched(run: seq<Action>, a: Action)
    requires Legal(Start, run + [a])
    ensures Touches(After(Start, run), a) <= After(Start, run).heap.Keys
    ensures Freed(After(Start, run), a) <= Touches(After(Start, run), a)
  {
    RunsJoin(Start, run, [a]);
    StartIsFine();
    RunKeepsInv(Start, run);
    TouchesLive(After(Start, run), a);
  }

  lemma TouchesLive(s: State, a: Action)
    requires Shape(s) && Enabled(s, a)
    ensures Touches(s, a) <= s.heap.Keys
    ensures Freed(s, a) <= Touches(s, a)
  {
    hide Held, Called, Numbered, Ascending;
    match a {
      case Cancel(id) =>
        assert id in s.active ==> id.timer in s.heap;
      case FireBegin(now, _) =>
        assert forall e | e in Due(s.timers, now) :: e in s.timers;
      case _ =>
    }
  }

  /** The conditions asserted at each erase, insert and size comparison. */
  predicate Asserted(s: State, a: Action) {
    && |s.timers| == |s.active|
    && match a
       case AddInLoop(p, _) => EntryOf(s.heap, p) !in s.timers && Id(s.heap, p) !in s.active
       case Cancel(id) => id in s.active ==> EntryOf(s.heap, id.timer) in s.timers
       case FireBegin(now, _) =>
         && (forall e | e in Due(s.timers, now) :: Id(s.heap, e.timer) in s.active)
         && (forall e | e in s.timers - Due(s.timers, now) :: now < e.when)
       case ResetNext =>
         s.next < |s.expired| ==>
           var p := s.expired[s.next].timer;
           && (forall e | e in s.timers :: e.timer != p)
           && Id(s.heap, p) !in s.active
       case _ => true
  }

  /** No assertion fails in any run. */
  lemma AssertionsHold(run: seq<Action>, a: Action)
    requires Legal(Start, run + [a])
    ensures Asserted(After(Start, run), a)
  {
    RunsJoin(Start, run, [a]);
    StartIsFine();
    RunKeepsInv(Start, run);
    var s := After(Start, run);
    AssertedInShape(s, a);
  }

  lemma AssertedInShape(s: State, a: Action)
    requires Shape(s) && Enabled(s, a)
    ensures Asserted(s, a)
  {
    SameSize(s.heap, s.timers, s.active);
    HeldOnes(s);
    hide Held, Called;
  }

  lemma {:induction false} SameSize(heap: map<nat, Timer>, timers: set<Entry>, active: set<TimerId>)
    requires IndexedBy(heap, timers, active)
    ensures |timers| == |active|
    decreases |timers|
  {
    if timers == {} {
      assert forall d | d in active :: EntryOf(heap, d.timer) in timers;
      assert active == {};
    } else {
      var e :| e in timers;
      IndexAfterRemoval(heap, timers, active, e.timer);
      SameSize(heap - {e.timer}, timers - {e}, active - {Id(heap, e.timer)});
    }
  }

  /** Between batches every timer is indexed by both sets, or its insertion is queued: none is leaked. */
  lemma NothingLeaks(run: seq<Action>, p: nat)
    requires Legal(Start, run) && After(Start, run).phase.Quiet? && p in After(Start, run).heap
    ensures var s := After(Start, run);
      && (p !in s.pending <==> EntryOf(s.heap, p) in s.timers)
      && (p !in s.pending <==> Id(s.heap, p) in s.active)
  {
    StartIsFine();
    RunKeepsInv(Start, run);
    assert Held(After(Start, run)) == {};
  }

  // ----- which timers run -----

  /** A batch takes exactly the timers whose time has come, earliest first. */
  lemma BatchIsWhatIsDue(run: seq<Action>, now: int, read: bool)
    requires Legal(Start, run + [FireBegin(now, read)])
    ensures var s := After(Start, run); var n := Step(s, FireBegin(now, read));
      && (forall e :: e in n.expired <==> e in s.timers && e.when <= now)
      && (forall i, j | 0 <= i < j < |n.expired| :: n.expired[i].when <= n.expired[j].when)
      && |n.expired| + |n.timers| == |s.timers|
  {
    RunsJoin(Start, run, [FireBegin(now, read)]);
    StartIsFine();
    RunKeepsInv(Start, run);
    assert Shape(After(Start, run));
    hide Shape, Step, After, Legal;
    BatchOf(After(Start, run), now, read);
  }

  lemma BatchOf(s: State, now: int, read: bool)
    requires Shape(s)
    ensures var n := Step(s, FireBegin(now, read));
      && (forall e :: e in n.expired <==> e in s.timers && e.when <= now)
      && (forall i, j | 0 <= i < j < |n.expired| :: n.expired[i].when <= n.expired[j].when)
      && |n.expired| + |n.timers| == |s.timers|
  {
    var due := Due(s.timers, now);
    TakenAreDue(s, now);
    hide Shape, Due;
    InOrder(due);
    SplitSize(s.timers, due);
    hide Ascending;
  }

  lemma InOrder(ts: set<Entry>)
    ensures forall i, j | 0 <= i < j < |Ascending(ts)| :: Ascending(ts)[i].when <= Ascending(ts)[j].when
  {
    assert forall i, j | 0 <= i < j < |Ascending(ts)| :: Before(Ascending(ts)[i], Ascending(ts)[j]);
  }

  lemma SplitSize(ts: set<Entry>, part: set<Entry>)
    requires part <= ts
    ensures |part| + |ts - part| == |ts|
  {
    assert ts == part + (ts - part);
  }

  /** Every timer that ran had expired; a timer that runs twice repeats, and its runs lie an interval apart. */
  lemma RunsAreSpaced(run: seq<Action>, j: nat, k: nat)
    requires Legal(Start, run)
    requires j < k < |After(Start, run).log|
    ensures var log := After(Start, run).log;
      && log[j].timer.expiration <= log[j].now
      && Spaced(log[j], log[k])
  {
    StartIsFine();
    RunKeepsInv(Start, run);
  }

  /** While no batch is handled, the alarm covers every timer, whatever its expiration. */
  lemma AlarmCoversTimers(run: seq<Action>, e: Entry)
    requires Legal(Start, run)
    requires var s := After(Start, run); s.phase.Quiet? && e in s.timers
    ensures Covers(After(Start, run).alarm, e.when)
  {
    StartIsFine();
    RunKeepsInv(Start, run);
  }

  // ----- what cancel achieves -----

  /** Number q can run only in batch b, and only because it already was in that batch when cancelled. */
  predicate Doomed(s: State, q: nat, b: int) {
    && q <= s.created
    && forall p | p in s.heap && s.heap[p].sequence == q ::
         p in Held(s) && s.batches == b && TimerId(p, q) in s.canceling
  }

  predicate OnlyInBatch(was: seq<Ran>, log: seq<Ran>, q: nat, b: int) {
    && was <= log
    && forall k | |was| <= k < |log| && log[k].timer.sequence == q :: log[k].batch == b
  }

  lemma StepKeepsDoomed(s: State, a: Action, q: nat, b: int)
    requires Shape(s) && Enabled(s, a) && Doomed(s, q, b)
    ensures Doomed(Step(s, a), q, b)
    ensures OnlyInBatch(s.log, Step(s, a).log, q, b)
  {
    match a {
      case FireBegin(_, _) =>
        Taken(s, a);
        hide Held, Ascending, Shape;
      case Callback =>
        assert Held(Step(s, a)) == Held(s);
        assert s.expired[s.next].timer in Held(s);
        hide Held;
      case ResetNext =>
        ResetNextMoves(s, a);
        hide Held;
      case _ =>
        SameBatch(s, a);
        hide Held;
    }
  }

  lemma {:induction false} RunKeepsDoomed(s: State, run: seq<Action>, q: nat, b: int)
    requires Inv(s) && Legal(s, run) && Doomed(s, q, b)
    ensures OnlyInBatch(s.log, After(s, run).log, q, b)
    decreases |run|
  {
    hide Step, Shape, Watched, Logged, Enabled, Doomed;
    if run != [] {
      var n := Step(s, run[0]);
      StepKeepsInv(s, run[0]);
      StepKeepsDoomed(s, run[0], q, b);
      RunKeepsDoomed(n, run[1..], q, b);
      OnlyInBatchJoins(s.log, n.log, After(s, run).log, q, b);
    }
  }

  lemma OnlyInBatchJoins(x: seq<Ran>, y: seq<Ran>, z: seq<Ran>, q: nat, b: int)
    requires OnlyInBatch(x, y, q, b) && OnlyInBatch(y, z, q, b)
    ensures OnlyInBatch(x, z, q, b)
  {
  }

  lemma CancelDooms(s: State, p: nat)
    requires Inv(s) && Enabled(s, Cancel(Id(s.heap, p))) && p in s.heap && p !in s.pending
    ensures var b := if s.phase.Calling? && p in Held(s) then s.batches else -1;
      Doomed(Step(s, Cancel(Id(s.heap, p))), Id(s.heap, p).sequence, b)
  {
    var a := Cancel(Id(s.heap, p));
    SameBatch(s, a);
    assert s.phase.Quiet? ==> Held(s) == {};
    hide Held, Logged, Watched, Batched;
  }

  /** Within s and what follows it, number q runs at most in the batch that s is handling. */
  predicate NoLaterRun(s: State, n: State, q: nat) {
    forall k | |s.log| <= k < |n.log| && n.log[k].timer.sequence == q ::
      s.phase.Calling? && n.log[k].batch == s.batches
  }

  /**
   A cancelled timer never runs in a later batch, however the run goes on; and it runs in the
   present one only if it was taken out for that batch already.
   */
  lemma CancelledNeverRunsLater(before: seq<Action>, p: nat, run: seq<Action>)
    requires Legal(Start, before)
    requires var s := After(Start, before);
      p in s.heap && p !in s.pending && !s.phase.Resetting? && Legal(Step(s, Cancel(Id(s.heap, p))), run)
    ensures var s := After(Start, before); var n := After(Step(s, Cancel(Id(s.heap, p))), run);
      && NoLaterRun(s, n, s.heap[p].sequence)
      && (p !in Held(s) ==> forall k | |s.log| <= k < |n.log| :: n.log[k].timer.sequence != s.heap[p].sequence)
  {
    StartIsFine();
    RunKeepsInv(Start, before);
    var s := After(Start, before);
    CancelledRuns(s, p, run);
  }

  lemma CancelledRuns(s: State, p: nat, run: seq<Action>)
    requires Inv(s) && p in s.heap && p !in s.pending && !s.phase.Resetting?
    requires Legal(Step(s, Cancel(Id(s.heap, p))), run)
    ensures var n := After(Step(s, Cancel(Id(s.heap, p))), run);
      && NoLaterRun(s, n, s.heap[p].sequence)
      && (p !in Held(s) ==> forall k | |s.log| <= k < |n.log| :: n.log[k].timer.sequence != s.heap[p].sequence)
  {
    hide Inv, Held, After, Legal, Doomed;
    var a := Cancel(Id(s.heap, p));
    CancelDooms(s, p);
    StepKeepsInv(s, a);
    var b := if s.phase.Calling? && p in Held(s) then s.batches else -1;
    RunKeepsDoomed(Step(s, a), run, s.heap[p].sequence, b);
  }

  // ----- what a batch does to its timers -----

  /** The callbacks so far are the latest runs, in the order of the batch. */
  predicate Recorded(s: State) {
    s.phase.Calling? ==>
      && s.next <= |s.expired| && s.next <= |s.log|
      && forall i | 0 <= i < s.next :: s.log[|s.log| - s.next + i] == Ran(At(s.heap, s.expired[i].timer), s.now, s.batches)
  }

  /** The only actions that touch the batch or the log while callbacks run. */
  lemma CallingStep(s: State, a: Action)
    requires Batched(s) && Enabled(s, a) && Step(s, a).phase.Calling?
    ensures var n := Step(s, a);
      || (a.FireBegin? && n.next == 0)
      || (&& s.phase.Calling? && n.expired == s.expired && n.now == s.now && n.batches == s.batches
          && if a.Callback? then
               && s.next < |s.expired| && n.next == s.next + 1
               && n.log == s.log + [Ran(At(s.heap, s.expired[s.next].timer), s.now, s.batches)]
             else n.next == s.next && n.log == s.log)
  {
    hide Ascending, Due, IdsOf, Id, EntryOf;
  }

  lemma StepKeepsRecorded(s: State, a: Action)
    requires Shape(s) && Recorded(s) && Enabled(s, a)
    ensures Recorded(Step(s, a))
  {
    hide Step, Enabled, Indexed, Owned, Numbered;
    if Step(s, a).phase.Calling? {
      CallingStep(s, a);
      if s.phase.Calling? {
        StepKeepsHeap(s, a);
      }
    }
  }

  /** While callbacks run, no timer of the batch changes or goes away. */
  lemma StepKeepsHeap(s: State, a: Action)
    requires Shape(s) && Enabled(s, a) && s.phase.Calling?
    ensures forall i | 0 <= i < |s.expired| :: At(Step(s, a).heap, s.expired[i].timer) == At(s.heap, s.expired[i].timer)
  {
    HeldOnes(s);
    IdsInHeap(s);
    hide Held, Called, IndexedBy;
  }

  lemma {:induction false} RunKeepsRecorded(s: State, run: seq<Action>)
    requires Inv(s) && Recorded(s) && Legal(s, run)
    ensures Recorded(After(s, run))
    decreases |run|
  {
    hide Step, Shape, Watched, Logged, Enabled, Recorded;
    if run != [] {
      StepKeepsInv(s, run[0]);
      StepKeepsRecorded(s, run[0]);
      RunKeepsRecorded(Step(s, run[0]), run[1..]);
    }
  }

  /** When the callbacks of a batch are done, the latest runs are exactly its timers, each once, in order. */
  lemma WholeBatchRuns(run: seq<Action>)
    requires Legal(Start, run + [BeginReset])
    ensures var s := After(Start, run);
      && |s.expired| <= |s.log|
      && forall i | 0 <= i < |s.expired| ::
           s.log[|s.log| - |s.expired| + i] == Ran(At(s.heap, s.expired[i].timer), s.now, s.batches)
  {
    RunsJoin(Start, run, [BeginReset]);
    StartIsFine();
    RunKeepsRecorded(Start, run);
    assert Legal(After(Start, run), [BeginReset]);
  }

  /**
   Nothing a caller may ask for is held up: new timers at any time, and otherwise what the loop's
   thread does next.
   */
  lemma NothingIsHeldUp(s: State)
    requires Batched(s)
    ensures forall p: nat, when, interval, repeat | p !in s.heap && p < MaxAddress && (repeat ==> interval >= 0) ::
      Enabled(s, Create(p, when, interval, repeat))
    ensures forall id | !s.phase.Resetting? :: Enabled(s, Cancel(id))
    ensures forall p: nat, at | !s.phase.Resetting? && p in s.pending :: Enabled(s, AddInLoop(p, at))
    ensures forall now, read | s.phase.Quiet? && now >= 1 :: Enabled(s, FireBegin(now, read))
    ensures s.phase.Calling? ==> Enabled(s, Callback) || Enabled(s, BeginReset)
    ensures forall at | s.phase.Resetting? :: Enabled(s, ResetNext) || Enabled(s, EndReset(at))
  {
  }

  /** A batch goes through its callbacks one by one, then through its reset one by one, and is over. */
  lemma BatchGoesOn(s: State, a: Action)
    requires Enabled(s, a)
    ensures var n := Step(s, a);
      match a
      case FireBegin(_, _) => n.phase == Calling && n.next == 0
      case Callback => n.phase == Calling && n.expired == s.expired && n.next == s.next + 1
      case BeginReset => n.phase == Resetting && n.expired == s.expired && n.next == 0
      case ResetNext => n.phase == Resetting && n.expired == s.expired && n.next == s.next + 1
      case EndReset(_) => n.phase == Quiet && n.expired == []
      case _ => n.phase == s.phase && n.expired == s.expired && n.next == s.next
  {
    hide Ascending, Due, IdsOf, Id, EntryOf;
  }

  // ----- when a timer runs for the first time -----

  predicate HasRun(s: State, q: nat) {
    exists k | 0 <= k < |s.log| :: s.log[k].timer.sequence == q
  }

  /** Entry k of the log is the first run of timer number q. */
  predicate FirstRun(log: seq<Ran>, k: nat, q: nat) {
    k < |log| && log[k].timer.sequence == q && forall j | 0 <= j < k :: log[j].timer.sequence != q
  }

  /** Timer number t.sequence runs first as it was made, and until then is as it was made. */
  ghost predicate Newborn(s: State, t: Timer) {
    var q := t.sequence;
    && q <= s.created
    && (forall k: nat | FirstRun(s.log, k, q) :: s.log[k].timer == t)
    && (HasRun(s, q) || forall p | p in s.heap && s.heap[p].sequence == q ::
          s.heap[p] == t && (s.phase.Resetting? ==> p !in Held(s)))
  }

  lemma FirstRunStays(was: seq<Ran>, r: Ran, q: nat)
    ensures forall k: nat | FirstRun(was + [r], k, q) ::
      FirstRun(was, k, q) || (k == |was| && r.timer.sequence == q && forall j | 0 <= j < |was| :: was[j].timer.sequence != q)
  {
    var log := was + [r];
    forall k: nat | FirstRun(log, k, q) && k < |was|
      ensures FirstRun(was, k, q)
    {
      assert log[k] == was[k];
      assert forall j | 0 <= j < k :: log[j] == was[j];
    }
    assert forall j | 0 <= j < |was| :: log[j] == was[j];
  }

  lemma CallbackKeepsNewborn(s: State, t: Timer)
    requires Shape(s) && Enabled(s, Callback) && Newborn(s, t)
    ensures Newborn(Step(s, Callback), t)
  {
    var n, p := Step(s, Callback), s.expired[s.next].timer;
    var r := Ran(At(s.heap, p), s.now, s.batches);
    FirstRunStays(s.log, r, t.sequence);
    HeldOnes(s);
    assert p in s.heap;
    hide Held, Called, Indexed, Owned, Numbered;
    assert n.log == s.log + [r];
    assert HasRun(s, t.sequence) ==> HasRun(n, t.sequence) by {
      if k :| 0 <= k < |s.log| && s.log[k].timer.sequence == t.sequence {
        assert n.log[k] == s.log[k];
      }
    }
    if r.timer.sequence == t.sequence {
      assert n.log[|s.log|].timer.sequence == t.sequence;
    }
  }

  /** When the reset begins every timer of the batch has run. */
  lemma WholeBatchHasRun(s: State, p: nat)
    requires Recorded(s) && s.phase.Calling? && s.next == |s.expired| && p in Held(s)
    ensures HasRun(s, At(s.heap, p).sequence)
  {
    var i :| 0 <= i < |s.expired| && s.expired[i].timer == p;
    var k := |s.log| - s.next + i;
    assert s.log[k] == Ran(At(s.heap, p), s.now, s.batches);
    assert s.log[k].timer.sequence == At(s.heap, p).sequence;
  }

  lemma BeginResetKeepsNewborn(s: State, t: Timer)
    requires Shape(s) && Recorded(s) && Enabled(s, BeginReset) && Newborn(s, t)
    ensures Newborn(Step(s, BeginReset), t)
  {
    hide Held, Called, Indexed, Owned, Numbered, Batched, Recorded, HasRun, FirstRun;
    assert Batched(s);
    SameBatch(s, BeginReset);
    forall p | p in s.heap && s.heap[p].sequence == t.sequence && p in Held(s)
      ensures HasRun(s, t.sequence)
    {
      WholeBatchHasRun(s, p);
    }
    assert HasRun(s, t.sequence) ==> HasRun(Step(s, BeginReset), t.sequence) by { SameRuns(s, BeginReset, t.sequence); }
  }

  lemma SameRuns(s: State, a: Action, q: nat)
    requires !a.Callback?
    ensures HasRun(Step(s, a), q) <==> HasRun(s, q)
  {
  }

  lemma ResetNextKeepsNewborn(s: State, t: Timer)
    requires Shape(s) && Enabled(s, ResetNext) && Newborn(s, t)
    ensures Newborn(Step(s, ResetNext), t)
  {
    ResetNextMoves(s, ResetNext);
    hide Held, Called, Indexed, Owned, FirstRun;
  }

  lemma OthersKeepNewborn(s: State, a: Action, t: Timer)
    requires Shape(s) && Enabled(s, a) && Newborn(s, t)
    requires a.Create? || a.AddInLoop? || a.Cancel? || a.FireBegin? || a.EndReset?
    ensures Newborn(Step(s, a), t)
  {
    if !a.FireBegin? {
      SameBatch(s, a);
    }
    hide Held, Called, Indexed, Owned, FirstRun, Ascending, Due;
  }

  lemma StepKeepsNewborn(s: State, a: Action, t: Timer)
    requires Shape(s) && Recorded(s) && Enabled(s, a) && Newborn(s, t)
    ensures Newborn(Step(s, a), t)
  {
    hide Step, Shape, Recorded, Enabled, Newborn;
    match a {
      case Callback => CallbackKeepsNewborn(s, t);
      case BeginReset => BeginResetKeepsNewborn(s, t);
      case ResetNext => ResetNextKeepsNewborn(s, t);
      case _ => OthersKeepNewborn(s, a, t);
    }
  }

  lemma {:induction false} RunKeepsNewborn(s: State, run: seq<Action>, t: Timer)
    requires Inv(s) && Recorded(s) && Legal(s, run) && Newborn(s, t)
    ensures Newborn(After(s, run), t)
    decreases |run|
  {
    hide Step, Shape, Watched, Logged, Enabled, Recorded, Newborn;
    if run != [] {
      StepKeepsInv(s, run[0]);
      StepKeepsRecorded(s, run[0]);
      StepKeepsNewborn(s, run[0], t);
      RunKeepsNewborn(Step(s, run[0]), run[1..], t);
    }
  }

  lemma CreatedIsNewborn(s: State, p: nat, when: int, interval: int, repeat: bool)
    requires Inv(s) && Enabled(s, Create(p, when, interval, repeat))
    ensures Newborn(Step(s, Create(p, when, interval, repeat)), Timer(when, interval, repeat, s.created + 1))
    ensures Step(s, Create(p, when, interval, repeat)).created == s.created + 1
  {
    hide Called, Indexed, Owned, Recalls, Spaced, Held;
    var a := Create(p, when, interval, repeat);
    SameBatch(s, a);
    HeldOnes(s);
    assert forall k | 0 <= k < |s.log| :: s.log[k].timer.sequence != s.created + 1;
    assert forall x | x in s.heap :: s.heap[x].sequence != s.created + 1;
  }

  /** The first run of a timer is of the timer as its caller asked for it, and not before the time asked for. */
  lemma FirstRunIsAsAsked(
      before: seq<Action>, p: nat, when: int, interval: int, repeat: bool, rest: seq<Action>, k: nat)
    requires Legal(Start, before + [Create(p, when, interval, repeat)] + rest)
    requires var q := After(Start, before).created + 1;
      FirstRun(After(Start, before + [Create(p, when, interval, repeat)] + rest).log, k, q)
    ensures var r := After(Start, before + [Create(p, when, interval, repeat)] + rest).log[k];
      r.timer == Timer(when, interval, repeat, After(Start, before).created + 1) && when <= r.now
  {
    hide Step, Inv, Enabled, Recorded, Newborn, After, Legal;
    var a := Create(p, when, interval, repeat);
    RunsJoin(Start, before + [a], rest);
    RunsJoin(Start, before, [a]);
    StartIsFine();
    RunKeepsInv(Start, before);
    var s := After(Start, before);
    OneStep(s, a);
    CreatedIsNewborn(s, p, when, interval, repeat);
    StepKeepsInv(s, a);
    assert Recorded(Start) by { NothingRecorded(); }
    RunKeepsRecorded(Start, before + [a]);
    RunKeepsNewborn(Step(s, a), rest, Timer(when, interval, repeat, s.created + 1));
    RunKeepsInv(Start, before + [a] + rest);
    BornAsAsked(After(Start, before + [a] + rest), Timer(when, interval, repeat, s.created + 1), k);
  }

  lemma NothingRecorded()
    ensures Recorded(Start)
  {
  }

  lemma OneStep(s: State, a: Action)
    ensures Legal(s, [a]) <==> Enabled(s, a)
    ensures After(s, [a]) == Step(s, a)
  {
    hide Step, Enabled;
    assert [a][1..] == [];
  }

  lemma BornAsAsked(n: State, t: Timer, k: nat)
    requires Inv(n) && Newborn(n, t) && FirstRun(n.log, k, t.sequence)
    ensures n.log[k].timer == t && t.expiration <= n.log[k].now
  {
    hide Shape, Watched;
  }

  /** A timer that has not been cancelled, waiting for its insertion or for its time. */
  predicate Waits(s: State, p: nat, t: Timer, inserted: bool) {
    && p in s.heap && s.heap[p] == t
    && if inserted then p !in s.pending && Entry(t.expiration, p) in s.timers else p in s.pending
  }

  /** No cancel of the timer, and no batch that begins at its time or later. */
  predicate LeavesWaiting(a: Action, p: nat, t: Timer) {
    a != Cancel(TimerId(p, t.sequence)) && (a.FireBegin? ==> a.now < t.expiration)
  }

  lemma StepKeepsWaiting(s: State, a: Action, p: nat, t: Timer, inserted: bool)
    requires Shape(s) && Enabled(s, a) && Waits(s, p, t, inserted) && LeavesWaiting(a, p, t)
    ensures Waits(Step(s, a), p, t, inserted || (a.AddInLoop? && a.p == p))
  {
    hide Called, Ascending;
    match a {
      case FireBegin(now, _) =>
        TakenAreDue(s, now);
        hide Due, Owned, Batched;
      case ResetNext =>
        assert s.expired[s.next].timer in Held(s);
        assert inserted ==> Id(s.heap, p) in s.active;
        hide Held, Due;
      case _ =>
        hide Held, Due, Batched;
    }
  }

  lemma {:induction false} RunKeepsWaiting(s: State, run: seq<Action>, p: nat, t: Timer, inserted: bool)
    requires Inv(s) && Legal(s, run) && Waits(s, p, t, inserted)
    requires forall a | a in run :: LeavesWaiting(a, p, t)
    ensures Waits(After(s, run), p, t, inserted || exists a | a in run :: a.AddInLoop? && a.p == p)
    decreases |run|
  {
    hide Step, Shape, Watched, Logged, Enabled, Waits, LeavesWaiting;
    if run != [] {
      assert run[0] in run;
      StepKeepsInv(s, run[0]);
      StepKeepsWaiting(s, run[0], p, t, inserted);
      var now := inserted || (run[0].AddInLoop? && run[0].p == p);
      RunKeepsWaiting(Step(s, run[0]), run[1..], p, t, now);
      assert (now || exists a | a in run[1..] :: a.AddInLoop? && a.p == p)
        <==> (inserted || exists a | a in run :: a.AddInLoop? && a.p == p) by {
        assert forall a | a in run :: a == run[0] || a in run[1..];
      }
    }
  }

  /**
   A timer created, inserted and not cancelled is taken by the first batch that begins at the time
   asked for or later.
   */
  lemma FirstBatchTakesTimer(
      before: seq<Action>, p: nat, when: int, interval: int, repeat: bool, rest: seq<Action>, now: int, read: bool)
    requires Legal(Start, before + [Create(p, when, interval, repeat)] + rest + [FireBegin(now, read)]) && when <= now
    requires var t := Timer(when, interval, repeat, After(Start, before).created + 1);
      forall a | a in rest :: LeavesWaiting(a, p, t)
    requires exists a | a in rest :: a.AddInLoop? && a.p == p
    ensures var s := After(Start, before + [Create(p, when, interval, repeat)] + rest);
      && Entry(when, p) in Step(s, FireBegin(now, read)).expired
      && At(Step(s, FireBegin(now, read)).heap, p) == Timer(when, interval, repeat, After(Start, before).created + 1)
  {
    hide Step, Inv, Enabled, Waits, LeavesWaiting, After, Legal;
    var a := Create(p, when, interval, repeat);
    RunsJoin(Start, before + [a] + rest, [FireBegin(now, read)]);
    RunsJoin(Start, before + [a], rest);
    RunsJoin(Start, before, [a]);
    StartIsFine();
    RunKeepsInv(Start, before + [a]);
    RunKeepsInv(Start, before + [a] + rest);
    var s := After(Start, before);
    OneStep(s, a);
    var t := Timer(when, interval, repeat, s.created + 1);
    assert Waits(Step(s, a), p, t, false) by { CreatedWaits(s, p, when, interval, repeat); }
    RunKeepsWaiting(Step(s, a), rest, p, t, false);
    TakenFromWaiting(After(Start, before + [a] + rest), p, t, now, read);
  }

  lemma CreatedWaits(s: State, p: nat, when: int, interval: int, repeat: bool)
    ensures Waits(Step(s, Create(p, when, interval, repeat)), p, Timer(when, interval, repeat, s.created + 1), false)
  {
  }

  lemma TakenFromWaiting(s: State, p: nat, t: Timer, now: int, read: bool)
    requires Inv(s) && Waits(s, p, t, true) && t.expiration <= now
    ensures var n := Step(s, FireBegin(now, read)); Entry(t.expiration, p) in n.expired && At(n.heap, p) == t
  {
    hide Watched, Logged;
    TakenAreDue(s, now);
    hide Shape, Due;
  }

  /** The earliest of the timers. */
  predicate Earliest(ts: set<Entry>, e: Entry) {
    e in ts && forall x | x in ts :: e.when <= x.when
  }

  /**
   Whenever the alarm is set, at the moment `at`, it is for the earliest timer: for its very time, or
   for 100 microseconds after `at` when that is later.
   */
  lemma AlarmIsForTheEarliest(s: State, a: Action)
    requires Enabled(s, a) && Step(s, a).alarm != s.alarm && Step(s, a).alarm.On?
    ensures a.AddInLoop? || a.EndReset?
    ensures var n := Step(s, a);
      && n.alarm.since == a.at
      && exists e :: Earliest(n.timers, e) && n.alarm.due == if e.when < a.at + 100 then a.at + 100 else e.when
  {
    hide Ascending, Due;
    var n := Step(s, a);
    if a.AddInLoop? {
      assert Earliest(n.timers, EntryOf(s.heap, a.p));
    } else {
      assert Earliest(n.timers, First(s.timers));
    }
  }

  /** What has become, within its batch, of a timer that was t when the batch was being handled. */
  predicate Fated(s: State, p: nat, t: Timer, cancelled: bool) {
    && !s.phase.Quiet? && t.sequence <= s.created
    && (TimerId(p, t.sequence) in s.canceling <==> cancelled)
    && if p in Held(s) then p in s.heap && s.heap[p] == t
       else if t.repeat && !cancelled then
         p in s.heap && s.heap[p] == t.(expiration := s.now + t.interval) && Id(s.heap, p) in s.active && s.phase.Resetting?
       else s.phase.Resetting? && forall q | q in s.heap :: s.heap[q].sequence != t.sequence
  }

  predicate WithinBatch(a: Action) {
    !a.FireBegin? && !a.EndReset?
  }

  lemma StepKeepsFated(s: State, a: Action, p: nat, t: Timer, cancelled: bool)
    requires Shape(s) && Enabled(s, a) && WithinBatch(a) && Fated(s, p, t, cancelled)
    ensures Fated(Step(s, a), p, t, cancelled || a == Cancel(TimerId(p, t.sequence)))
  {
    hide Shape, Step, Fated, Enabled;
    match a {
      case ResetNext => ResetNextKeepsFated(s, p, t, cancelled);
      case Callback => CallbackKeepsFated(s, p, t, cancelled);
      case _ => PlainKeepsFated(s, a, p, t, cancelled);
    }
  }

  lemma CallbackKeepsFated(s: State, p: nat, t: Timer, cancelled: bool)
    requires Enabled(s, Callback) && Fated(s, p, t, cancelled)
    ensures Fated(Step(s, Callback), p, t, cancelled)
  {
    assert Held(Step(s, Callback)) == Held(s);
    hide Held;
  }

  lemma ResetNextKeepsFated(s: State, p: nat, t: Timer, cancelled: bool)
    requires Shape(s) && Enabled(s, ResetNext) && Fated(s, p, t, cancelled)
    ensures Fated(Step(s, ResetNext), p, t, cancelled)
  {
    ResetNextMoves(s, ResetNext);
    hide Held, Called, IndexedBy, Owned, Batched;
  }

  lemma PlainKeepsFated(s: State, a: Action, p: nat, t: Timer, cancelled: bool)
    requires Shape(s) && Enabled(s, a) && Plain(a) && !a.EndReset? && Fated(s, p, t, cancelled)
    ensures Fated(Step(s, a), p, t, cancelled || a == Cancel(TimerId(p, t.sequence)))
  {
    SameBatch(s, a);
    IdsInHeap(s);
    hide Held, Called, IndexedBy, Batched;
  }

  lemma {:induction false} RunKeepsFated(s: State, run: seq<Action>, p: nat, t: Timer, cancelled: bool)
    requires Inv(s) && Legal(s, run) && Fated(s, p, t, cancelled)
    requires forall a | a in run :: WithinBatch(a)
    ensures Fated(After(s, run), p, t, cancelled || Cancel(TimerId(p, t.sequence)) in run)
    ensures Inv(After(s, run)) && After(s, run).now == s.now
    decreases |run|
  {
    hide Step, Shape, Watched, Logged, Enabled, Fated;
    if run != [] {
      assert run[0] in run;
      StepKeepsInv(s, run[0]);
      StepKeepsFated(s, run[0], p, t, cancelled);
      StepKeepsNow(s, run[0]);
      RunKeepsFated(Step(s, run[0]), run[1..], p, t, cancelled || run[0] == Cancel(TimerId(p, t.sequence)));
    }
  }

  lemma StepKeepsNow(s: State, a: Action)
    requires WithinBatch(a)
    ensures Step(s, a).now == s.now
  {
  }

  /**
   A timer of the batch lives on after it exactly when it repeats and no callback cancelled it,
   and is then due an interval after the batch's time.
   */
  lemma SurvivesExactly(before: seq<Action>, rest: seq<Action>, at: int, p: nat)
    requires Legal(Start, before) && forall a | a in rest :: WithinBatch(a)
    requires var s := After(Start, before);
      && s.phase.Calling? && p in Held(s) && p in s.heap
      && Legal(s, rest + [EndReset(at)])
    ensures var s := After(Start, before); var n := After(s, rest + [EndReset(at)]); var t := s.heap[p];
      var alive := t.repeat && Id(s.heap, p) !in s.canceling && Cancel(Id(s.heap, p)) !in rest;
      && (alive ==> p in n.heap && n.heap[p] == t.(expiration := s.now + t.interval) && EntryOf(n.heap, p) in n.timers)
      && (!alive ==> forall q | q in n.heap :: n.heap[q].sequence != t.sequence)
  {
    StartIsFine();
    RunKeepsInv(Start, before);
    Survives(After(Start, before), rest, at, p);
  }

  lemma Survives(s: State, rest: seq<Action>, at: int, p: nat)
    requires Inv(s) && s.phase.Calling? && p in Held(s) && p in s.heap
    requires (forall a | a in rest :: WithinBatch(a)) && Legal(s, rest + [EndReset(at)])
    ensures var n := After(s, rest + [EndReset(at)]); var t := s.heap[p];
      var alive := t.repeat && Id(s.heap, p) !in s.canceling && Cancel(Id(s.heap, p)) !in rest;
      && (alive ==> p in n.heap && n.heap[p] == t.(expiration := s.now + t.interval) && EntryOf(n.heap, p) in n.timers)
      && (!alive ==> forall q | q in n.heap :: n.heap[q].sequence != t.sequence)
  {
    var t, a := s.heap[p], EndReset(at);
    RunsJoin(s, rest, [a]);
    RunKeepsFated(s, rest, p, t, Id(s.heap, p) in s.canceling);
    var m := After(s, rest);
    assert After(m, [a]) == Step(m, a) by {
      assert [a][1..] == [];
    }
    LeftAtEnd(m, p, t, Id(s.heap, p) in s.canceling || Cancel(Id(s.heap, p)) in rest, at);
    hide Step, After, Legal, Held, Inv, Fated;
  }

  lemma LeftAtEnd(m: State, p: nat, t: Timer, cancelled: bool, at: int)
    requires Shape(m) && Enabled(m, EndReset(at)) && Fated(m, p, t, cancelled)
    ensures var n := Step(m, EndReset(at));
      if t.repeat && !cancelled then
        p in n.heap && n.heap[p] == t.(expiration := m.now + t.interval) && EntryOf(n.heap, p) in n.timers
      else forall q | q in n.heap :: n.heap[q].sequence != t.sequence
  {
    assert Held(m) == {};
    hide Batched, Owned, Numbered;
  }

  // ----- a cancel that overtakes the insertion is lost -----

  /** Any batch can be finished; what is pending stays pending. */
  lemma {:induction false} Finish(s: State, p: nat) returns (run: seq<Action>)
    requires Inv(s) && p in s.pending
    ensures Legal(s, run)
    ensures var n := After(s, run);
      n.phase.Quiet? && p in n.pending && p in n.heap && n.heap[p] == s.heap[p] && n.batches == s.batches && s.log <= n.log
    decreases match s.phase case Calling => 2 case Resetting => 1 case Quiet => 0, |s.expired| - s.next
  {
    if s.phase.Quiet? {
      return [];
    }
    var a := if s.phase.Calling? then (if s.next < |s.expired| then Callback else BeginReset)
      else if s.next < |s.expired| then ResetNext else EndReset(0);
    assert Enabled(s, a);
    FinishStep(s, a, p);
    StepKeepsInv(s, a);
    hide Inv, Step;
    var rest := Finish(Step(s, a), p);
    run := [a] + rest;
    assert run[1..] == rest;
  }

  lemma FinishStep(s: State, a: Action, p: nat)
    requires Shape(s) && Enabled(s, a) && p in s.pending && !s.phase.Quiet?
    requires a.Callback? || a.BeginReset? || a.ResetNext? || a.EndReset?
    ensures var n := Step(s, a);
      && p in n.pending && p in n.heap && n.heap[p] == s.heap[p] && n.batches == s.batches && s.log <= n.log
      && (a.Callback? || a.ResetNext? ==> n.phase == s.phase && n.expired == s.expired && n.next == s.next + 1)
      && (a.BeginReset? ==> n.phase.Resetting?) && (a.EndReset? ==> n.phase.Quiet?)
  {
    HeldOnes(s);
    hide Called, Held, Indexed;
  }

  /** The callbacks reach every timer of the batch. */
  lemma {:induction false} CallUpTo(s: State, i: nat) returns (run: seq<Action>)
    requires s.phase.Calling? && s.next <= i < |s.expired|
    ensures Legal(s, run)
    ensures var n := After(s, run);
      s.log < n.log && n.log[|n.log| - 1] == Ran(At(s.heap, s.expired[i].timer), s.now, s.batches)
    decreases i - s.next
  {
    if i == s.next {
      run := [Callback];
      assert run[1..] == [];
      assert After(Step(s, Callback), []) == Step(s, Callback);
    } else {
      var rest := CallUpTo(Step(s, Callback), i);
      run := [Callback] + rest;
      assert run[1..] == rest;
    }
  }

  lemma InsertedIsTaken(s: State, p: nat, now: int)
    requires Inv(s) && s.phase.Quiet? && p in s.pending && now > 0 && s.heap[p].expiration <= now
    ensures var n := Step(s, AddInLoop(p, 0)); var m := Step(n, FireBegin(now, false));
      && Enabled(s, AddInLoop(p, 0)) && Enabled(n, FireBegin(now, false))
      && m.phase.Calling? && m.next == 0 && m.batches == s.batches + 1 && m.log == s.log
      && m.heap == s.heap && EntryOf(s.heap, p) in m.expired
  {
    var a := AddInLoop(p, 0);
    var n := Step(s, a);
    StepKeepsShape(s, a);
    assert EntryOf(s.heap, p) in n.timers;
    BatchOf(n, now, false);
    hide Shape, Ascending, Due, Held, Called, Watched, Logged;
  }

  /** A timer whose insertion is still queued can be inserted, and then run in the next batch. */
  lemma PendingCanRun(s: State, p: nat) returns (run: seq<Action>)
    requires Inv(s) && s.phase.Quiet? && p in s.pending && p in s.heap
    ensures Legal(s, run)
    ensures var n := After(s, run);
      s.log < n.log && n.log[|n.log| - 1].timer == s.heap[p] && n.log[|n.log| - 1].batch == s.batches + 1
  {
    hide Step, Inv, Enabled, Legal, After, EntryOf;
    var now := Max(s.heap[p].expiration, 1);
    InsertedIsTaken(s, p, now);
    var a, b := AddInLoop(p, 0), FireBegin(now, false);
    TwoSteps(s, a, b);
    var m := After(s, [a, b]);
    var i :| 0 <= i < |m.expired| && m.expired[i] == EntryOf(s.heap, p);
    var rest := CallUpTo(m, i);
    run := [a, b] + rest;
    RunsJoin(s, [a, b], rest);
  }

  lemma TwoSteps(s: State, a: Action, b: Action)
    requires Enabled(s, a) && Enabled(Step(s, a), b)
    ensures Legal(s, [a, b]) && After(s, [a, b]) == Step(Step(s, a), b)
  {
    hide Step, Enabled;
    var n := Step(s, a);
    assert [a, b][1..] == [b] && [b][1..] == [];
    assert Legal(n, [b]) by {
      assert Legal(Step(n, b), []);
    }
    assert After(n, [b]) == After(Step(n, b), []);
  }

  /** A run after the cancel in which the timer runs in a later batch all the same. */
  lemma PendingCancelIsLost(s: State, p: nat) returns (run: seq<Action>)
    requires Inv(s) && p in s.pending && !s.phase.Resetting?
    ensures var c := Step(s, Cancel(Id(s.heap, p)));
      Legal(c, run) && !NoLaterRun(s, After(c, run), s.heap[p].sequence)
  {
    var a := Cancel(Id(s.heap, p));
    var c := Step(s, a);
    StepKeepsInv(s, a);
    assert p in c.pending && c.heap == s.heap && c.log == s.log && c.batches == s.batches;
    hide Step, Inv;
    var first := Finish(c, p);
    RunKeepsInv(c, first);
    var second := PendingCanRun(After(c, first), p);
    run := first + second;
    RunsJoin(c, first, second);
  }

  /** The cancel of a live timer is final exactly when the timer has been inserted before. */
  lemma CancelIsFinalExactly(before: seq<Action>, p: nat)
    requires Legal(Start, before)
    requires p in After(Start, before).heap && !After(Start, before).phase.Resetting?
    ensures var s := After(Start, before); var c := Step(s, Cancel(Id(s.heap, p)));
      (forall run | Legal(c, run) :: NoLaterRun(s, After(c, run), s.heap[p].sequence)) <==> p !in s.pending
  {
    StartIsFine();
    RunKeepsInv(Start, before);
    var s := After(Start, before);
    hide Step, Inv, After, Legal, NoLaterRun, Held;
    var c := Step(s, Cancel(Id(s.heap, p)));
    if p in s.pending {
      var run := PendingCancelIsLost(s, p);
    } else {
      forall run | Legal(c, run)
        ensures NoLaterRun(s, After(c, run), s.heap[p].sequence)
      {
        CancelledRuns(s, p, run);
      }
    }
  }

  // ----- the object -----

  /** What callbacks do: code of the loop's thread and of others that touches the queue. */
  predicate InCallback(a: Action) {
    a.Create? || a.AddInLoop? || a.Cancel?
  }

  /** The callbacks of n timers, each followed by what it does. */
  function Calls(scripts: seq<seq<Action>>): seq<Action> {
    if scripts == [] then [] else [Callback] + scripts[0] + Calls(scripts[1..])
  }

  function Resets(n: nat): seq<Action> {
    seq(n, i => ResetNext)
  }

  lemma EarliestByFirst(ts: set<Entry>, when: int)
    ensures EarliestChanges(ts, when) <==> ts == {} || when < First(ts).when
  {
  }

  /** Taking the due entries from the front. */
  lemma DueFromFront(ts: set<Entry>, now: int)
    requires ts != {}
    ensures Before(First(ts), Entry(now, MaxAddress)) ==>
      Ascending(Due(ts, now)) == [First(ts)] + Ascending(Due(ts - {First(ts)}, now))
    ensures !Before(First(ts), Entry(now, MaxAddress)) ==> Due(ts, now) == {}
  {
    var f := First(ts);
    if Before(f, Entry(now, MaxAddress)) {
      assert f in Due(ts, now);
      assert First(Due(ts, now)) == f;
      assert Due(ts, now) - {f} == Due(ts - {f}, now);
    }
  }

  lemma CallsFirst(scripts: seq<seq<Action>>, i: nat, end: seq<Action>)
    requires i < |scripts|
    ensures Calls(scripts[i..]) + end == [Callback] + (scripts[i] + (Calls(scripts[i + 1..]) + end))
  {
    assert scripts[i..][0] == scripts[i] && scripts[i..][1..] == scripts[i + 1..];
  }

  /** What a callback does leaves the batch as it is. */
  lemma {:induction false} ScriptKeepsBatch(s: State, script: seq<Action>)
    requires Legal(s, script) && forall a | a in script :: InCallback(a)
    ensures var n := After(s, script);
      n.phase == s.phase && n.expired == s.expired && n.next == s.next && n.now == s.now
    decreases |script|
  {
    if script != [] {
      var n := Step(s, script[0]);
      assert InCallback(script[0]);
      assert n.phase == s.phase && n.expired == s.expired && n.next == s.next && n.now == s.now;
      hide Step, Enabled;
      ScriptKeepsBatch(n, script[1..]);
    } else {
      assert After(s, script) == s;
    }
  }

  lemma FireUnfolds(s: State, now: int, read: bool)
    ensures Step(s, FireBegin(now, read)) == s.(
      phase := Calling, canceling := {}, expired := Ascending(Due(s.timers, now)), next := 0, now := now,
      timers := s.timers - Due(s.timers, now),
      active := s.active - IdsOf(s.heap, Due(s.timers, now)),
      alarm := if read then Off else s.alarm, batches := s.batches + 1)
  {
  }

  lemma ResetUnfolds(s: State)
    requires Enabled(s, ResetNext)
    ensures Step(s, ResetNext) == ResetOne(s, s.expired[s.next].timer)
  {
  }

  /** What the code relies on when it resets the next timer. */
  lemma ResetFacts(s: State)
    requires Inv(s) && Enabled(s, ResetNext)
    ensures s.next < |s.expired| && s.phase.Resetting?
    ensures var p := s.expired[s.next].timer;
      && p in s.heap && |s.timers| == |s.active|
      && var h := s.heap[p := s.heap[p].(expiration := s.now + s.heap[p].interval)];
         Id(h, p) !in s.active && EntryOf(h, p) !in s.timers
  {
    hide Step, Held, Called;
    TouchesLive(s, ResetNext);
    AssertedInShape(s, ResetNext);
  }

  /** And when it takes the due timers out of both sets. */
  ghost predicate CanTake(heap: map<nat, Timer>, timers: set<Entry>, active: set<TimerId>, now: int) {
    var due := Ascending(Due(timers, now));
    && |timers| == |active|
    && (forall e | e in due :: e.timer in heap && Id(heap, e.timer) in active)
    && (forall i, j | 0 <= i < j < |due| :: due[i].timer != due[j].timer)
    && (forall e | e in timers - Due(timers, now) :: now < e.when)
  }

  lemma FireFacts(s: State, now: int, read: bool)
    requires Inv(s) && Enabled(s, FireBegin(now, read))
    ensures s.phase.Quiet? && CanTake(s.heap, s.timers, s.active, now)
  {
    hide Ascending, Due, Owned, Batched, Watched, Logged;
    SameSize(s.heap, s.timers, s.active);
    TakenAreDue(s, now);
    var due := Ascending(Due(s.timers, now));
    forall i, j | 0 <= i < j < |due|
      ensures due[i].timer != due[j].timer
    {
      assert due[i] in Due(s.timers, now) && due[j] in Due(s.timers, now);
      assert Before(due[i], due[j]);
    }
  }

  /** When it inserts a timer. */
  lemma AddFacts(s: State, p: nat, at: int)
    requires Inv(s) && Enabled(s, AddInLoop(p, at))
    ensures p in s.heap && |s.timers| == |s.active|
    ensures EntryOf(s.heap, p) !in s.timers && Id(s.heap, p) !in s.active
    ensures Step(s, AddInLoop(p, at)) ==
      var when := s.heap[p].expiration;
      Insert(s, p).(
        pending := s.pending - {p},
        alarm := if EarliestChanges(s.timers, when) then Armed(when, at) else s.alarm)
  {
    AssertedInShape(s, AddInLoop(p, at));
  }

  /** When it cancels one. */
  lemma CancelFacts(s: State, id: TimerId)
    requires Inv(s) && Enabled(s, Cancel(id))
    ensures |s.timers| == |s.active| && !s.phase.Resetting?
    ensures id in s.active ==> id.timer in s.heap && EntryOf(s.heap, id.timer) in s.timers
    ensures Step(s, Cancel(id)) ==
      if id in s.active then
        s.(timers := s.timers - {EntryOf(s.heap, id.timer)},
           heap := s.heap - {id.timer}, active := s.active - {id})
      else if s.phase.Calling? then s.(canceling := s.canceling + {id})
      else s
    ensures id in s.active ==>
      EntryOf(s.heap, id.timer) == Entry(s.heap[id.timer].expiration, id.timer)
      && |s.timers - {EntryOf(s.heap, id.timer)}| == |s.active - {id}|
  {
    AssertedInShape(s, Cancel(id));
    TouchesLive(s, Cancel(id));
  }

  lemma AscendingOfNone()
    ensures Ascending({}) == []
  {
  }

  lemma CallbackKeepsBatch(s: State)
    requires Enabled(s, Callback)
    ensures var n := Step(s, Callback);
      n.phase == s.phase && n.expired == s.expired && n.next == s.next + 1 && n.now == s.now
  {
  }

  lemma ResetKeepsBatch(s: State)
    requires Enabled(s, ResetNext)
    ensures var n := Step(s, ResetNext);
      n.phase == s.phase && n.expired == s.expired && n.next == s.next + 1 && n.now == s.now
  {
  }

  function Batch(now: int, read: bool, scripts: seq<seq<Action>>, at: int): seq<Action> {
    [FireBegin(now, read)] + (Calls(scripts) + ([BeginReset] + (Resets(|scripts|) + [EndReset(at)])))
  }

  class TimerQueue {
    var heap: map<nat, Timer>
    var numCreated: nat
    var timers: set<Entry>
    var activeTimers: set<TimerId>
    var callingExpiredTimers: bool
    var cancelingTimers: set<TimerId>
    var timerfd: Alarm
    ghost var pending: set<nat>
    ghost var resetting: bool
    ghost var expired: seq<Entry>
    ghost var next: nat
    ghost var now: int
    ghost var batches: nat
    ghost var log: seq<Ran>

    ghost function View(): State
      reads this
    {
      State(heap, pending, timers, activeTimers,
            if callingExpiredTimers then Calling else if resetting then Resetting else Quiet,
            cancelingTimers, expired, next, now, timerfd, numCreated, batches, log)
    }

    constructor ()
      ensures View() == Start
    {
      heap, numCreated, timers, activeTimers := map[], 0, {}, {};
      callingExpiredTimers, cancelingTimers, timerfd := false, {}, Off;
      pending, resetting, expired, next, now, batches, log := {}, false, [], 0, 0, 0, [];
    }

    /** The first entry of the ordered set. */
    method Begin() returns (e: Entry)
      requires timers != {}
      ensures e == First(timers)
    {
      FirstExists(timers);
      e :| e in timers && forall x | x in timers :: x == e || Before(e, x);
    }

    /** The part of addTimer that any thread runs: p is where the allocator put the timer. */
    method AddTimer(p: nat, when: int, interval: int, repeat: bool) returns (id: TimerId)
      requires Enabled(View(), Create(p, when, interval, repeat))
      modifies this
      ensures View() == Step(old(View()), Create(p, when, interval, repeat))
      ensures id == Id(heap, p)
    {
      numCreated := numCreated + 1;
      heap := heap[p := Timer(when, interval, repeat, numCreated)];
      pending := pending + {p};
      id := TimerId(p, numCreated);
    }

    method InsertTimer(p: nat) returns (earliestChanged: bool)
      requires p in heap && |timers| == |activeTimers|
      requires EntryOf(heap, p) !in timers && Id(heap, p) !in activeTimers
      modifies this`timers, this`activeTimers
      ensures View() == Insert(old(View()), p)
      ensures earliestChanged == EarliestChanges(old(timers), heap[p].expiration)
    {
      hide First, EarliestChanges;
      assert |timers| == |activeTimers|;
      var when := heap[p].expiration;
      EarliestByFirst(timers, when);
      earliestChanged := timers == {};
      if !earliestChanged {
        var first := Begin();
        earliestChanged := when < first.when;
      }
      assert Entry(when, p) !in timers;
      timers := timers + {Entry(when, p)};
      assert TimerId(p, heap[p].sequence) !in activeTimers;
      activeTimers := activeTimers + {TimerId(p, heap[p].sequence)};
      assert |timers| == |activeTimers|;
    }

    method AddTimerInLoop(p: nat, at: int)
      requires Inv(View()) && Enabled(View(), AddInLoop(p, at))
      modifies this
      ensures View() == Step(old(View()), AddInLoop(p, at))
    {
      hide Inv, Step, Enabled, EarliestChanges;
      AddFacts(View(), p, at);
      var earliestChanged := InsertTimer(p);
      if earliestChanged {
        timerfd := Armed(heap[p].expiration, at);
      }
      pending := pending - {p};
    }

    method CancelInLoop(id: TimerId)
      requires Inv(View()) && Enabled(View(), Cancel(id))
      modifies this
      ensures View() == Step(old(View()), Cancel(id))
    {
      hide Inv, Step, Enabled, EntryOf;
      CancelFacts(View(), id);
      assert |timers| == |activeTimers|;
      if id in activeTimers {
        var e := Entry(heap[id.timer].expiration, id.timer);
        assert e in timers;
        timers := timers - {e};
        heap := heap - {id.timer};
        activeTimers := activeTimers - {id};
      } else if callingExpiredTimers {
        cancelingTimers := cancelingTimers + {id};
      }
      assert |timers| == |activeTimers|;
    }

    /** One action of a callback. */
    method Perform(a: Action)
      requires Inv(View()) && Enabled(View(), a) && InCallback(a)
      modifies this
      ensures View() == Step(old(View()), a)
    {
      hide Inv, Step, Enabled;
      match a {
        case Create(p, when, interval, repeat) =>
          var id := AddTimer(p, when, interval, repeat);
        case AddInLoop(p, at) =>
          AddTimerInLoop(p, at);
        case Cancel(id) =>
          CancelInLoop(id);
        case _ =>
      }
    }

    method PerformAll(script: seq<Action>)
      requires Inv(View()) && Legal(View(), script) && forall a | a in script :: InCallback(a)
      modifies this
      ensures View() == After(old(View()), script) && Inv(View())
    {
      hide Inv, Step, Enabled;
      ghost var s := View();
      for i := 0 to |script|
        invariant Inv(View()) && Legal(View(), script[i..])
        invariant After(View(), script[i..]) == After(s, script)
      {
        assert script[i..][0] == script[i] && script[i..][1..] == script[i + 1..];
        StepKeepsInv(View(), script[i]);
        Perform(script[i]);
      }
    }

    /** The entries before the sentry move out of the ordered set. */
    method CopyDue(now: int) returns (due: seq<Entry>)
      modifies this`timers
      ensures due == Ascending(Due(old(timers), now))
      ensures timers == old(timers) - Due(old(timers), now)
    {
      hide Ascending, First;
      due := [];
      ghost var was := timers;
      while timers != {}
        invariant timers <= was
        invariant forall e | e in was - timers :: e in Due(was, now)
        invariant due + Ascending(Due(timers, now)) == Ascending(Due(was, now))
        decreases |timers|
      {
        DueFromFront(timers, now);
        var first := Begin();
        if !Before(first, Entry(now, MaxAddress)) {
          break;
        }
        due := due + [first];
        timers := timers - {first};
      }
      AscendingOfNone();
      assert Due(timers, now) == {};
    }

    method EraseActive(due: seq<Entry>, ghost all: set<Entry>)
      requires forall e | e in due :: e.timer in heap && Id(heap, e.timer) in activeTimers
      requires forall i, j | 0 <= i < j < |due| :: due[i].timer != due[j].timer
      requires forall e :: e in due <==> e in all
      modifies this`activeTimers
      ensures activeTimers == old(activeTimers) - IdsOf(heap, all)
    {
      for i := 0 to |due|
        invariant activeTimers == old(activeTimers) - (set e | e in due[..i] :: Id(heap, e.timer))
      {
        var id := TimerId(due[i].timer, heap[due[i].timer].sequence);
        assert id in activeTimers;
        activeTimers := activeTimers - {id};
        assert due[..i + 1] == due[..i] + [due[i]];
      }
      assert due[..|due|] == due;
    }

    /** Takes the due timers out of both sets, earliest first. */
    method TakeDue(now: int) returns (due: seq<Entry>)
      requires CanTake(heap, timers, activeTimers, now)
      modifies this`timers, this`activeTimers
      ensures due == Ascending(Due(old(timers), now))
      ensures timers == old(timers) - Due(old(timers), now)
      ensures activeTimers == old(activeTimers) - IdsOf(heap, Due(old(timers), now))
    {
      hide Ascending, Due, Id, IdsOf;
      assert |timers| == |activeTimers|;
      ghost var all := Due(timers, now);
      due := CopyDue(now);
      assert forall e | e in timers :: now < e.when;
      EraseActive(due, all);
    }

    method GetExpired(now: int, read: bool) returns (due: seq<Entry>)
      requires Inv(View()) && Enabled(View(), FireBegin(now, read))
      modifies this
      ensures View() == Step(old(View()), FireBegin(now, read)) && due == expired
    {
      hide Inv, Step, Enabled, Ascending, Due, IdsOf, CanTake;
      ghost var s := View();
      FireFacts(s, now, read);
      FireUnfolds(s, now, read);
      due := TakeDue(now);
      if read {
        timerfd := Off;
      }
      callingExpiredTimers, cancelingTimers := true, {};
      expired, next, this.now, batches := due, 0, now, batches + 1;
    }

    /** The callback of the next timer of the batch. */
    method RunTimer(e: Entry)
      requires Inv(View()) && Enabled(View(), Callback) && e == expired[next]
      modifies this
      ensures View() == Step(old(View()), Callback)
    {
      TouchesLive(View(), Callback);
      hide Inv;
      var timer := heap[e.timer];
      log, next := log + [Ran(timer, now, batches)], next + 1;
    }

    /** One pass of the reset loop. */
    method ResetTimer(e: Entry, now: int)
      requires Inv(View()) && Enabled(View(), ResetNext) && e == expired[next] && now == this.now
      modifies this
      ensures View() == Step(old(View()), ResetNext)
    {
      hide Inv, Step, Enabled, EarliestChanges;
      ghost var s := View();
      ResetFacts(s);
      ResetUnfolds(s);
      var timer := heap[e.timer];
      if timer.repeat && TimerId(e.timer, timer.sequence) !in cancelingTimers {
        heap := heap[e.timer := timer.(expiration := now + timer.interval)];
        var earliestChanged := InsertTimer(e.timer);
      } else {
        heap := heap - {e.timer};
      }
      next := next + 1;
    }

    method Reset(due: seq<Entry>, now: int, at: int)
      requires Inv(View()) && View().phase.Resetting? && next == 0 && due == expired && now == this.now
      modifies this
      ensures View() == After(old(View()), Resets(|due|) + [EndReset(at)]) && Inv(View())
    {
      hide Inv, Step;
      ghost var s := View();
      for i := 0 to |due|
        invariant Inv(View()) && View().phase.Resetting? && next == i && expired == due && now == this.now
        invariant After(View(), Resets(|due| - i) + [EndReset(at)]) == After(s, Resets(|due|) + [EndReset(at)])
      {
        ghost var v := View();
        ghost var rest := Resets(|due| - i) + [EndReset(at)];
        assert rest[0] == ResetNext && rest[1..] == Resets(|due| - i - 1) + [EndReset(at)];
        StepKeepsInv(v, ResetNext);
        ResetKeepsBatch(v);
        ResetTimer(due[i], now);
      }
      assert Resets(0) + [EndReset(at)] == [EndReset(at)];
      assert [EndReset(at)][1..] == [];
      StepKeepsInv(View(), EndReset(at));
      Rearm(at);
    }

    method Rearm(at: int)
      requires Inv(View()) && Enabled(View(), EndReset(at))
      modifies this
      ensures View() == Step(old(View()), EndReset(at))
    {
      TouchesLive(View(), EndReset(at));
      var nextExpire := 0;
      if timers != {} {
        var first := Begin();
        nextExpire := heap[first.timer].expiration;
        assert nextExpire == first.when;
      }
      hide Inv;
      if nextExpire > 0 {
        timerfd := Armed(nextExpire, at);
      }
      resetting, expired, next := false, [], 0;
    }

    /** One callback and what it does, with the rest of the batch to come. */
    method CallBack(e: Entry, script: seq<Action>, ghost rest: seq<Action>)
      requires Inv(View()) && Enabled(View(), Callback) && e == expired[next]
      requires forall a | a in script :: InCallback(a)
      requires Legal(View(), [Callback] + (script + rest))
      modifies this
      ensures Inv(View()) && Legal(View(), rest)
      ensures View() == After(old(View()), [Callback] + script)
      ensures After(View(), rest) == After(old(View()), [Callback] + (script + rest))
      ensures View().phase.Calling? && expired == old(expired) && next == old(next) + 1 && now == old(now)
    {
      ghost var s := View();
      StepKeepsInv(s, Callback);
      CallbackKeepsBatch(s);
      hide Inv, Step, Enabled;
      assert ([Callback] + (script + rest))[1..] == script + rest;
      assert ([Callback] + script)[1..] == script;
      RunTimer(e);
      ghost var v := View();
      assert Legal(v, script + rest);
      assert After(s, [Callback] + script) == After(v, script);
      RunsJoin(v, script, rest);
      ScriptKeepsBatch(v, script);
      PerformAll(script);
    }

    /** The loop over the batch; end is what follows it. */
    method CallBacks(due: seq<Entry>, scripts: seq<seq<Action>>, ghost end: seq<Action>)
      requires Inv(View()) && View().phase.Calling? && next == 0 && due == expired && |due| == |scripts|
      requires forall script | script in scripts :: forall a | a in script :: InCallback(a)
      requires Legal(View(), Calls(scripts) + end)
      modifies this
      ensures Inv(View()) && View().phase.Calling? && next == |due| && expired == due && now == old(now)
      ensures Legal(View(), end) && After(View(), end) == After(old(View()), Calls(scripts) + end)
    {
      hide Inv, Step, Legal, After;
      ghost var s := View();
      assert scripts[0..] == scripts;
      for i := 0 to |due|
        invariant Inv(View()) && View().phase.Calling? && next == i && expired == due && now == old(now)
        invariant Legal(View(), Calls(scripts[i..]) + end)
        invariant After(View(), Calls(scripts[i..]) + end) == After(s, Calls(scripts) + end)
      {
        CallsFirst(scripts, i, end);
        assert scripts[i] in scripts;
        assert Enabled(View(), Callback);
        CallBack(due[i], scripts[i], Calls(scripts[i + 1..]) + end);
      }
      assert scripts[|due|..] == [] && Calls([]) + end == end;
    }

    /** A whole batch: scripts[i] is what the callback of its i-th timer does. */
    method HandleRead(now: int, read: bool, scripts: seq<seq<Action>>, at: int)
      requires Inv(View()) && |scripts| == |Due(timers, now)|
      requires forall script | script in scripts :: forall a | a in script :: InCallback(a)
      requires Legal(View(), Batch(now, read, scripts, at))
      modifies this
      ensures View() == After(old(View()), Batch(now, read, scripts, at))
      ensures Inv(View())
    {
      ghost var whole := Batch(now, read, scripts, at);
      ghost var end := [BeginReset] + (Resets(|scripts|) + [EndReset(at)]);
      assert whole[0] == FireBegin(now, read) && whole[1..] == Calls(scripts) + end;
      StepKeepsInv(View(), FireBegin(now, read));
      hide Inv, Due, Ascending;
      var due := GetExpired(now, read);
      CallBacks(due, scripts, end);
      EndCalls(due, now, at);
    }

    /** The flag is cleared and the batch is reset. */
    method EndCalls(due: seq<Entry>, now: int, at: int)
      requires Inv(View()) && View().phase.Calling? && next == |due| && due == expired && now == this.now
      modifies this
      ensures View() == After(old(View()), [BeginReset] + (Resets(|due|) + [EndReset(at)])) && Inv(View())
    {
      StepKeepsInv(View(), BeginReset);
      ghost var end := [BeginReset] + (Resets(|due|) + [EndReset(at)]);
      assert end[0] == BeginReset && end[1..] == Resets(|due|) + [EndReset(at)];
      ghost var s := View();
      assert After(s, end) == After(Step(s, BeginReset), end[1..]);
      hide Inv, After;
      callingExpiredTimers, resetting, next := false, true, 0;
      Reset(due, now, at);
    }

    /** The destructor: every timer in the sets is freed; with nothing queued, none is left. */
    method Destroy()
      requires Inv(View()) && View().phase.Quiet?
      modifies this`heap
      ensures heap.Keys == pending
    {
      assert Held(View()) == {};
      var left := timers;
      ghost var leftActive := activeTimers;
      while left != {}
        invariant IndexedBy(heap, left, leftActive)
        invariant forall p | p in heap :: Id(heap, p) in leftActive <==> p !in pending
        invariant pending <= heap.Keys
        decreases |left|
      {
        FirstExists(left);
        var first :| first in left && forall x | x in left :: x == first || Before(first, x);
        IndexAfterRemoval(heap, left, leftActive, first.timer);
        leftActive := leftActive - {Id(heap, first.timer)};
        left := left - {first};
        heap := heap - {first.timer};
      }
      assert forall d | d in leftActive :: EntryOf(heap, d.timer) in left;
    }
  }
}
