/**
 The double-buffered logger: threads append lines under a lock, one thread swaps the full
 buffers out and writes them to the file.
 */
module AsyncLogging {
  import opened Bytes

  type Line = seq<byte>
  type LogBuffer = seq<Line>

  /** Bytes of a buffer, and the most buffers one round writes in full. */
  const LargeBuffer: nat := 4000 * 1000
  const MaxBuffersToWrite: nat := 25

  function Length(b: LogBuffer): nat {
    if b == [] then 0 else Length(b[..|b| - 1]) + |b[|b| - 1]|
  }

  function Avail(b: LogBuffer): int {
    LargeBuffer - Length(b)
  }

  /** FixedBuffer's append: a line without room is dropped silently. */
  function FixedAppend(b: LogBuffer, line: Line): LogBuffer {
    if Avail(b) > |line| then b + [line] else b
  }

  /** The logging thread: not started, started but not yet past its first assertion, or in its loop. */
  datatype Place = Idle | Launched | Test | Waiting | Writing | Stopped

  datatype Entry = Text(line: Line) | Dropped(buffers: nat)

  /**
   Shared buffers, the logging thread's own buffers, and the history: the lines appended
   that fit a buffer at all, the batches taken over for writing, and the file.
   */
  datatype State = State(
    current: LogBuffer, next: Option<LogBuffer>, buffers: seq<LogBuffer>, running: bool,
    place: Place, newBuffer1: Option<LogBuffer>, newBuffer2: Option<LogBuffer>, toWrite: seq<LogBuffer>,
    accepted: seq<Line>, batches: seq<seq<LogBuffer>>, file: seq<Entry>)

  const Created := State([], Some([]), [], false, Idle, Some([]), Some([]), [], [], [], [])

  // ----- the steps -----

  predicate FitsABuffer(line: Line) {
    |line| < LargeBuffer
  }

  function Append(s: State, line: Line): State {
    var t := s.(accepted := if FitsABuffer(line) then s.accepted + [line] else s.accepted);
    if Avail(s.current) > |line| then t.(current := FixedAppend(s.current, line))
    else
      var replacement := if s.next.Some? then s.next.value else [];
      t.(buffers := s.buffers + [s.current], current := FixedAppend(replacement, line), next := None)
  }

  function Start(s: State): State {
    s.(running := true, place := Launched)
  }

  /** Past the assertion that the logger is running, the thread lets start return. */
  function Launch(s: State): State {
    s.(place := Test)
  }

  function Stop(s: State): State {
    s.(running := false)
  }

  function TestRunning(s: State): State
    requires s.place == Test
  {
    s.(place := if s.running then Waiting else Stopped)
  }

  /** The locked part of the logging thread's round. */
  function SwapOut(s: State): State
    requires s.place == Waiting && s.newBuffer1.Some?
  {
    var full := s.buffers + [s.current];
    s.(
      place := Writing,
      current := s.newBuffer1.value, newBuffer1 := None,
      toWrite := full, buffers := s.toWrite,
      next := if s.next.None? then s.newBuffer2 else s.next,
      newBuffer2 := if s.next.None? then None else s.newBuffer2)
  }

  function Lines(b: LogBuffer): seq<Entry> {
    seq(|b|, i requires 0 <= i < |b| => Text(b[i]))
  }

  function AllLines(bs: seq<LogBuffer>): seq<Entry> {
    if bs == [] then [] else AllLines(bs[..|bs| - 1]) + Lines(bs[|bs| - 1])
  }

  /** What a batch puts into the file. */
  function Written(batch: seq<LogBuffer>): seq<Entry> {
    if |batch| > MaxBuffersToWrite then [Dropped(|batch| - 2)] + AllLines(batch[..2]) else AllLines(batch)
  }

  function WriteOut(s: State): State
    requires s.place == Writing
    requires |s.toWrite| >= (if s.newBuffer1.None? then 1 else 0) + (if s.newBuffer2.None? then 1 else 0)
  {
    s.(
      place := Test,
      file := s.file + Written(s.toWrite),
      batches := s.batches + [s.toWrite],
      newBuffer1 := if s.newBuffer1.None? then Some([]) else s.newBuffer1,
      newBuffer2 := if s.newBuffer2.None? then Some([]) else s.newBuffer2,
      toWrite := [])
  }

  // ----- the same steps, as the object's code -----

  class Logger {
    var currentBuffer: LogBuffer
    var nextBuffer: Option<LogBuffer>
    var buffers: seq<LogBuffer>
    var running: bool
    var place: Place
    var newBuffer1: Option<LogBuffer>
    var newBuffer2: Option<LogBuffer>
    var buffersToWrite: seq<LogBuffer>
    var output: seq<Entry>
    ghost var accepted: seq<Line>
    ghost var batches: seq<seq<LogBuffer>>

    ghost function View(): State
      reads this
    {
      State(currentBuffer, nextBuffer, buffers, running, place, newBuffer1, newBuffer2, buffersToWrite,
            accepted, batches, output)
    }

    constructor ()
      ensures View() == Created
    {
      currentBuffer, nextBuffer, buffers, running, place := [], Some([]), [], false, Idle;
      newBuffer1, newBuffer2, buffersToWrite, output := Some([]), Some([]), [], [];
      accepted, batches := [], [];
    }

    method AppendLine(line: Line)
      modifies this
      ensures View() == Append(old(View()), line)
    {
      accepted := if FitsABuffer(line) then accepted + [line] else accepted;
      if Avail(currentBuffer) > |line| {
        currentBuffer := FixedAppend(currentBuffer, line);
      } else {
        buffers := buffers + [currentBuffer];
        if nextBuffer.Some? {
          currentBuffer := nextBuffer.value;
          nextBuffer := None;
        } else {
          currentBuffer := [];
        }
        currentBuffer := FixedAppend(currentBuffer, line);
      }
    }

    /** Taking the full buffers over; the assertions are those at the top of the loop. */
    method TakeOver()
      requires Inv(View()) && place == Waiting
      modifies this
      ensures View() == SwapOut(old(View()))
    {
      assert newBuffer1 == Some([]);
      assert newBuffer2 == Some([]);
      assert buffersToWrite == [];
      buffers := buffers + [currentBuffer];
      currentBuffer := newBuffer1.value;
      newBuffer1 := None;
      buffersToWrite, buffers := buffers, buffersToWrite;
      if nextBuffer.None? {
        nextBuffer := newBuffer2;
        newBuffer2 := None;
      }
      place := Writing;
      assert buffersToWrite != [];
    }

    method WriteBuffers()
      requires Inv(View()) && place == Writing
      modifies this
      ensures View() == WriteOut(old(View()))
    {
      hide Conserves;
      ghost var batch := buffersToWrite;
      if |buffersToWrite| > MaxBuffersToWrite {
        output := output + [Dropped(|buffersToWrite| - 2)];
        buffersToWrite := buffersToWrite[..2];
      }
      WriteEach();
      assert output == old(output) + Written(batch);
      if |buffersToWrite| > 2 {
        buffersToWrite := buffersToWrite[..2];
      }
      if newBuffer1.None? {
        assert buffersToWrite != [];
        newBuffer1 := Some([]);
        buffersToWrite := buffersToWrite[..|buffersToWrite| - 1];
      }
      if newBuffer2.None? {
        assert buffersToWrite != [];
        newBuffer2 := Some([]);
        buffersToWrite := buffersToWrite[..|buffersToWrite| - 1];
      }
      buffersToWrite := [];
      batches := batches + [batch];
      place := Test;
    }

    method WriteEach()
      modifies this`output
      ensures output == old(output) + AllLines(buffersToWrite)
    {
      var i := 0;
      while i < |buffersToWrite|
        invariant 0 <= i <= |buffersToWrite|
        invariant output == old(output) + AllLines(buffersToWrite[..i])
      {
        assert buffersToWrite[..i + 1][..i] == buffersToWrite[..i];
        output := output + Lines(buffersToWrite[i]);
        i := i + 1;
      }
      assert buffersToWrite[..i] == buffersToWrite;
    }
  }

  // ----- what every step keeps -----

  function Flat(bs: seq<LogBuffer>): seq<Line> {
    if bs == [] then [] else Flat(bs[..|bs| - 1]) + bs[|bs| - 1]
  }

  function FlatBatches(bss: seq<seq<LogBuffer>>): seq<Line> {
    if bss == [] then [] else FlatBatches(bss[..|bss| - 1]) + Flat(bss[|bss| - 1])
  }

  function WrittenBatches(bss: seq<seq<LogBuffer>>): seq<Entry> {
    if bss == [] then [] else WrittenBatches(bss[..|bss| - 1]) + Written(bss[|bss| - 1])
  }

  /** Lines taken in and not handed to the file yet. */
  function Buffered(s: State): seq<Line> {
    Flat(s.toWrite) + Flat(s.buffers) + s.current
  }

  predicate Shape(s: State) {
    // spare buffers are empty, and a missing spare means a full buffer waits
    && (s.next.Some? ==> s.next.value == [])
    && (s.next.None? ==> s.buffers != [])
    // the logging thread's assertions
    && (s.place == Launched ==> s.running)
    && (s.place != Writing ==> s.newBuffer1 == Some([]) && s.newBuffer2 == Some([]) && s.toWrite == [])
    && (s.place == Writing ==> s.newBuffer1.None? && s.newBuffer2 in {None, Some([])})
    && (s.place == Writing ==> s.toWrite != [] && (s.newBuffer2.None? ==> |s.toWrite| >= 2))
    // the current buffer never overflows
    && Length(s.current) < LargeBuffer
  }

  /**
   No accepted line is lost, duplicated or reordered on its way to a batch; the file holds what
   the batches give.
   */
  predicate Conserves(s: State) {
    && FlatBatches(s.batches) + Buffered(s) == s.accepted
    && s.file == WrittenBatches(s.batches)
  }

  predicate Inv(s: State) {
    Shape(s) && Conserves(s)
  }

  lemma LengthOfOne(b: LogBuffer, line: Line)
    ensures Length(b + [line]) == Length(b) + |line|
  {
    assert (b + [line])[..|b|] == b;
  }

  lemma FlatSnoc(bs: seq<LogBuffer>, b: LogBuffer)
    ensures Flat(bs + [b]) == Flat(bs) + b
  {
    assert (bs + [b])[..|bs|] == bs;
  }

  lemma AppendKeepsShape(s: State, line: Line)
    requires Shape(s)
    ensures Shape(Append(s, line))
  {
    LengthOfOne(s.current, line);
    LengthOfOne([], line);
  }

  lemma Regroup<T>(a: seq<T>, b: seq<T>, c: seq<T>, d: seq<T>, e: seq<T>)
    ensures a + (b + c + (d + e)) == (a + (b + c + d)) + e
    ensures a + (b + (c + d) + e) == (a + (b + c + d)) + e
  {
  }

  lemma AppendConserves(s: State, line: Line)
    requires Shape(s) && Conserves(s)
    ensures Conserves(Append(s, line))
  {
    hide Flat, FlatBatches, WrittenBatches, Length, Shape;
    var t := Append(s, line);
    var added := if FitsABuffer(line) then [line] else [];
    Regroup(FlatBatches(s.batches), Flat(s.toWrite), Flat(s.buffers), s.current, added);
    if Avail(s.current) > |line| {
      LengthFits(s.current, line);
    } else {
      FlatSnoc(s.buffers, s.current);
      assert t.current == added by { NewBufferHolds(s, line); }
    }
  }

  lemma NewBufferHolds(s: State, line: Line)
    requires Shape(s) && Avail(s.current) <= |line|
    ensures Append(s, line).current == if FitsABuffer(line) then [line] else []
  {
  }

  lemma LengthFits(b: LogBuffer, line: Line)
    requires Avail(b) > |line|
    ensures FitsABuffer(line)
  {
  }

  lemma SwapOutKeepsInv(s: State)
    requires Inv(s) && s.place == Waiting
    ensures Inv(SwapOut(s))
  {
    hide WrittenBatches, FlatBatches;
    FlatSnoc(s.buffers, s.current);
    assert Buffered(SwapOut(s)) == Buffered(s);
  }

  lemma WriteOutConserves(s: State)
    requires Shape(s) && Conserves(s) && s.place == Writing
    ensures Conserves(WriteOut(s))
  {
    hide Flat, Written;
    var t := WriteOut(s);
    assert t.batches[..|s.batches|] == s.batches;
    assert FlatBatches(t.batches) == FlatBatches(s.batches) + Flat(s.toWrite);
    NothingFlat();
    assert (FlatBatches(s.batches) + Flat(s.toWrite)) + ([] + Flat(s.buffers) + s.current)
      == FlatBatches(s.batches) + (Flat(s.toWrite) + Flat(s.buffers) + s.current);
  }

  lemma NothingFlat()
    ensures Flat([]) == []
  {
  }

  datatype Action = DoAppend(line: Line) | DoStart | DoLaunch | DoStop | DoTest | DoSwap | DoWrite

  predicate Enabled(s: State, a: Action) {
    match a
    case DoAppend(_) => true
    case DoStart => s.place == Idle
    case DoLaunch => s.place == Launched
    // start waits until the thread is past its first assertion, and stop follows start
    case DoStop => s.place != Idle && s.place != Launched
    case DoTest => s.place == Test
    case DoSwap => s.place == Waiting && s.newBuffer1.Some?
    case DoWrite =>
      s.place == Writing
      && |s.toWrite| >= (if s.newBuffer1.None? then 1 else 0) + (if s.newBuffer2.None? then 1 else 0)
  }

  function Step(s: State, a: Action): State
    requires Enabled(s, a)
  {
    match a
    case DoAppend(line) => Append(s, line)
    case DoStart => Start(s)
    case DoLaunch => Launch(s)
    case DoStop => Stop(s)
    case DoTest => TestRunning(s)
    case DoSwap => SwapOut(s)
    case DoWrite => WriteOut(s)
  }

  lemma StepKeepsInv(s: State, a: Action)
    requires Inv(s) && Enabled(s, a)
    ensures Inv(Step(s, a))
  {
    match a
    case DoAppend(line) =>
      AppendKeepsShape(s, line);
      AppendConserves(s, line);
    case DoSwap => SwapOutKeepsInv(s);
    case DoWrite => WriteOutConserves(s);
    case DoStart =>
    case DoLaunch =>
    case DoStop =>
    case DoTest =>
  }

  /** The states of a run: appenders, a stop, and the logging thread in any interleaving. */
  ghost predicate Run(ss: seq<State>, acts: seq<Action>) {
    && |ss| == |acts| + 1
    && ss[0] == Created
    && forall i | 0 <= i < |acts| :: Enabled(ss[i], acts[i]) && ss[i + 1] == Step(ss[i], acts[i])
  }

  lemma {:induction false} RunKeepsInv(ss: seq<State>, acts: seq<Action>, k: nat)
    requires Run(ss, acts) && k < |ss|
    ensures Inv(ss[k])
  {
    hide Step, Inv, Enabled;
    if k == 0 {
      CreatedIsFine();
    } else {
      RunKeepsInv(ss, acts, k - 1);
      StepKeepsInv(ss[k - 1], acts[k - 1]);
    }
  }

  lemma CreatedIsFine()
    ensures Inv(Created)
  {
  }

  /** None of the logging thread's assertions can fail: its next step is always possible until it stops. */
  lemma LoggingThreadNeverFails(ss: seq<State>, acts: seq<Action>, k: nat)
    requires Run(ss, acts) && k < |ss|
    ensures forall line :: Enabled(ss[k], DoAppend(line))
    ensures ss[k].place == Launched ==> ss[k].running && Enabled(ss[k], DoLaunch)
    ensures ss[k].place == Test || ss[k].place == Waiting ==>
      ss[k].newBuffer1 == Some([]) && ss[k].newBuffer2 == Some([]) && ss[k].toWrite == []
    ensures ss[k].place == Test ==> Enabled(ss[k], DoTest)
    ensures ss[k].place == Waiting ==> Enabled(ss[k], DoSwap)
    ensures ss[k].place == Writing ==> Enabled(ss[k], DoWrite) && ss[k].toWrite != []
  {
    RunKeepsInv(ss, acts, k);
  }

  /** Each action of the logging thread brings it to the next place of its round. */
  lemma RoundGoesOn(s: State, a: Action)
    requires Enabled(s, a)
    ensures var n := Step(s, a);
      match a
      case DoStart => n.place == Launched
      case DoLaunch => n.place == Test
      case DoTest => n.place == Waiting || n.place == Stopped
      case DoSwap => n.place == Writing
      case DoWrite => n.place == Test
      case DoStop => n.place == s.place
      case DoAppend(_) => n.place == s.place
  {
  }

  /** Between a swap and the end of its round, the batch holds all that was buffered at the swap. */
  predicate TakenOver(s: State, lines: seq<Line>) {
    if s.place == Writing then lines <= FlatBatches(s.batches) + Flat(s.toWrite) else lines <= FlatBatches(s.batches)
  }

  lemma SwapTakesAll(s: State)
    requires Inv(s) && Enabled(s, DoSwap)
    ensures TakenOver(Step(s, DoSwap), s.accepted)
  {
    hide FlatBatches, WrittenBatches;
    FlatSnoc(s.buffers, s.current);
    assert [] + Flat(s.buffers) + s.current == Flat(s.buffers) + s.current;
    NothingFlat();
  }

  lemma StepKeepsTakenOver(s: State, a: Action, lines: seq<Line>)
    requires Inv(s) && Enabled(s, a) && TakenOver(s, lines)
    ensures TakenOver(Step(s, a), lines)
  {
    hide Conserves;
    if a.DoWrite? {
      assert Step(s, a).batches[..|s.batches|] == s.batches;
    }
  }

  lemma {:induction false} RunKeepsTakenOver(ss: seq<State>, acts: seq<Action>, i: nat, k: nat)
    requires Run(ss, acts) && i < k < |ss| && acts[i] == DoSwap
    ensures TakenOver(ss[k], ss[i].accepted)
    decreases k
  {
    hide Step, Inv, Enabled, TakenOver;
    RunKeepsInv(ss, acts, k - 1);
    if i + 1 < k {
      RunKeepsTakenOver(ss, acts, i, k - 1);
      StepKeepsTakenOver(ss[k - 1], acts[k - 1], ss[i].accepted);
    } else {
      SwapTakesAll(ss[i]);
    }
  }

  /** Everything appended before a swap is in the batches written by the end of that round. */
  lemma RoundTakesEverything(ss: seq<State>, acts: seq<Action>, i: nat, k: nat)
    requires Run(ss, acts) && i < k < |ss| && acts[i] == DoSwap && ss[k].place != Writing
    ensures Appended(acts, i) <= FlatBatches(ss[k].batches)
  {
    RunKeepsTakenOver(ss, acts, i, k);
    AcceptedAreAppended(ss, acts, i);
  }

  // ----- buffers are neither leaked nor used twice -----

  function Present(b: Option<LogBuffer>): nat {
    if b.Some? then 1 else 0
  }

  /** All buffers there are: the current one, the full ones, those being written, and the spares. */
  function InPlay(s: State): nat {
    1 + |s.buffers| + |s.toWrite| + Present(s.next) + Present(s.newBuffer1) + Present(s.newBuffer2)
  }

  /** An append makes a new buffer when the current one has no room and there is no spare. */
  predicate Allocates(s: State, a: Action) {
    a.DoAppend? && Length(s.current) + |a.line| >= 4_000_000 && s.next.None?
  }

  /** A round drops the buffers it has written, but for the missing spares. */
  function Drops(s: State, a: Action): int {
    if a.DoWrite? then |s.toWrite| - (1 - Present(s.newBuffer1)) - (1 - Present(s.newBuffer2)) else 0
  }

  function Allocated(ss: seq<State>, acts: seq<Action>, k: nat): nat
    requires k <= |acts| < |ss|
  {
    if k == 0 then 0 else Allocated(ss, acts, k - 1) + (if Allocates(ss[k - 1], acts[k - 1]) then 1 else 0)
  }

  function GivenBack(ss: seq<State>, acts: seq<Action>, k: nat): int
    requires k <= |acts| < |ss|
  {
    if k == 0 then 0 else GivenBack(ss, acts, k - 1) + Drops(ss[k - 1], acts[k - 1])
  }

  lemma StepMovesBuffers(s: State, a: Action)
    requires Inv(s) && Enabled(s, a)
    ensures InPlay(Step(s, a)) == InPlay(s) + (if Allocates(s, a) then 1 else 0) - Drops(s, a)
    ensures a.DoWrite? ==> Drops(s, a) >= 0
  {
    hide Conserves, Length, Written;
  }

  /** In every run the buffers in play are the first four and those allocated since, less those dropped. */
  lemma {:induction false} BuffersConserved(ss: seq<State>, acts: seq<Action>, k: nat)
    requires Run(ss, acts) && k < |ss|
    ensures InPlay(ss[k]) == 4 + Allocated(ss, acts, k) - GivenBack(ss, acts, k)
  {
    hide Step, Inv, Enabled, InPlay, Allocates, Drops;
    if k == 0 {
      assert InPlay(Created) == 4 by { FourAtFirst(); }
    } else {
      BuffersConserved(ss, acts, k - 1);
      RunKeepsInv(ss, acts, k - 1);
      StepMovesBuffers(ss[k - 1], acts[k - 1]);
    }
  }

  lemma FourAtFirst()
    ensures InPlay(Created) == 4
  {
  }

  // ----- starting and stopping -----

  /** The logger is running exactly from its start to the first stop. */
  lemma {:induction false} RunningExactly(ss: seq<State>, acts: seq<Action>, k: nat)
    requires Run(ss, acts) && k < |ss|
    ensures ss[k].place == Idle <==> DoStart !in acts[..k]
    ensures DoStop in acts[..k] ==> DoStart in acts[..k]
    ensures ss[k].running <==> DoStart in acts[..k] && DoStop !in acts[..k]
  {
    hide Inv, Step, Enabled;
    if k > 0 {
      RunningExactly(ss, acts, k - 1);
      assert acts[..k] == acts[..k - 1] + [acts[k - 1]];
      RunningStep(ss[k - 1], acts[k - 1]);
    }
  }

  lemma RunningStep(s: State, a: Action)
    requires Enabled(s, a)
    ensures Step(s, a).place == Idle <==> s.place == Idle && a != DoStart
    ensures Step(s, a).running <==> a == DoStart || (s.running && a != DoStop)
    ensures a == DoStop ==> s.place != Idle
    ensures a == DoStart ==> s.place == Idle
  {
  }

  /** At its test the logging thread goes on exactly while nobody has called stop, and stops for good otherwise. */
  lemma StopsExactly(ss: seq<State>, acts: seq<Action>, k: nat)
    requires Run(ss, acts) && k < |acts| && acts[k] == DoTest
    ensures ss[k + 1].place == Stopped <==> DoStop in acts[..k]
    ensures ss[k + 1].place == Waiting <==> DoStop !in acts[..k]
  {
    RunningExactly(ss, acts, k);
  }

  // ----- what the file holds -----

  /** The lines of the appends so far that fit a buffer, in order. */
  function Appended(acts: seq<Action>, k: nat): seq<Line>
    requires k <= |acts|
  {
    if k == 0 then []
    else
      Appended(acts, k - 1)
      + (if acts[k - 1].DoAppend? && |acts[k - 1].line| < 4_000_000 then [acts[k - 1].line] else [])
  }

  lemma StepAccepts(s: State, a: Action)
    requires Enabled(s, a)
    ensures Step(s, a).accepted == s.accepted + (if a.DoAppend? && |a.line| < 4_000_000 then [a.line] else [])
  {
  }

  lemma {:induction false} AcceptedAreAppended(ss: seq<State>, acts: seq<Action>, k: nat)
    requires Run(ss, acts) && k < |ss|
    ensures ss[k].accepted == Appended(acts, k)
  {
    hide Step, Enabled;
    if k > 0 {
      AcceptedAreAppended(ss, acts, k - 1);
      StepAccepts(ss[k - 1], acts[k - 1]);
    }
  }

  function Texts(es: seq<Entry>): seq<Line> {
    if es == [] then []
    else Texts(es[..|es| - 1]) + (if es[|es| - 1].Text? then [es[|es| - 1].line] else [])
  }

  lemma {:induction false} TextsAppend(x: seq<Entry>, y: seq<Entry>)
    ensures Texts(x + y) == Texts(x) + Texts(y)
  {
    if y == [] {
      assert x + y == x;
    } else {
      var n := |y| - 1;
      assert (x + y)[..|x + y| - 1] == x + y[..n];
      TextsAppend(x, y[..n]);
    }
  }

  lemma {:induction false} TextsOfLines(b: LogBuffer)
    ensures Texts(Lines(b)) == b
  {
    if b != [] {
      var n := |b| - 1;
      assert Lines(b)[..n] == Lines(b[..n]);
      TextsOfLines(b[..n]);
      assert b == b[..n] + [b[n]];
    }
  }

  lemma {:induction false} TextsOfAllLines(bs: seq<LogBuffer>)
    ensures Texts(AllLines(bs)) == Flat(bs)
  {
    if bs != [] {
      var n := |bs| - 1;
      TextsOfAllLines(bs[..n]);
      TextsOfLines(bs[n]);
      TextsAppend(AllLines(bs[..n]), Lines(bs[n]));
    }
  }

  /** The notices of buffers given up among the entries of the file. */
  function Notices(es: seq<Entry>): nat {
    if es == [] then 0 else Notices(es[..|es| - 1]) + (if es[|es| - 1].Dropped? then 1 else 0)
  }

  lemma {:induction false} NoNotices(es: seq<Entry>)
    requires forall e | e in es :: e.Text?
    ensures Notices(es) == 0
  {
    if es != [] {
      assert es[|es| - 1] in es;
      NoNotices(es[..|es| - 1]);
    }
  }

  lemma {:induction false} NoticesAppend(x: seq<Entry>, y: seq<Entry>)
    ensures Notices(x + y) == Notices(x) + Notices(y)
  {
    if y == [] {
      assert x + y == x;
    } else {
      var n := |y| - 1;
      assert (x + y)[..|x + y| - 1] == x + y[..n];
      NoticesAppend(x, y[..n]);
    }
  }

  lemma {:induction false} LinesAreTexts(bs: seq<LogBuffer>)
    ensures forall e | e in AllLines(bs) :: e.Text?
  {
    if bs != [] {
      LinesAreTexts(bs[..|bs| - 1]);
    }
  }

  /**
   A batch of at most 25 buffers is written whole; of a larger one, the first two buffers and a
   notice of the rest.
   */
  lemma TextsOfWritten(batch: seq<LogBuffer>)
    ensures Texts(Written(batch)) == if |batch| > 25 then Flat(batch[..2]) else Flat(batch)
    ensures |batch| > 25 ==> Written(batch) != [] && Written(batch)[0] == Dropped(|batch| - 2)
    ensures Notices(Written(batch)) == if |batch| > 25 then 1 else 0
  {
    if |batch| > 25 {
      var notice := [Dropped(|batch| - 2)];
      assert notice[..0] == [];
      assert Texts(notice) == [];
      TextsAppend(notice, AllLines(batch[..2]));
      TextsOfAllLines(batch[..2]);
      LinesAreTexts(batch[..2]);
      NoNotices(AllLines(batch[..2]));
      NoticesAppend(notice, AllLines(batch[..2]));
    } else {
      TextsOfAllLines(batch);
      LinesAreTexts(batch);
      NoNotices(AllLines(batch));
    }
  }

  /** The lines of the buffers a round of more than 25 gave up. */
  function GivenUp(bss: seq<seq<LogBuffer>>): seq<Line> {
    if bss == [] then []
    else
      var batch := bss[|bss| - 1];
      GivenUp(bss[..|bss| - 1]) + (if |batch| > 25 then Flat(batch[2..]) else [])
  }

  lemma {:induction false} FlatAppend(x: seq<LogBuffer>, y: seq<LogBuffer>)
    ensures Flat(x + y) == Flat(x) + Flat(y)
    decreases |y|
  {
    if y == [] {
      assert x + y == x;
    } else {
      var n := |y| - 1;
      assert (x + y)[..|x + y| - 1] == x + y[..n];
      FlatAppend(x, y[..n]);
    }
  }

  predicate NoneTooLarge(bss: seq<seq<LogBuffer>>) {
    forall b | b in bss :: |b| <= 25
  }

  lemma TextsOfBatches(bss: seq<seq<LogBuffer>>)
    requires bss != []
    ensures var n := |bss| - 1;
      Texts(WrittenBatches(bss)) == Texts(WrittenBatches(bss[..n])) + Texts(Written(bss[n]))
  {
    var n := |bss| - 1;
    TextsAppend(WrittenBatches(bss[..n]), Written(bss[n]));
  }

  lemma {:induction false} FileIsWhole(bss: seq<seq<LogBuffer>>)
    requires NoneTooLarge(bss)
    ensures Texts(WrittenBatches(bss)) == FlatBatches(bss)
  {
    hide Written, Flat, Texts;
    if bss == [] {
      NoTexts();
    } else {
      var n := |bss| - 1;
      assert forall b | b in bss[..n] :: b in bss;
      FileIsWhole(bss[..n]);
      TextsOfWritten(bss[n]);
      TextsOfBatches(bss);
      assert bss[n] in bss;
    }
  }

  /** A batch's lines are those written and those given up. */
  lemma BatchAccount(batch: seq<LogBuffer>)
    ensures Flat(batch) == Texts(Written(batch)) + (if |batch| > 25 then Flat(batch[2..]) else [])
  {
    hide Written, Texts;
    TextsOfWritten(batch);
    if |batch| > 25 {
      FlatAppend(batch[..2], batch[2..]);
      assert batch[..2] + batch[2..] == batch;
    }
  }

  lemma {:induction false} FileAccount(bss: seq<seq<LogBuffer>>)
    ensures multiset(Texts(WrittenBatches(bss))) + multiset(GivenUp(bss)) == multiset(FlatBatches(bss))
  {
    hide Written, Flat, Texts, WrittenBatches;
    if bss == [] {
      NoTexts();
      NothingWritten();
    } else {
      var n := |bss| - 1;
      FileAccount(bss[..n]);
      BatchAccount(bss[n]);
      TextsOfBatches(bss);
    }
  }

  lemma NothingWritten()
    ensures WrittenBatches([]) == []
  {
  }

  lemma NoTexts()
    ensures Texts([]) == []
  {
  }

  /** What a round keeps of each batch: all of it, or its first two buffers. */
  function KeptBy(bss: seq<seq<LogBuffer>>): seq<Line> {
    if bss == [] then []
    else
      var batch := bss[|bss| - 1];
      KeptBy(bss[..|bss| - 1]) + Flat(if |batch| > 25 then batch[..2] else batch)
  }

  lemma {:induction false} FileIsKept(bss: seq<seq<LogBuffer>>)
    ensures Texts(WrittenBatches(bss)) == KeptBy(bss)
  {
    hide Written, Flat, Texts, WrittenBatches;
    if bss == [] {
      NoTexts();
      NothingWritten();
    } else {
      var n := |bss| - 1;
      FileIsKept(bss[..n]);
      TextsOfWritten(bss[n]);
      TextsOfBatches(bss);
    }
  }

  /**
   Every line appended is in the file, still buffered, or in a buffer a round of more than 25
   gave up. In order: the batches taken so far and then the buffers hold exactly the lines
   appended, and the file holds what each batch's round kept, so that when there was no such
   round, the file and then the buffers hold the lines.
   */
  lemma EveryLineAccounted(ss: seq<State>, acts: seq<Action>, k: nat)
    requires Run(ss, acts) && k < |ss|
    ensures var s := ss[k];
      && FlatBatches(s.batches) + Buffered(s) == Appended(acts, k)
      && Texts(s.file) == KeptBy(s.batches)
      && multiset(Texts(s.file)) + multiset(GivenUp(s.batches)) + multiset(Buffered(s)) == multiset(Appended(acts, k))
      && (NoneTooLarge(s.batches) ==> Texts(s.file) + Buffered(s) == Appended(acts, k))
  {
    RunKeepsInv(ss, acts, k);
    AcceptedAreAppended(ss, acts, k);
    FileAccount(ss[k].batches);
    FileIsKept(ss[k].batches);
    if NoneTooLarge(ss[k].batches) {
      FileIsWhole(ss[k].batches);
    }
  }
}
