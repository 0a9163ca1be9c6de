/**
 One TCP connection: how bytes get from send to the socket, and when the connection is
 half-closed and closed, with sends, shutdowns and forced closes from other threads.
 */
module TcpConnection {
  import opened Bytes

  datatype StateE = Disconnected | Connecting | Connected | Disconnecting

  /** Work waiting in the loop's functor queue. */
  datatype Task =
    | SendTask(data: seq<byte>)
    | ShutdownTask
    | ForceCloseTask
    | WriteComplete
    | HighWater(size: nat)

  /** What a socket write can answer. */
  datatype WriteResult = Wrote(n: nat) | WouldBlock | BrokenPipe | OtherError

  /** What the poller reports about a channel; err stands for POLLERR and POLLNVAL, pri for POLLPRI and POLLRDHUP. */
  datatype Revents = Revents(hup: bool, pollin: bool, pri: bool, err: bool, pollout: bool)

  /**
   The callbacks of one event that the channel has still to make, in the order close, read, write,
   all decided from the same report; hungUp says that a close callback is or was among them, and
   closed that one of them has closed the connection.
   */
  datatype Due = Due(hungUp: bool, close: bool, read: bool, write: bool, closed: bool)

  const NothingDue := Due(false, false, false, false, false)

  /**
   Calls by other threads on their way. The state is tested without a lock, so that each call is
   two or three actions: sends that have found the connection connected and have yet to be queued,
   and shutdowns and forced closes that have passed their test, or have set the state as well.
   */
  datatype Others = Others(sends: seq<seq<byte>>, shutTested: nat, shutSet: nat, closeTested: nat, closeSet: nat)

  const NoOthers := Others([], 0, 0, 0, 0)

  /**
   History: the bytes of every send that ran on a connection not closed (accepted), those among
   them that were not given up (kept), those that were given up or found the connection closed
   (lost), those the socket took (wire), whether a send met a broken pipe, and whether the
   connection has ever been closed.
   */
  datatype Past = Past(
    accepted: seq<byte>, kept: seq<byte>, lost: seq<byte>, wire: seq<byte>, broken: bool, closed: bool)

  datatype Config = Config(highWaterMark: nat, hasHighWater: bool, hasWriteComplete: bool)

  /** The connection, the half of the socket that was shut down, the event in progress, other threads and history. */
  datatype Conn = Conn(
    state: StateE, reading: bool, writing: bool, output: seq<byte>, tasks: seq<Task>,
    halfClosed: bool, due: Due, others: Others, past: Past)

  const Fresh := Conn(Connecting, false, false, [], [], false, NothingDue, NoOthers, Past([], [], [], [], false, false))

  // ----- what each function does -----

  /** What the kernel may answer to a write of len bytes. */
  predicate Possible(c: Conn, len: nat, r: WriteResult) {
    && (r.Wrote? ==> r.n <= len)
    && (c.halfClosed && len > 0 ==> r.BrokenPipe?)
  }

  predicate CrossesMark(cfg: Config, oldLen: nat, newLen: nat) {
    oldLen < cfg.highWaterMark <= newLen && cfg.hasHighWater
  }

  /** The bytes a direct write takes. */
  function Taken(c: Conn, r: WriteResult): nat {
    if !c.writing && c.output == [] && r.Wrote? then r.n else 0
  }

  /** Whether a direct write finds the connection broken. */
  predicate Faulty(c: Conn, r: WriteResult) {
    !c.writing && c.output == [] && r.BrokenPipe?
  }

  function Sent(p: Past, data: seq<byte>, nwrote: nat, fault: bool): (q: Past)
    requires nwrote <= |data|
    ensures q.closed == p.closed
  {
    p.(accepted := p.accepted + data,
       kept := if fault then p.kept else p.kept + data,
       lost := if fault then p.lost + data else p.lost,
       wire := p.wire + data[..nwrote],
       broken := p.broken || fault)
  }

  function Tried(cfg: Config, c: Conn, data: seq<byte>, r: WriteResult): Conn
    requires Taken(c, r) <= |data|
  {
    var done := !c.writing && c.output == [] && r.Wrote? && r.n == |data| && cfg.hasWriteComplete;
    c.(past := Sent(c.past, data, Taken(c, r), Faulty(c, r)),
       tasks := if done then c.tasks + [WriteComplete] else c.tasks)
  }

  /** What is left of the data goes behind the buffered bytes. */
  function Queued(cfg: Config, c: Conn, data: seq<byte>, nwrote: nat): Conn
    requires nwrote <= |data|
  {
    var oldLen, newLen := |c.output|, |c.output| + |data| - nwrote;
    c.(tasks := if CrossesMark(cfg, oldLen, newLen) then c.tasks + [HighWater(newLen)] else c.tasks,
       output := c.output + data[nwrote..],
       writing := true)
  }

  function SendInLoop(cfg: Config, c: Conn, data: seq<byte>, r: WriteResult): Conn
    requires Possible(c, |data|, r)
  {
    if c.state == Disconnected then c.(past := c.past.(lost := c.past.lost + data))
    else
      var nwrote := Taken(c, r);
      var tried := Tried(cfg, c, data, r);
      if !Faulty(c, r) && nwrote < |data| then Queued(cfg, tried, data, nwrote) else tried
  }

  function ShutdownInLoop(c: Conn): Conn {
    if !c.writing then c.(halfClosed := true) else c
  }

  /** On the loop's thread nothing comes between the test, the set and the call. */
  function Shutdown(c: Conn): Conn {
    if c.state == Connected then ShutdownInLoop(c.(state := Disconnecting)) else c
  }

  function ForceClose(c: Conn): Conn {
    if Live(c) then c.(state := Disconnecting, tasks := c.tasks + [ForceCloseTask]) else c
  }

  predicate Live(c: Conn) {
    c.state == Connected || c.state == Disconnecting
  }

  /** The program asserts here that the connection is live; without assertions a second close changes nothing. */
  function HandleClose(c: Conn): Conn {
    c.(state := Disconnected, reading := false, writing := false, past := c.past.(closed := true))
  }

  function ForceCloseInLoop(c: Conn): Conn {
    if Live(c) then HandleClose(c) else c
  }

  function HandleRead(c: Conn, n: int): Conn {
    if n == 0 then HandleClose(c) else c
  }

  function HandleWrite(cfg: Config, c: Conn, r: WriteResult): Conn
    requires Possible(c, |c.output|, r)
  {
    if c.writing && r.Wrote? && r.n > 0 then
      var d := c.(output := c.output[r.n..], past := c.past.(wire := c.past.wire + c.output[..r.n]));
      if d.output == [] then
        var e := d.(writing := false, tasks := if cfg.hasWriteComplete then d.tasks + [WriteComplete] else d.tasks);
        if e.state == Disconnecting then ShutdownInLoop(e) else e
      else d
    else c
  }

  function DueOf(rev: Revents): Due {
    Due(rev.hup && !rev.pollin, rev.hup && !rev.pollin, rev.pollin || rev.pri, rev.pollout, false)
  }

  function CloseAndRead(c: Conn, rev: Revents, n: int): (d: Conn)
    ensures d.output == c.output && d.halfClosed == c.halfClosed && d.due == c.due
  {
    var c1 := if rev.hup && !rev.pollin then HandleClose(c) else c;
    if rev.pollin || rev.pri then HandleRead(c1, n) else c1
  }

  /** One event of the channel whose callbacks make no calls of their own. */
  function HandleEvent(cfg: Config, c: Conn, rev: Revents, n: int, r: WriteResult): Conn
    requires Possible(c, |c.output|, r)
  {
    var d := CloseAndRead(c, rev, n);
    if rev.pollout then HandleWrite(cfg, d, r) else d
  }

  function RunTask(cfg: Config, c: Conn, r: WriteResult): Conn
    requires c.tasks != []
    requires c.tasks[0].SendTask? ==> Possible(c, |c.tasks[0].data|, r)
  {
    var d := c.(tasks := c.tasks[1..]);
    match c.tasks[0]
    case SendTask(data) => SendInLoop(cfg, d, data, r)
    case ShutdownTask => ShutdownInLoop(d)
    case ForceCloseTask => ForceCloseInLoop(d)
    case WriteComplete => d
    case HighWater(_) => d
  }

  function ConnectEstablished(c: Conn): Conn {
    c.(state := Connected, reading := true)
  }

  /** connectDestroyed up to the removal of the channel. */
  function ConnectDestroyed(c: Conn): Conn {
    if c.state == Connected then c.(state := Disconnected, reading := false, writing := false) else c
  }

  // ----- calls by other threads, one action at a time -----

  function TestSend(c: Conn, data: seq<byte>): Conn {
    if c.state == Connected then c.(others := c.others.(sends := c.others.sends + [data])) else c
  }

  function PushSend(c: Conn, i: nat): Conn
    requires i < |c.others.sends|
  {
    var sends := c.others.sends;
    c.(tasks := c.tasks + [SendTask(sends[i])], others := c.others.(sends := sends[..i] + sends[i + 1..]))
  }

  function TestShutdown(c: Conn): Conn {
    if c.state == Connected then c.(others := c.others.(shutTested := c.others.shutTested + 1)) else c
  }

  /** The state is set whatever has become of it since the test. */
  function SetShutdown(c: Conn): Conn
    requires c.others.shutTested > 0
  {
    c.(state := Disconnecting,
       others := c.others.(shutTested := c.others.shutTested - 1, shutSet := c.others.shutSet + 1))
  }

  function PushShutdown(c: Conn): Conn
    requires c.others.shutSet > 0
  {
    c.(tasks := c.tasks + [ShutdownTask], others := c.others.(shutSet := c.others.shutSet - 1))
  }

  function TestClose(c: Conn): Conn {
    if Live(c) then c.(others := c.others.(closeTested := c.others.closeTested + 1)) else c
  }

  function SetClose(c: Conn): Conn
    requires c.others.closeTested > 0
  {
    c.(state := Disconnecting,
       others := c.others.(closeTested := c.others.closeTested - 1, closeSet := c.others.closeSet + 1))
  }

  function PushClose(c: Conn): Conn
    requires c.others.closeSet > 0
  {
    c.(tasks := c.tasks + [ForceCloseTask], others := c.others.(closeSet := c.others.closeSet - 1))
  }

  // ----- the same, as the object's methods -----

  class Connection {
    const cfg: Config
    var state: StateE
    var channelReading: bool
    var channelWriting: bool
    var outputBuffer: seq<byte>
    var loopTasks: seq<Task>
    ghost var halfClosed: bool
    ghost var due: Due
    ghost var others: Others
    ghost var past: Past

    ghost function View(): Conn
      reads this
    {
      Conn(state, channelReading, channelWriting, outputBuffer, loopTasks, halfClosed, due, others, past)
    }

    constructor (cfg: Config)
      ensures View() == Fresh && this.cfg == cfg
    {
      this.cfg := cfg;
      state, channelReading, channelWriting := Connecting, false, false;
      outputBuffer, loopTasks := [], [];
      halfClosed, due, others, past := false, NothingDue, NoOthers, Past([], [], [], [], false, false);
    }

    method DoSendInLoop(data: seq<byte>, result: WriteResult)
      requires Possible(View(), |data|, result)
      modifies this
      ensures View() == SendInLoop(cfg, old(View()), data, result)
    {
      hide Tried, Queued;
      if state == Disconnected {
        past := past.(lost := past.lost + data);
        return;
      }
      var nwrote, faultError := TryWrite(data, result);
      var remaining := |data| - nwrote;
      if !faultError && remaining > 0 {
        Enqueue(data, nwrote);
      }
    }

    /** With nothing queued, the data goes straight to the socket. */
    method TryWrite(data: seq<byte>, result: WriteResult) returns (nwrote: nat, faultError: bool)
      requires result.Wrote? ==> result.n <= |data|
      modifies this
      ensures nwrote == Taken(old(View()), result) && faultError == Faulty(old(View()), result)
      ensures View() == Tried(cfg, old(View()), data, result)
    {
      hide Sent;
      nwrote, faultError := 0, false;
      if !channelWriting && |outputBuffer| == 0 {
        if result.Wrote? {
          nwrote := result.n;
          if |data| - nwrote == 0 && cfg.hasWriteComplete {
            loopTasks := loopTasks + [WriteComplete];
          }
        } else if result.BrokenPipe? {
          faultError := true;
        }
      }
      past := Sent(past, data, nwrote, faultError);
    }

    /** The rest of the data goes behind what is already buffered. */
    method Enqueue(data: seq<byte>, nwrote: nat)
      requires nwrote < |data|
      modifies this
      ensures View() == Queued(cfg, old(View()), data, nwrote)
    {
      var remaining := |data| - nwrote;
      var oldLen := |outputBuffer|;
      if oldLen + remaining >= cfg.highWaterMark && oldLen < cfg.highWaterMark && cfg.hasHighWater {
        loopTasks := loopTasks + [HighWater(oldLen + remaining)];
      }
      outputBuffer := outputBuffer + data[nwrote..];
      if !channelWriting {
        channelWriting := true;
      }
    }

    /** On the loop's thread. */
    method DoSend(data: seq<byte>, result: WriteResult)
      requires Possible(View(), |data|, result)
      modifies this
      ensures View() == if old(state) == Connected then SendInLoop(cfg, old(View()), data, result) else old(View())
    {
      if state == Connected {
        DoSendInLoop(data, result);
      }
    }

    /** On another thread: the test, and later the push. */
    method DoTestSend(data: seq<byte>) returns (connected: bool)
      modifies this
      ensures View() == TestSend(old(View()), data) && connected == (old(state) == Connected)
    {
      connected := state == Connected;
      if connected {
        others := others.(sends := others.sends + [data]);
      }
    }

    method DoPushSend(ghost i: nat, data: seq<byte>)
      requires i < |others.sends| && others.sends[i] == data
      modifies this
      ensures View() == PushSend(old(View()), i)
    {
      loopTasks := loopTasks + [SendTask(data)];
      others := others.(sends := others.sends[..i] + others.sends[i + 1..]);
    }

    method DoShutdownInLoop()
      modifies this
      ensures View() == ShutdownInLoop(old(View()))
    {
      if !channelWriting {
        halfClosed := true;
      }
    }

    method DoShutdown()
      modifies this
      ensures View() == Shutdown(old(View()))
    {
      if state == Connected {
        state := Disconnecting;
        DoShutdownInLoop();
      }
    }

    /** The test of another thread's shutdown, its set, and its push. */
    method DoTestShutdown() returns (connected: bool)
      modifies this
      ensures View() == TestShutdown(old(View())) && connected == (old(state) == Connected)
    {
      connected := state == Connected;
      if connected {
        others := others.(shutTested := others.shutTested + 1);
      }
    }

    method DoSetShutdown()
      requires others.shutTested > 0
      modifies this
      ensures View() == SetShutdown(old(View()))
    {
      state := Disconnecting;
      others := others.(shutTested := others.shutTested - 1, shutSet := others.shutSet + 1);
    }

    method DoPushShutdown()
      requires others.shutSet > 0
      modifies this
      ensures View() == PushShutdown(old(View()))
    {
      loopTasks := loopTasks + [ShutdownTask];
      others := others.(shutSet := others.shutSet - 1);
    }

    method DoForceClose()
      modifies this
      ensures View() == ForceClose(old(View()))
    {
      if state == Connected || state == Disconnecting {
        state := Disconnecting;
        loopTasks := loopTasks + [ForceCloseTask];
      }
    }

    /** The test of another thread's forceClose, its set, and its push. */
    method DoTestClose() returns (live: bool)
      modifies this
      ensures View() == TestClose(old(View())) && live == Live(old(View()))
    {
      live := state == Connected || state == Disconnecting;
      if live {
        others := others.(closeTested := others.closeTested + 1);
      }
    }

    method DoSetClose()
      requires others.closeTested > 0
      modifies this
      ensures View() == SetClose(old(View()))
    {
      state := Disconnecting;
      others := others.(closeTested := others.closeTested - 1, closeSet := others.closeSet + 1);
    }

    method DoPushClose()
      requires others.closeSet > 0
      modifies this
      ensures View() == PushClose(old(View()))
    {
      loopTasks := loopTasks + [ForceCloseTask];
      others := others.(closeSet := others.closeSet - 1);
    }

    method DoConnectEstablished()
      requires state == Connecting
      modifies this
      ensures View() == ConnectEstablished(old(View()))
    {
      state := Connected;
      channelReading := true;
    }

    method DoConnectDestroyed()
      modifies this
      ensures View() == ConnectDestroyed(old(View()))
    {
      if state == Connected {
        state := Disconnected;
        channelReading, channelWriting := false, false;
      }
    }

    method DoHandleClose()
      modifies this
      ensures View() == HandleClose(old(View()))
    {
      state := Disconnected;
      channelReading, channelWriting := false, false;
      past := past.(closed := true);
    }

    method DoHandleRead(n: int)
      modifies this
      ensures View() == HandleRead(old(View()), n)
    {
      if n == 0 {
        DoHandleClose();
      }
    }

    method DoHandleWrite(result: WriteResult)
      requires Possible(View(), |outputBuffer|, result)
      modifies this
      ensures View() == HandleWrite(cfg, old(View()), result)
    {
      if channelWriting {
        if result.Wrote? && result.n > 0 {
          past := past.(wire := past.wire + outputBuffer[..result.n]);
          outputBuffer := outputBuffer[result.n..];
          if |outputBuffer| == 0 {
            channelWriting := false;
            if cfg.hasWriteComplete {
              loopTasks := loopTasks + [WriteComplete];
            }
            if state == Disconnecting {
              DoShutdownInLoop();
            }
          }
        }
      }
    }

    /** The channel's handleEventWithGuard: all callbacks follow from one report. */
    method DoHandleEvent(rev: Revents, n: int, result: WriteResult)
      requires Possible(View(), |outputBuffer|, result)
      modifies this
      ensures View() == HandleEvent(cfg, old(View()), rev, n, result)
    {
      hide HandleWrite;
      if rev.hup && !rev.pollin {
        DoHandleClose();
      }
      if rev.pollin || rev.pri {
        DoHandleRead(n);
      }
      if rev.pollout {
        DoHandleWrite(result);
      }
    }

    method DoRunTask(result: WriteResult)
      requires loopTasks != []
      requires loopTasks[0].SendTask? ==> Possible(View(), |loopTasks[0].data|, result)
      modifies this
      ensures View() == RunTask(cfg, old(View()), result)
    {
      hide SendInLoop;
      var task := loopTasks[0];
      loopTasks := loopTasks[1..];
      match task
      case SendTask(data) => DoSendInLoop(data, result);
      case ShutdownTask => DoShutdownInLoop();
      case ForceCloseTask =>
        if state == Connected || state == Disconnecting {
          DoHandleClose();
        }
      case WriteComplete =>
      case HighWater(_) =>
    }
  }

  // ----- runs -----

  datatype Event =
    // the loop's thread
    | EEstablished
    | ESend(data: seq<byte>, r: WriteResult)
    | EShutdown
    | EForceClose
    | EDispatch(rev: Revents)
    | EClose
    | ERead(n: int)
    | EWrite(r: WriteResult)
    | ETask(r: WriteResult)
    // other threads
    | ETestSend(data: seq<byte>)
    | EPushSend(i: nat)
    | ETestShutdown
    | ESetShutdown
    | EPushShutdown
    | ETestClose
    | ESetClose
    | EPushClose

  predicate NoneDue(c: Conn) {
    !c.due.close && !c.due.read && !c.due.write
  }

  /**
   The poller reports a watched channel, with reading and writing as asked for, hang-up and error
   at any time. Its callbacks follow in order; user code and other threads may act between them,
   queued functors not.
   */
  predicate Enabled(c: Conn, e: Event) {
    match e
    case EEstablished => c.state == Connecting && NoneDue(c)
    case ESend(data, r) => Possible(c, |data|, r)
    case EShutdown => true
    case EForceClose => true
    case EDispatch(rev) =>
      NoneDue(c) && (c.reading || c.writing) && (rev.pollin || rev.pri ==> c.reading) && (rev.pollout ==> c.writing)
    case EClose => c.due.close
    case ERead(_) => !c.due.close && c.due.read
    case EWrite(r) => !c.due.close && !c.due.read && c.due.write && Possible(c, |c.output|, r)
    case ETask(r) => NoneDue(c) && c.tasks != [] && (c.tasks[0].SendTask? ==> Possible(c, |c.tasks[0].data|, r))
    case ETestSend(_) => true
    case EPushSend(i) => i < |c.others.sends|
    case ETestShutdown => true
    case ESetShutdown => c.others.shutTested > 0
    case EPushShutdown => c.others.shutSet > 0
    case ETestClose => true
    case ESetClose => c.others.closeTested > 0
    case EPushClose => c.others.closeSet > 0
  }

  function Step(cfg: Config, c: Conn, e: Event): Conn
    requires Enabled(c, e)
  {
    match e
    case EEstablished => ConnectEstablished(c)
    case ESend(data, r) => if c.state == Connected then SendInLoop(cfg, c, data, r) else c
    case EShutdown => Shutdown(c)
    case EForceClose => ForceClose(c)
    case EDispatch(rev) => c.(due := DueOf(rev))
    case EClose => HandleClose(c.(due := c.due.(close := false, closed := true)))
    case ERead(n) => HandleRead(c.(due := c.due.(read := false, closed := c.due.closed || n == 0)), n)
    case EWrite(r) => HandleWrite(cfg, c.(due := c.due.(write := false)), r)
    case ETask(r) => RunTask(cfg, c, r)
    case ETestSend(data) => TestSend(c, data)
    case EPushSend(i) => PushSend(c, i)
    case ETestShutdown => TestShutdown(c)
    case ESetShutdown => SetShutdown(c)
    case EPushShutdown => PushShutdown(c)
    case ETestClose => TestClose(c)
    case ESetClose => SetClose(c)
    case EPushClose => PushClose(c)
  }

  // ----- what every action keeps -----

  lemma SendFrame(cfg: Config, c: Conn, data: seq<byte>, r: WriteResult)
    requires Possible(c, |data|, r)
    ensures var d := SendInLoop(cfg, c, data, r);
      && d.state == c.state && d.reading == c.reading && d.halfClosed == c.halfClosed && d.due == c.due
      && d.others == c.others && d.past.closed == c.past.closed
      && (c.state == Disconnected ==> d.writing == c.writing)
  {
    hide Sent, CrossesMark;
  }

  /** No byte is lost, duplicated or reordered on its way to the socket. */
  predicate BytesKept(c: Conn) {
    && c.past.wire + c.output == c.past.kept
    && (!c.past.broken ==> c.past.kept == c.past.accepted)
  }

  /** The channel's flags: those of a closed connection are off, unless a later send turned writing on again. */
  predicate Flags(c: Conn) {
    && (c.writing ==> Live(c) && c.output != [])
    && (c.reading <==> Live(c) && !c.past.closed)
    && (Live(c) && !c.past.closed && c.output != [] ==> c.writing)
    && (c.state == Disconnected ==> c.past.closed)
    && (c.past.closed ==> c.state == Disconnected || c.state == Disconnecting)
    && (c.state == Connecting ==> c.output == [] && c.tasks == [] && NoneDue(c) && c.others == NoOthers)
  }

  predicate SetUnderWay(c: Conn) {
    c.others.shutSet > 0 || c.others.closeSet > 0
  }

  /** Before the state is set nothing is shut down; once it is, the half-close has happened, or is still to come. */
  predicate Ending(c: Conn) {
    && (c.state == Connecting || c.state == Connected ==>
          !c.halfClosed && ShutdownTask !in c.tasks && ForceCloseTask !in c.tasks && !SetUnderWay(c))
    && (c.state == Disconnecting && !c.halfClosed ==>
          c.writing || ShutdownTask in c.tasks || ForceCloseTask in c.tasks || SetUnderWay(c))
  }

  /** The callbacks still to be made. */
  predicate Calling(c: Conn) {
    && (c.due.close ==> Live(c) && c.due.hungUp && !c.due.closed)
    && (c.due.read && !c.due.hungUp ==> Live(c) && !c.due.closed)
    && (c.due.read && c.due.hungUp && !c.due.close ==> c.due.closed)
    && (c.due.closed && !NoneDue(c) ==> c.past.closed && !c.writing)
    && (c.due.write && !c.due.closed ==> c.writing)
  }

  predicate Inv(c: Conn) {
    BytesKept(c) && Flags(c) && Ending(c) && Calling(c)
  }

  lemma FreshIsFine()
    ensures Inv(Fresh)
  {
  }

  lemma WrittenThenQueued(wire: seq<byte>, output: seq<byte>, data: seq<byte>, n: nat)
    requires n <= |data| && (n > 0 ==> output == [])
    ensures (wire + data[..n]) + (output + data[n..]) == (wire + output) + data
  {
    assert data[..n] + data[n..] == data;
  }

  lemma SentKeepsBytes(p: Past, output: seq<byte>, data: seq<byte>, n: nat, fault: bool)
    requires p.wire + output == p.kept && (!p.broken ==> p.kept == p.accepted)
    requires n <= |data| && (n > 0 ==> output == []) && (fault ==> n == 0)
    ensures var q := Sent(p, data, n, fault);
      && (!q.broken ==> q.kept == q.accepted)
      && (fault ==> q.wire + output == q.kept)
      && (!fault ==> q.wire + (output + data[n..]) == q.kept)
      && (!fault && n == |data| ==> q.wire + output == q.kept)
  {
    WrittenThenQueued(p.wire, output, data, n);
    if n == |data| {
      assert output + data[n..] == output;
    }
    assert data[..0] == [] && p.wire + [] == p.wire;
  }

  lemma SendMovesBytes(cfg: Config, c: Conn, data: seq<byte>, r: WriteResult)
    requires Possible(c, |data|, r)
    ensures var d := SendInLoop(cfg, c, data, r);
      if c.state == Disconnected then d.output == c.output && d.past == c.past.(lost := c.past.lost + data)
      else
        && d.past == Sent(c.past, data, Taken(c, r), Faulty(c, r))
        && d.output == if !Faulty(c, r) && Taken(c, r) < |data| then c.output + data[Taken(c, r)..] else c.output
  {
    hide Sent, CrossesMark, Faulty;
  }

  lemma SendInLoopKeepsBytes(cfg: Config, c: Conn, data: seq<byte>, r: WriteResult)
    requires BytesKept(c) && Possible(c, |data|, r)
    ensures BytesKept(SendInLoop(cfg, c, data, r))
  {
    hide Sent, SendInLoop;
    SendMovesBytes(cfg, c, data, r);
    SentKeepsBytes(c.past, c.output, data, Taken(c, r), Faulty(c, r));
  }

  lemma SendInLoopKeepsInv(cfg: Config, c: Conn, data: seq<byte>, r: WriteResult)
    requires Inv(c) && Possible(c, |data|, r) && c.state != Connecting && (c.due.closed ==> NoneDue(c))
    ensures Inv(SendInLoop(cfg, c, data, r))
  {
    SendInLoopKeepsBytes(cfg, c, data, r);
    hide BytesKept;
    assert forall t | t in c.tasks :: t in SendInLoop(cfg, c, data, r).tasks;
  }

  lemma TaskPopped(c: Conn)
    requires Inv(c) && c.tasks != [] && c.tasks[0] != ShutdownTask && c.tasks[0] != ForceCloseTask
    ensures Inv(c.(tasks := c.tasks[1..]))
  {
    assert forall t | t in c.tasks :: t == c.tasks[0] || t in c.tasks[1..];
  }

  lemma EndingTaskKeepsInv(cfg: Config, c: Conn, r: WriteResult)
    requires Inv(c) && Enabled(c, ETask(r)) && (c.tasks[0] == ShutdownTask || c.tasks[0] == ForceCloseTask)
    ensures Inv(RunTask(cfg, c, r))
  {
    hide SendInLoop, BytesKept, HandleWrite, PushSend, Shutdown, ForceClose;
    assert BytesKept(RunTask(cfg, c, r)) by { SameBytes(c, RunTask(cfg, c, r)); }
    assert forall t | t in c.tasks[1..] :: t in c.tasks;
  }

  lemma TaskKeepsInv(cfg: Config, c: Conn, r: WriteResult)
    requires Inv(c) && Enabled(c, ETask(r))
    ensures Inv(RunTask(cfg, c, r))
  {
    hide SendInLoop, BytesKept, Flags, Ending, Possible;
    if c.tasks[0] == ShutdownTask || c.tasks[0] == ForceCloseTask {
      EndingTaskKeepsInv(cfg, c, r);
    } else {
      TaskPopped(c);
      if c.tasks[0].SendTask? {
        assert c.state != Connecting by { TasksWaitForConnect(c); }
        assert Possible(c.(tasks := c.tasks[1..]), |c.tasks[0].data|, r) by { SamePossible(c, c.tasks[1..], r); }
        SendInLoopKeepsInv(cfg, c.(tasks := c.tasks[1..]), c.tasks[0].data, r);
      }
    }
  }

  lemma TasksWaitForConnect(c: Conn)
    requires Flags(c) && c.tasks != []
    ensures c.state != Connecting
  {
  }

  lemma SamePossible(c: Conn, tasks: seq<Task>, r: WriteResult)
    ensures forall len: nat :: Possible(c.(tasks := tasks), len, r) <==> Possible(c, len, r)
  {
  }

  lemma SameBytes(c: Conn, d: Conn)
    requires BytesKept(c) && d.output == c.output && d.past.(closed := c.past.closed) == c.past
    ensures BytesKept(d)
  {
  }

  lemma WriteKeepsInv(cfg: Config, c: Conn, r: WriteResult)
    requires Inv(c) && Enabled(c, EWrite(r))
    ensures Inv(Step(cfg, c, EWrite(r)))
  {
    if r.Wrote? {
      assert c.output[..r.n] + c.output[r.n..] == c.output;
      assert c.past.wire + c.output[..r.n] + c.output[r.n..] == c.past.wire + c.output;
    }
  }

  /** The loop's own calls and callbacks other than sends, writes and functors. */
  predicate Plain(e: Event) {
    e.EEstablished? || e.EShutdown? || e.EForceClose? || e.EDispatch? || e.EClose? || e.ERead?
  }

  lemma PlainKeepsInv(cfg: Config, c: Conn, e: Event)
    requires Inv(c) && Enabled(c, e) && Plain(e)
    ensures Inv(Step(cfg, c, e))
  {
    SameBytes(c, Step(cfg, c, e));
    hide BytesKept;
    assert forall t | t in c.tasks :: t in c.tasks + [ForceCloseTask];
  }

  predicate ByOther(e: Event) {
    || e.ETestSend? || e.EPushSend? || e.ETestShutdown? || e.ESetShutdown? || e.EPushShutdown?
    || e.ETestClose? || e.ESetClose? || e.EPushClose?
  }

  lemma OtherKeepsInv(cfg: Config, c: Conn, e: Event)
    requires Inv(c) && Enabled(c, e) && ByOther(e)
    ensures Inv(Step(cfg, c, e))
  {
    var d := Step(cfg, c, e);
    SameBytes(c, d);
    hide BytesKept;
    assert forall t | t in c.tasks :: t in d.tasks;
  }

  /** Every action of the loop's thread and of the others keeps the invariant. */
  lemma StepKeepsInv(cfg: Config, c: Conn, e: Event)
    requires Inv(c) && Enabled(c, e)
    ensures Inv(Step(cfg, c, e))
  {
    hide BytesKept, Flags, Ending, Calling, SendInLoop, RunTask;
    match e
    case ESend(data, r) =>
      if c.state == Connected {
        assert c.due.closed ==> NoneDue(c) by { ClosedIsNotConnected(c); }
        SendInLoopKeepsInv(cfg, c, data, r);
      }
    case EWrite(r) => WriteKeepsInv(cfg, c, r);
    case ETask(r) => TaskKeepsInv(cfg, c, r);
    case _ =>
      if Plain(e) {
        PlainKeepsInv(cfg, c, e);
      } else {
        OtherKeepsInv(cfg, c, e);
      }
  }

  lemma ClosedIsNotConnected(c: Conn)
    requires Inv(c) && c.state == Connected
    ensures c.due.closed ==> NoneDue(c)
  {
  }

  /** The states of a run from a fresh connection. */
  ghost predicate Run(cfg: Config, cs: seq<Conn>, es: seq<Event>) {
    && |cs| == |es| + 1
    && cs[0] == Fresh
    && forall i | 0 <= i < |es| :: Enabled(cs[i], es[i]) && cs[i + 1] == Step(cfg, cs[i], es[i])
  }

  /** Every state of every run satisfies the invariant. */
  lemma {:induction false} RunKeepsInv(cfg: Config, cs: seq<Conn>, es: seq<Event>, k: nat)
    requires Run(cfg, cs, es) && k < |cs|
    ensures Inv(cs[k])
  {
    hide Step, Inv, Enabled;
    if k == 0 {
      FreshIsFine();
    } else {
      RunKeepsInv(cfg, cs, es, k - 1);
      StepKeepsInv(cfg, cs[k - 1], es[k - 1]);
    }
  }

  lemma RunGoesOn(cfg: Config, cs: seq<Conn>, es: seq<Event>, e: Event)
    requires Run(cfg, cs, es) && Enabled(cs[|es|], e)
    ensures Run(cfg, cs + [Step(cfg, cs[|es|], e)], es + [e])
  {
    hide Step, Enabled;
  }

  /**
   Until a send meets a broken pipe, what the socket took and what is still buffered is all that
   was accepted, in order.
   */
  lemma BytesConserved(cfg: Config, cs: seq<Conn>, es: seq<Event>, k: nat)
    requires Run(cfg, cs, es) && k < |cs|
    ensures cs[k].past.wire + cs[k].output == cs[k].past.kept
    ensures !cs[k].past.broken ==> cs[k].past.wire + cs[k].output == cs[k].past.accepted
    ensures cs[k].writing ==> Live(cs[k]) && cs[k].output != []
  {
    RunKeepsInv(cfg, cs, es, k);
  }

  // ----- history, read off the run alone -----

  /** Nothing is buffered ahead of the data, so that it is offered to the socket at once. */
  predicate Direct(c: Conn) {
    !c.writing && c.output == []
  }

  /** What a send on a connection not closed adds to the history. */
  function SendAdds(c: Conn, data: seq<byte>, r: WriteResult): Past {
    if !Direct(c) then Past(data, data, [], [], false, false)
    else
      match r
      case Wrote(n) => Past(data, data, [], if n <= |data| then data[..n] else data, false, false)
      case BrokenPipe => Past(data, [], data, [], true, false)
      case _ => Past(data, data, [], [], false, false)
  }

  /** What an event adds: the bytes the socket answers to have taken, and the fate of the bytes that are sent. */
  function Adds(c: Conn, e: Event): Past {
    match e
    case ESend(data, r) => if c.state == Connected then SendAdds(c, data, r) else NothingAdded
    case ETask(r) =>
      if c.tasks == [] then NothingAdded
      else if c.tasks[0].SendTask? then
        if c.state == Disconnected then NothingAdded.(lost := c.tasks[0].data) else SendAdds(c, c.tasks[0].data, r)
      else NothingAdded.(closed := c.tasks[0].ForceCloseTask? && (c.state == Connected || c.state == Disconnecting))
    case EWrite(r) =>
      if c.writing && r.Wrote? && r.n <= |c.output| then NothingAdded.(wire := c.output[..r.n]) else NothingAdded
    case EClose => NothingAdded.(closed := true)
    case ERead(n) => NothingAdded.(closed := n == 0)
    case _ => NothingAdded
  }

  const NothingAdded := Past([], [], [], [], false, false)

  function Plus(p: Past, q: Past): Past {
    Past(p.accepted + q.accepted, p.kept + q.kept, p.lost + q.lost, p.wire + q.wire,
         p.broken || q.broken, p.closed || q.closed)
  }

  /** All that the first k events add. */
  function Added(cs: seq<Conn>, es: seq<Event>, k: nat): Past
    requires k <= |es| < |cs|
  {
    if k == 0 then NothingAdded else Plus(Added(cs, es, k - 1), Adds(cs[k - 1], es[k - 1]))
  }

  lemma SendIsAdded(cfg: Config, c: Conn, data: seq<byte>, r: WriteResult)
    requires Possible(c, |data|, r)
    ensures SendInLoop(cfg, c, data, r).past
      == Plus(c.past, if c.state == Disconnected then NothingAdded.(lost := data) else SendAdds(c, data, r))
  {
    hide SendInLoop;
    SendMovesBytes(cfg, c, data, r);
  }

  lemma WriteIsAdded(cfg: Config, c: Conn, r: WriteResult)
    requires Possible(c, |c.output|, r)
    ensures HandleWrite(cfg, c, r).past == Plus(c.past, Adds(c, EWrite(r)))
  {
    NothingIsNothing(c.past);
  }

  lemma NothingIsNothing(p: Past)
    ensures Plus(p, NothingAdded) == p
    ensures Plus(p, NothingAdded.(closed := true)) == p.(closed := true)
  {
  }

  lemma TaskAdds(cfg: Config, c: Conn, r: WriteResult)
    requires Enabled(c, ETask(r))
    ensures Step(cfg, c, ETask(r)).past == Plus(c.past, Adds(c, ETask(r)))
  {
    hide SendInLoop, HandleWrite, Plus;
    NothingIsNothing(c.past);
    if c.tasks[0].SendTask? {
      SendIsAdded(cfg, c.(tasks := c.tasks[1..]), c.tasks[0].data, r);
    }
  }

  lemma StepAdds(cfg: Config, c: Conn, e: Event)
    requires Enabled(c, e)
    ensures Step(cfg, c, e).past == Plus(c.past, Adds(c, e))
  {
    hide SendInLoop, HandleWrite, SendAdds, Plus, RunTask;
    NothingIsNothing(c.past);
    match e
    case ESend(data, r) => SendIsAdded(cfg, c, data, r);
    case ETask(r) => TaskAdds(cfg, c, r);
    case EWrite(r) => WriteIsAdded(cfg, c.(due := c.due.(write := false)), r);
    case _ =>
  }

  /**
   In every run the history is what the events add: what counts as taken is exactly what the socket
   answered to have taken, of the bytes offered to it, in order.
   */
  lemma {:induction false} HistoryIsWhatHappened(cfg: Config, cs: seq<Conn>, es: seq<Event>, k: nat)
    requires Run(cfg, cs, es) && k < |cs|
    ensures cs[k].past == Added(cs, es, k)
  {
    hide Step, Enabled, Adds, Plus;
    if k > 0 {
      HistoryIsWhatHappened(cfg, cs, es, k - 1);
      StepAdds(cfg, cs[k - 1], es[k - 1]);
    }
  }

  // ----- a state set after the close -----

  /** Another thread sets the state of a connection that has been closed since its test. */
  predicate SetsBack(c: Conn, e: Event) {
    c.state == Disconnected && (e.ESetShutdown? || e.ESetClose?)
  }

  /** The step that closes the connection. */
  predicate ClosesAt(cs: seq<Conn>, j: nat)
    requires j + 1 < |cs|
  {
    Live(cs[j]) && cs[j + 1].state == Disconnected
  }

  /** A set after a close, and no close since. */
  predicate SetBackSince(cs: seq<Conn>, es: seq<Event>, k: nat)
    requires k <= |es| && |cs| == |es| + 1
  {
    exists i | 0 <= i < k :: SetsBack(cs[i], es[i]) && forall m | i < m < k :: !ClosesAt(cs, m)
  }

  lemma LifeStep(cfg: Config, c: Conn, e: Event)
    requires Inv(c) && Enabled(c, e)
    ensures var d := Step(cfg, c, e);
      && (c.past.closed ==> d.past.closed)
      && (c.state == Disconnected ==> (Live(d) <==> SetsBack(c, e)))
      && (Live(c) ==> Live(d) || d.state == Disconnected)
      && (d.past.closed && !c.past.closed ==> Live(c) && d.state == Disconnected)
  {
    hide BytesKept, Ending, SendInLoop;
    if e.ESend? {
      SendFrame(cfg, c, e.data, e.r);
    } else if e.ETask? && c.tasks[0].SendTask? {
      SendFrame(cfg, c.(tasks := c.tasks[1..]), c.tasks[0].data, e.r);
    }
  }

  /** A connection that has been closed is live again exactly when its state has been set since its latest close. */
  lemma {:induction false} LiveAgainExactly(cfg: Config, cs: seq<Conn>, es: seq<Event>, k: nat)
    requires Run(cfg, cs, es) && k < |cs| && cs[k].past.closed
    ensures Live(cs[k]) <==> SetBackSince(cs, es, k)
    decreases k
  {
    hide Step, Inv, Enabled, Live, SetBackSince;
    assert k > 0 by { FreshIsOpen(cs); }
    var c, e, d := cs[k - 1], es[k - 1], cs[k];
    RunKeepsInv(cfg, cs, es, k - 1);
    RunKeepsInv(cfg, cs, es, k);
    LifeStep(cfg, c, e);
    StateIsKnown(d);
    if c.past.closed {
      StateIsKnown(c);
      LiveAgainExactly(cfg, cs, es, k - 1);
    } else {
      NothingSetBack(cfg, cs, es, k - 1);
    }
    SetBackGoesOn(cs, es, k - 1);
  }

  lemma FreshIsOpen(cs: seq<Conn>)
    requires cs != [] && cs[0] == Fresh
    ensures !cs[0].past.closed
  {
  }

  lemma StateIsKnown(c: Conn)
    requires Inv(c) && c.past.closed
    ensures Live(c) <==> c.state != Disconnected
  {
  }

  lemma SetBackGoesOn(cs: seq<Conn>, es: seq<Event>, k: nat)
    requires k < |es| && |cs| == |es| + 1
    ensures SetBackSince(cs, es, k + 1) <==>
      SetsBack(cs[k], es[k]) || (SetBackSince(cs, es, k) && !ClosesAt(cs, k))
  {
    hide SetsBack, ClosesAt;
    if SetBackSince(cs, es, k) && !ClosesAt(cs, k) {
      var i :| 0 <= i < k && SetsBack(cs[i], es[i]) && forall m | i < m < k :: !ClosesAt(cs, m);
      assert forall m | i < m < k + 1 :: !ClosesAt(cs, m);
    }
    if SetBackSince(cs, es, k + 1) {
      var i :| 0 <= i < k + 1 && SetsBack(cs[i], es[i]) && forall m | i < m < k + 1 :: !ClosesAt(cs, m);
      assert i < k ==> !ClosesAt(cs, k);
    }
  }

  lemma {:induction false} NothingSetBack(cfg: Config, cs: seq<Conn>, es: seq<Event>, k: nat)
    requires Run(cfg, cs, es) && k < |cs| && !cs[k].past.closed
    ensures forall i | 0 <= i <= k :: !cs[i].past.closed && cs[i].state != Disconnected
  {
    hide Step, Inv, Enabled;
    RunKeepsInv(cfg, cs, es, k);
    OpenIsNotDisconnected(cs[k]);
    if k > 0 {
      RunKeepsInv(cfg, cs, es, k - 1);
      LifeStep(cfg, cs[k - 1], es[k - 1]);
      NothingSetBack(cfg, cs, es, k - 1);
    }
  }

  lemma OpenIsNotDisconnected(c: Conn)
    requires Inv(c) && !c.past.closed
    ensures c.state != Disconnected
  {
  }

  /** A live connection's channel asks for writing exactly while there is something to write. */
  predicate WritesItsOutput(c: Conn) {
    Live(c) ==> (c.writing <==> c.output != [])
  }

  lemma WritesStep(cfg: Config, c: Conn, e: Event)
    requires Inv(c) && Enabled(c, e) && WritesItsOutput(c)
    ensures WritesItsOutput(Step(cfg, c, e)) <==> !(SetsBack(c, e) && c.output != [])
  {
    StepKeepsInv(cfg, c, e);
    hide BytesKept, Ending, Calling;
  }

  /** Throughout a run that holds exactly when no state is set back on a connection closed with bytes buffered. */
  lemma {:induction false} WritingExactly(cfg: Config, cs: seq<Conn>, es: seq<Event>, k: nat)
    requires Run(cfg, cs, es) && k < |cs|
    ensures (forall i | 0 <= i <= k :: WritesItsOutput(cs[i]))
      <==> forall i | 0 <= i < k :: SetsBack(cs[i], es[i]) ==> cs[i].output == []
  {
    hide Step, Inv, Enabled, SetsBack, WritesItsOutput;
    if k == 0 {
      assert WritesItsOutput(Fresh) by { FreshWrites(); }
    } else {
      WritingExactly(cfg, cs, es, k - 1);
      RunKeepsInv(cfg, cs, es, k - 1);
      assert Enabled(cs[k - 1], es[k - 1]) && cs[k] == Step(cfg, cs[k - 1], es[k - 1]);
      if WritesItsOutput(cs[k - 1]) {
        WritesStep(cfg, cs[k - 1], es[k - 1]);
      }
    }
  }

  lemma FreshWrites()
    ensures WritesItsOutput(Fresh)
  {
  }

  // ----- what ends a connection -----

  /** A call or callback that takes a connection out of the connected state. */
  predicate Ends(e: Event) {
    e.EShutdown? || e.EForceClose? || e.ESetShutdown? || e.ESetClose? || e.EClose? || e == ERead(0)
  }

  /** Among the first k events it was established, and nothing after that ended it. */
  predicate EstablishedAndNotEnded(es: seq<Event>, k: nat)
    requires k <= |es|
  {
    exists i | 0 <= i < k :: es[i].EEstablished? && forall j | i < j < k :: !Ends(es[j])
  }

  lemma ConnectedStep(cfg: Config, c: Conn, e: Event)
    requires Inv(c) && Enabled(c, e)
    ensures var d := Step(cfg, c, e);
      && (d.state == Connecting <==> c.state == Connecting && !e.EEstablished?)
      && (d.state == Connected <==> e.EEstablished? || (c.state == Connected && !Ends(e)))
  {
    hide BytesKept, SendInLoop;
    if e.ESend? {
      SendFrame(cfg, c, e.data, e.r);
    } else if e.ETask? {
      assert c.tasks[0] in c.tasks;
      if c.tasks[0].SendTask? {
        SendFrame(cfg, c.(tasks := c.tasks[1..]), c.tasks[0].data, e.r);
      }
    }
  }

  /** A connection is connected exactly from its establishment to the first call or callback that ends it. */
  lemma {:induction false} ConnectedExactly(cfg: Config, cs: seq<Conn>, es: seq<Event>, k: nat)
    requires Run(cfg, cs, es) && k < |cs|
    ensures cs[k].state == Connecting <==> forall i | 0 <= i < k :: !es[i].EEstablished?
    ensures cs[k].state == Connected <==> EstablishedAndNotEnded(es, k)
  {
    hide Step, Inv, Enabled, Ends, EstablishedAndNotEnded;
    assert !EstablishedAndNotEnded(es, 0) by { NothingEstablished(es); }
    if k > 0 {
      ConnectedExactly(cfg, cs, es, k - 1);
      RunKeepsInv(cfg, cs, es, k - 1);
      ConnectedStep(cfg, cs[k - 1], es[k - 1]);
      EstablishedGoesOn(es, k - 1);
    }
  }

  lemma NothingEstablished(es: seq<Event>)
    ensures !EstablishedAndNotEnded(es, 0)
  {
  }

  lemma EstablishedGoesOn(es: seq<Event>, k: nat)
    requires k < |es|
    ensures EstablishedAndNotEnded(es, k + 1) <==>
      es[k].EEstablished? || (!Ends(es[k]) && EstablishedAndNotEnded(es, k))
  {
    hide Ends;
    if !Ends(es[k]) && EstablishedAndNotEnded(es, k) {
      var i :| 0 <= i < k && es[i].EEstablished? && forall j | i < j < k :: !Ends(es[j]);
      assert forall j | i < j < k + 1 :: !Ends(es[j]);
    }
  }

  /** A forced close is on its way: tested, set, queued, or done. */
  predicate Closing(c: Conn) {
    c.past.closed || ForceCloseTask in c.tasks || c.others.closeTested > 0 || c.others.closeSet > 0
  }

  lemma ClosingTask(cfg: Config, c: Conn, r: WriteResult)
    requires Inv(c) && Enabled(c, ETask(r)) && Closing(c)
    ensures Closing(RunTask(cfg, c, r))
  {
    hide BytesKept, Ending, Calling, SendInLoop;
    assert forall t | t in c.tasks :: t == c.tasks[0] || t in c.tasks[1..];
    if c.tasks[0].SendTask? {
      SendFrame(cfg, c.(tasks := c.tasks[1..]), c.tasks[0].data, r);
      SendQueues(cfg, c.(tasks := c.tasks[1..]), c.tasks[0].data, r);
    }
  }

  lemma ClosingStep(cfg: Config, c: Conn, e: Event)
    requires Inv(c) && Enabled(c, e)
    requires Closing(c) || ((e.EForceClose? || e.ETestClose?) && Live(c))
    ensures Closing(Step(cfg, c, e))
  {
    hide BytesKept, Ending, Calling, SendInLoop, RunTask;
    if e.ESend? {
      SendFrame(cfg, c, e.data, e.r);
      SendQueues(cfg, c, e.data, e.r);
    } else if e.ETask? {
      ClosingTask(cfg, c, e.r);
    } else {
      assert forall t | t in c.tasks :: t in Step(cfg, c, e).tasks;
    }
  }

  /**
   A forced close of a live connection, by any thread, has closed it once no such call is under
   way and the queue is empty.
   */
  lemma {:induction false} ForceCloseIsNotLost(cfg: Config, cs: seq<Conn>, es: seq<Event>, i: nat, k: nat)
    requires Run(cfg, cs, es) && i < k < |cs| && (es[i].EForceClose? || es[i].ETestClose?) && Live(cs[i])
    ensures Closing(cs[k])
    ensures cs[k].tasks == [] && cs[k].others == NoOthers ==> cs[k].past.closed
    decreases k
  {
    hide Step, Inv, Enabled, Live;
    RunKeepsInv(cfg, cs, es, k - 1);
    if i + 1 < k {
      ForceCloseIsNotLost(cfg, cs, es, i, k - 1);
    }
    ClosingStep(cfg, cs[k - 1], es[k - 1]);
  }

  // ----- calls of other threads -----

  /** Calls by other threads that have passed their test among the first k events, less those that have gone on. */
  function Tested(cs: seq<Conn>, es: seq<Event>, k: nat): (int, int)
    requires k <= |es| < |cs|
  {
    if k == 0 then (0, 0)
    else
      var (s, f) := Tested(cs, es, k - 1);
      match es[k - 1]
      case ETestShutdown => if cs[k - 1].state == Connected then (s + 1, f) else (s, f)
      case ESetShutdown => (s - 1, f)
      case ETestClose =>
        if cs[k - 1].state == Connected || cs[k - 1].state == Disconnecting then (s, f + 1) else (s, f)
      case ESetClose => (s, f - 1)
      case _ => (s, f)
  }

  /** Those that have set the state, less those that have queued their functor. */
  function SetNotQueued(es: seq<Event>, k: nat): (int, int)
    requires k <= |es|
  {
    if k == 0 then (0, 0)
    else
      var (s, f) := SetNotQueued(es, k - 1);
      match es[k - 1]
      case ESetShutdown => (s + 1, f)
      case EPushShutdown => (s - 1, f)
      case ESetClose => (s, f + 1)
      case EPushClose => (s, f - 1)
      case _ => (s, f)
  }

  lemma StepCounts(cfg: Config, c: Conn, e: Event)
    requires Enabled(c, e)
    ensures var o, n := c.others, Step(cfg, c, e).others;
      && n.shutTested == o.shutTested
         + (if e.ETestShutdown? && c.state == Connected then 1 else if e.ESetShutdown? then -1 else 0)
      && n.closeTested == o.closeTested
         + (if e.ETestClose? && (c.state == Connected || c.state == Disconnecting) then 1 else if e.ESetClose? then -1 else 0)
      && n.shutSet == o.shutSet + (if e.ESetShutdown? then 1 else if e.EPushShutdown? then -1 else 0)
      && n.closeSet == o.closeSet + (if e.ESetClose? then 1 else if e.EPushClose? then -1 else 0)
  {
    hide SendInLoop;
    if e.ESend? {
      SendFrame(cfg, c, e.data, e.r);
    } else if e.ETask? && c.tasks[0].SendTask? {
      SendFrame(cfg, c.(tasks := c.tasks[1..]), c.tasks[0].data, e.r);
    }
  }

  /** In every run the calls under way are those begun and not finished: each goes on as often as it began. */
  lemma {:induction false} CallsUnderWayExactly(cfg: Config, cs: seq<Conn>, es: seq<Event>, k: nat)
    requires Run(cfg, cs, es) && k < |cs|
    ensures Tested(cs, es, k) == (cs[k].others.shutTested as int, cs[k].others.closeTested as int)
    ensures SetNotQueued(es, k) == (cs[k].others.shutSet as int, cs[k].others.closeSet as int)
  {
    hide Step, Enabled;
    if k > 0 {
      CallsUnderWayExactly(cfg, cs, es, k - 1);
      StepCounts(cfg, cs[k - 1], es[k - 1]);
    }
  }

  /** No call is ever held up, and the poller may report whatever a watched channel asked for. */
  lemma NothingIsHeldUp(c: Conn)
    ensures Enabled(c, EShutdown) && Enabled(c, EForceClose) && Enabled(c, ETestShutdown) && Enabled(c, ETestClose)
    ensures forall data :: Enabled(c, ETestSend(data))
    ensures forall i: nat | i < |c.others.sends| :: Enabled(c, EPushSend(i))
    ensures c.others.shutTested >= 1 ==> Enabled(c, ESetShutdown)
    ensures c.others.shutSet >= 1 ==> Enabled(c, EPushShutdown)
    ensures c.others.closeTested >= 1 ==> Enabled(c, ESetClose)
    ensures c.others.closeSet >= 1 ==> Enabled(c, EPushClose)
    ensures forall rev: Revents | NoneDue(c) && (c.reading || c.writing) ::
      (rev.pollin || rev.pri ==> c.reading) && (rev.pollout ==> c.writing) ==> Enabled(c, EDispatch(rev))
  {
  }

  // ----- what is queued for the loop -----

  /** The functor a send queues, going by what is then buffered. */
  function SendNotice(cfg: Config, c: Conn, d: Conn, r: WriteResult): seq<Task> {
    if c.state == Disconnected then []
    else if cfg.hasWriteComplete && r.Wrote? && d.output == [] then [WriteComplete]
    else if cfg.hasHighWater && |c.output| < cfg.highWaterMark <= |d.output| then [HighWater(|d.output|)]
    else []
  }

  /** What an event that takes c to d queues. */
  function Queues(cfg: Config, c: Conn, e: Event, d: Conn): seq<Task> {
    match e
    case ESend(_, r) => if c.state == Connected then SendNotice(cfg, c, d, r) else []
    case ETask(r) => if c.tasks != [] && c.tasks[0].SendTask? then SendNotice(cfg, c, d, r) else []
    case EWrite(_) => if cfg.hasWriteComplete && c.output != [] && d.output == [] then [WriteComplete] else []
    case EForceClose => if c.state == Connected || c.state == Disconnecting then [ForceCloseTask] else []
    case EPushSend(i) => if i < |c.others.sends| then [SendTask(c.others.sends[i])] else []
    case EPushShutdown => [ShutdownTask]
    case EPushClose => [ForceCloseTask]
    case _ => []
  }

  lemma SendQueuesNotice(cfg: Config, c: Conn, data: seq<byte>, r: WriteResult)
    requires Flags(c) && Possible(c, |data|, r) && c.state != Connecting
    ensures SendInLoop(cfg, c, data, r).tasks == c.tasks + SendNotice(cfg, c, SendInLoop(cfg, c, data, r), r)
  {
    if c.state == Disconnected {
      assert c.tasks + [] == c.tasks;
    } else {
      hide SendInLoop, Flags;
      assert Live(c);
      SendTasks(cfg, c, data, r);
    }
  }

  lemma WriteQueuesNotice(cfg: Config, c: Conn, r: WriteResult)
    requires Inv(c) && Enabled(c, EWrite(r))
    ensures var d := Step(cfg, c, EWrite(r)); d.tasks == c.tasks + Queues(cfg, c, EWrite(r), d)
  {
    hide BytesKept, Ending;
  }

  lemma StepQueues(cfg: Config, c: Conn, e: Event)
    requires Inv(c) && Enabled(c, e)
    ensures var d := Step(cfg, c, e);
      d.tasks == (if e.ETask? then c.tasks[1..] else c.tasks) + Queues(cfg, c, e, d)
  {
    hide BytesKept, Ending, Calling, SendInLoop, HandleWrite, SendNotice, Possible;
    assert c.tasks + [] == c.tasks;
    match e
    case ESend(data, r) =>
      if c.state == Connected {
        SendQueuesNotice(cfg, c, data, r);
      }
    case ETask(r) =>
      var c1 := c.(tasks := c.tasks[1..]);
      assert c.tasks[1..] + [] == c.tasks[1..];
      if c.tasks[0].SendTask? {
        SamePossible(c, c.tasks[1..], r);
        SendQueuesNotice(cfg, c1, c.tasks[0].data, r);
        assert SendNotice(cfg, c1, Step(cfg, c, e), r) == SendNotice(cfg, c, Step(cfg, c, e), r) by {
          NoticeIgnoresTasks(cfg, c, c1.tasks, Step(cfg, c, e), r);
        }
      }
    case EWrite(r) => WriteQueuesNotice(cfg, c, r);
    case _ =>
  }

  lemma NoticeIgnoresTasks(cfg: Config, c: Conn, tasks: seq<Task>, d: Conn, r: WriteResult)
    ensures SendNotice(cfg, c.(tasks := tasks), d, r) == SendNotice(cfg, c, d, r)
  {
  }

  /** Everything queued by the first k events, in order, and how many functors have run. */
  function QueuedBy(cfg: Config, cs: seq<Conn>, es: seq<Event>, k: nat): seq<Task>
    requires k <= |es| < |cs|
  {
    if k == 0 then [] else QueuedBy(cfg, cs, es, k - 1) + Queues(cfg, cs[k - 1], es[k - 1], cs[k])
  }

  function TasksRun(es: seq<Event>, k: nat): nat
    requires k <= |es|
  {
    if k == 0 then 0 else TasksRun(es, k - 1) + (if es[k - 1].ETask? then 1 else 0)
  }

  /** In every run functors run once each in the order in which they were queued, and the rest are still queued. */
  lemma {:induction false} TasksRunInOrder(cfg: Config, cs: seq<Conn>, es: seq<Event>, k: nat)
    requires Run(cfg, cs, es) && k < |cs|
    ensures TasksRun(es, k) <= |QueuedBy(cfg, cs, es, k)|
    ensures cs[k].tasks == QueuedBy(cfg, cs, es, k)[TasksRun(es, k)..]
    ensures k < |es| && es[k].ETask? ==>
      TasksRun(es, k) < |QueuedBy(cfg, cs, es, k)| && cs[k].tasks[0] == QueuedBy(cfg, cs, es, k)[TasksRun(es, k)]
  {
    hide Step, Inv, Enabled, Queues;
    if k > 0 {
      var was, more, n := QueuedBy(cfg, cs, es, k - 1), Queues(cfg, cs[k - 1], es[k - 1], cs[k]), TasksRun(es, k - 1);
      TasksRunInOrder(cfg, cs, es, k - 1);
      RunKeepsInv(cfg, cs, es, k - 1);
      StepQueues(cfg, cs[k - 1], es[k - 1]);
      assert es[k - 1].ETask? ==> cs[k - 1].tasks != [] by {
        if es[k - 1].ETask? {
          TaskNeedsQueue(cs[k - 1], es[k - 1]);
        }
      }
      QueueMoves(was, more, n, es[k - 1].ETask?);
    }
    if k < |es| && es[k].ETask? {
      assert cs[k].tasks != [] by { TaskNeedsQueue(cs[k], es[k]); }
    }
  }

  lemma QueueMoves(was: seq<Task>, more: seq<Task>, n: nat, popped: bool)
    requires n <= |was| && (popped ==> n < |was|)
    ensures (was + more)[if popped then n + 1 else n..] == (if popped then was[n..][1..] else was[n..]) + more
  {
  }

  lemma TaskNeedsQueue(c: Conn, e: Event)
    requires Enabled(c, e) && e.ETask?
    ensures c.tasks != []
  {
  }

  // ----- the callbacks of one event -----

  /** The run of an event's callbacks before the write. */
  function FirstCallbacks(cfg: Config, c: Conn, rev: Revents, n: int): Conn
    requires Enabled(c, EDispatch(rev))
  {
    var c0 := Step(cfg, c, EDispatch(rev));
    var c1 := if c0.due.close then Step(cfg, c0, EClose) else c0;
    if c1.due.read then Step(cfg, c1, ERead(n)) else c1
  }

  lemma CloseStep(cfg: Config, c: Conn)
    requires Enabled(c, EClose)
    ensures Step(cfg, c, EClose) == HandleClose(c).(due := c.due.(close := false, closed := true))
  {
  }

  lemma ReadStep(cfg: Config, c: Conn, n: int)
    requires Enabled(c, ERead(n))
    ensures Step(cfg, c, ERead(n)) == HandleRead(c, n).(due := c.due.(read := false, closed := c.due.closed || n == 0))
  {
  }

  lemma ReadIgnoresDue(c: Conn, due: Due, n: int)
    ensures HandleRead(c.(due := due), n) == HandleRead(c, n).(due := due)
  {
  }

  lemma FirstCallbacksAre(cfg: Config, c: Conn, rev: Revents, n: int)
    requires Enabled(c, EDispatch(rev))
    ensures var d := FirstCallbacks(cfg, c, rev, n);
      && d.due.write == rev.pollout && !d.due.close && !d.due.read
      && d.(due := c.due) == CloseAndRead(c, rev, n)
  {
    hide Step, HandleRead;
    var c0 := c.(due := DueOf(rev));
    assert Step(cfg, c, EDispatch(rev)) == c0 by { DispatchStep(cfg, c, rev); }
    var c1 := if c0.due.close then HandleClose(c0).(due := c0.due.(close := false, closed := true)) else c0;
    if c0.due.close {
      CloseStep(cfg, c0);
    }
    if c1.due.read {
      ReadStep(cfg, c1, n);
      ReadIgnoresDue(c1, c.due, n);
    }
  }

  lemma DispatchStep(cfg: Config, c: Conn, rev: Revents)
    requires Enabled(c, EDispatch(rev))
    ensures Step(cfg, c, EDispatch(rev)) == c.(due := DueOf(rev))
  {
  }

  /** One event handled without calls in between is the run of its callbacks. */
  lemma EventIsItsCallbacks(cfg: Config, c: Conn, rev: Revents, n: int, r: WriteResult)
    requires Enabled(c, EDispatch(rev)) && Possible(c, |c.output|, r)
    ensures var d := FirstCallbacks(cfg, c, rev, n);
      && (d.due.write ==> Enabled(d, EWrite(r)))
      && var e := if d.due.write then Step(cfg, d, EWrite(r)) else d;
         NoneDue(e) && e.(due := c.due) == HandleEvent(cfg, c, rev, n, r)
  {
    hide FirstCallbacks, CloseAndRead;
    FirstCallbacksAre(cfg, c, rev, n);
  }

  predicate CallsClose(e: Event) {
    e.EClose? || e == ERead(0)
  }

  lemma CloseFindsLive(c: Conn, e: Event)
    requires Inv(c) && Enabled(c, e) && CallsClose(e)
    ensures !(e.ERead? && c.due.hungUp) ==> Live(c)
    ensures e.ERead? && c.due.hungUp ==> c.past.closed
  {
  }

  /**
   The assertion in handleClose holds exactly when this is not a read of nothing in an event that
   began with a hang-up, or another thread has set the state since that hang-up's close.
   */
  lemma CloseAssertionExactly(cfg: Config, cs: seq<Conn>, es: seq<Event>, k: nat)
    requires Run(cfg, cs, es) && k < |es| && CallsClose(es[k])
    ensures Live(cs[k]) <==> !(es[k].ERead? && cs[k].due.hungUp) || SetBackSince(cs, es, k)
  {
    RunKeepsInv(cfg, cs, es, k);
    hide Inv, Step, SetBackSince;
    CloseFindsLive(cs[k], es[k]);
    if cs[k].past.closed {
      LiveAgainExactly(cfg, cs, es, k);
    }
  }

  /** A run in which it fails: a hang-up with urgent data, whose read then finds the end. */
  lemma ClosedTwice() returns (cfg: Config, cs: seq<Conn>, es: seq<Event>)
    ensures Run(cfg, cs, es) && |es| == 4 && es[1].EDispatch? && es[2] == EClose && es[3] == ERead(0)
    ensures !Live(cs[3])
  {
    hide Run;
    cfg := Config(100, false, false);
    var rev := Revents(true, false, true, false, false);
    assert Run(cfg, [Fresh], []) by { StartOfRun(cfg); }
    var c1 := ConnectEstablished(Fresh);
    var c2 := c1.(due := DueOf(rev));
    var c3 := Step(cfg, c2, EClose);
    RunGoesOn(cfg, [Fresh], [], EEstablished);
    RunGoesOn(cfg, [Fresh] + [c1], [] + [EEstablished], EDispatch(rev));
    cs, es := [Fresh] + [c1] + [c2], [] + [EEstablished] + [EDispatch(rev)];
    RunGoesOn(cfg, cs, es, EClose);
    RunGoesOn(cfg, cs + [c3], es + [EClose], ERead(0));
    cs, es := cs + [c3] + [Step(cfg, c3, ERead(0))], es + [EClose] + [ERead(0)];
  }

  lemma StartOfRun(cfg: Config)
    ensures Run(cfg, [Fresh], [])
  {
  }

  /**
   A write callback finds the channel not writing exactly when an earlier callback of its event
   closed the connection; it then changes nothing.
   */
  lemma WriteCallbackExactly(cfg: Config, cs: seq<Conn>, es: seq<Event>, k: nat)
    requires Run(cfg, cs, es) && k < |es| && es[k].EWrite?
    ensures cs[k].writing <==> !cs[k].due.closed
    ensures !cs[k].writing ==> cs[k + 1] == cs[k].(due := cs[k].due.(write := false))
  {
    RunKeepsInv(cfg, cs, es, k);
    assert Enabled(cs[k], es[k]) && cs[k + 1] == Step(cfg, cs[k], es[k]);
  }

  /** A connection with one byte sent that the socket has not taken. */
  const OneByteWaiting :=
    Conn(Connected, true, true, [1], [], false, NothingDue, NoOthers, Past([1], [1], [], [], false, false))

  lemma OneByteSent() returns (cfg: Config, cs: seq<Conn>, es: seq<Event>)
    ensures Run(cfg, cs, es) && |cs| == 3 && |es| == 2 && cs[2] == OneByteWaiting
  {
    cfg := Config(100, false, false);
    es := [EEstablished, ESend([1], OtherError)];
    var c1 := ConnectEstablished(Fresh);
    cs := [Fresh, c1, Step(cfg, c1, es[1])];
  }

  /** A run in which it is closed: the read before it, in the same event, found the end. */
  lemma WriteAfterClose() returns (cfg: Config, cs: seq<Conn>, es: seq<Event>)
    ensures Run(cfg, cs, es) && |es| == 5 && es[3] == ERead(0) && es[4].EWrite?
    ensures Live(cs[3]) && !Live(cs[4]) && cs[4].output == [1]
  {
    hide Run;
    cfg, cs, es := OneByteSent();
    var rev := Revents(false, true, false, false, true);
    var c3 := OneByteWaiting.(due := DueOf(rev));
    var c4 := Step(cfg, c3, ERead(0));
    RunGoesOn(cfg, cs, es, EDispatch(rev));
    RunGoesOn(cfg, cs + [c3], es + [EDispatch(rev)], ERead(0));
    RunGoesOn(cfg, cs + [c3] + [c4], es + [EDispatch(rev)] + [ERead(0)], EWrite(Wrote(1)));
    cs := cs + [c3] + [c4] + [Step(cfg, c4, EWrite(Wrote(1)))];
    es := es + [EDispatch(rev)] + [ERead(0)] + [EWrite(Wrote(1))];
  }

  // ----- half-close -----

  predicate HalfCloses(cfg: Config, c: Conn, e: Event)
    requires Enabled(c, e)
  {
    !c.halfClosed && Step(cfg, c, e).halfClosed
  }

  /** The connection was closed with bytes buffered, and nothing has turned writing on again since. */
  predicate LeftBehind(cs: seq<Conn>, k: nat)
    requires k < |cs|
  {
    exists j | 0 <= j < k :: ClosesAt(cs, j) && cs[j + 1].output != [] && forall m | j < m <= k :: !cs[m].writing
  }

  lemma UnsentStep(cfg: Config, c: Conn, e: Event)
    requires Inv(c) && Enabled(c, e)
    ensures var d := Step(cfg, c, e);
      (!d.writing && d.output != []) <==>
        !d.writing && ((!c.writing && c.output != []) || (Live(c) && d.state == Disconnected && d.output != []))
  {
    hide BytesKept, Ending, Sent;
  }

  lemma LeftBehindGoesOn(cs: seq<Conn>, k: nat)
    requires k + 1 < |cs|
    ensures LeftBehind(cs, k + 1) <==>
      !cs[k + 1].writing && (LeftBehind(cs, k) || (ClosesAt(cs, k) && cs[k + 1].output != []))
  {
    hide ClosesAt;
    if LeftBehind(cs, k) && !cs[k + 1].writing {
      var j :| 0 <= j < k && ClosesAt(cs, j) && cs[j + 1].output != [] && forall m | j < m <= k :: !cs[m].writing;
      assert forall m | j < m <= k + 1 :: !cs[m].writing;
    }
    if LeftBehind(cs, k + 1) {
      var j :|
        0 <= j < k + 1 && ClosesAt(cs, j) && cs[j + 1].output != [] && forall m | j < m <= k + 1 :: !cs[m].writing;
      assert j < k ==> forall m | j < m <= k :: !cs[m].writing;
    }
  }

  /** Bytes are buffered and not being written exactly when they were left behind by a close. */
  lemma {:induction false} LeftBehindExactly(cfg: Config, cs: seq<Conn>, es: seq<Event>, k: nat)
    requires Run(cfg, cs, es) && k < |cs|
    ensures !cs[k].writing && cs[k].output != [] <==> LeftBehind(cs, k)
  {
    hide Step, Inv, Enabled, LeftBehind;
    if k == 0 {
      assert !LeftBehind(cs, 0) by { NothingBehind(cs); }
    } else {
      LeftBehindExactly(cfg, cs, es, k - 1);
      RunKeepsInv(cfg, cs, es, k - 1);
      UnsentStep(cfg, cs[k - 1], es[k - 1]);
      LeftBehindGoesOn(cs, k - 1);
    }
  }

  lemma NothingBehind(cs: seq<Conn>)
    requires cs != []
    ensures !LeftBehind(cs, 0)
  {
  }

  /**
   The loop shuts the socket down with nothing being written: in the call, in the functor, or as
   the last byte goes.
   */
  predicate HalfCloseDue(c: Conn, e: Event) {
    match e
    case EShutdown => c.state == Connected && !c.writing
    case ETask(_) => c.tasks != [] && c.tasks[0].ShutdownTask? && !c.writing
    case EWrite(r) => c.writing && c.state == Disconnecting && r == Wrote(|c.output|)
    case _ => false
  }

  /** A socket not half-closed yet is half-closed by exactly these events. */
  lemma HalfCloseExactly(cfg: Config, cs: seq<Conn>, es: seq<Event>, k: nat)
    requires Run(cfg, cs, es) && k < |es| && !cs[k].halfClosed
    ensures HalfCloses(cfg, cs[k], es[k]) <==> HalfCloseDue(cs[k], es[k])
  {
    RunKeepsInv(cfg, cs, es, k);
    hide Run, BytesKept, Ending, SendInLoop;
    var c, e := cs[k], es[k];
    if e.ESend? {
      SendFrame(cfg, c, e.data, e.r);
    } else if e.ETask? && c.tasks[0].SendTask? {
      SendFrame(cfg, c.(tasks := c.tasks[1..]), c.tasks[0].data, e.r);
    }
  }

  lemma HalfCloseStep(cfg: Config, c: Conn, e: Event)
    requires Inv(c) && Enabled(c, e) && HalfCloses(cfg, c, e)
    ensures var d := Step(cfg, c, e); !d.writing && (d.output != [] ==> d.output == c.output && !c.writing)
  {
    hide BytesKept, Ending, Sent;
  }

  /**
   A half-close leaves bytes unsent exactly when the connection was closed with bytes buffered and
   no send has turned writing on again; otherwise it comes after every byte accepted.
   */
  lemma HalfCloseLeavesExactly(cfg: Config, cs: seq<Conn>, es: seq<Event>, k: nat)
    requires Run(cfg, cs, es) && k < |es| && HalfCloses(cfg, cs[k], es[k])
    ensures cs[k + 1].output != [] <==> LeftBehind(cs, k + 1)
    ensures !cs[k + 1].past.broken ==> (cs[k + 1].past.wire == cs[k + 1].past.accepted <==> !LeftBehind(cs, k + 1))
  {
    RunKeepsInv(cfg, cs, es, k);
    HalfCloseStep(cfg, cs[k], es[k]);
    assert cs[k + 1] == Step(cfg, cs[k], es[k]);
    hide Step, Inv, Enabled, LeftBehind;
    LeftBehindExactly(cfg, cs, es, k + 1);
    BytesConserved(cfg, cs, es, k + 1);
  }

  /**
   As long as no state is set back, a half-close on a connection that is not closed comes after
   every byte accepted.
   */
  lemma HalfCloseIsLast(cfg: Config, cs: seq<Conn>, es: seq<Event>, k: nat)
    requires Run(cfg, cs, es) && k < |es| && HalfCloses(cfg, cs[k], es[k])
    requires Live(cs[k]) && forall i | 0 <= i < k :: !SetsBack(cs[i], es[i])
    ensures cs[k + 1].output == []
    ensures !cs[k + 1].past.broken ==> cs[k + 1].past.wire == cs[k + 1].past.accepted
  {
    RunKeepsInv(cfg, cs, es, k);
    HalfCloseStep(cfg, cs[k], es[k]);
    assert cs[k + 1] == Step(cfg, cs[k], es[k]);
    hide Step, Inv, Enabled, SetsBack;
    WritingExactly(cfg, cs, es, k);
    assert WritesItsOutput(cs[k]);
    BytesConserved(cfg, cs, es, k + 1);
  }

  lemma HalfClosedSend(cfg: Config, c: Conn, data: seq<byte>, r: WriteResult)
    requires Possible(c, |data|, r) && c.halfClosed
    ensures var d := SendInLoop(cfg, c, data, r); d.past.wire == c.past.wire && d.halfClosed
  {
    if data == [] {
      assert data[..0] == [];
    }
  }

  lemma HalfClosedStep(cfg: Config, c: Conn, e: Event)
    requires Enabled(c, e) && c.halfClosed && Inv(c)
    ensures Step(cfg, c, e).halfClosed && Step(cfg, c, e).past.wire == c.past.wire
  {
    hide BytesKept, Ending, Calling, SendInLoop;
    if e.ESend? {
      HalfClosedSend(cfg, c, e.data, e.r);
    } else if e.ETask? && c.tasks[0].SendTask? {
      HalfClosedSend(cfg, c.(tasks := c.tasks[1..]), c.tasks[0].data, e.r);
    }
  }

  lemma {:induction false} NothingAfterHalfClose(cfg: Config, cs: seq<Conn>, es: seq<Event>, j: nat, k: nat)
    requires Run(cfg, cs, es) && j <= k < |cs| && cs[j].halfClosed
    ensures cs[k].halfClosed && cs[k].past.wire == cs[j].past.wire
  {
    hide Step, Inv, Enabled;
    if j < k {
      NothingAfterHalfClose(cfg, cs, es, j, k - 1);
      RunKeepsInv(cfg, cs, es, k - 1);
      HalfClosedStep(cfg, cs[k - 1], es[k - 1]);
    }
  }

  /**
   Nothing waits for ever: a connection being shut down that is not writing, with nothing queued
   or about to be, is half-closed.
   */
  lemma ShutdownIsNotLost(cfg: Config, cs: seq<Conn>, es: seq<Event>, k: nat)
    requires Run(cfg, cs, es) && k < |cs|
    requires cs[k].state == Disconnecting && !cs[k].writing && cs[k].tasks == [] && !SetUnderWay(cs[k])
    ensures cs[k].halfClosed
  {
    RunKeepsInv(cfg, cs, es, k);
  }

  /** A run in which the peer closes first: the pending half-close then leaves bytes unsent. */
  lemma HalfCloseAfterClose() returns (cfg: Config, cs: seq<Conn>, es: seq<Event>)
    ensures Run(cfg, cs, es) && |es| == 8
    ensures HalfCloses(cfg, cs[7], es[7]) && cs[7].state == Disconnected && cs[8].output == [1]
  {
    hide Run;
    var rev := Revents(false, true, false, false, false);
    var c7: Conn;
    cfg, cs, es, c7 := ShutdownThenClose();
    RunGoesOn(cfg, cs, es, ETask(OtherError));
    cs := cs + [Step(cfg, c7, ETask(OtherError))];
    es := es + [ETask(OtherError)];
  }

  /** One byte buffered, another thread's shutdown queued, and then the peer's close read. */
  lemma ShutdownThenClose() returns (cfg: Config, cs: seq<Conn>, es: seq<Event>, c7: Conn)
    ensures Run(cfg, cs, es) && |cs| == 8 && |es| == 7 && cs[7] == c7
    ensures c7 == OneByteWaiting.(
      state := Disconnected, reading := false, writing := false, tasks := [ShutdownTask], due := c7.due,
      past := OneByteWaiting.past.(closed := true)) && NoneDue(c7)
  {
    hide Run;
    cfg, cs, es := OneByteSent();
    var rev := Revents(false, true, false, false, false);
    var c3 := TestShutdown(OneByteWaiting);
    var c4 := SetShutdown(c3);
    var c5 := PushShutdown(c4);
    var c6 := c5.(due := DueOf(rev));
    c7 := Step(cfg, c6, ERead(0));
    RunGoesOn(cfg, cs, es, ETestShutdown);
    RunGoesOn(cfg, cs + [c3], es + [ETestShutdown], ESetShutdown);
    RunGoesOn(cfg, cs + [c3] + [c4], es + [ETestShutdown] + [ESetShutdown], EPushShutdown);
    cs, es := cs + [c3] + [c4] + [c5], es + [ETestShutdown] + [ESetShutdown] + [EPushShutdown];
    RunGoesOn(cfg, cs, es, EDispatch(rev));
    RunGoesOn(cfg, cs + [c6], es + [EDispatch(rev)], ERead(0));
    cs, es := cs + [c6] + [c7], es + [EDispatch(rev)] + [ERead(0)];
  }

  /**
   A run in which the state is set back: a shutdown tested before the peer's close sets it after,
   and the connection is live, not writing what it has buffered, and half-closed all the same.
   */
  lemma SetAfterClose() returns (cfg: Config, cs: seq<Conn>, es: seq<Event>)
    ensures Run(cfg, cs, es) && |es| == 8
    ensures SetsBack(cs[5], es[5]) && !WritesItsOutput(cs[6])
    ensures HalfCloses(cfg, cs[7], es[7]) && cs[7].state == Disconnecting && cs[8].output == [1]
  {
    hide Run;
    cfg, cs, es := OneByteSent();
    var rev := Revents(false, true, false, false, false);
    var c3 := TestShutdown(OneByteWaiting);
    var c4 := c3.(due := DueOf(rev));
    var c5 := Step(cfg, c4, ERead(0));
    var c6 := SetShutdown(c5);
    var c7 := PushShutdown(c6);
    RunGoesOn(cfg, cs, es, ETestShutdown);
    RunGoesOn(cfg, cs + [c3], es + [ETestShutdown], EDispatch(rev));
    RunGoesOn(cfg, cs + [c3] + [c4], es + [ETestShutdown] + [EDispatch(rev)], ERead(0));
    cs, es := cs + [c3] + [c4] + [c5], es + [ETestShutdown] + [EDispatch(rev)] + [ERead(0)];
    RunGoesOn(cfg, cs, es, ESetShutdown);
    RunGoesOn(cfg, cs + [c6], es + [ESetShutdown], EPushShutdown);
    RunGoesOn(cfg, cs + [c6] + [c7], es + [ESetShutdown] + [EPushShutdown], ETask(OtherError));
    cs := cs + [c6] + [c7] + [Step(cfg, c7, ETask(OtherError))];
    es := es + [ESetShutdown] + [EPushShutdown] + [ETask(OtherError)];
  }

  // ----- where submitted bytes are -----

  /** What was handed to send while the connection was up. */
  function Submitted(cs: seq<Conn>, es: seq<Event>, k: nat): seq<byte>
    requires k <= |es| < |cs|
  {
    if k == 0 then [] else Submitted(cs, es, k - 1) + Submits(cs[k - 1], es[k - 1])
  }

  function Submits(c: Conn, e: Event): seq<byte> {
    if (e.ESend? || e.ETestSend?) && c.state == Connected then e.data else []
  }

  function Flat(sends: seq<seq<byte>>): seq<byte> {
    if sends == [] then [] else sends[0] + Flat(sends[1..])
  }

  /** The bytes of the sends still queued. */
  function QueuedBytes(tasks: seq<Task>): seq<byte> {
    if tasks == [] then []
    else (if tasks[0].SendTask? then tasks[0].data else []) + QueuedBytes(tasks[1..])
  }

  lemma {:induction false} QueuedBytesJoin(a: seq<Task>, b: seq<Task>)
    ensures QueuedBytes(a + b) == QueuedBytes(a) + QueuedBytes(b)
    decreases |a|
  {
    if a == [] {
      assert a + b == b;
    } else {
      assert (a + b)[1..] == a[1..] + b;
      QueuedBytesJoin(a[1..], b);
    }
  }

  lemma OneMoreTask(tasks: seq<Task>, t: Task)
    ensures QueuedBytes(tasks + [t]) == QueuedBytes(tasks) + (if t.SendTask? then t.data else [])
  {
    QueuedBytesJoin(tasks, [t]);
    var bytes := if t.SendTask? then t.data else [];
    assert [t][1..] == [] && bytes + [] == bytes;
  }

  lemma FirstTask(tasks: seq<Task>)
    requires tasks != []
    ensures QueuedBytes(tasks) == (if tasks[0].SendTask? then tasks[0].data else []) + QueuedBytes(tasks[1..])
  {
  }

  lemma {:induction false} FlatJoin(a: seq<seq<byte>>, b: seq<seq<byte>>)
    ensures Flat(a + b) == Flat(a) + Flat(b)
    decreases |a|
  {
    if a == [] {
      assert a + b == b;
    } else {
      assert (a + b)[1..] == a[1..] + b;
      FlatJoin(a[1..], b);
    }
  }

  lemma FlatOne(data: seq<byte>)
    ensures Flat([data]) == data
  {
    assert [data][1..] == [] && data + [] == data;
  }

  lemma FlatWithout(sends: seq<seq<byte>>, i: nat)
    requires i < |sends|
    ensures multiset(Flat(sends)) == multiset(Flat(sends[..i] + sends[i + 1..])) + multiset(sends[i])
  {
    hide Flat;
    assert sends == sends[..i] + ([sends[i]] + sends[i + 1..]);
    FlatJoin(sends[..i], [sends[i]] + sends[i + 1..]);
    FlatJoin([sends[i]], sends[i + 1..]);
    FlatOne(sends[i]);
    FlatJoin(sends[..i], sends[i + 1..]);
  }

  /** The submitted bytes, wherever they are: kept, lost, in queued sends, or in sends about to be queued. */
  function Everywhere(c: Conn): multiset<byte> {
    multiset(c.past.kept) + multiset(c.past.lost) + multiset(QueuedBytes(c.tasks)) + multiset(Flat(c.others.sends))
  }

  lemma SentGoesSomewhere(p: Past, data: seq<byte>, n: nat, fault: bool)
    requires n <= |data|
    ensures var q := Sent(p, data, n, fault);
      multiset(q.kept) + multiset(q.lost) == multiset(p.kept) + multiset(p.lost) + multiset(data)
  {
    assert multiset(p.kept + data) == multiset(p.kept) + multiset(data);
    assert multiset(p.lost + data) == multiset(p.lost) + multiset(data);
  }

  lemma SendQueues(cfg: Config, c: Conn, data: seq<byte>, r: WriteResult)
    requires Possible(c, |data|, r)
    ensures var d := SendInLoop(cfg, c, data, r); var newLen := |c.output| + |data| - Taken(c, r);
      && d.others == c.others
      && (d.tasks == c.tasks || d.tasks == c.tasks + [WriteComplete] || d.tasks == c.tasks + [HighWater(newLen)])
  {
    hide Sent;
  }

  lemma SendKeepsOrLoses(cfg: Config, c: Conn, data: seq<byte>, r: WriteResult)
    requires Possible(c, |data|, r)
    ensures var q := SendInLoop(cfg, c, data, r).past;
      multiset(q.kept) + multiset(q.lost) == multiset(c.past.kept) + multiset(c.past.lost) + multiset(data)
  {
    hide Sent, SendInLoop;
    SendMovesBytes(cfg, c, data, r);
    SentGoesSomewhere(c.past, data, Taken(c, r), Faulty(c, r));
    assert multiset(c.past.lost + data) == multiset(c.past.lost) + multiset(data);
  }

  lemma SendKeepsBytesSomewhere(cfg: Config, c: Conn, data: seq<byte>, r: WriteResult)
    requires Possible(c, |data|, r)
    ensures Everywhere(SendInLoop(cfg, c, data, r)) == Everywhere(c) + multiset(data)
  {
    hide QueuedBytes, Flat, SendInLoop;
    SendQueues(cfg, c, data, r);
    SendKeepsOrLoses(cfg, c, data, r);
    OneMoreTask(c.tasks, WriteComplete);
    OneMoreTask(c.tasks, HighWater(|c.output| + |data| - Taken(c, r)));
  }

  lemma TaskKeepsBytesSomewhere(cfg: Config, c: Conn, r: WriteResult)
    requires Enabled(c, ETask(r))
    ensures Everywhere(Step(cfg, c, ETask(r))) == Everywhere(c)
  {
    hide SendInLoop, QueuedBytes, Flat;
    FirstTask(c.tasks);
    if c.tasks[0].SendTask? {
      SendKeepsBytesSomewhere(cfg, c.(tasks := c.tasks[1..]), c.tasks[0].data, r);
    } else {
      assert [] + QueuedBytes(c.tasks[1..]) == QueuedBytes(c.tasks[1..]);
    }
  }

  predicate NothingNew(c: Conn, d: Conn) {
    && d.past.kept == c.past.kept && d.past.lost == c.past.lost && d.others.sends == c.others.sends
    && (|| d.tasks == c.tasks || d.tasks == c.tasks + [ShutdownTask]
        || d.tasks == c.tasks + [ForceCloseTask] || d.tasks == c.tasks + [WriteComplete])
  }

  lemma OtherOutcome(cfg: Config, c: Conn, e: Event)
    requires Enabled(c, e) && ByOther(e) && !e.ETestSend? && !e.EPushSend?
    ensures NothingNew(c, Step(cfg, c, e))
  {
    hide SendInLoop, RunTask, PushSend, HandleWrite;
  }

  /** The remaining events lose and keep nothing new, and queue at most one task that is not a send. */
  lemma RestOutcome(cfg: Config, c: Conn, e: Event)
    requires Enabled(c, e) && !e.ESend? && !e.ETask? && !e.ETestSend? && !e.EPushSend?
    ensures NothingNew(c, Step(cfg, c, e))
  {
    hide SendInLoop, RunTask, PushSend;
    if ByOther(e) {
      OtherOutcome(cfg, c, e);
    }
  }

  lemma RestKeepsBytesSomewhere(cfg: Config, c: Conn, e: Event)
    requires Enabled(c, e) && !e.ESend? && !e.ETask? && !e.ETestSend? && !e.EPushSend?
    ensures Everywhere(Step(cfg, c, e)) == Everywhere(c)
  {
    hide QueuedBytes, Flat, Step, Enabled;
    RestOutcome(cfg, c, e);
    OneMoreTask(c.tasks, ShutdownTask);
    OneMoreTask(c.tasks, ForceCloseTask);
    OneMoreTask(c.tasks, WriteComplete);
  }

  lemma OtherSendKeepsBytesSomewhere(cfg: Config, c: Conn, e: Event)
    requires Enabled(c, e) && (e.ETestSend? || e.EPushSend?)
    ensures Everywhere(Step(cfg, c, e)) == Everywhere(c) + multiset(Submits(c, e))
  {
    hide QueuedBytes, Flat;
    var sends := c.others.sends;
    if e.ETestSend? {
      FlatJoin(sends, [e.data]);
      FlatOne(e.data);
    } else {
      FlatWithout(sends, e.i);
      OneMoreTask(c.tasks, SendTask(sends[e.i]));
    }
  }

  lemma StepKeepsBytesSomewhere(cfg: Config, c: Conn, e: Event)
    requires Enabled(c, e)
    ensures Everywhere(Step(cfg, c, e)) == Everywhere(c) + multiset(Submits(c, e))
  {
    hide SendInLoop, RunTask, QueuedBytes, Flat, Everywhere;
    if e.ESend? {
      if c.state == Connected {
        SendKeepsBytesSomewhere(cfg, c, e.data, e.r);
      }
    } else if e.ETask? {
      TaskKeepsBytesSomewhere(cfg, c, e.r);
    } else if e.ETestSend? || e.EPushSend? {
      OtherSendKeepsBytesSomewhere(cfg, c, e);
    } else {
      RestKeepsBytesSomewhere(cfg, c, e);
    }
  }

  /** In every run every byte handed to send is somewhere. */
  lemma {:induction false} NothingGoesMissing(cfg: Config, cs: seq<Conn>, es: seq<Event>, k: nat)
    requires Run(cfg, cs, es) && k < |cs|
    ensures Everywhere(cs[k]) == multiset(Submitted(cs, es, k))
  {
    hide Step, Enabled, Everywhere, Submits;
    if k == 0 {
      assert Everywhere(Fresh) == multiset{} by { NothingYet(); }
    } else {
      NothingGoesMissing(cfg, cs, es, k - 1);
      StepKeepsBytesSomewhere(cfg, cs[k - 1], es[k - 1]);
    }
  }

  lemma NothingYet()
    ensures Everywhere(Fresh) == multiset{}
  {
  }

  lemma HalfClosedSubmitsNothing(c: Conn, e: Event)
    requires Inv(c) && c.halfClosed
    ensures Submits(c, e) == []
  {
  }

  lemma {:induction false} NothingMoreSubmitted(cfg: Config, cs: seq<Conn>, es: seq<Event>, j: nat, k: nat)
    requires Run(cfg, cs, es) && j <= k < |cs| && cs[j].halfClosed
    ensures Submitted(cs, es, k) == Submitted(cs, es, j)
    decreases k
  {
    hide Step, Inv, Enabled, Submits;
    if j < k {
      NothingMoreSubmitted(cfg, cs, es, j, k - 1);
      RunKeepsInv(cfg, cs, es, k - 1);
      NothingAfterHalfClose(cfg, cs, es, j, k - 1);
      HalfClosedSubmitsNothing(cs[k - 1], es[k - 1]);
      assert Submitted(cs, es, k - 1) + [] == Submitted(cs, es, k - 1);
    }
  }

  /**
   After a half-close all bytes ever handed to send go out exactly when, at the half-close, none
   is buffered, given up, in a queued send, or in a send that another thread has yet to queue.
   */
  lemma HalfCloseCompleteExactly(cfg: Config, cs: seq<Conn>, es: seq<Event>, k: nat, m: nat)
    requires Run(cfg, cs, es) && k < |es| && HalfCloses(cfg, cs[k], es[k]) && k < m < |cs|
    ensures var d, all := cs[k + 1], Submitted(cs, es, m);
      && multiset(cs[m].past.wire) + multiset(d.output) + multiset(d.past.lost)
         + multiset(QueuedBytes(d.tasks)) + multiset(Flat(d.others.sends)) == multiset(all)
      && (|cs[m].past.wire| == |all| <==>
            d.output == [] && d.past.lost == [] && QueuedBytes(d.tasks) == [] && Flat(d.others.sends) == [])
  {
    assert cs[k + 1].halfClosed;
    hide Step, Inv, Enabled, QueuedBytes, Flat, Submitted;
    BytesConserved(cfg, cs, es, k + 1);
    NothingGoesMissing(cfg, cs, es, k + 1);
    NothingMoreSubmitted(cfg, cs, es, k + 1, m);
    NothingAfterHalfClose(cfg, cs, es, k + 1, m);
    var d, all := cs[k + 1], Submitted(cs, es, m);
    var q, f := QueuedBytes(d.tasks), Flat(d.others.sends);
    assert multiset(d.past.wire + d.output) == multiset(d.past.wire) + multiset(d.output);
    assert |multiset(d.past.wire) + multiset(d.output) + multiset(d.past.lost) + multiset(q) + multiset(f)|
      == |d.past.wire| + |d.output| + |d.past.lost| + |q| + |f|;
  }

  predicate SendsFromLoopOnly(es: seq<Event>) {
    forall e | e in es :: !e.ETestSend?
  }

  predicate NoOtherSend(c: Conn) {
    c.others.sends == [] && forall t | t in c.tasks :: !t.SendTask?
  }

  lemma SendAccepts(cfg: Config, c: Conn, data: seq<byte>, r: WriteResult)
    requires Possible(c, |data|, r) && NoOtherSend(c) && c.state == Connected
    ensures NoOtherSend(SendInLoop(cfg, c, data, r))
    ensures SendInLoop(cfg, c, data, r).past.accepted == c.past.accepted + data
  {
  }

  lemma LoopTask(cfg: Config, c: Conn, r: WriteResult)
    requires Enabled(c, ETask(r)) && NoOtherSend(c)
    ensures NoOtherSend(RunTask(cfg, c, r)) && RunTask(cfg, c, r).past.accepted == c.past.accepted
  {
    hide SendInLoop;
    assert c.tasks[0] in c.tasks;
    assert forall t | t in c.tasks[1..] :: t in c.tasks;
  }

  lemma LoopStep(cfg: Config, c: Conn, e: Event)
    requires Enabled(c, e) && NoOtherSend(c) && !e.ETestSend?
    ensures NoOtherSend(Step(cfg, c, e))
    ensures Step(cfg, c, e).past.accepted == c.past.accepted + Submits(c, e)
  {
    hide SendInLoop, RunTask;
    assert c.past.accepted + [] == c.past.accepted;
    if e.ESend? && c.state == Connected {
      SendAccepts(cfg, c, e.data, e.r);
    } else if e.ETask? {
      LoopTask(cfg, c, e.r);
    }
  }

  lemma {:induction false} LoopSendsAreAccepted(cfg: Config, cs: seq<Conn>, es: seq<Event>, k: nat)
    requires Run(cfg, cs, es) && SendsFromLoopOnly(es) && k < |cs|
    ensures NoOtherSend(cs[k]) && cs[k].past.accepted == Submitted(cs, es, k)
  {
    hide Step, NoOtherSend, Enabled, Submits;
    if k == 0 {
      assert NoOtherSend(Fresh) by { NothingQueued(); }
    } else {
      LoopSendsAreAccepted(cfg, cs, es, k - 1);
      assert es[k - 1] in es;
      LoopStep(cfg, cs[k - 1], es[k - 1]);
    }
  }

  lemma NothingQueued()
    ensures NoOtherSend(Fresh)
  {
  }

  /**
   When only the loop's own thread sends, everything handed to send has gone out in order at a
   half-close, exactly unless a close has left bytes behind.
   */
  lemma LoopSendsAllGoOut(cfg: Config, cs: seq<Conn>, es: seq<Event>, k: nat)
    requires Run(cfg, cs, es) && SendsFromLoopOnly(es)
    requires k < |es| && HalfCloses(cfg, cs[k], es[k]) && !cs[k + 1].past.broken
    ensures cs[k + 1].past.wire == Submitted(cs, es, k + 1) <==> !LeftBehind(cs, k + 1)
  {
    hide Step, LeftBehind;
    LoopSendsAreAccepted(cfg, cs, es, k + 1);
    HalfCloseLeavesExactly(cfg, cs, es, k);
  }

  /** A connection that another thread has found connected, to send one byte. */
  lemma OneByteTested() returns (cfg: Config, cs: seq<Conn>, es: seq<Event>, c2: Conn)
    ensures Run(cfg, cs, es) && |cs| == 3 && |es| == 2 && cs[2] == c2
    ensures c2 == Fresh.(state := Connected, reading := true, others := NoOthers.(sends := [[1]]))
    ensures Submitted(cs, es, 2) == [1]
  {
    cfg := Config(100, false, false);
    es := [EEstablished, ETestSend([1])];
    var c1 := ConnectEstablished(Fresh);
    c2 := TestSend(c1, [1]);
    cs := [Fresh, c1, c2];
    assert [] + [[1]] == [[1]];
    assert Submitted(cs, es, 1) == [];
  }

  /**
   A run in which bytes are left queued: the loop's thread shuts down while another thread's send
   is in its queue.
   */
  lemma QueuedSendIsLost() returns (cfg: Config, cs: seq<Conn>, es: seq<Event>)
    ensures Run(cfg, cs, es) && |es| == 5 && HalfCloses(cfg, cs[3], es[3])
    ensures cs[4].tasks == [SendTask([1])] && cs[4].others == NoOthers
    ensures cs[5].past.wire == [] && cs[5].past.lost == [1]
  {
    hide Run, Submitted;
    var c2: Conn;
    cfg, cs, es, c2 := OneByteTested();
    var c3 := c2.(tasks := [SendTask([1])], others := NoOthers);
    assert PushSend(c2, 0) == c3 by {
      assert [[1]][..0] + [[1]][1..] == [];
    }
    var c4 := Shutdown(c3);
    RunGoesOn(cfg, cs, es, EPushSend(0));
    RunGoesOn(cfg, cs + [c3], es + [EPushSend(0)], EShutdown);
    RunGoesOn(cfg, cs + [c3] + [c4], es + [EPushSend(0)] + [EShutdown], ETask(BrokenPipe));
    cs := cs + [c3] + [c4] + [Step(cfg, c4, ETask(BrokenPipe))];
    es := es + [EPushSend(0)] + [EShutdown] + [ETask(BrokenPipe)];
  }

  /** A run in which none is queued: the loop's thread shuts down between another thread's test and its push. */
  lemma TestedSendIsLost() returns (cfg: Config, cs: seq<Conn>, es: seq<Event>)
    ensures Run(cfg, cs, es) && |es| == 5 && HalfCloses(cfg, cs[2], es[2])
    ensures cs[3].tasks == [] && cs[3].others.sends == [[1]]
    ensures cs[5].past.wire == [] && cs[5].past.lost == [1]
  {
    hide Run, Submitted;
    var c2: Conn;
    cfg, cs, es, c2 := OneByteTested();
    var c3 := Shutdown(c2);
    var c4 := c3.(tasks := [SendTask([1])], others := NoOthers);
    assert PushSend(c3, 0) == c4 by {
      assert [[1]][..0] + [[1]][1..] == [];
    }
    RunGoesOn(cfg, cs, es, EShutdown);
    RunGoesOn(cfg, cs + [c3], es + [EShutdown], EPushSend(0));
    RunGoesOn(cfg, cs + [c3] + [c4], es + [EShutdown] + [EPushSend(0)], ETask(BrokenPipe));
    cs := cs + [c3] + [c4] + [Step(cfg, c4, ETask(BrokenPipe))];
    es := es + [EShutdown] + [EPushSend(0)] + [ETask(BrokenPipe)];
  }

  // ----- notices -----

  /** The tasks a send adds. */
  lemma SendTasks(cfg: Config, c: Conn, data: seq<byte>, r: WriteResult)
    requires Flags(c) && Live(c) && Possible(c, |data|, r)
    ensures var d := SendInLoop(cfg, c, data, r);
      d.tasks ==
        if cfg.hasWriteComplete && r.Wrote? && d.output == [] then c.tasks + [WriteComplete]
        else if CrossesMark(cfg, |c.output|, |d.output|) then c.tasks + [HighWater(|d.output|)]
        else c.tasks
  {
    hide Sent;
    if c.output == [] && r.Wrote? && r.n == |data| {
      assert data[r.n..] == [];
    }
  }

  /**
   A send reports a high-water crossing exactly when it lifts the buffered bytes to the mark, and
   completion exactly when nothing is left to write.
   */
  lemma SendNotices(cfg: Config, c: Conn, data: seq<byte>, r: WriteResult)
    requires Inv(c) && Live(c) && Possible(c, |data|, r)
    ensures var d := SendInLoop(cfg, c, data, r); var news := d.tasks[|c.tasks|..];
      && c.tasks <= d.tasks
      && (WriteComplete in news <==> cfg.hasWriteComplete && r.Wrote? && d.output == [])
      && (forall n :: HighWater(n) in news <==>
            cfg.hasHighWater && |c.output| < cfg.highWaterMark <= |d.output| == n)
  {
    hide SendInLoop, BytesKept, Flags, Ending, Calling;
    SendTasks(cfg, c, data, r);
  }

  /** A write callback reports completion exactly when it empties the buffer. */
  lemma WriteNotices(cfg: Config, c: Conn, r: WriteResult)
    requires Inv(c) && Possible(c, |c.output|, r)
    ensures var d := HandleWrite(cfg, c, r);
      d.tasks == if cfg.hasWriteComplete && c.output != [] && d.output == [] then c.tasks + [WriteComplete] else c.tasks
  {
  }

  // ----- destruction -----

  /**
   connectDestroyed leaves no events on the channel, as removing it demands, unless a shutdown is
   under way on a connection never closed, or one set back and writing.
   */
  lemma DestroyExactly(cfg: Config, cs: seq<Conn>, es: seq<Event>, k: nat)
    requires Run(cfg, cs, es) && k < |cs|
    ensures var d := ConnectDestroyed(cs[k]);
      (!d.reading && !d.writing) <==> cs[k].state != Disconnecting || (cs[k].past.closed && !cs[k].writing)
    ensures ConnectDestroyed(cs[k]).state == if cs[k].state == Connected then Disconnected else cs[k].state
  {
    RunKeepsInv(cfg, cs, es, k);
  }
}
