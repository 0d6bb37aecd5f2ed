/** Output, shutdown and close of src/TcpConnection.cc, with the event dispatch of
    src/Channel.cc, against a kernel that may take any prefix of a write. */
module TcpConnections {
  import opened Bytes

  datatype State = Connecting | Connected | Disconnecting | Disconnected

  // How one write system call ends.
  datatype Kernel = Wrote(n: nat) | Again | Broken | OtherError

  // Work queued for the owner loop.
  datatype Functor = SendF(data: seq<byte>) | ShutdownF | ForceCloseF | DestroyF | WriteCompleteF | HighWaterF

  // A payload that reached send_in_loop on a live connection, and whether it was kept.
  datatype Sent = Sent(data: seq<byte>, kept: bool)

  datatype Conn = Conn(
    state: State,
    output: seq<byte>,           // output_buffer_
    reading: bool,               // channel interested in reads
    writing: bool,               // channel interested in writes
    posting: multiset<Functor>,  // built by another thread, not yet in the queue
    queue: seq<Functor>,         // wakeup functors of the owner loop for this connection
    shutWr: bool,                // SHUT_WR has been issued
    requested: bool,             // shutdown() has moved the state
    closes: nat,                 // calls of the user's close callback
    wire: seq<byte>,             // bytes the kernel has taken
    log: seq<Sent>,              // payloads in the order send_in_loop saw them
    highWaterMark: nat)

  function NewConn(highWaterMark: nat): Conn {
    Conn(Connecting, [], false, false, multiset{}, [], false, false, 0, [], [], highWaterMark)
  }

  // The kernel writes no more than it was given, and refuses after SHUT_WR.
  function Outcome(c: Conn, data: seq<byte>, k: Kernel): Kernel {
    if c.shutWr then Broken
    else if k.Wrote? && k.n > |data| then Wrote(|data|) else k
  }

  // ---------- In the owner loop ----------

  // Append to the output buffer what is left of a payload, and ask for write events.
  function Buffered(c: Conn, rest: seq<byte>): Conn {
    if rest == [] then c else
    var crossed := |c.output| + |rest| >= c.highWaterMark && |c.output| < c.highWaterMark;
    c.(queue := if crossed then c.queue + [HighWaterF] else c.queue, output := c.output + rest, writing := true)
  }

  function AfterSend(c: Conn, data: seq<byte>, k: Kernel): Conn {
    if c.state == Disconnected then c
    else if !c.writing && c.output == [] then
      match Outcome(c, data, k)
      case Wrote(n) =>
        var d := c.(wire := c.wire + data[..n], log := c.log + [Sent(data, true)]);
        if n == |data| then d.(queue := d.queue + [WriteCompleteF]) else Buffered(d, data[n..])
      case Broken => c.(log := c.log + [Sent(data, false)])
      case _ => Buffered(c.(log := c.log + [Sent(data, true)]), data)
    else Buffered(c.(log := c.log + [Sent(data, true)]), data)
  }

  function AfterShutdown(c: Conn): Conn {
    if c.writing then c else c.(shutWr := true)
  }

  function AfterClose(c: Conn): Conn {
    c.(state := Disconnected, reading := false, writing := false, closes := c.closes + 1, queue := c.queue + [DestroyF])
  }

  function AfterForceClose(c: Conn): Conn {
    if c.state == Connected || c.state == Disconnecting then AfterClose(c) else c
  }

  function AfterWrite(c: Conn, k: Kernel): Conn {
    if !c.writing then c else
    match Outcome(c, c.output, k)
    case Wrote(n) =>
      if n == 0 then c else
      var d := c.(wire := c.wire + c.output[..n], output := c.output[n..]);
      if d.output != [] then d else
      var e := d.(writing := false, queue := d.queue + [WriteCompleteF]);
      if e.state == Disconnecting then AfterShutdown(e) else e
    case _ => c
  }

  // What users may call on the connection from its own loop.
  datatype Action = Send(data: seq<byte>, k: Kernel) | Shutdown | ForceClose

  function AfterAction(c: Conn, a: Action): Conn {
    match a
    case Send(data, k) => if c.state == Connected then AfterSend(c, data, k) else c
    case Shutdown => if c.state == Connected then AfterShutdown(c.(state := Disconnecting, requested := true)) else c
    case ForceClose =>
      if c.state == Connected || c.state == Disconnecting
      then c.(state := Disconnecting, queue := c.queue + [ForceCloseF]) else c
  }

  function AfterActions(c: Conn, actions: seq<Action>): Conn {
    if actions == [] then c else AfterAction(AfterActions(c, actions[..|actions| - 1]), actions[|actions| - 1])
  }

  // handle_read: got is what read_fd returned.
  function AfterRead(c: Conn, got: int, actions: seq<Action>): Conn {
    if got > 0 then AfterActions(c, actions) else if got == 0 then AfterClose(c) else c
  }

  // Channel::handle_event
  datatype Ready = Ready(hup: bool, input: bool, urgent: bool, output: bool)

  function AfterEvent(c: Conn, r: Ready, got: int, actions: seq<Action>, k: Kernel): Conn {
    var c1 := if r.hup && !r.input then AfterClose(c) else c;
    var c2 := if r.input || r.urgent then AfterRead(c1, got, actions) else c1;
    if r.output then AfterWrite(c2, k) else c2
  }

  function AfterFunctor(c: Conn, f: Functor, actions: seq<Action>, k: Kernel): Conn {
    match f
    case SendF(data) => AfterSend(c, data, k)
    case ShutdownF => AfterShutdown(c)
    case ForceCloseF => AfterForceClose(c)
    case DestroyF => c
    case WriteCompleteF => AfterActions(c, actions)
    case HighWaterF => AfterActions(c, actions)
  }

  // ---------- Runs ----------

  // Calls from other threads run up to the point where their functor is about to be
  // queued; the queueing is a step of its own.
  datatype Outside = OtherSend(data: seq<byte>) | OtherShutdown | OtherForceClose | Post(f: Functor)

  function AfterOutside(c: Conn, o: Outside): Conn {
    match o
    case OtherSend(data) => if c.state == Connected then c.(posting := c.posting + multiset{SendF(data)}) else c
    case OtherShutdown =>
      if c.state == Connected
      then c.(state := Disconnecting, requested := true, posting := c.posting + multiset{ShutdownF}) else c
    case OtherForceClose =>
      if c.state == Connected || c.state == Disconnecting
      then c.(state := Disconnecting, posting := c.posting + multiset{ForceCloseF}) else c
    case Post(f) => if f in c.posting then c.(posting := c.posting - multiset{f}, queue := c.queue + [f]) else c
  }

  // The loop runs the functor at the front of its queue.
  function AfterPop(c: Conn, actions: seq<Action>, k: Kernel): Conn {
    if c.queue == [] then c else AfterFunctor(c.(queue := c.queue[1..]), c.queue[0], actions, k)
  }

  // Only a registered channel is polled; a hang-up with urgent data but no input is
  // not considered.
  function AfterPoll(c: Conn, r: Ready, got: int, actions: seq<Action>, k: Kernel): Conn {
    if (c.reading || c.writing) && !(r.hup && r.urgent && !r.input) then AfterEvent(c, r, got, actions, k) else c
  }

  datatype Event =
    | Establish                                  // connect_established
    | InLoop(a: Action)                          // a call from the owner thread
    | Others(o: Outside)
    | Pop(actions: seq<Action>, k: Kernel)
    | Poll(r: Ready, got: int, actions: seq<Action>, k: Kernel)

  function Step(c: Conn, e: Event): Conn {
    match e
    case Establish => if c.state == Connecting then c.(state := Connected, reading := true) else c
    case InLoop(a) => AfterAction(c, a)
    case Others(o) => AfterOutside(c, o)
    case Pop(actions, k) => AfterPop(c, actions, k)
    case Poll(r, got, actions, k) => AfterPoll(c, r, got, actions, k)
  }

  function Run(c: Conn, events: seq<Event>): Conn {
    if events == [] then c else Step(Run(c, events[..|events| - 1]), events[|events| - 1])
  }

  // ---------- What stays true ----------

  function Kept(log: seq<Sent>): seq<byte> {
    if log == [] then [] else
    Kept(log[..|log| - 1]) + if log[|log| - 1].kept then log[|log| - 1].data else []
  }

  predicate Live(c: Conn) {
    c.state == Connected || c.state == Disconnecting
  }

  predicate Valid(c: Conn) {
    && Kept(c.log) == c.wire + c.output
    && (Live(c) ==> c.reading && (c.writing <==> c.output != []))
    && (!Live(c) ==> !c.reading && !c.writing)
    && (c.state == Connecting ==> c.output == [] && c.queue == [] && c.posting == multiset{})
    && (c.shutWr && c.state != Disconnected ==> c.output == [])
    && c.closes == (if c.state == Disconnected then 1 else 0)
    && (c.requested && c.state != Disconnected ==>
          c.state == Disconnecting && (c.output != [] || c.shutWr || ShutdownF in c.queue || ShutdownF in c.posting))
  }

  lemma BufferKeeps(c: Conn, data: seq<byte>, n: nat)
    requires Valid(c) && c.state != Connecting && c.state != Disconnected && !c.shutWr && n <= |data|
    requires n > 0 ==> c.output == []
    ensures Valid(Buffered(c.(wire := c.wire + data[..n], log := c.log + [Sent(data, true)]), data[n..]))
  {
    hide Kept;
    KeptSnoc(c.log, Sent(data, true));
    BytesSplit(c.wire, c.output, data, n);
  }

  lemma BytesSplit(wire: seq<byte>, output: seq<byte>, data: seq<byte>, n: nat)
    requires n <= |data| && (n > 0 ==> output == [])
    ensures (wire + output) + data == (wire + data[..n]) + (output + data[n..])
  {
    assert data == data[..n] + data[n..];
    if n == 0 {
      assert wire + data[..n] == wire && data[n..] == data;
    } else {
      assert wire + output == wire && output + data[n..] == data[n..];
    }
  }

  lemma SendInLoopKeeps(c: Conn, data: seq<byte>, k: Kernel)
    requires Valid(c) && c.state != Connecting
    ensures Valid(AfterSend(c, data, k)) && AfterSend(c, data, k).state == c.state
  {
    hide Kept;
    if c.state != Disconnected {
      KeptSnoc(c.log, Sent(data, false));
      assert data[0..] == data && c.wire + data[..0] == c.wire;
      if !c.writing && c.output == [] {
        match Outcome(c, data, k)
        case Wrote(n) => BufferKeeps(c, data, n);
        case Broken =>
        case _ => BufferKeeps(c, data, 0);
      } else {
        BufferKeeps(c, data, 0);
      }
    }
  }

  lemma KeptSnoc(log: seq<Sent>, s: Sent)
    ensures Kept(log + [s]) == Kept(log) + if s.kept then s.data else []
  {
    assert (log + [s])[..|log|] == log;
  }

  lemma HandleWriteKeeps(c: Conn, k: Kernel)
    requires Valid(c)
    ensures Valid(AfterWrite(c, k)) && AfterWrite(c, k).state == c.state
  {
    hide Kept;
    if c.writing {
      match Outcome(c, c.output, k)
      case Wrote(n) => assert c.wire + c.output == (c.wire + c.output[..n]) + c.output[n..];
      case _ =>
    }
  }

  lemma HandleCloseKeeps(c: Conn)
    requires Valid(c) && Live(c)
    ensures Valid(AfterClose(c))
  {
    hide Kept;
  }

  lemma ActKeeps(c: Conn, a: Action)
    requires Valid(c)
    ensures Valid(AfterAction(c, a)) && (Live(c) ==> Live(AfterAction(c, a))) && (!Live(c) ==> AfterAction(c, a) == c)
  {
    hide Kept, AfterSend;
    if a.Send? && c.state == Connected {
      SendInLoopKeeps(c, a.data, a.k);
    }
  }

  lemma {:induction false} ActAllKeeps(c: Conn, actions: seq<Action>)
    requires Valid(c)
    ensures Valid(AfterActions(c, actions)) && (Live(c) ==> Live(AfterActions(c, actions))) && (!Live(c) ==> AfterActions(c, actions) == c)
  {
    hide Valid, AfterAction;
    if actions != [] {
      ActAllKeeps(c, actions[..|actions| - 1]);
      ActKeeps(AfterActions(c, actions[..|actions| - 1]), actions[|actions| - 1]);
    }
  }

  lemma AfterEventKeeps(c: Conn, r: Ready, got: int, actions: seq<Action>, k: Kernel)
    requires Valid(c) && Live(c) && !(r.hup && r.urgent && !r.input)
    ensures Valid(AfterEvent(c, r, got, actions, k))
  {
    hide Valid, AfterAction, AfterActions, AfterWrite, AfterClose;
    HandleCloseKeeps(c);
    ActAllKeeps(c, actions);
    var c1 := if r.hup && !r.input then AfterClose(c) else c;
    var c2 := if r.input || r.urgent then AfterRead(c1, got, actions) else c1;
    HandleWriteKeeps(c2, k);
  }

  // The functor at the front of the queue has been taken off; only a shutdown functor
  // was holding anything up.
  lemma PopKeeps(c: Conn, actions: seq<Action>, k: Kernel)
    requires Valid(c) && c.queue != []
    ensures Valid(AfterFunctor(c.(queue := c.queue[1..]), c.queue[0], actions, k))
  {
    hide Kept, AfterSend, AfterActions;
    var d := c.(queue := c.queue[1..]);
    assert c.queue == [c.queue[0]] + c.queue[1..];
    match c.queue[0]
    case SendF(data) => SendInLoopKeeps(d, data, k);
    case ShutdownF =>
    case ForceCloseF =>
    case DestroyF =>
    case WriteCompleteF => ActAllKeeps(d, actions);
    case HighWaterF => ActAllKeeps(d, actions);
  }

  // Taking a functor off the queue leaves the connection valid, unless it was the shutdown
  // that the connection is waiting for.
  lemma PoppedIsReady(c: Conn)
    requires Valid(c) && c.queue != []
    ensures c.state != Connecting && (c.queue[0] != ShutdownF ==> Valid(c.(queue := c.queue[1..])))
  {
    hide Kept;
    assert c.queue == [c.queue[0]] + c.queue[1..];
  }

  // A posted payload reaches send_in_loop, a posted shutdown is issued unless output is
  // waiting, and a posted force_close takes a live connection down.
  predicate PopDoes(c: Conn, d: Conn) {
    c.queue != [] && c.state != Disconnected ==>
      match c.queue[0]
      case SendF(data) => |d.log| == |c.log| + 1 && d.log[|c.log|].data == data
      case ShutdownF => d.shutWr || c.output != []
      case ForceCloseF => Live(c) ==> d.state == Disconnected
      case _ => true
  }

  lemma PopDoesIt(c: Conn, actions: seq<Action>, k: Kernel)
    requires Valid(c)
    ensures PopDoes(c, AfterPop(c, actions, k))
  {
    hide Kept, AfterActions;
  }

  lemma OutsideKeeps(c: Conn, o: Outside)
    requires Valid(c)
    ensures Valid(AfterOutside(c, o))
  {
    hide Kept;
  }

  lemma StepKeeps(c: Conn, e: Event)
    requires Valid(c)
    ensures Valid(Step(c, e))
  {
    hide Kept, AfterFunctor, AfterEvent, AfterAction, AfterOutside;
    match e
    case Establish =>
    case InLoop(a) => ActKeeps(c, a);
    case Others(o) => OutsideKeeps(c, o);
    case Pop(actions, k) => if c.queue != [] { PopKeeps(c, actions, k); }
    case Poll(r, got, actions, k) =>
      if (c.reading || c.writing) && !(r.hup && r.urgent && !r.input) {
        AfterEventKeeps(c, r, got, actions, k);
      }
  }

  // In every run: bytes on the wire followed by the output buffer are the kept payloads
  // in order; write interest is on exactly while there is output; SHUT_WR never
  // overtakes output; a requested shutdown is pending or done; one close at most.
  lemma {:induction false} AlwaysValid(highWaterMark: nat, events: seq<Event>)
    ensures Valid(Run(NewConn(highWaterMark), events))
  {
    hide Step;
    if events != [] {
      AlwaysValid(highWaterMark, events[..|events| - 1]);
      StepKeeps(Run(NewConn(highWaterMark), events[..|events| - 1]), events[|events| - 1]);
    }
  }

  // ---------- Direction of travel ----------

  function Rank(s: State): nat {
    match s
    case Connecting => 0
    case Connected => 1
    case Disconnecting => 2
    case Disconnected => 3
  }

  // What never goes back: the state, SHUT_WR, the bytes sent and the payloads logged.
  predicate Onward(c: Conn, d: Conn) {
    && Rank(c.state) <= Rank(d.state)
    && (c.shutWr ==> d.shutWr)
    && c.wire <= d.wire && c.log <= d.log
  }

  lemma OnwardTransitive(a: Conn, b: Conn, c: Conn)
    requires Onward(a, b) && Onward(b, c)
    ensures Onward(a, c)
  {}

  lemma SendOnward(c: Conn, data: seq<byte>, k: Kernel)
    ensures Onward(c, AfterSend(c, data, k))
  {}

  lemma WriteOnward(c: Conn, k: Kernel)
    ensures Onward(c, AfterWrite(c, k))
  {}

  lemma CloseOnward(c: Conn)
    ensures Onward(c, AfterClose(c)) && Onward(c, c)
  {}

  lemma ActionOnward(c: Conn, a: Action)
    ensures Onward(c, AfterAction(c, a))
  {
    hide AfterSend;
    if a.Send? {
      SendOnward(c, a.data, a.k);
    }
  }

  lemma {:induction false} ActionsOnward(c: Conn, actions: seq<Action>)
    ensures Onward(c, AfterActions(c, actions))
  {
    hide AfterAction;
    if actions != [] {
      ActionsOnward(c, actions[..|actions| - 1]);
      ActionOnward(AfterActions(c, actions[..|actions| - 1]), actions[|actions| - 1]);
    }
  }

  lemma EventOnward(c: Conn, r: Ready, got: int, actions: seq<Action>, k: Kernel)
    ensures Onward(c, AfterEvent(c, r, got, actions, k))
  {
    hide AfterActions, AfterClose, AfterWrite, Onward;
    var c1 := if r.hup && !r.input then AfterClose(c) else c;
    var c2 := if r.input || r.urgent then AfterRead(c1, got, actions) else c1;
    CloseOnward(c);
    CloseOnward(c1);
    ActionsOnward(c1, actions);
    OnwardTransitive(c, c1, c2);
    WriteOnward(c2, k);
    OnwardTransitive(c, c2, AfterEvent(c, r, got, actions, k));
  }

  lemma FunctorOnward(c: Conn, f: Functor, actions: seq<Action>, k: Kernel)
    ensures Onward(c, AfterFunctor(c, f, actions, k))
  {
    hide AfterActions, AfterSend, AfterClose;
    CloseOnward(c);
    ActionsOnward(c, actions);
    if f.SendF? {
      SendOnward(c, f.data, k);
    }
  }

  lemma OutsideOnward(c: Conn, o: Outside)
    ensures Onward(c, AfterOutside(c, o))
  {}

  lemma PopOnward(c: Conn, actions: seq<Action>, k: Kernel)
    ensures Onward(c, AfterPop(c, actions, k))
  {
    hide AfterFunctor;
    if c.queue != [] {
      FunctorOnward(c.(queue := c.queue[1..]), c.queue[0], actions, k);
    }
  }

  lemma StepOnward(c: Conn, e: Event)
    ensures Onward(c, Step(c, e))
  {
    hide AfterPop, AfterEvent, AfterAction, AfterOutside;
    match e
    case Establish =>
    case InLoop(a) => ActionOnward(c, a);
    case Others(o) => OutsideOnward(c, o);
    case Pop(actions, k) => PopOnward(c, actions, k);
    case Poll(r, got, actions, k) => EventOnward(c, r, got, actions, k);
  }

  // Over any run the state only moves forward and history is only added to.
  lemma {:induction false} RunOnward(c: Conn, events: seq<Event>)
    ensures Onward(c, Run(c, events))
  {
    hide Step;
    if events != [] {
      RunOnward(c, events[..|events| - 1]);
      StepOnward(Run(c, events[..|events| - 1]), events[|events| - 1]);
    }
  }

  // A payload is taken whole or dropped whole, and dropped only on a broken pipe.
  lemma SendAllOrNothing(c: Conn, data: seq<byte>, k: Kernel)
    requires c.state != Disconnected
    ensures var d := AfterSend(c, data, k);
      || (d.log == c.log + [Sent(data, true)] && d.wire + d.output == c.wire + c.output + data)
      || (d == c.(log := c.log + [Sent(data, false)]) && Outcome(c, data, k) == Broken)
  {
    if !c.writing && c.output == [] && Outcome(c, data, k).Wrote? {
      BytesSplit(c.wire, c.output, data, Outcome(c, data, k).n);
    } else {
      BytesSplit(c.wire, c.output, data, 0);
      assert c.wire + data[..0] == c.wire && data[0..] == data;
    }
  }

  // In every run: while the connection is up, a requested shutdown for which no functor is
  // on its way has been issued as soon as the output is gone, and never before.
  lemma ShutdownIssued(highWaterMark: nat, events: seq<Event>)
    ensures var c := Run(NewConn(highWaterMark), events);
      Live(c) && c.requested && ShutdownF !in c.queue && ShutdownF !in c.posting ==>
        (c.shutWr <==> c.output == [])
  {
    hide Run, Kept;
    AlwaysValid(highWaterMark, events);
  }

  // ---------- The connection as it is updated in place ----------

  class TcpConnection {
    var state: State
    var output: seq<byte>
    var reading: bool
    var writing: bool
    var posting: multiset<Functor>
    var queue: seq<Functor>
    var shutWr: bool
    const highWaterMark: nat
    ghost var requested: bool
    ghost var closes: nat
    ghost var wire: seq<byte>
    ghost var log: seq<Sent>

    ghost function View(): Conn
      reads this
    {
      Conn(state, output, reading, writing, posting, queue, shutWr, requested, closes, wire, log, highWaterMark)
    }

    constructor (highWaterMark: nat)
      ensures View() == NewConn(highWaterMark)
    {
      state, output, reading, writing := Connecting, [], false, false;
      posting, queue, shutWr := multiset{}, [], false;
      this.highWaterMark := highWaterMark;
      requested, closes, wire, log := false, 0, [], [];
    }

    // A payload goes behind everything sent so far, or is dropped whole.
    method SendInLoop(data: seq<byte>, k: Kernel)
      requires Valid(View()) && state != Connecting
      modifies this
      ensures View() == AfterSend(old(View()), data, k)
      ensures Valid(View()) && state == old(state)
      ensures wire + output == old(wire + output) + data || (wire == old(wire) && output == old(output))
    {
      SendInLoopKeeps(View(), data, k);
      if state != Disconnected {
        SendAllOrNothing(View(), data, k);
      }
      SendNow(data, k);
    }

    method SendNow(data: seq<byte>, k: Kernel)
      modifies this
      ensures View() == AfterSend(old(View()), data, k)
    {
      hide Buffered;
      var nwrote, fault := 0, false;
      BufferedNothing(View(), data);
      if state == Disconnected {
        return;
      }
      if !writing && output == [] {
        nwrote, fault := TryWrite(data, k);
      }
      assert nwrote == |data| ==> data[nwrote..] == [];
      FinishSend(data, nwrote, fault);
    }

    // What a write has left over is buffered, unless the connection is broken.
    method FinishSend(data: seq<byte>, nwrote: nat, fault: bool)
      requires nwrote <= |data|
      modifies `log, `queue, `output, `writing
      ensures View() == Finished(old(View()), data, nwrote, fault)
    {
      hide Buffered;
      log := log + [Sent(data, !fault)];
      BufferedNothing(View(), data);
      assert nwrote == |data| ==> data[nwrote..] == [];
      if !fault && |data| - nwrote > 0 {
        BufferRest(data[nwrote..]);
      }
    }

    // The write that send tries when nothing is waiting.
    method TryWrite(data: seq<byte>, k: Kernel) returns (nwrote: nat, fault: bool)
      modifies `wire, `queue
      ensures match Outcome(old(View()), data, k)
        case Wrote(n) => !fault && nwrote == n && wire == old(wire) + data[..n] &&
                         queue == if n == |data| then old(queue) + [WriteCompleteF] else old(queue)
        case Broken => fault && nwrote == 0 && queue == old(queue) && wire == old(wire)
        case _ => !fault && nwrote == 0 && queue == old(queue) && wire == old(wire)
    {
      nwrote, fault := 0, false;
      match SocketWrite(|data|, k)
      case Wrote(n) =>
        nwrote := n;
        wire := wire + data[..n];
        if n == |data| {
          queue := queue + [WriteCompleteF];
        }
      case Broken =>
        fault := true;
      case _ =>
    }

    method BufferRest(rest: seq<byte>)
      requires rest != []
      modifies `queue, `output, `writing
      ensures View() == Buffered(old(View()), rest)
    {
      var history := |output|;
      if history + |rest| >= highWaterMark && history < highWaterMark {
        queue := queue + [HighWaterF];
      }
      output := output + rest;
      if !writing {
        writing := true;
      }
    }

    // What write returns for n bytes.
    function SocketWrite(n: nat, k: Kernel): (r: Kernel)
      reads this
      ensures r.Wrote? ==> r.n <= n
    {
      if shutWr then Broken else if k.Wrote? && k.n > n then Wrote(n) else k
    }

    method ShutdownInLoop()
      modifies `shutWr
      ensures View() == AfterShutdown(old(View()))
    {
      if !writing {
        shutWr := true;
      }
    }

    // Called once in the life of a connection; nothing is sent any more.
    method HandleClose()
      requires Valid(View()) && Live(View())
      modifies this
      ensures View() == AfterClose(old(View()))
      ensures Valid(View()) && closes == 1 && wire == old(wire) && output == old(output)
    {
      hide Kept;
      HandleCloseKeeps(View());
      state := Disconnected;
      reading, writing := false, false;
      closes := closes + 1;
      queue := queue + [DestroyF];
    }

    // Bytes move from the buffer to the wire; the last of them issues a due shutdown.
    method HandleWrite(k: Kernel)
      requires Valid(View())
      modifies this
      ensures View() == AfterWrite(old(View()), k)
      ensures Valid(View()) && state == old(state) && log == old(log)
      ensures wire + output == old(wire + output) && old(wire) <= wire
      ensures state == Disconnecting && output == [] && old(output) != [] ==> shutWr
    {
      hide Kept;
      HandleWriteKeeps(View(), k);
      if writing {
        var r := SocketWrite(|output|, k);
        if r.Wrote? && r.n > 0 {
          wire := wire + output[..r.n];
          output := output[r.n..];
          if output == [] {
            writing := false;
            queue := queue + [WriteCompleteF];
            if state == Disconnecting {
              ShutdownInLoop();
            }
          }
        }
      }
    }

    // send, shutdown and force_close, called from the owner loop.
    method Perform(a: Action)
      requires Valid(View())
      modifies this
      ensures View() == AfterAction(old(View()), a)
      ensures Valid(View()) && (Live(View()) <==> old(Live(View()))) && Onward(old(View()), View())
    {
      hide Kept, AfterSend;
      ActKeeps(View(), a);
      ActionOnward(View(), a);
      match a
      case Send(data, k) =>
        if state == Connected {
          SendInLoop(data, k);
        }
      case Shutdown =>
        if state == Connected {
          state, requested := Disconnecting, true;
          ShutdownInLoop();
        }
      case ForceClose =>
        if state == Connected || state == Disconnecting {
          state := Disconnecting;
          queue := queue + [ForceCloseF];
        }
    }

    method PerformAll(actions: seq<Action>)
      requires Valid(View())
      modifies this
      ensures View() == AfterActions(old(View()), actions)
      ensures Valid(View()) && (Live(View()) <==> old(Live(View()))) && Onward(old(View()), View())
    {
      hide AfterAction, Valid, Live;
      ActionsOnward(View(), actions);
      for i := 0 to |actions|
        invariant Valid(View()) && (Live(View()) <==> old(Live(View())))
        invariant View() == AfterActions(old(View()), actions[..i])
      {
        Perform(actions[i]);
        assert actions[..i + 1][..i] == actions[..i];
      }
      assert actions[..|actions|] == actions;
    }

    // End of file closes the connection, an error changes nothing, and callbacks on data
    // leave it up.
    method HandleRead(got: int, actions: seq<Action>)
      requires Valid(View()) && Live(View())
      modifies this
      ensures View() == AfterRead(old(View()), got, actions)
      ensures Valid(View()) && (Live(View()) <==> got != 0)
      ensures got <= 0 ==> wire + output == old(wire + output)
    {
      hide Valid;
      if got > 0 {
        PerformAll(actions);
      } else if got == 0 {
        HandleClose();
      }
    }

    // The connection goes down exactly on a hang-up without input, or at end of file.
    method HandleEvent(r: Ready, got: int, actions: seq<Action>, k: Kernel)
      requires Valid(View()) && Live(View()) && !(r.hup && r.urgent && !r.input)
      modifies this
      ensures View() == AfterEvent(old(View()), r, got, actions, k)
      ensures Valid(View()) && Onward(old(View()), View())
      ensures Live(View()) <==> !(r.hup && !r.input) && !((r.input || r.urgent) && got == 0)
    {
      hide AfterActions, AfterWrite, Valid;
      EventOnward(View(), r, got, actions, k);
      if r.hup && !r.input {
        HandleClose();
      }
      if r.input || r.urgent {
        HandleRead(got, actions);
      }
      if r.output {
        HandleWrite(k);
      }
    }

    // A functor that is not a shutdown runs in a connection as valid as before.
    method RunFunctor(f: Functor, actions: seq<Action>, k: Kernel)
      requires f != ShutdownF ==> Valid(View()) && (f.SendF? ==> state != Connecting)
      modifies this
      ensures View() == AfterFunctor(old(View()), f, actions, k)
    {
      hide AfterActions, AfterSend, Kept;
      match f
      case SendF(data) => SendInLoop(data, k);
      case ShutdownF => ShutdownInLoop();
      case ForceCloseF =>
        if state == Connected || state == Disconnecting {
          HandleClose();
        }
      case DestroyF =>
      case WriteCompleteF => PerformAll(actions);
      case HighWaterF => PerformAll(actions);
    }

    method CallFromOutside(o: Outside)
      requires Valid(View()) && !o.Post?
      modifies `state, `requested, `posting
      ensures View() == AfterOutside(old(View()), o)
      ensures Valid(View()) && Onward(old(View()), View())
    {
      hide Valid;
      OutsideKeeps(View(), o);
      OutsideOnward(View(), o);
      PrepareFunctor(o);
    }

    method PrepareFunctor(o: Outside)
      requires !o.Post?
      modifies `state, `requested, `posting
      ensures View() == AfterOutside(old(View()), o)
    {
      match o
      case OtherSend(data) =>
        if state == Connected {
          posting := posting + multiset{SendF(data)};
        }
      case OtherShutdown =>
        if state == Connected {
          state, requested := Disconnecting, true;
          posting := posting + multiset{ShutdownF};
        }
      case OtherForceClose =>
        if state == Connected || state == Disconnecting {
          state := Disconnecting;
          posting := posting + multiset{ForceCloseF};
        }
    }

    method QueueFunctor(f: Functor)
      modifies `posting, `queue
      ensures View() == AfterOutside(old(View()), Post(f))
    {
      if f in posting {
        posting := posting - multiset{f};
        queue := queue + [f];
      }
    }

    method RunNext(actions: seq<Action>, k: Kernel)
      requires Valid(View())
      modifies this
      ensures View() == AfterPop(old(View()), actions, k)
      ensures Valid(View()) && Onward(old(View()), View())
      ensures PopDoes(old(View()), View())
    {
      hide AfterFunctor, Valid, PopDoes;
      PopOnward(View(), actions, k);
      PopDoesIt(View(), actions, k);
      if queue != [] {
        PopKeeps(View(), actions, k);
        PoppedIsReady(View());
        var f := queue[0];
        queue := queue[1..];
        RunFunctor(f, actions, k);
      }
    }

    method Handle(e: Event)
      requires Valid(View())
      modifies this
      ensures View() == Step(old(View()), e)
      ensures Valid(View()) && Onward(old(View()), View())
    {
      hide AfterPop, AfterEvent, AfterAction, AfterOutside, Kept;
      StepKeeps(View(), e);
      StepOnward(View(), e);
      match e
      case Establish =>
        if state == Connecting {
          state, reading := Connected, true;
        }
      case InLoop(a) => Perform(a);
      case Others(o) =>
        if o.Post? {
          QueueFunctor(o.f);
        } else {
          CallFromOutside(o);
        }
      case Pop(actions, k) => RunNext(actions, k);
      case Poll(r, got, actions, k) =>
        if (reading || writing) && !(r.hup && r.urgent && !r.input) {
          HandleEvent(r, got, actions, k);
        }
    }

    // A whole life of the connection.
    method Drive(events: seq<Event>)
      requires View() == NewConn(highWaterMark)
      modifies this
      ensures View() == Run(old(View()), events) && Valid(View())
    {
      hide Step, Valid;
      AlwaysValid(highWaterMark, []);
      for i := 0 to |events|
        invariant Valid(View())
        invariant View() == Run(old(View()), events[..i])
      {
        Handle(events[i]);
        assert events[..i + 1][..i] == events[..i];
      }
      assert events[..|events|] == events;
    }
  }

  function Finished(c: Conn, data: seq<byte>, nwrote: nat, fault: bool): Conn
    requires nwrote <= |data|
  {
    var d := c.(log := c.log + [Sent(data, !fault)]);
    if fault then d else Buffered(d, data[nwrote..])
  }

  lemma BufferedNothing(c: Conn, data: seq<byte>)
    ensures forall d :: Buffered(d, []) == d
    ensures c.wire + data[..0] == c.wire && data[0..] == data
  {}
}
