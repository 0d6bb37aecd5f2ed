/** What a TcpConnection does with the calls made on it, read off the calls themselves:
    every payload, shutdown and close request of a run is accounted for
    (src/TcpConnection.cc). */
module TcpTraces {
  import opened Bytes
  import opened TcpConnections

  // ---------- Payloads in the order of processing ----------

  function Payloads(log: seq<Sent>): seq<seq<byte>> {
    seq(|log|, i requires 0 <= i < |log| => log[i].data)
  }

  // The payloads that user code in the owner loop passes to send while connected.
  function SentBy(c: Conn, actions: seq<Action>): seq<seq<byte>> {
    if actions == [] then [] else
    var front, last := actions[..|actions| - 1], actions[|actions| - 1];
    SentBy(c, front) + if last.Send? && AfterActions(c, front).state == Connected then [last.data] else []
  }

  // The payloads that an event brings to send_in_loop: those of user code, and one whose
  // functor is at the front of the queue.
  function Processed(c: Conn, e: Event): seq<seq<byte>> {
    match e
    case InLoop(a) => SentBy(c, [a])
    case Pop(actions, _) =>
      if c.queue == [] then []
      else if c.queue[0].SendF? then if c.state == Disconnected then [] else [c.queue[0].data]
      else if c.queue[0].WriteCompleteF? || c.queue[0].HighWaterF? then SentBy(c.(queue := c.queue[1..]), actions)
      else []
    case Poll(r, got, actions, _) => if Reads(c, r) && got > 0 then SentBy(c, actions) else []
    case _ => []
  }

  // The dispatcher calls the read handler.
  predicate Reads(c: Conn, r: Ready) {
    (c.reading || c.writing) && (r.input || (r.urgent && !r.hup))
  }

  function AllProcessed(c: Conn, events: seq<Event>): seq<seq<byte>> {
    if events == [] then [] else
    AllProcessed(c, events[..|events| - 1]) + Processed(Run(c, events[..|events| - 1]), events[|events| - 1])
  }

  lemma PayloadsSnoc(log: seq<Sent>, s: Sent)
    ensures Payloads(log + [s]) == Payloads(log) + [s.data]
  {
  }

  lemma SendLogs(c: Conn, data: seq<byte>, k: Kernel)
    ensures Payloads(AfterSend(c, data, k).log) == Payloads(c.log) + if c.state == Disconnected then [] else [data]
  {
    hide Payloads;
    PayloadsSnoc(c.log, Sent(data, true));
    PayloadsSnoc(c.log, Sent(data, false));
  }

  lemma {:induction false} ActionsLog(c: Conn, actions: seq<Action>)
    ensures Payloads(AfterActions(c, actions).log) == Payloads(c.log) + SentBy(c, actions)
  {
    hide Payloads, AfterSend;
    if actions != [] {
      var front, last := actions[..|actions| - 1], actions[|actions| - 1];
      ActionsLog(c, front);
      if last.Send? {
        SendLogs(AfterActions(c, front), last.data, last.k);
      }
    }
  }

  lemma OneAction(c: Conn, a: Action)
    ensures AfterActions(c, [a]) == AfterAction(c, a)
  {
    hide AfterAction;
    assert [a][..0] == [];
  }

  lemma WriteLogs(c: Conn, k: Kernel)
    ensures AfterWrite(c, k).log == c.log && AfterClose(c).log == c.log
  {
  }

  lemma EventLogs(c: Conn, r: Ready, got: int, actions: seq<Action>, k: Kernel)
    requires !(r.hup && r.urgent && !r.input) && (c.reading || c.writing)
    ensures Payloads(AfterEvent(c, r, got, actions, k).log) ==
      Payloads(c.log) + if Reads(c, r) && got > 0 then SentBy(c, actions) else []
  {
    hide Payloads, AfterWrite, AfterActions, AfterClose;
    ActionsLog(c, actions);
    WriteLogs(c, k);
    var c1 := if r.hup && !r.input then AfterClose(c) else c;
    var c2 := if r.input || r.urgent then AfterRead(c1, got, actions) else c1;
    WriteLogs(c1, k);
    WriteLogs(c2, k);
  }

  lemma PopLogs(c: Conn, actions: seq<Action>, k: Kernel)
    ensures Payloads(AfterPop(c, actions, k).log) == Payloads(c.log) + Processed(c, Pop(actions, k))
  {
    hide Payloads, AfterSend, AfterActions, SentBy;
    if c.queue != [] {
      var d := c.(queue := c.queue[1..]);
      ActionsLog(d, actions);
      if c.queue[0].SendF? {
        SendLogs(d, c.queue[0].data, k);
      }
    }
  }

  lemma StepLogs(c: Conn, e: Event)
    ensures Payloads(Step(c, e).log) == Payloads(c.log) + Processed(c, e)
  {
    hide Payloads, AfterEvent, AfterPop, AfterAction, SentBy;
    match e
    case InLoop(a) =>
      ActionsLog(c, [a]);
      OneAction(c, a);
    case Pop(actions, k) => PopLogs(c, actions, k);
    case Poll(r, got, actions, k) =>
      if (c.reading || c.writing) && !(r.hup && r.urgent && !r.input) {
        EventLogs(c, r, got, actions, k);
      }
    case _ =>
  }

  // The log is exactly what was brought to send_in_loop, in that order.
  lemma {:induction false} LogIsProcessed(c: Conn, events: seq<Event>)
    ensures Payloads(Run(c, events).log) == Payloads(c.log) + AllProcessed(c, events)
  {
    hide Payloads, Step, Processed;
    if events != [] {
      LogIsProcessed(c, events[..|events| - 1]);
      StepLogs(Run(c, events[..|events| - 1]), events[|events| - 1]);
    }
  }

  // ---------- Payloads from other threads ----------

  // Functors that will send d, not yet queued or in the queue.
  function OnTheWay(c: Conn, d: seq<byte>): nat {
    c.posting[SendF(d)] + multiset(c.queue)[SendF(d)]
  }

  // d differs from c by functors added at the end of the queue, none of which sends.
  ghost predicate AtEnd(c: Conn, d: Conn) {
    && d.posting == c.posting && c.queue <= d.queue
    && forall i :: |c.queue| <= i < |d.queue| ==> !d.queue[i].SendF?
  }

  lemma AtEndTransitive(a: Conn, b: Conn, c: Conn)
    requires AtEnd(a, b) && AtEnd(b, c)
    ensures AtEnd(a, c)
  {
  }

  lemma SendAtEnd(c: Conn, data: seq<byte>, k: Kernel)
    ensures AtEnd(c, AfterSend(c, data, k))
  {
  }

  lemma WriteAtEnd(c: Conn, k: Kernel)
    ensures AtEnd(c, AfterWrite(c, k))
  {
  }

  lemma CloseAtEnd(c: Conn)
    ensures AtEnd(c, AfterClose(c)) && AtEnd(c, c)
  {
  }

  lemma ActionAtEnd(c: Conn, a: Action)
    ensures AtEnd(c, AfterAction(c, a))
  {
    hide AfterSend;
    if a.Send? {
      SendAtEnd(c, a.data, a.k);
    }
  }

  lemma {:induction false} ActionsAtEnd(c: Conn, actions: seq<Action>)
    ensures AtEnd(c, AfterActions(c, actions))
  {
    hide AfterAction, AtEnd;
    CloseAtEnd(c);
    if actions != [] {
      var front, last := actions[..|actions| - 1], actions[|actions| - 1];
      ActionsAtEnd(c, front);
      ActionAtEnd(AfterActions(c, front), last);
      AtEndTransitive(c, AfterActions(c, front), AfterActions(c, actions));
    }
  }

  lemma EventAtEnd(c: Conn, r: Ready, got: int, actions: seq<Action>, k: Kernel)
    ensures AtEnd(c, AfterEvent(c, r, got, actions, k))
  {
    hide AfterWrite, AfterActions, AfterClose, AtEnd;
    var c1 := if r.hup && !r.input then AfterClose(c) else c;
    var c2 := if r.input || r.urgent then AfterRead(c1, got, actions) else c1;
    CloseAtEnd(c);
    CloseAtEnd(c1);
    ActionsAtEnd(c1, actions);
    AtEndTransitive(c, c1, c2);
    WriteAtEnd(c2, k);
    CloseAtEnd(c2);
    AtEndTransitive(c, c2, if r.output then AfterWrite(c2, k) else c2);
  }

  lemma FunctorAtEnd(c: Conn, f: Functor, actions: seq<Action>, k: Kernel)
    ensures AtEnd(c, AfterFunctor(c, f, actions, k))
  {
    hide AfterSend, AfterActions, AfterClose, AtEnd;
    CloseAtEnd(c);
    ActionsAtEnd(c, actions);
    if f.SendF? {
      SendAtEnd(c, f.data, k);
    } else if f.ShutdownF? {
      ShutdownAtEnd(c);
    }
  }

  lemma ShutdownAtEnd(c: Conn)
    ensures AtEnd(c, AfterShutdown(c))
  {
  }

  lemma AtEndCounts(c: Conn, d: Conn, x: seq<byte>)
    requires AtEnd(c, d)
    ensures OnTheWay(d, x) == OnTheWay(c, x)
  {
    var more := d.queue[|c.queue|..];
    assert d.queue == c.queue + more;
    assert SendF(x) !in more;
    assert multiset(d.queue) == multiset(c.queue) + multiset(more);
  }

  lemma PopTakes(c: Conn, actions: seq<Action>, k: Kernel, d: seq<byte>)
    requires c.queue != []
    ensures OnTheWay(AfterPop(c, actions, k), d) + (if c.queue[0] == SendF(d) then 1 else 0) == OnTheWay(c, d)
  {
    hide AfterFunctor, AtEnd;
    var t := c.(queue := c.queue[1..]);
    assert c.queue == [c.queue[0]] + c.queue[1..];
    assert multiset(c.queue) == multiset{c.queue[0]} + multiset(c.queue[1..]);
    FunctorAtEnd(t, c.queue[0], actions, k);
    AtEndCounts(t, AfterPop(c, actions, k), d);
  }

  // send of another thread, on a connection that is up.
  function Given(c: Conn, e: Event): seq<seq<byte>> {
    if e.Others? && e.o.OtherSend? && c.state == Connected then [e.o.data] else []
  }

  // The payload of the functor that an event takes off the queue.
  function Taken(c: Conn, e: Event): seq<seq<byte>> {
    if e.Pop? && c.queue != [] && c.queue[0].SendF? then [c.queue[0].data] else []
  }

  function AllGiven(c: Conn, events: seq<Event>): seq<seq<byte>> {
    if events == [] then [] else
    AllGiven(c, events[..|events| - 1]) + Given(Run(c, events[..|events| - 1]), events[|events| - 1])
  }

  function AllTaken(c: Conn, events: seq<Event>): seq<seq<byte>> {
    if events == [] then [] else
    AllTaken(c, events[..|events| - 1]) + Taken(Run(c, events[..|events| - 1]), events[|events| - 1])
  }

  lemma StepMoves(c: Conn, e: Event, d: seq<byte>)
    ensures OnTheWay(Step(c, e), d) + multiset(Taken(c, e))[d] == OnTheWay(c, d) + multiset(Given(c, e))[d]
  {
    hide AfterEvent, AfterFunctor, AfterAction, AfterOutside, OnTheWay, AtEnd;
    match e
    case InLoop(a) =>
      ActionAtEnd(c, a);
      AtEndCounts(c, AfterAction(c, a), d);
    case Pop(actions, k) => if c.queue != [] { PopTakes(c, actions, k, d); }
    case Poll(r, got, actions, k) =>
      EventAtEnd(c, r, got, actions, k);
      AtEndCounts(c, AfterEvent(c, r, got, actions, k), d);
    case Others(o) => OutsideMoves(c, o, d);
    case Establish => EstablishMoves(c, d);
  }

  lemma EstablishMoves(c: Conn, d: seq<byte>)
    ensures OnTheWay(Step(c, Establish), d) == OnTheWay(c, d)
  {
  }

  lemma PostMoves(c: Conn, f: Functor, d: seq<byte>)
    ensures OnTheWay(AfterOutside(c, Post(f)), d) == OnTheWay(c, d)
  {
    if f in c.posting {
      assert multiset(c.queue + [f]) == multiset(c.queue) + multiset{f};
    }
  }

  lemma OutsideMoves(c: Conn, o: Outside, d: seq<byte>)
    ensures OnTheWay(AfterOutside(c, o), d) == OnTheWay(c, d) + multiset(Given(c, Others(o)))[d]
  {
    if o.Post? {
      PostMoves(c, o.f, d);
    }
  }

  // Every payload given by another thread is taken off the queue once, or is still on its
  // way; and one that is taken off before the connection is down is processed.
  lemma {:induction false} GivenIsTaken(highWaterMark: nat, events: seq<Event>, d: seq<byte>)
    ensures var c := NewConn(highWaterMark);
      multiset(AllGiven(c, events))[d] == multiset(AllTaken(c, events))[d] + OnTheWay(Run(c, events), d)
  {
    hide Step, Taken, Given, OnTheWay;
    var c := NewConn(highWaterMark);
    if events == [] {
      NothingYet(c, d);
    } else {
      var front, last := events[..|events| - 1], events[|events| - 1];
      GivenIsTaken(highWaterMark, front, d);
      StepMoves(Run(c, front), last, d);
    }
  }

  lemma NothingYet(c: Conn, d: seq<byte>)
    requires c.queue == [] && c.posting == multiset{}
    ensures OnTheWay(c, d) == 0
  {
  }

  lemma TakenIsProcessed(c: Conn, e: Event)
    requires c.state != Disconnected && Taken(c, e) != []
    ensures Processed(c, e) == Taken(c, e)
  {
  }

  // ---------- Order of the queue ----------

  // First in, first out: functors are only added at the end and taken from the front.
  lemma QueueInOrder(c: Conn, e: Event)
    ensures (if e.Pop? && c.queue != [] then c.queue[1..] else c.queue) <= Step(c, e).queue
  {
    hide AfterEvent, AfterFunctor, AfterAction;
    match e
    case InLoop(a) => ActionAtEnd(c, a);
    case Pop(actions, k) => if c.queue != [] { FunctorAtEnd(c.(queue := c.queue[1..]), c.queue[0], actions, k); }
    case Poll(r, got, actions, k) => EventAtEnd(c, r, got, actions, k);
    case _ =>
  }

  // ---------- Shutdown and close requests ----------

  // Whether user code in the owner loop calls shutdown while connected.
  predicate ShutBy(c: Conn, actions: seq<Action>) {
    actions != [] &&
    var front, last := actions[..|actions| - 1], actions[|actions| - 1];
    ShutBy(c, front) || (last.Shutdown? && AfterActions(c, front).state == Connected)
  }

  predicate Shuts(c: Conn, e: Event) {
    match e
    case InLoop(a) => ShutBy(c, [a])
    case Others(o) => o.OtherShutdown? && c.state == Connected
    case Pop(actions, _) =>
      c.queue != [] && (c.queue[0].WriteCompleteF? || c.queue[0].HighWaterF?) &&
      ShutBy(c.(queue := c.queue[1..]), actions)
    case Poll(r, got, actions, _) => Reads(c, r) && got > 0 && ShutBy(c, actions)
    case Establish => false
  }

  predicate EverShuts(c: Conn, events: seq<Event>) {
    events != [] &&
    (EverShuts(c, events[..|events| - 1]) || Shuts(Run(c, events[..|events| - 1]), events[|events| - 1]))
  }

  lemma SendKeepsRequest(c: Conn, data: seq<byte>, k: Kernel)
    ensures AfterSend(c, data, k).requested == c.requested && AfterWrite(c, k).requested == c.requested
    ensures AfterClose(c).requested == c.requested
  {
  }

  lemma {:induction false} ActionsRequest(c: Conn, actions: seq<Action>)
    ensures AfterActions(c, actions).requested <==> c.requested || ShutBy(c, actions)
  {
    hide AfterSend;
    if actions != [] {
      var front, last := actions[..|actions| - 1], actions[|actions| - 1];
      ActionsRequest(c, front);
      if last.Send? {
        SendKeepsRequest(AfterActions(c, front), last.data, last.k);
      }
    }
  }

  lemma EventRequests(c: Conn, r: Ready, got: int, actions: seq<Action>, k: Kernel)
    requires !(r.hup && r.urgent && !r.input) && (c.reading || c.writing)
    ensures AfterEvent(c, r, got, actions, k).requested <==>
            c.requested || (Reads(c, r) && got > 0 && ShutBy(c, actions))
  {
    hide AfterWrite, AfterActions, AfterClose;
    ActionsRequest(c, actions);
    var c1 := if r.hup && !r.input then AfterClose(c) else c;
    var c2 := if r.input || r.urgent then AfterRead(c1, got, actions) else c1;
    SendKeepsRequest(c, [], k);
    SendKeepsRequest(c1, [], k);
    SendKeepsRequest(c2, [], k);
  }

  lemma StepRequests(c: Conn, e: Event)
    ensures Step(c, e).requested <==> c.requested || Shuts(c, e)
  {
    hide AfterEvent, AfterAction, AfterActions, AfterSend, AfterClose, ShutBy;
    match e
    case InLoop(a) =>
      ActionsRequest(c, [a]);
      OneAction(c, a);
    case Pop(actions, k) =>
      if c.queue != [] {
        var t := c.(queue := c.queue[1..]);
        ActionsRequest(t, actions);
        SendKeepsRequest(t, if c.queue[0].SendF? then c.queue[0].data else [], k);
      }
    case Poll(r, got, actions, k) =>
      if (c.reading || c.writing) && !(r.hup && r.urgent && !r.input) {
        EventRequests(c, r, got, actions, k);
      }
    case _ =>
  }

  // Shutdown has been requested exactly when some call asked for it on a connection that
  // was up.
  lemma {:induction false} RequestedExactly(highWaterMark: nat, events: seq<Event>)
    ensures var c := NewConn(highWaterMark); Run(c, events).requested <==> EverShuts(c, events)
  {
    hide Step, Shuts;
    if events != [] {
      RequestedExactly(highWaterMark, events[..|events| - 1]);
      StepRequests(Run(NewConn(highWaterMark), events[..|events| - 1]), events[|events| - 1]);
    }
  }

  // force_close on a live connection, from whichever thread, puts one functor on its way;
  // that functor takes a live connection down, with one close callback.
  lemma ForceCloseCloses(c: Conn, actions: seq<Action>, k: Kernel)
    requires Valid(c) && Live(c)
    ensures Step(c, InLoop(ForceClose)).queue == c.queue + [ForceCloseF]
    ensures Step(c, Others(OtherForceClose)).posting == c.posting + multiset{ForceCloseF}
    ensures c.queue != [] && c.queue[0] == ForceCloseF ==>
      Step(c, Pop(actions, k)).state == Disconnected && Step(c, Pop(actions, k)).closes == 1
  {
    hide Kept;
  }

  // An event that takes the connection down writes nothing: the close comes before the
  // write handler.
  lemma ClosingWritesNothing(c: Conn, r: Ready, got: int, actions: seq<Action>, k: Kernel)
    requires Valid(c) && Live(c) && !(r.hup && r.urgent && !r.input)
    requires !Live(AfterEvent(c, r, got, actions, k))
    ensures AfterEvent(c, r, got, actions, k).wire == c.wire
    ensures AfterEvent(c, r, got, actions, k).output == c.output
  {
    hide Kept, AfterSend, AfterActions;
    HandleCloseKeeps(c);
    ActAllKeeps(c, actions);
  }

  // Otherwise what callbacks send goes behind what was waiting, and the write handler
  // moves bytes after them.
  lemma EventKeepsStream(c: Conn, r: Ready, got: int, actions: seq<Action>, k: Kernel)
    requires Valid(c) && Live(c) && !(r.hup && r.urgent && !r.input)
    requires Reads(c, r) && got > 0
    ensures var d, e := AfterActions(c, actions), AfterEvent(c, r, got, actions, k);
      && e.wire + e.output == d.wire + d.output && d.wire <= e.wire
      && (!r.output ==> e == d)
  {
    hide Kept, AfterSend, AfterActions;
    ActAllKeeps(c, actions);
    var d := AfterActions(c, actions);
    if d.writing && Outcome(d, d.output, k).Wrote? {
      var n := Outcome(d, d.output, k).n;
      assert d.wire + d.output == (d.wire + d.output[..n]) + d.output[n..];
    }
  }

  // ---------- Announcements ----------

  // send announces that everything was written, or that the buffer crossed the high-water
  // mark, exactly when it is so.
  lemma SendAnnounces(c: Conn, data: seq<byte>, k: Kernel)
    requires Valid(c) && Live(c)
    ensures var d := AfterSend(c, data, k);
      d.queue == c.queue
        + (if |c.output| < c.highWaterMark <= |d.output| then [HighWaterF] else [])
        + (if c.output == [] && |d.wire| == |c.wire| + |data| && Outcome(c, data, k).Wrote? then [WriteCompleteF] else [])
  {
    hide Kept;
  }

  // Draining announces completion exactly when it empties the buffer.
  lemma WriteAnnounces(c: Conn, k: Kernel)
    requires Valid(c)
    ensures var d := AfterWrite(c, k);
      d.queue == c.queue + if c.output != [] && d.output == [] then [WriteCompleteF] else []
  {
    hide Kept;
  }

  // Going down queues the destruction of the connection.
  lemma CloseQueuesDestruction(c: Conn, e: Event)
    requires Valid(c)
    ensures Live(c) && !Live(Step(c, e)) ==> DestroyF in Step(c, e).queue
  {
    hide Kept, AfterSend, AfterWrite, AfterActions;
    match e
    case InLoop(a) => ActKeeps(c, a);
    case Others(o) => OutsideKeepsLive(c, o);
    case Pop(actions, k) => PopDestroys(c, actions, k);
    case Poll(r, got, actions, k) =>
      if (c.reading || c.writing) && !(r.hup && r.urgent && !r.input) {
        EventDestroys(c, r, got, actions, k);
      }
    case Establish =>
  }

  lemma OutsideKeepsLive(c: Conn, o: Outside)
    ensures Live(c) ==> Live(AfterOutside(c, o))
  {
  }

  lemma PopDestroys(c: Conn, actions: seq<Action>, k: Kernel)
    requires Valid(c)
    ensures Live(c) && !Live(AfterPop(c, actions, k)) ==> DestroyF in AfterPop(c, actions, k).queue
  {
    hide Kept, AfterSend, AfterActions;
    if c.queue != [] {
      var t := c.(queue := c.queue[1..]);
      PoppedIsReady(c);
      if c.queue[0].SendF? {
        SendInLoopKeeps(t, c.queue[0].data, k);
      } else if c.queue[0].WriteCompleteF? || c.queue[0].HighWaterF? {
        ActAllKeeps(t, actions);
      }
    }
  }

  lemma EventDestroys(c: Conn, r: Ready, got: int, actions: seq<Action>, k: Kernel)
    requires Valid(c) && Live(c) && !(r.hup && r.urgent && !r.input)
    ensures !Live(AfterEvent(c, r, got, actions, k)) ==> DestroyF in AfterEvent(c, r, got, actions, k).queue
  {
    hide Kept, AfterSend, AfterActions, AfterWrite, Valid;
    HandleCloseKeeps(c);
    ActAllKeeps(c, actions);
    var c1 := if r.hup && !r.input then AfterClose(c) else c;
    var c2 := if r.input || r.urgent then AfterRead(c1, got, actions) else c1;
    WriteAtEnd(c2, k);
    HandleWriteKeeps(c2, k);
    if !Live(c2) {
      CloseDestroys(c);
      assert DestroyF in c2.queue;
      PrefixHas(c2.queue, AfterWrite(c2, k).queue, DestroyF);
    }
  }

  lemma CloseDestroys(c: Conn)
    ensures DestroyF in AfterClose(c).queue
  {
    assert AfterClose(c).queue[|c.queue|] == DestroyF;
  }

  lemma PrefixHas(a: seq<Functor>, b: seq<Functor>, f: Functor)
    requires a <= b && f in a
    ensures f in b
  {
    var i :| 0 <= i < |a| && a[i] == f;
    assert b[i] == f;
  }
}
