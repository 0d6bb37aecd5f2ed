/** What becomes of a timer that was asked for: from add_timer to its last run
    (src/TimerPool.cc, src/Timer.cc), over whole runs of the pool. */
module TimerRequests {
  import opened TimerPools

  // The batches in which the timer named s has run, in order.
  function RunsOf(runs: seq<Run>, s: nat): seq<nat> {
    if runs == [] then [] else
    var last := runs[|runs| - 1];
    RunsOf(runs[..|runs| - 1], s) + if last.sequence == s then [last.batchNo] else []
  }

  lemma {:induction false} RunsOfConcat(a: seq<Run>, b: seq<Run>, s: nat)
    ensures RunsOf(a + b, s) == RunsOf(a, s) + RunsOf(b, s)
    decreases |b|
  {
    if b == [] {
      assert a + b == a;
    } else {
      RunsOfConcat(a, b[..|b| - 1], s);
      assert (a + b)[..|a + b| - 1] == a + b[..|b| - 1];
    }
  }

  // ---------- A timer in the pool ----------

  // The timer t at address a is listed under its expiry.
  predicate Waits(p: Pool, a: Addr, t: Timer) {
    a in p.heap && p.heap[a] == t && Entry(t.expired, a) in p.timers
  }

  lemma ApplyKeepsWaiting(p: Pool, op: Op, a: Addr, t: Timer)
    requires Open(p) && Waits(p, a, t) && op != OpCancel(Id(a, t.sequence))
    ensures Waits(Apply(p, op), a, t)
  {
    hide NamedOnce, CancelsStick, RunsRespectCancels, Min;
    match op
    case OpAllocate(_, _, _) =>
    case OpAdd(_) =>
    case OpCancel(id) => ActiveMeansIndexed(p, id);
  }

  lemma {:induction false} ApplyAllKeepsWaiting(p: Pool, ops: seq<Op>, a: Addr, t: Timer)
    requires Open(p) && Waits(p, a, t) && OpCancel(Id(a, t.sequence)) !in ops
    ensures Waits(ApplyAll(p, ops), a, t)
  {
    hide Valid, Apply, Waits;
    if ops != [] {
      var front := ops[..|ops| - 1];
      ApplyAllKeepsWaiting(p, front, a, t);
      ApplyAllKeeps(p, front);
      ApplyKeepsWaiting(ApplyAll(p, front), ops[|ops| - 1], a, t);
    }
  }

  lemma {:induction false} CallsKeepWaiting(p: Pool, scripts: seq<seq<Op>>, n: nat, a: Addr, t: Timer)
    requires Open(p) && Waits(p, a, t) && !CancelledBy(scripts, Id(a, t.sequence), n)
    ensures Waits(Calls(p, scripts, n), a, t)
  {
    hide Valid, ApplyAll;
    if n > 0 {
      var c := Calls(p, scripts, n - 1);
      CallsKeepWaiting(p, scripts, n - 1, a, t);
      CallsKeep(p, scripts, n - 1);
      CallKeeps(c, n - 1);
      ApplyAllKeepsWaiting(Call(c, n - 1), Script(scripts, n - 1), a, t);
    }
  }

  // ---------- Runs of a batch ----------

  // A batch that does not hold the timer does not run it; one that does runs it once.
  lemma {:induction false} BatchRunsOf(p: Pool, b: seq<Entry>, n: nat, s: nat, e: Entry)
    requires NamedOnce(p.heap, p.nextSequence, p.freed)
    requires forall f :: f in b ==> f.addr in p.heap && Key(p.heap, f.addr) == f
    requires forall i, j :: 0 <= i < j < |b| ==> b[i] != b[j]
    requires e in b ==> p.heap[e.addr].sequence == s
    requires e !in b ==> forall f :: f in b ==> p.heap[f.addr].sequence != s
    ensures RunsOf(BatchRuns(p, b, n), s) == if e in b then [n] else []
    decreases |b|
  {
    if b != [] {
      var front, last := b[..|b| - 1], b[|b| - 1];
      assert b == front + [last];
      assert BatchRuns(p, b, n) == BatchRuns(p, front, n) + [Run(p.heap[last.addr].sequence, n)];
      if last == e {
        assert forall f :: f in front ==> f != e;
        NoneRuns(p, front, n, s);
      } else {
        BatchRunsOf(p, front, n, s, e);
      }
    }
  }

  lemma {:induction false} NoneRuns(p: Pool, b: seq<Entry>, n: nat, s: nat)
    requires forall f :: f in b ==> f.addr in p.heap && p.heap[f.addr].sequence != s
    ensures RunsOf(BatchRuns(p, b, n), s) == []
    decreases |b|
  {
    if b != [] {
      var front, last := b[..|b| - 1], b[|b| - 1];
      assert b == front + [last];
      assert BatchRuns(p, b, n) == BatchRuns(p, front, n) + [Run(p.heap[last.addr].sequence, n)];
      NoneRuns(p, front, n, s);
    }
  }

  // How often a firing runs the timer listed as e.
  lemma FiringRuns(p: Pool, now: int, scripts: seq<seq<Op>>, a: Addr, t: Timer)
    requires Quiet(p) && Waits(p, a, t)
    ensures RunsOf(Fire(p, now, scripts).runs, t.sequence) ==
      RunsOf(p.runs, t.sequence) + if t.expired <= now then [p.batchNo + 1] else []
  {
    hide Fire, Due, Sorted, RunsOf, BatchRuns, IndexesAgree, Partitioned, NamedOnce, CancelsStick, RunsRespectCancels;
    BatchExact(p, now, scripts);
    var b := Sorted(Due(p, now));
    RunsOfConcat(p.runs, BatchRuns(p, b, p.batchNo + 1), t.sequence);
    ListedOnce(p, b, a, t);
    BatchRunsOf(p, b, p.batchNo + 1, t.sequence, Entry(t.expired, a));
  }

  lemma ListedOnce(p: Pool, b: seq<Entry>, a: Addr, t: Timer)
    requires Valid(p) && Waits(p, a, t) && forall e :: e in b ==> e in p.timers
    ensures NamedOnce(p.heap, p.nextSequence, p.freed)
    ensures forall f :: f in b ==> f.addr in p.heap && Key(p.heap, f.addr) == f
    ensures forall f :: f in b && f != Entry(t.expired, a) ==> p.heap[f.addr].sequence != t.sequence
  {
    hide Partitioned, CancelsStick, RunsRespectCancels;
  }

  // ---------- Waiting ----------

  // Nothing in events cancels the timer, and no firing comes at or after its expiry.
  predicate Spares(events: seq<Event>, id: Id, expired: int) {
    forall i :: 0 <= i < |events| ==> SparedBy(events[i], id, expired)
  }

  predicate SparedBy(e: Event, id: Id, expired: int) {
    match e
    case Do(op) => op != OpCancel(id)
    case Tick(now, scripts) => now < expired && forall i :: 0 <= i < |scripts| ==> OpCancel(id) !in scripts[i]
  }

  lemma StepKeepsWaiting(p: Pool, e: Event, a: Addr, t: Timer)
    requires Quiet(p) && Waits(p, a, t) && SparedBy(e, Id(a, t.sequence), t.expired)
    ensures Waits(Step(p, e), a, t) && RunsOf(Step(p, e).runs, t.sequence) == RunsOf(p.runs, t.sequence)
  {
    match e
    case Do(op) =>
      hide Valid, Min, Apply, Waits, RunsOf;
      ApplyKeepsWaiting(p, op, a, t);
      ApplyKeepsRuns(p, op);
    case Tick(now, scripts) =>
      hide Valid, Min, Waits, RunsOf, Fire;
      FiringRuns(p, now, scripts, a, t);
      FiringKeepsWaiting(p, now, scripts, a, t);
  }

  lemma ApplyKeepsRuns(p: Pool, op: Op)
    ensures Apply(p, op).runs == p.runs
  {
    hide Min, Holds, Key, IdOf;
  }

  lemma FiringKeepsWaiting(p: Pool, now: int, scripts: seq<seq<Op>>, a: Addr, t: Timer)
    requires Quiet(p) && Waits(p, a, t) && now < t.expired
    requires forall i :: 0 <= i < |scripts| ==> OpCancel(Id(a, t.sequence)) !in scripts[i]
    ensures Waits(Fire(p, now, scripts), a, t)
  {
    hide Valid, Min, Calls, Settle, Sorted;
    var b := Begin(p, now);
    var n := |b.batch|;
    BeginKeeps(p, now);
    assert Waits(b, a, t);
    CallsKeepWaiting(b, scripts, n, a, t);
    CallsKeep(b, scripts, n);
    var c := Calls(b, scripts, n).(calling := false);
    NotCalling(Calls(b, scripts, n));
    ListedIsNotTaken(c, a, t);
    SettleFrame(c, now, a);
  }

  lemma ListedIsNotTaken(p: Pool, a: Addr, t: Timer)
    requires Valid(p) && Waits(p, a, t)
    ensures Key(p.heap, a) == Entry(t.expired, a) && Key(p.heap, a) !in p.batch
  {
    hide IndexesAgree, NamedOnce, CancelsStick, RunsRespectCancels;
  }

  // Until its time comes the timer stays listed and does not run.
  lemma {:induction false} WaitsUntilDue(p: Pool, events: seq<Event>, a: Addr, t: Timer)
    requires Quiet(p) && Waits(p, a, t) && Spares(events, Id(a, t.sequence), t.expired)
    ensures var q := RunAll(p, events);
      Quiet(q) && Waits(q, a, t) && RunsOf(q.runs, t.sequence) == RunsOf(p.runs, t.sequence)
  {
    hide Quiet, Step, Waits, RunsOf, SparedBy;
    if events != [] {
      var front := events[..|events| - 1];
      WaitsUntilDue(p, front, a, t);
      StepKeepsWaiting(RunAll(p, front), events[|events| - 1], a, t);
      StepKeepsQuiet(RunAll(p, front), events[|events| - 1]);
    }
  }

  // ---------- Firing ----------

  // The first firing at or after the expiry runs the timer once; then it is listed again,
  // at the time of the firing plus its interval, or it is gone.
  lemma RunsWhenDue(p: Pool, now: int, scripts: seq<seq<Op>>, a: Addr, t: Timer)
    requires Quiet(p) && Waits(p, a, t) && t.expired <= now
    ensures var q, gone := Fire(p, now, scripts), CancelledBy(scripts, Id(a, t.sequence), |Sorted(Due(p, now))|);
      && Quiet(q) && RunsOf(q.runs, t.sequence) == RunsOf(p.runs, t.sequence) + [p.batchNo + 1]
      && if t.interval != 0 && !gone then Waits(q, a, t.(expired := now + t.interval)) else t.sequence in q.freed
  {
    hide Valid, Min, Fire, Due, Sorted, RunsOf, BatchRuns, CancelledBy;
    FiringRuns(p, now, scripts, a, t);
    BatchExact(p, now, scripts);
    assert Settled(Fire(p, now, scripts), t, Id(a, t.sequence), now,
                   CancelledBy(scripts, Id(a, t.sequence), |Sorted(Due(p, now))|)) by {
      assert Entry(t.expired, a) in Sorted(Due(p, now));
    }
    assert Step(p, Tick(now, scripts)) == Fire(p, now, scripts);
    StepKeepsQuiet(p, Tick(now, scripts));
  }

  // ---------- Gone ----------

  lemma StepNeverRuns(p: Pool, e: Event, s: nat)
    requires Quiet(p) && s in p.freed
    ensures RunsOf(Step(p, e).runs, s) == RunsOf(p.runs, s)
  {
    match e
    case Do(op) =>
      hide Valid, Min, Apply, RunsOf;
      ApplyKeepsRuns(p, op);
    case Tick(now, scripts) =>
      hide Fire, Due, Sorted, RunsOf, BatchRuns, IndexesAgree, Partitioned, CancelsStick, RunsRespectCancels;
      BatchExact(p, now, scripts);
      var b := Sorted(Due(p, now));
      RunsOfConcat(p.runs, BatchRuns(p, b, p.batchNo + 1), s);
      NoneRuns(p, b, p.batchNo + 1, s);
  }

  // A deleted timer never runs again.
  lemma {:induction false} FreedNeverRuns(p: Pool, events: seq<Event>, s: nat)
    requires Quiet(p) && s in p.freed
    ensures RunsOf(RunAll(p, events).runs, s) == RunsOf(p.runs, s)
  {
    hide Quiet, Step, RunsOf;
    if events != [] {
      var front := events[..|events| - 1];
      FreedNeverRuns(p, front, s);
      AlwaysQuiet(p, front);
      RunKeepsFreed(p, front, s);
      StepNeverRuns(RunAll(p, front), events[|events| - 1], s);
    }
  }

  // ---------- The whole life of a request ----------

  // add_timer has made the timer t at address a; its turn in the owner loop is to come.
  predicate OnItsWay(p: Pool, a: Addr, t: Timer) {
    a in p.pending && a in p.heap && p.heap[a] == t
  }

  lemma ApplyKeepsComing(p: Pool, op: Op, a: Addr, t: Timer)
    requires Open(p) && OnItsWay(p, a, t) && op != OpAdd(a)
    ensures OnItsWay(Apply(p, op), a, t)
  {
    hide NamedOnce, CancelsStick, RunsRespectCancels, Min;
    match op
    case OpAllocate(_, _, _) =>
    case OpAdd(_) =>
    case OpCancel(id) => ActiveMeansIndexed(p, id);
  }

  lemma {:induction false} ApplyAllKeepsComing(p: Pool, ops: seq<Op>, a: Addr, t: Timer)
    requires Open(p) && OnItsWay(p, a, t) && OpAdd(a) !in ops
    ensures OnItsWay(ApplyAll(p, ops), a, t)
  {
    hide Valid, Apply, OnItsWay;
    if ops != [] {
      var front := ops[..|ops| - 1];
      ApplyAllKeepsComing(p, front, a, t);
      ApplyAllKeeps(p, front);
      ApplyKeepsComing(ApplyAll(p, front), ops[|ops| - 1], a, t);
    }
  }

  lemma {:induction false} CallsKeepComing(p: Pool, scripts: seq<seq<Op>>, n: nat, a: Addr, t: Timer)
    requires Open(p) && OnItsWay(p, a, t) && forall i :: 0 <= i < |scripts| ==> OpAdd(a) !in scripts[i]
    ensures OnItsWay(Calls(p, scripts, n), a, t)
  {
    hide Valid, ApplyAll;
    if n > 0 {
      var c := Calls(p, scripts, n - 1);
      CallsKeepComing(p, scripts, n - 1, a, t);
      CallsKeep(p, scripts, n - 1);
      CallKeeps(c, n - 1);
      ApplyAllKeepsComing(Call(c, n - 1), Script(scripts, n - 1), a, t);
    }
  }

  lemma {:induction false} SettleKeepsPending(p: Pool, now: int)
    ensures Settle(p, now).pending == p.pending
    decreases |p.batch|
  {
    if p.batch != [] && p.batch[0].addr in p.heap {
      SettleKeepsPending(SettleOne(p, now), now);
    }
  }

  lemma PendingIsNotTaken(p: Pool, a: Addr, t: Timer)
    requires Valid(p) && OnItsWay(p, a, t)
    ensures Key(p.heap, a) !in p.batch
  {
    hide IndexesAgree, NamedOnce, CancelsStick, RunsRespectCancels;
  }

  // The event does not add the timer.
  predicate NotAdding(e: Event, a: Addr) {
    match e
    case Do(op) => op != OpAdd(a)
    case Tick(_, scripts) => forall i :: 0 <= i < |scripts| ==> OpAdd(a) !in scripts[i]
  }

  lemma StepKeepsComing(p: Pool, e: Event, a: Addr, t: Timer)
    requires Quiet(p) && OnItsWay(p, a, t) && NotAdding(e, a)
    ensures OnItsWay(Step(p, e), a, t)
  {
    match e
    case Do(op) =>
      hide Valid, Min, Apply;
      ApplyKeepsComing(p, op, a, t);
    case Tick(now, scripts) =>
      hide Valid, Min, Calls, Settle, Sorted;
      var b := Begin(p, now);
      var n := |b.batch|;
      BeginKeeps(p, now);
      CallsKeepComing(b, scripts, n, a, t);
      CallsKeep(b, scripts, n);
      var c := Calls(b, scripts, n).(calling := false);
      NotCalling(Calls(b, scripts, n));
      PendingIsNotTaken(c, a, t);
      SettleFrame(c, now, a);
      SettleKeepsPending(c, now);
  }

  // Whatever happens before its turn, the request comes through unchanged.
  lemma {:induction false} ComesThrough(p: Pool, events: seq<Event>, a: Addr, t: Timer)
    requires Quiet(p) && OnItsWay(p, a, t) && forall i :: 0 <= i < |events| ==> NotAdding(events[i], a)
    ensures Quiet(RunAll(p, events)) && OnItsWay(RunAll(p, events), a, t)
  {
    hide Quiet, Step, OnItsWay, NotAdding;
    if events != [] {
      var front := events[..|events| - 1];
      ComesThrough(p, front, a, t);
      StepKeepsComing(RunAll(p, front), events[|events| - 1], a, t);
      StepKeepsQuiet(RunAll(p, front), events[|events| - 1]);
    }
  }

  // The request is made, and taken into the pool when its turn comes.
  function Requested(p: Pool, a: Addr, expired: int, interval: int, meanwhile: seq<Event>): Pool {
    Add(RunAll(Allocate(p, a, expired, interval), meanwhile), a)
  }

  lemma RequestIsListed(p: Pool, a: Addr, expired: int, interval: int, meanwhile: seq<Event>)
    requires Quiet(p) && a !in p.heap && forall i :: 0 <= i < |meanwhile| ==> NotAdding(meanwhile[i], a)
    ensures var q := Requested(p, a, expired, interval, meanwhile);
      Quiet(q) && Waits(q, a, Timer(expired, interval, p.nextSequence))
  {
    hide Quiet, RunAll, NotAdding, Min;
    var t := Timer(expired, interval, p.nextSequence);
    var made := Allocate(p, a, expired, interval);
    assert Step(p, Do(OpAllocate(a, expired, interval))) == made;
    StepKeepsQuiet(p, Do(OpAllocate(a, expired, interval)));
    ComesThrough(made, meanwhile, a, t);
    var there := RunAll(made, meanwhile);
    assert Step(there, Do(OpAdd(a))) == Add(there, a);
    StepKeepsQuiet(there, Do(OpAdd(a)));
  }

  // A timer asked for with an expiry and an interval does not run before the first firing
  // at or after its expiry, runs once in that one, and, if it repeats and was not
  // cancelled, waits for the time of that firing plus the interval to run again; otherwise
  // it never runs again.
  lemma RequestRuns(p: Pool, a: Addr, expired: int, interval: int, meanwhile: seq<Event>,
                    before: seq<Event>, now: int, scripts: seq<seq<Op>>, after: seq<Event>)
    requires Quiet(p) && a !in p.heap && forall i :: 0 <= i < |meanwhile| ==> NotAdding(meanwhile[i], a)
    requires Spares(before, Id(a, p.nextSequence), expired) && expired <= now
    ensures var s, q := p.nextSequence, Requested(p, a, expired, interval, meanwhile);
      var r := RunAll(q, before);
      var f := Fire(r, now, scripts);
      var gone := CancelledBy(scripts, Id(a, s), |Sorted(Due(r, now))|);
      && RunsOf(r.runs, s) == RunsOf(q.runs, s)
      && RunsOf(f.runs, s) == RunsOf(q.runs, s) + [r.batchNo + 1]
      && (interval == 0 || gone ==> RunsOf(RunAll(f, after).runs, s) == RunsOf(f.runs, s))
      && (interval != 0 && !gone ==> Waits(f, a, Timer(now + interval, interval, s)))
      && (interval != 0 && !gone && Spares(after, Id(a, s), now + interval) ==>
            RunsOf(RunAll(f, after).runs, s) == RunsOf(f.runs, s) &&
            Waits(RunAll(f, after), a, Timer(now + interval, interval, s)))
  {
    hide Quiet, RunAll, NotAdding, Min, Spares, RunsOf, Waits, Requested, CancelledBy, Fire, Due, Sorted;
    var s, q := p.nextSequence, Requested(p, a, expired, interval, meanwhile);
    RequestIsListed(p, a, expired, interval, meanwhile);
    WaitsUntilDue(q, before, a, Timer(expired, interval, s));
    var r := RunAll(q, before);
    RunsWhenDue(r, now, scripts, a, Timer(expired, interval, s));
    var f := Fire(r, now, scripts);
    if interval != 0 && !CancelledBy(scripts, Id(a, s), |Sorted(Due(r, now))|) {
      if Spares(after, Id(a, s), now + interval) {
        WaitsUntilDue(f, after, a, Timer(now + interval, interval, s));
      }
    } else {
      FreedNeverRuns(f, after, s);
    }
  }
}
