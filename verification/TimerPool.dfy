/** The timer pool of src/TimerPool.cc: two indexes over manually freed timers, with
    callbacks that add and cancel timers while a batch is running. */
module TimerPools {

  const UINTPTR_MAX := 0xffff_ffff_ffff_ffff

  // No object lives at the last address; the batch search relies on it.
  type Addr = a: nat | a < UINTPTR_MAX

  // A time of 0 is the invalid TimeStamp; an interval of 0 means one shot.
  datatype Timer = Timer(expired: int, interval: int, sequence: nat)

  datatype Entry = Entry(time: int, addr: Addr)

  datatype Id = Id(addr: Addr, sequence: nat)

  datatype Run = Run(sequence: nat, batchNo: nat)

  // ---------- The order of the timer list ----------

  predicate Leq(a: Entry, b: Entry) {
    a.time < b.time || (a.time == b.time && a.addr <= b.addr)
  }

  lemma {:induction false} LeastExists(s: set<Entry>)
    requires s != {}
    ensures exists e :: e in s && forall f :: f in s ==> Leq(e, f)
    decreases |s|
  {
    var x :| x in s;
    var rest := s - {x};
    assert forall f :: f in s ==> f == x || f in rest;
    if rest != {} {
      LeastExists(rest);
      var e :| e in rest && forall f :: f in rest ==> Leq(e, f);
      var least := if Leq(e, x) then e else x;
      assert least in s && forall f :: f in s ==> Leq(least, f);
    }
  }

  // timers_.begin()
  function Min(s: set<Entry>): (e: Entry)
    requires s != {}
    ensures e in s && forall f :: f in s ==> Leq(e, f)
  {
    LeastExists(s);
    var e :| e in s && forall f :: f in s ==> Leq(e, f);
    e
  }

  // The entries in list order.
  function Sorted(s: set<Entry>): (r: seq<Entry>)
    ensures forall e :: e in r <==> e in s
    ensures forall i, j :: 0 <= i < j < |r| ==> Leq(r[i], r[j]) && r[i] != r[j]
  {
    if s == {} then [] else [Min(s)] + Sorted(s - {Min(s)})
  }

  // ---------- State ----------

  datatype Pool = Pool(
    timers: set<Entry>,        // timers_
    active: set<Id>,           // active_timers_
    canceling: set<Id>,        // canceling_timers_
    calling: bool,             // calling_expired_timers_
    heap: map<Addr, Timer>,    // live Timer objects
    pending: set<Addr>,        // allocated by add_timer, not yet in the pool
    batch: seq<Entry>,         // expired timers taken out by handle_read
    deadline: int,             // what was last asked of the timerfd
    nextSequence: nat,
    batchNo: nat,
    freed: seq<nat>,           // sequence numbers of deleted timers, in order
    runs: seq<Run>,            // callbacks run, in order
    cancelled: map<nat, nat>)  // timers cancelled while held, and in which batch

  const INITIAL := Pool({}, {}, {}, false, map[], {}, [], 0, 0, 0, [], [], map[])

  // ---------- What stays true of it ----------

  type Heap = map<Addr, Timer>

  function Key(heap: Heap, a: Addr): Entry
    requires a in heap
  {
    Entry(heap[a].expired, a)
  }

  function IdOf(heap: Heap, a: Addr): Id
    requires a in heap
  {
    Id(a, heap[a].sequence)
  }

  // The live timer that id names, if any.
  predicate Names(heap: Heap, id: Id) {
    id.addr in heap && heap[id.addr].sequence == id.sequence
  }

  // Both indexes list the same live timers, under their stored expiry.
  ghost predicate IndexesAgree(timers: set<Entry>, active: set<Id>, heap: Heap) {
    && (forall e :: e in timers ==> e.addr in heap && Key(heap, e.addr) == e && IdOf(heap, e.addr) in active)
    && (forall id :: id in active ==> Names(heap, id) && Key(heap, id.addr) in timers)
  }

  // Every live timer is in exactly one place: waiting to be added, indexed, or in the batch.
  ghost predicate Partitioned(timers: set<Entry>, batch: seq<Entry>, pending: set<Addr>, heap: Heap) {
    && (forall a :: a in heap ==> a in pending || Key(heap, a) in timers || Key(heap, a) in batch)
    && (forall a :: a in pending ==> a in heap && Key(heap, a) !in timers && Key(heap, a) !in batch)
    && (forall e :: e in batch ==> e.addr in heap && Key(heap, e.addr) == e && e !in timers)
    && (forall i, j :: 0 <= i < j < |batch| ==> batch[i] != batch[j])
  }

  // Sequence numbers name timers, and no timer is deleted twice or while live.
  ghost predicate NamedOnce(heap: Heap, nextSequence: nat, freed: seq<nat>) {
    && (forall a :: a in heap ==> heap[a].sequence < nextSequence && heap[a].sequence !in freed)
    && (forall a, b :: a in heap && b in heap && heap[a].sequence == heap[b].sequence ==> a == b)
    && (forall s :: s in freed ==> s < nextSequence)
    && (forall i, j :: 0 <= i < j < |freed| ==> freed[i] != freed[j])
  }

  // A timer cancelled while held is gone, or is in the batch and marked.
  ghost predicate CancelsStick(heap: Heap, batch: seq<Entry>, canceling: set<Id>, cancelled: map<nat, nat>,
                               nextSequence: nat, batchNo: nat) {
    && (forall s :: s in cancelled ==> s < nextSequence && cancelled[s] <= batchNo)
    && (forall a :: a in heap && heap[a].sequence in cancelled ==>
          Key(heap, a) in batch && IdOf(heap, a) in canceling && cancelled[heap[a].sequence] == batchNo)
  }

  // No callback ran in a batch later than the one in which its timer was cancelled.
  ghost predicate RunsRespectCancels(runs: seq<Run>, cancelled: map<nat, nat>, batchNo: nat) {
    forall r :: r in runs ==>
      r.batchNo <= batchNo && (r.sequence in cancelled ==> r.batchNo <= cancelled[r.sequence])
  }

  ghost predicate Valid(p: Pool) {
    && IndexesAgree(p.timers, p.active, p.heap)
    && Partitioned(p.timers, p.batch, p.pending, p.heap)
    && NamedOnce(p.heap, p.nextSequence, p.freed)
    && CancelsStick(p.heap, p.batch, p.canceling, p.cancelled, p.nextSequence, p.batchNo)
    && RunsRespectCancels(p.runs, p.cancelled, p.batchNo)
  }

  // ---------- Operations ----------

  // reset: an invalid time leaves the timerfd as it is.
  function Reset(p: Pool, time: int): Pool {
    if time != 0 then p.(deadline := time) else p
  }

  function ResetToEarliest(p: Pool): Pool {
    if p.timers != {} then Reset(p, Min(p.timers).time) else p
  }

  // new Timer, at an address that is not in use.
  function Allocate(p: Pool, a: Addr, expired: int, interval: int): Pool {
    if a in p.heap then p else
    p.(heap := p.heap[a := Timer(expired, interval, p.nextSequence)],
       pending := p.pending + {a},
       nextSequence := p.nextSequence + 1)
  }

  // delete
  function Free(p: Pool, a: Addr): Pool
    requires a in p.heap
  {
    p.(heap := p.heap - {a}, freed := p.freed + [p.heap[a].sequence])
  }

  function Save(p: Pool, a: Addr): Pool
    requires a in p.heap
  {
    p.(timers := p.timers + {Key(p.heap, a)}, active := p.active + {IdOf(p.heap, a)})
  }

  function EarliestChanged(p: Pool, expired: int): bool {
    p.timers == {} || Min(p.timers).time > expired
  }

  // add_timer_in_own_loop
  function Add(p: Pool, a: Addr): Pool {
    if a !in p.pending || a !in p.heap then p else
    var expired := p.heap[a].expired;
    var q := Save(p, a).(pending := p.pending - {a});
    if EarliestChanged(p, expired) then Reset(q, expired) else q
  }

  // Indexed, or taken out by the batch that is running.
  predicate Holds(p: Pool, id: Id) {
    Names(p.heap, id) && (Key(p.heap, id.addr) in p.timers || Key(p.heap, id.addr) in p.batch)
  }

  // cancel_timer_in_own_loop
  function Cancel(p: Pool, id: Id): Pool {
    var noted := if Holds(p, id) then p.(cancelled := p.cancelled[id.sequence := p.batchNo]) else p;
    if id in p.active && id.addr in p.heap then
      ResetToEarliest(Free(noted.(timers := p.timers - {Key(p.heap, id.addr)},
                                  active := p.active - {id}), id.addr))
    else ResetToEarliest(if p.calling then noted.(canceling := p.canceling + {id}) else noted)
  }

  // fill_expired_timers: everything ordered before (now, UINTPTR_MAX).
  function Due(p: Pool, now: int): set<Entry> {
    set e | e in p.timers && (e.time < now || (e.time == now && e.addr < UINTPTR_MAX))
  }

  function DueIds(p: Pool, now: int): set<Id> {
    set e | e in Due(p, now) && e.addr in p.heap :: IdOf(p.heap, e.addr)
  }

  function Begin(p: Pool, now: int): Pool {
    p.(timers := p.timers - Due(p, now), active := p.active - DueIds(p, now),
       batch := Sorted(Due(p, now)), batchNo := p.batchNo + 1, calling := true, canceling := {})
  }

  // Timer::run, of the i-th timer of the batch.
  function Call(p: Pool, i: nat): Pool {
    if i < |p.batch| && p.batch[i].addr in p.heap
    then p.(runs := p.runs + [Run(p.heap[p.batch[i].addr].sequence, p.batchNo)]) else p
  }

  // One round of update: the first timer left in the batch is re-armed or deleted.
  function SettleOne(p: Pool, now: int): Pool
    requires p.batch != [] && p.batch[0].addr in p.heap
  {
    var a := p.batch[0].addr;
    var t := p.heap[a];
    var rest := p.(batch := p.batch[1..]);
    if t.interval != 0 && IdOf(p.heap, a) !in p.canceling then
      Save(rest.(heap := p.heap[a := t.(expired := now + t.interval)]), a)
    else Free(rest, a)
  }

  function Settle(p: Pool, now: int): Pool
    decreases |p.batch|
  {
    if p.batch != [] && p.batch[0].addr in p.heap then Settle(SettleOne(p, now), now) else p
  }

  datatype Op = OpAllocate(a: Addr, expired: int, interval: int) | OpAdd(a: Addr) | OpCancel(id: Id)

  function Apply(p: Pool, op: Op): Pool {
    match op
    case OpAllocate(a, expired, interval) => Allocate(p, a, expired, interval)
    case OpAdd(a) => Add(p, a)
    case OpCancel(id) => Cancel(p, id)
  }

  function ApplyAll(p: Pool, ops: seq<Op>): Pool {
    if ops == [] then p else Apply(ApplyAll(p, ops[..|ops| - 1]), ops[|ops| - 1])
  }

  // What the i-th callback of a batch does.
  function Script(scripts: seq<seq<Op>>, i: nat): seq<Op> {
    if i < |scripts| then scripts[i] else []
  }

  // The pool after the first n callbacks of the batch.
  function Calls(p: Pool, scripts: seq<seq<Op>>, n: nat): Pool {
    if n == 0 then p else ApplyAll(Call(Calls(p, scripts, n - 1), n - 1), Script(scripts, n - 1))
  }

  // handle_read, once the timerfd has been read.
  function Fire(p: Pool, now: int, scripts: seq<seq<Op>>): Pool {
    var b := Begin(p, now);
    ResetToEarliest(Settle(Calls(b, scripts, |b.batch|).(calling := false), now))
  }

  datatype Event = Do(op: Op) | Tick(now: int, scripts: seq<seq<Op>>)

  function Step(p: Pool, e: Event): Pool {
    match e
    case Do(op) => Apply(p, op)
    case Tick(now, scripts) => Fire(p, now, scripts)
  }

  function RunAll(p: Pool, events: seq<Event>): Pool {
    if events == [] then p else Step(RunAll(p, events[..|events| - 1]), events[|events| - 1])
  }

  // ---------- Every operation keeps the pool valid ----------

  lemma AllocateParts(p: Pool, a: Addr, t: Timer)
    requires Valid(p) && a !in p.heap && t.sequence == p.nextSequence
    ensures var heap := p.heap[a := t];
      && IndexesAgree(p.timers, p.active, heap)
      && Partitioned(p.timers, p.batch, p.pending + {a}, heap)
      && NamedOnce(heap, p.nextSequence + 1, p.freed)
      && CancelsStick(heap, p.batch, p.canceling, p.cancelled, p.nextSequence + 1, p.batchNo)
  {}

  lemma AllocateKeeps(p: Pool, a: Addr, expired: int, interval: int)
    requires Valid(p)
    ensures Valid(Allocate(p, a, expired, interval))
  {
    if a !in p.heap {
      AllocateParts(p, a, Timer(expired, interval, p.nextSequence));
    }
  }

  lemma SaveParts(timers: set<Entry>, active: set<Id>, batch: seq<Entry>, pending: set<Addr>, heap: Heap, a: Addr)
    requires IndexesAgree(timers, active, heap) && Partitioned(timers, batch, pending, heap) && a in pending
    ensures IndexesAgree(timers + {Key(heap, a)}, active + {IdOf(heap, a)}, heap)
    ensures Partitioned(timers + {Key(heap, a)}, batch, pending - {a}, heap)
  {}

  lemma PendingIsLive(p: Pool)
    requires Valid(p)
    ensures forall a :: a in p.pending ==> a in p.heap
  {
    hide IndexesAgree, NamedOnce, CancelsStick, RunsRespectCancels;
  }

  lemma AddKeeps(p: Pool, a: Addr)
    requires Valid(p)
    ensures Valid(Add(p, a))
  {
    hide IndexesAgree, Partitioned, NamedOnce, CancelsStick, RunsRespectCancels;
    PendingIsLive(p);
    if a in p.pending {
      SaveParts(p.timers, p.active, p.batch, p.pending, p.heap, a);
    }
  }

  // Outside update, a batch exists only while its callbacks are running.
  ghost predicate Open(p: Pool) {
    Valid(p) && (p.batch != [] ==> p.calling)
  }

  lemma FreeParts(heap: Heap, nextSequence: nat, freed: seq<nat>, a: Addr)
    requires NamedOnce(heap, nextSequence, freed) && a in heap
    ensures NamedOnce(heap - {a}, nextSequence, freed + [heap[a].sequence])
  {
    var f := freed + [heap[a].sequence];
    assert forall b :: b in heap - {a} ==> heap[b].sequence != heap[a].sequence;
  }

  lemma RemoveParts(p: Pool, a: Addr)
    requires Valid(p) && a in p.heap && Key(p.heap, a) in p.timers
    ensures IndexesAgree(p.timers - {Key(p.heap, a)}, p.active - {IdOf(p.heap, a)}, p.heap - {a})
    ensures Partitioned(p.timers - {Key(p.heap, a)}, p.batch, p.pending, p.heap - {a})
  {
    hide NamedOnce, CancelsStick, RunsRespectCancels;
  }

  lemma NoteParts(p: Pool, s: nat)
    requires Valid(p) && s < p.nextSequence
    ensures RunsRespectCancels(p.runs, p.cancelled[s := p.batchNo], p.batchNo)
  {
    hide IndexesAgree, Partitioned, NamedOnce;
  }

  lemma CancelActiveParts(p: Pool, a: Addr)
    requires Valid(p) && a in p.heap
    ensures CancelsStick(p.heap - {a}, p.batch, p.canceling, p.cancelled[p.heap[a].sequence := p.batchNo], p.nextSequence, p.batchNo)
  {
    hide IndexesAgree, Partitioned, RunsRespectCancels;
  }

  lemma CancelBatchParts(p: Pool, a: Addr)
    requires Valid(p) && a in p.heap && Key(p.heap, a) in p.batch
    ensures CancelsStick(p.heap, p.batch, p.canceling + {IdOf(p.heap, a)}, p.cancelled[p.heap[a].sequence := p.batchNo],
                         p.nextSequence, p.batchNo)
  {
    hide IndexesAgree, Partitioned, RunsRespectCancels;
  }

  lemma MoreCanceling(p: Pool, id: Id)
    requires Valid(p)
    ensures CancelsStick(p.heap, p.batch, p.canceling + {id}, p.cancelled, p.nextSequence, p.batchNo)
  {
    hide IndexesAgree, Partitioned, RunsRespectCancels, NamedOnce;
  }

  // An id is active exactly when it names an indexed timer.
  lemma ActiveMeansIndexed(p: Pool, id: Id)
    requires Valid(p)
    ensures id in p.active <==> Names(p.heap, id) && Key(p.heap, id.addr) in p.timers
    ensures Names(p.heap, id) ==> id.sequence < p.nextSequence && id == IdOf(p.heap, id.addr)
  {
    hide Partitioned, CancelsStick, RunsRespectCancels;
  }

  lemma CancelKeeps(p: Pool, id: Id)
    requires Open(p)
    ensures Open(Cancel(p, id))
  {
    hide IndexesAgree, Partitioned, NamedOnce, CancelsStick, RunsRespectCancels;
    ActiveMeansIndexed(p, id);
    if id in p.active {
      RemoveParts(p, id.addr);
      FreeParts(p.heap, p.nextSequence, p.freed, id.addr);
      NoteParts(p, id.sequence);
      CancelActiveParts(p, id.addr);
    } else if Holds(p, id) {
      NoteParts(p, id.sequence);
      CancelBatchParts(p, id.addr);
    } else {
      MoreCanceling(p, id);
    }
  }

  lemma BeginParts(p: Pool, now: int)
    requires Valid(p) && p.batch == []
    ensures IndexesAgree(p.timers - Due(p, now), p.active - DueIds(p, now), p.heap)
    ensures Partitioned(p.timers - Due(p, now), Sorted(Due(p, now)), p.pending, p.heap)
  {
    hide NamedOnce, CancelsStick, RunsRespectCancels;
  }

  lemma BeginHistory(p: Pool, now: int)
    requires Valid(p) && p.batch == []
    ensures CancelsStick(p.heap, Sorted(Due(p, now)), {}, p.cancelled, p.nextSequence, p.batchNo + 1)
    ensures RunsRespectCancels(p.runs, p.cancelled, p.batchNo + 1)
  {
    hide IndexesAgree, NamedOnce, Partitioned;
  }

  lemma BeginKeeps(p: Pool, now: int)
    requires Valid(p) && p.batch == []
    ensures Open(Begin(p, now))
  {
    hide IndexesAgree, Partitioned, NamedOnce, CancelsStick, RunsRespectCancels;
    BeginParts(p, now);
    BeginHistory(p, now);
  }

  lemma CallKeeps(p: Pool, i: nat)
    requires Open(p)
    ensures Open(Call(p, i))
  {
    hide IndexesAgree, NamedOnce, Partitioned;
  }

  lemma RearmParts(p: Pool, heap: Heap, a: Addr, t: Timer)
    requires Valid(p) && p.batch != [] && a == p.batch[0].addr && a in p.heap && t.sequence == p.heap[a].sequence
    requires heap == p.heap[a := t]
    ensures IndexesAgree(p.timers + {Key(heap, a)}, p.active + {IdOf(heap, a)}, heap)
    ensures Partitioned(p.timers + {Key(heap, a)}, p.batch[1..], p.pending, heap)
  {
    hide NamedOnce, CancelsStick, RunsRespectCancels;
    RestOfBatch(p.batch, p.heap);
    assert forall e :: e in p.timers ==> e.addr != a;
    assert Key(p.heap, a) in p.batch;
  }

  lemma RestOfBatch(batch: seq<Entry>, heap: Heap)
    requires batch != [] && (forall i, j :: 0 <= i < j < |batch| ==> batch[i] != batch[j])
    requires forall e :: e in batch ==> e.addr in heap && Key(heap, e.addr) == e
    ensures forall e :: e in batch <==> e == batch[0] || e in batch[1..]
    ensures forall e :: e in batch[1..] ==> e.addr != batch[0].addr
  {
    assert batch == [batch[0]] + batch[1..];
    assert batch[0] !in batch[1..];
  }

  lemma RearmHistory(p: Pool, heap: Heap, a: Addr, t: Timer)
    requires Valid(p) && p.batch != [] && a == p.batch[0].addr && a in p.heap && t.sequence == p.heap[a].sequence
    requires heap == p.heap[a := t] && IdOf(p.heap, a) !in p.canceling
    ensures NamedOnce(heap, p.nextSequence, p.freed)
    ensures CancelsStick(heap, p.batch[1..], p.canceling, p.cancelled, p.nextSequence, p.batchNo)
  {
    hide IndexesAgree, RunsRespectCancels;
    RestOfBatch(p.batch, p.heap);
  }

  lemma DropParts(p: Pool, a: Addr)
    requires Valid(p) && p.batch != [] && a == p.batch[0].addr && a in p.heap
    ensures IndexesAgree(p.timers, p.active, p.heap - {a})
    ensures Partitioned(p.timers, p.batch[1..], p.pending, p.heap - {a})
  {
    hide NamedOnce, CancelsStick, RunsRespectCancels;
    RestOfBatch(p.batch, p.heap);
    assert forall e :: e in p.timers ==> e.addr != a;
    assert Key(p.heap, a) in p.batch;
  }

  lemma DropHistory(p: Pool, a: Addr)
    requires Valid(p) && p.batch != [] && a == p.batch[0].addr && a in p.heap
    ensures CancelsStick(p.heap - {a}, p.batch[1..], p.canceling, p.cancelled, p.nextSequence, p.batchNo)
  {
    hide IndexesAgree, NamedOnce, RunsRespectCancels;
    RestOfBatch(p.batch, p.heap);
  }

  lemma BatchIsLive(p: Pool)
    requires Valid(p)
    ensures forall e :: e in p.batch ==> e.addr in p.heap && Key(p.heap, e.addr) == e
  {
    hide IndexesAgree, NamedOnce, CancelsStick, RunsRespectCancels;
  }

  lemma SettleOneKeeps(p: Pool, now: int)
    requires Valid(p) && p.batch != []
    ensures p.batch[0].addr in p.heap && Valid(SettleOne(p, now))
  {
    hide IndexesAgree, Partitioned, NamedOnce, CancelsStick, RunsRespectCancels;
    BatchIsLive(p);
    assert p.batch[0] in p.batch;
    var a := p.batch[0].addr;
    var t := p.heap[a];
    if t.interval != 0 && IdOf(p.heap, a) !in p.canceling {
      var t' := t.(expired := now + t.interval);
      RearmParts(p, p.heap[a := t'], a, t');
      RearmHistory(p, p.heap[a := t'], a, t');
    } else {
      DropParts(p, a);
      DropHistory(p, a);
      FreeParts(p.heap, p.nextSequence, p.freed, a);
    }
  }

  lemma {:induction false} SettleKeeps(p: Pool, now: int)
    requires Valid(p)
    ensures Valid(Settle(p, now)) && Settle(p, now).batch == [] && Settle(p, now).calling == p.calling
    decreases |p.batch|
  {
    hide IndexesAgree, Partitioned, NamedOnce, CancelsStick, RunsRespectCancels;
    if p.batch != [] {
      SettleOneKeeps(p, now);
      SettleKeeps(SettleOne(p, now), now);
    }
  }

  lemma ApplyKeeps(p: Pool, op: Op)
    requires Open(p)
    ensures Open(Apply(p, op)) && Apply(p, op).batch == p.batch && Apply(p, op).calling == p.calling
  {
    hide IndexesAgree, Partitioned, NamedOnce, CancelsStick, RunsRespectCancels;
    match op
    case OpAllocate(a, expired, interval) => AllocateKeeps(p, a, expired, interval);
    case OpAdd(a) => AddKeeps(p, a);
    case OpCancel(id) => CancelKeeps(p, id);
  }

  lemma {:induction false} ApplyAllKeeps(p: Pool, ops: seq<Op>)
    requires Open(p)
    ensures Open(ApplyAll(p, ops)) && ApplyAll(p, ops).batch == p.batch && ApplyAll(p, ops).calling == p.calling
  {
    hide Valid, Apply;
    if ops != [] {
      ApplyAllKeeps(p, ops[..|ops| - 1]);
      ApplyKeeps(ApplyAll(p, ops[..|ops| - 1]), ops[|ops| - 1]);
    }
  }

  // The pool stays valid between any two callbacks of a batch.
  lemma {:induction false} CallsKeep(p: Pool, scripts: seq<seq<Op>>, n: nat)
    requires Open(p)
    ensures Open(Calls(p, scripts, n)) && Calls(p, scripts, n).batch == p.batch && Calls(p, scripts, n).calling == p.calling
  {
    hide Valid, Apply, Open, ApplyAll;
    if n > 0 {
      CallsKeep(p, scripts, n - 1);
      CallKeeps(Calls(p, scripts, n - 1), n - 1);
      ApplyAllKeeps(Call(Calls(p, scripts, n - 1), n - 1), Script(scripts, n - 1));
    }
  }

  // ---------- Whole runs ----------

  // Between batches, the timerfd was last asked for the earliest expiry, provided that
  // expiry is a valid time.
  predicate DeadlineIsEarliest(p: Pool) {
    p.timers != {} && Min(p.timers).time != 0 ==> p.deadline == Min(p.timers).time
  }

  ghost predicate Quiet(p: Pool) {
    Valid(p) && p.batch == [] && !p.calling && DeadlineIsEarliest(p)
  }

  lemma MinUnique(s: set<Entry>, e: Entry)
    requires e in s && forall f :: f in s ==> Leq(e, f)
    ensures Min(s) == e
  {}

  lemma MinOfInsert(s: set<Entry>, e: Entry)
    ensures s == {} ==> Min(s + {e}).time == e.time
    ensures s != {} ==> Min(s + {e}).time == if Min(s).time > e.time then e.time else Min(s).time
  {
    if s == {} {
      assert Min(s + {e}) == e;
    } else {
      var m := Min(s);
      MinUnique(s + {e}, if Leq(e, m) then e else m);
    }
  }

  lemma AddKeepsDeadline(p: Pool, a: Addr)
    requires DeadlineIsEarliest(p)
    ensures DeadlineIsEarliest(Add(p, a))
  {
    hide Min;
    if a in p.pending && a in p.heap {
      MinOfInsert(p.timers, Key(p.heap, a));
    }
  }

  lemma StepKeepsQuiet(p: Pool, e: Event)
    requires Quiet(p)
    ensures Quiet(Step(p, e))
  {
    hide Valid, Calls, Settle, Min, Begin;
    match e
    case Do(op) =>
      ApplyKeeps(p, op);
      if op.OpAdd? {
        AddKeepsDeadline(p, op.a);
      }
    case Tick(now, scripts) =>
      BeginKeeps(p, now);
      var b := Begin(p, now);
      CallsKeep(b, scripts, |b.batch|);
      var c := Calls(b, scripts, |b.batch|);
      NotCalling(c);
      SettleKeeps(c.(calling := false), now);
      NewDeadline(Settle(c.(calling := false), now));
  }

  lemma NotCalling(p: Pool)
    requires Valid(p)
    ensures Valid(p.(calling := false))
  {
    hide IndexesAgree, Partitioned, NamedOnce, CancelsStick, RunsRespectCancels;
  }

  lemma NewDeadline(p: Pool)
    requires Valid(p)
    ensures Valid(ResetToEarliest(p)) && DeadlineIsEarliest(ResetToEarliest(p))
  {
    hide IndexesAgree, Partitioned, NamedOnce, CancelsStick, RunsRespectCancels;
  }

  // Whatever callers and callbacks do, the pool is valid and correctly armed.
  lemma {:induction false} AlwaysQuiet(p: Pool, events: seq<Event>)
    requires Quiet(p)
    ensures Quiet(RunAll(p, events))
  {
    hide Quiet, Step;
    if events != [] {
      AlwaysQuiet(p, events[..|events| - 1]);
      StepKeepsQuiet(RunAll(p, events[..|events| - 1]), events[|events| - 1]);
    }
  }

  lemma InitiallyQuiet()
    ensures Quiet(INITIAL)
  {}

  // ---------- What a batch does ----------

  lemma ApplyKeepsBatch(p: Pool, op: Op, e: Entry)
    requires Open(p) && e in p.batch
    ensures e.addr in p.heap && e.addr in Apply(p, op).heap && Apply(p, op).heap[e.addr] == p.heap[e.addr]
    ensures Apply(p, op).runs == p.runs && Apply(p, op).batchNo == p.batchNo
    ensures IdOf(p.heap, e.addr) in Apply(p, op).canceling <==>
            IdOf(p.heap, e.addr) in p.canceling || op == OpCancel(IdOf(p.heap, e.addr))
  {
    hide NamedOnce, CancelsStick, RunsRespectCancels, Min;
    match op
    case OpAllocate(_, _, _) =>
    case OpAdd(_) =>
    case OpCancel(id) =>
      ActiveMeansIndexed(p, id);
      ActiveMeansIndexed(p, IdOf(p.heap, e.addr));
  }

  predicate CancelledBy(scripts: seq<seq<Op>>, id: Id, n: nat) {
    exists i :: 0 <= i < n && OpCancel(id) in Script(scripts, i)
  }

  lemma {:induction false} ApplyAllKeepsBatch(p: Pool, ops: seq<Op>, e: Entry)
    requires Open(p) && e in p.batch && e.addr in p.heap
    ensures var q := ApplyAll(p, ops);
      && q.batch == p.batch && q.runs == p.runs && q.batchNo == p.batchNo
      && e.addr in q.heap && q.heap[e.addr] == p.heap[e.addr]
      && (IdOf(p.heap, e.addr) in q.canceling <==>
          IdOf(p.heap, e.addr) in p.canceling || OpCancel(IdOf(p.heap, e.addr)) in ops)
  {
    hide Valid, Apply;
    if ops != [] {
      var front, last := ops[..|ops| - 1], ops[|ops| - 1];
      assert ops == front + [last];
      ApplyAllKeepsBatch(p, front, e);
      ApplyAllKeeps(p, front);
      ApplyKeepsBatch(ApplyAll(p, front), last, e);
      ApplyKeeps(ApplyAll(p, front), last);
    }
  }

  lemma {:induction false} CallsKeepBatch(p: Pool, scripts: seq<seq<Op>>, n: nat, e: Entry)
    requires Open(p) && e in p.batch && e.addr in p.heap
    ensures var q := Calls(p, scripts, n);
      && q.batchNo == p.batchNo && e.addr in q.heap && q.heap[e.addr] == p.heap[e.addr]
      && (IdOf(p.heap, e.addr) in q.canceling <==>
          IdOf(p.heap, e.addr) in p.canceling || CancelledBy(scripts, IdOf(p.heap, e.addr), n))
  {
    hide Valid, Apply, ApplyAll;
    if n > 0 {
      var c := Calls(p, scripts, n - 1);
      CallsKeepBatch(p, scripts, n - 1, e);
      CallsKeep(p, scripts, n - 1);
      CallKeeps(c, n - 1);
      ApplyAllKeepsBatch(Call(c, n - 1), Script(scripts, n - 1), e);
    }
  }

  // The callbacks of a batch, in order.
  function BatchRuns(p: Pool, b: seq<Entry>, batchNo: nat): seq<Run> {
    seq(|b|, i requires 0 <= i < |b| =>
      Run(if b[i].addr in p.heap then p.heap[b[i].addr].sequence else 0, batchNo))
  }

  lemma {:induction false} CallsRun(p: Pool, scripts: seq<seq<Op>>, n: nat)
    requires Open(p) && n <= |p.batch|
    ensures Calls(p, scripts, n).runs == p.runs + BatchRuns(p, p.batch[..n], p.batchNo)
  {
    hide Valid, Apply, ApplyAll;
    if n > 0 {
      var c, e := Calls(p, scripts, n - 1), p.batch[n - 1];
      CallsRun(p, scripts, n - 1);
      CallsKeep(p, scripts, n - 1);
      BatchIsLive(p);
      CallsKeepBatch(p, scripts, n - 1, e);
      CallKeeps(c, n - 1);
      ApplyAllKeepsBatch(Call(c, n - 1), Script(scripts, n - 1), e);
      assert BatchRuns(p, p.batch[..n], p.batchNo) ==
             BatchRuns(p, p.batch[..n - 1], p.batchNo) + [Run(p.heap[e.addr].sequence, p.batchNo)];
    }
  }

  lemma {:induction false} SettleFrame(p: Pool, now: int, a: Addr)
    requires Valid(p)
    ensures var q := Settle(p, now);
      && q.runs == p.runs && q.batchNo == p.batchNo && q.cancelled == p.cancelled
      && (forall s :: s in p.freed ==> s in q.freed)
      && (a in p.heap && Key(p.heap, a) !in p.batch ==> a in q.heap && q.heap[a] == p.heap[a])
      && (a in p.heap && Key(p.heap, a) in p.timers ==> Key(p.heap, a) in q.timers)
    decreases |p.batch|
  {
    hide IndexesAgree, Partitioned, NamedOnce, CancelsStick, RunsRespectCancels;
    if p.batch != [] {
      SettleOneKeeps(p, now);
      BatchIsLive(p);
      BatchIsApart(p);
      SettleFrame(SettleOne(p, now), now, a);
    }
  }

  lemma BatchIsApart(p: Pool)
    requires Valid(p) && p.batch != []
    ensures forall e :: e in p.batch <==> e == p.batch[0] || e in p.batch[1..]
    ensures forall e :: e in p.batch[1..] ==> e.addr != p.batch[0].addr
    ensures forall e :: e in p.timers ==> e.addr != p.batch[0].addr
  {
    hide NamedOnce, CancelsStick, RunsRespectCancels;
    RestOfBatch(p.batch, p.heap);
    assert p.batch[0] in p.batch;
  }

  // After update, a repeating timer that was not cancelled is armed again; any other
  // timer of the batch has been deleted.
  ghost predicate Settled(q: Pool, t: Timer, id: Id, now: int, cancelled: bool) {
    if t.interval != 0 && !cancelled
    then id.addr in q.heap && q.heap[id.addr] == t.(expired := now + t.interval) && Key(q.heap, id.addr) in q.timers
    else t.sequence in q.freed
  }

  lemma {:induction false} SettleEach(p: Pool, now: int, e: Entry)
    requires Valid(p) && e in p.batch && e.addr in p.heap
    ensures Settled(Settle(p, now), p.heap[e.addr], IdOf(p.heap, e.addr), now, IdOf(p.heap, e.addr) in p.canceling)
    decreases |p.batch|
  {
    hide IndexesAgree, Partitioned, NamedOnce, CancelsStick, RunsRespectCancels;
    SettleOneKeeps(p, now);
    BatchIsLive(p);
    BatchIsApart(p);
    var q := SettleOne(p, now);
    if e == p.batch[0] {
      SettleFrame(q, now, e.addr);
    } else {
      SettleEach(q, now, e);
    }
  }

  // A batch runs exactly the expired timers, once each, in list order, whatever its
  // callbacks add or cancel; then each is re-armed at now plus its interval or deleted.
  lemma BatchExact(p: Pool, now: int, scripts: seq<seq<Op>>)
    requires Quiet(p)
    ensures var q, b := Fire(p, now, scripts), Sorted(Due(p, now));
      && q.batchNo == p.batchNo + 1
      && (forall e :: e in b <==> e in p.timers && e.time <= now)
      && (forall i, j :: 0 <= i < j < |b| ==> b[i] != b[j] && b[i].time <= b[j].time)
      && q.runs == p.runs + BatchRuns(p, b, p.batchNo + 1)
      && (forall e :: e in b ==> e.addr in p.heap)
      && (forall e :: e in b ==>
            Settled(q, p.heap[e.addr], IdOf(p.heap, e.addr), now, CancelledBy(scripts, IdOf(p.heap, e.addr), |b|)))
  {
    hide Valid, Calls, Settle, Settled, Min, CancelledBy, Due, Sorted;
    var b := Begin(p, now);
    var n := |b.batch|;
    BatchIsExpired(p, now);
    var c := Calls(b, scripts, n);
    BeginKeeps(p, now);
    CallsKeep(b, scripts, n);
    CallsRun(b, scripts, n);
    assert b.batch[..n] == b.batch;
    assert BatchRuns(b, b.batch, b.batchNo) == BatchRuns(p, b.batch, p.batchNo + 1);
    NotCalling(c);
    var d := c.(calling := false);
    SettleFrame(d, now, 0);
    CallsBatchNo(b, scripts, n);
    BatchIsLive(b);
    forall e | e in b.batch
      ensures Settled(Fire(p, now, scripts), p.heap[e.addr], IdOf(p.heap, e.addr), now,
                      CancelledBy(scripts, IdOf(p.heap, e.addr), n))
    {
      CallsKeepBatch(b, scripts, n, e);
      SettleEach(d, now, e);
      SettledDespiteReset(Settle(d, now), p.heap[e.addr], IdOf(p.heap, e.addr), now,
                          CancelledBy(scripts, IdOf(p.heap, e.addr), n));
    }
  }

  lemma BatchIsExpired(p: Pool, now: int)
    ensures var b := Sorted(Due(p, now));
      && (forall e :: e in b <==> e in p.timers && e.time <= now)
      && (forall i, j :: 0 <= i < j < |b| ==> b[i] != b[j] && b[i].time <= b[j].time)
  {
    var b := Sorted(Due(p, now));
    assert forall i, j :: 0 <= i < j < |b| ==> Leq(b[i], b[j]);
  }

  lemma SettledDespiteReset(q: Pool, t: Timer, id: Id, now: int, cancelled: bool)
    requires Settled(q, t, id, now, cancelled)
    ensures Settled(ResetToEarliest(q), t, id, now, cancelled)
  {
    hide Min;
  }

  lemma ApplyBatchNo(p: Pool, op: Op)
    ensures Apply(p, op).batchNo == p.batchNo
  {
    hide Min;
  }

  lemma {:induction false} ApplyAllBatchNo(p: Pool, ops: seq<Op>)
    ensures ApplyAll(p, ops).batchNo == p.batchNo
  {
    hide Apply;
    if ops != [] {
      ApplyAllBatchNo(p, ops[..|ops| - 1]);
      ApplyBatchNo(ApplyAll(p, ops[..|ops| - 1]), ops[|ops| - 1]);
    }
  }

  lemma {:induction false} CallsBatchNo(p: Pool, scripts: seq<seq<Op>>, n: nat)
    ensures Calls(p, scripts, n).batchNo == p.batchNo
  {
    hide ApplyAll;
    if n > 0 {
      CallsBatchNo(p, scripts, n - 1);
      ApplyAllBatchNo(Call(Calls(p, scripts, n - 1), n - 1), Script(scripts, n - 1));
    }
  }

  // ---------- Cancellation ----------

  // The mark left by a cancellation never changes.
  lemma ApplyKeepsMarks(p: Pool, op: Op, s: nat)
    requires Open(p) && s in p.cancelled
    ensures s in Apply(p, op).cancelled && Apply(p, op).cancelled[s] == p.cancelled[s]
  {
    hide Valid, Min, Cancel;
    if op.OpCancel? {
      CancelKeepsMarks(p, op.id, s);
    }
  }

  lemma CancelKeepsMarks(p: Pool, id: Id, s: nat)
    requires Open(p) && s in p.cancelled
    ensures s in Cancel(p, id).cancelled && Cancel(p, id).cancelled[s] == p.cancelled[s]
  {
    hide IndexesAgree, Partitioned, NamedOnce, RunsRespectCancels, Min;
  }

  lemma {:induction false} ApplyAllKeepsMarks(p: Pool, ops: seq<Op>, s: nat)
    requires Open(p) && s in p.cancelled
    ensures s in ApplyAll(p, ops).cancelled && ApplyAll(p, ops).cancelled[s] == p.cancelled[s]
  {
    hide Valid, Apply;
    if ops != [] {
      ApplyAllKeepsMarks(p, ops[..|ops| - 1], s);
      ApplyAllKeeps(p, ops[..|ops| - 1]);
      ApplyKeepsMarks(ApplyAll(p, ops[..|ops| - 1]), ops[|ops| - 1], s);
    }
  }

  lemma {:induction false} CallsKeepMarks(p: Pool, scripts: seq<seq<Op>>, n: nat, s: nat)
    requires Open(p) && s in p.cancelled
    ensures s in Calls(p, scripts, n).cancelled && Calls(p, scripts, n).cancelled[s] == p.cancelled[s]
  {
    hide Valid, ApplyAll;
    if n > 0 {
      CallsKeepMarks(p, scripts, n - 1, s);
      CallsKeep(p, scripts, n - 1);
      CallKeeps(Calls(p, scripts, n - 1), n - 1);
      ApplyAllKeepsMarks(Call(Calls(p, scripts, n - 1), n - 1), Script(scripts, n - 1), s);
    }
  }

  lemma StepKeepsMarks(p: Pool, e: Event, s: nat)
    requires Quiet(p) && s in p.cancelled
    ensures s in Step(p, e).cancelled && Step(p, e).cancelled[s] == p.cancelled[s]
  {
    hide Valid, Calls, Settle, Min, Apply;
    match e
    case Do(op) => ApplyKeepsMarks(p, op, s);
    case Tick(now, scripts) =>
      var b := Begin(p, now);
      BeginKeeps(p, now);
      CallsKeepMarks(b, scripts, |b.batch|, s);
      CallsKeep(b, scripts, |b.batch|);
      NotCalling(Calls(b, scripts, |b.batch|));
      SettleFrame(Calls(b, scripts, |b.batch|).(calling := false), now, 0);
  }

  lemma {:induction false} RunKeepsMarks(p: Pool, events: seq<Event>, s: nat)
    requires Quiet(p) && s in p.cancelled
    ensures s in RunAll(p, events).cancelled && RunAll(p, events).cancelled[s] == p.cancelled[s]
  {
    hide Quiet, Step;
    if events != [] {
      RunKeepsMarks(p, events[..|events| - 1], s);
      AlwaysQuiet(p, events[..|events| - 1]);
      StepKeepsMarks(RunAll(p, events[..|events| - 1]), events[|events| - 1], s);
    }
  }

  // A timer marked as cancelled never runs in a batch after the one it was cancelled in.
  lemma MarkedNeverRunsLater(p: Pool, events: seq<Event>, s: nat, r: Run)
    requires Quiet(p) && s in p.cancelled && r in RunAll(p, events).runs && r.sequence == s
    ensures r.batchNo <= p.cancelled[s]
  {
    hide IndexesAgree, Partitioned, NamedOnce, CancelsStick, RunAll;
    AlwaysQuiet(p, events);
    RunKeepsMarks(p, events, s);
  }

  // Cancelling a held timer between batches: it never runs again.
  lemma CancelBetweenBatches(p: Pool, id: Id, events: seq<Event>, r: Run)
    requires Quiet(p) && Holds(p, id) && r in RunAll(Cancel(p, id), events).runs && r.sequence == id.sequence
    ensures r.batchNo <= p.batchNo
  {
    hide IndexesAgree, Partitioned, NamedOnce, CancelsStick, RunsRespectCancels, RunAll, Min;
    StepKeepsQuiet(p, Do(OpCancel(id)));
    MarkedNeverRunsLater(Cancel(p, id), events, id.sequence, r);
  }

  // Cancelling a timer of the running batch from one of its callbacks, its own
  // included: it never runs in a later batch.
  lemma CancelInsideBatch(p: Pool, now: int, scripts: seq<seq<Op>>, e: Entry, events: seq<Event>, r: Run)
    requires Quiet(p) && e in Due(p, now) && e.addr in p.heap
    requires CancelledBy(scripts, IdOf(p.heap, e.addr), |Sorted(Due(p, now))|)
    requires r in RunAll(Fire(p, now, scripts), events).runs && r.sequence == p.heap[e.addr].sequence
    ensures r.batchNo <= p.batchNo + 1
  {
    hide Valid, Calls, Settle, Min, RunAll;
    var b := Begin(p, now);
    BeginKeeps(p, now);
    CallsMark(b, scripts, |b.batch|, e);
    CallsKeep(b, scripts, |b.batch|);
    NotCalling(Calls(b, scripts, |b.batch|));
    SettleFrame(Calls(b, scripts, |b.batch|).(calling := false), now, 0);
    StepKeepsQuiet(p, Tick(now, scripts));
    MarkedNeverRunsLater(Fire(p, now, scripts), events, p.heap[e.addr].sequence, r);
  }

  lemma {:induction false} ApplyAllMarks(p: Pool, ops: seq<Op>, e: Entry)
    requires Open(p) && e in p.batch && e.addr in p.heap && OpCancel(IdOf(p.heap, e.addr)) in ops
    ensures var s := p.heap[e.addr].sequence;
      s in ApplyAll(p, ops).cancelled && ApplyAll(p, ops).cancelled[s] == p.batchNo
  {
    hide Valid, Apply;
    var front, last := ops[..|ops| - 1], ops[|ops| - 1];
    var s := p.heap[e.addr].sequence;
    assert ops == front + [last];
    ApplyAllKeeps(p, front);
    ApplyAllKeepsBatch(p, front, e);
    if OpCancel(IdOf(p.heap, e.addr)) in front {
      ApplyAllMarks(p, front, e);
      ApplyKeepsMarks(ApplyAll(p, front), last, s);
    } else {
      CancelMarks(ApplyAll(p, front), e);
    }
  }

  lemma CancelMarks(p: Pool, e: Entry)
    requires Open(p) && e in p.batch && e.addr in p.heap
    ensures var id := IdOf(p.heap, e.addr);
      id.sequence in Apply(p, OpCancel(id)).cancelled && Apply(p, OpCancel(id)).cancelled[id.sequence] == p.batchNo
  {
    hide IndexesAgree, Partitioned, NamedOnce, CancelsStick, RunsRespectCancels, Min;
    BatchIsLive(p);
  }

  lemma {:induction false} CallsMark(p: Pool, scripts: seq<seq<Op>>, n: nat, e: Entry)
    requires Open(p) && e in p.batch && e.addr in p.heap && CancelledBy(scripts, IdOf(p.heap, e.addr), n)
    ensures var s := p.heap[e.addr].sequence;
      s in Calls(p, scripts, n).cancelled && Calls(p, scripts, n).cancelled[s] == p.batchNo
  {
    hide Valid, ApplyAll;
    var id := IdOf(p.heap, e.addr);
    CallsKeep(p, scripts, n - 1);
    CallsKeepBatch(p, scripts, n - 1, e);
    var c := Call(Calls(p, scripts, n - 1), n - 1);
    CallKeeps(Calls(p, scripts, n - 1), n - 1);
    if OpCancel(id) in Script(scripts, n - 1) {
      ApplyAllMarks(c, Script(scripts, n - 1), e);
    } else {
      CallsMark(p, scripts, n - 1, e);
      ApplyAllKeepsMarks(c, Script(scripts, n - 1), id.sequence);
    }
  }

  // ---------- Identifiers of deleted timers ----------

  // Every timer is where it was, and no timer of the batch gained or lost a mark.
  ghost predicate Untouched(p: Pool, q: Pool) {
    && q.timers == p.timers && q.active == p.active && q.heap == p.heap && q.pending == p.pending
    && q.batch == p.batch && q.freed == p.freed && q.cancelled == p.cancelled
    && (forall e :: e in p.batch && e.addr in p.heap ==>
          (IdOf(p.heap, e.addr) in q.canceling <==> IdOf(p.heap, e.addr) in p.canceling))
  }

  lemma NotHeldCancelsNothing(p: Pool, id: Id)
    requires Open(p) && !Holds(p, id)
    ensures Untouched(p, Cancel(p, id))
    ensures Quiet(p) && p.timers != {} && Min(p.timers).time != 0 ==> Cancel(p, id) == p
  {
    hide NamedOnce, CancelsStick, RunsRespectCancels, Min;
    ActiveMeansIndexed(p, id);
  }

  lemma ApplyKeepsFreed(p: Pool, op: Op, s: nat)
    requires s in p.freed
    ensures s in Apply(p, op).freed
  {
    hide Min, Key, IdOf, Holds;
  }

  lemma {:induction false} ApplyAllKeepsFreed(p: Pool, ops: seq<Op>, s: nat)
    requires s in p.freed
    ensures s in ApplyAll(p, ops).freed
  {
    hide Apply;
    if ops != [] {
      ApplyAllKeepsFreed(p, ops[..|ops| - 1], s);
      ApplyKeepsFreed(ApplyAll(p, ops[..|ops| - 1]), ops[|ops| - 1], s);
    }
  }

  lemma {:induction false} CallsKeepFreed(p: Pool, scripts: seq<seq<Op>>, n: nat, s: nat)
    requires s in p.freed
    ensures s in Calls(p, scripts, n).freed
  {
    hide ApplyAll;
    if n != 0 {
      CallsKeepFreed(p, scripts, n - 1, s);
      ApplyAllKeepsFreed(Call(Calls(p, scripts, n - 1), n - 1), Script(scripts, n - 1), s);
    }
  }

  lemma StepKeepsFreed(p: Pool, e: Event, s: nat)
    requires Quiet(p) && s in p.freed
    ensures s in Step(p, e).freed
  {
    hide Valid, Calls, Settle, Min, Apply;
    match e
    case Do(op) => ApplyKeepsFreed(p, op, s);
    case Tick(now, scripts) =>
      BeginKeeps(p, now);
      var b := Begin(p, now);
      CallsKeep(b, scripts, |b.batch|);
      CallsKeepFreed(b, scripts, |b.batch|, s);
      var c := Calls(b, scripts, |b.batch|);
      NotCalling(c);
      SettleFrame(c.(calling := false), now, 0);
  }

  lemma {:induction false} RunKeepsFreed(p: Pool, events: seq<Event>, s: nat)
    requires Quiet(p) && s in p.freed
    ensures s in RunAll(p, events).freed
  {
    hide Quiet, Step;
    if events != [] {
      RunKeepsFreed(p, events[..|events| - 1], s);
      AlwaysQuiet(p, events[..|events| - 1]);
      StepKeepsFreed(RunAll(p, events[..|events| - 1]), events[|events| - 1], s);
    }
  }

  // A deleted timer is not held under any address, its old one included.
  lemma FreedIsNotHeld(p: Pool, id: Id)
    requires Valid(p) && id.sequence in p.freed
    ensures !Holds(p, id)
  {
    hide IndexesAgree, Partitioned, CancelsStick, RunsRespectCancels;
  }

  // The identifier of a deleted timer cancels nothing for ever after: not between
  // batches, and not between any two callbacks of a batch, whether or not its address has
  // passed to a newer timer.
  lemma StaleIdCancelsNothing(p: Pool, id: Id, events: seq<Event>, now: int, scripts: seq<seq<Op>>, n: nat)
    requires Quiet(p) && id.sequence in p.freed
    ensures var r := RunAll(p, events); Untouched(r, Cancel(r, id))
    ensures var c := Calls(Begin(RunAll(p, events), now), scripts, n); Untouched(c, Cancel(c, id))
  {
    hide Valid, RunAll, Calls, Cancel, Untouched;
    var r := RunAll(p, events);
    AlwaysQuiet(p, events);
    RunKeepsFreed(p, events, id.sequence);
    FreedIsNotHeld(r, id);
    NotHeldCancelsNothing(r, id);
    var b := Begin(r, now);
    BeginKeeps(r, now);
    CallsKeep(b, scripts, n);
    CallsKeepFreed(b, scripts, n, id.sequence);
    FreedIsNotHeld(Calls(b, scripts, n), id);
    NotHeldCancelsNothing(Calls(b, scripts, n), id);
  }

  // ---------- The pool as it is updated in place ----------

  // What remains of the list of entries due at now.
  function DueIn(timers: set<Entry>, now: int): set<Entry> {
    set e | e in timers && (e.time < now || (e.time == now && e.addr < UINTPTR_MAX))
  }

  lemma TakeEarliest(timers: set<Entry>, now: int)
    requires timers != {} && Min(timers).time <= now
    ensures Sorted(DueIn(timers, now)) == [Min(timers)] + Sorted(DueIn(timers - {Min(timers)}, now))
  {
    var m, due := Min(timers), DueIn(timers, now);
    assert m in due;
    MinUnique(due, m);
    assert due - {m} == DueIn(timers - {m}, now);
  }

  lemma NoneDue(timers: set<Entry>, now: int)
    requires timers == {} || Min(timers).time > now
    ensures DueIn(timers, now) == {}
  {}

  class TimerPool {
    var timers: set<Entry>
    var active: set<Id>
    var canceling: set<Id>
    var calling: bool
    var heap: map<Addr, Timer>
    var deadline: int
    var nextSequence: nat
    var pending: set<Addr>
    ghost var batch: seq<Entry>
    ghost var batchNo: nat
    ghost var freed: seq<nat>
    ghost var runs: seq<Run>
    ghost var cancelled: map<nat, nat>

    ghost function View(): Pool
      reads this
    {
      Pool(timers, active, canceling, calling, heap, pending, batch, deadline, nextSequence, batchNo, freed, runs, cancelled)
    }

    constructor ()
      ensures View() == INITIAL
    {
      timers, active, canceling, calling, heap, deadline, nextSequence := {}, {}, {}, false, map[], 0, 0;
      pending, batch, batchNo, freed, runs, cancelled := {}, [], 0, [], [], map[];
    }

    // new Timer in add_timer; the allocator picks an unused address.
    // Its name was never used before, and the pool does not hold it yet.
    method NewTimer(a: Addr, expired: int, interval: int) returns (id: Id)
      requires Valid(View()) && a !in heap
      modifies this
      ensures View() == Allocate(old(View()), a, expired, interval)
      ensures Valid(View()) && Names(heap, id) && !Holds(View(), id)
      ensures id.addr == a && heap[a].expired == expired && heap[a].interval == interval && a in pending
      ensures id.sequence !in freed && forall b :: b in old(heap) ==> old(heap)[b].sequence != id.sequence
    {
      AllocateKeeps(View(), a, expired, interval);
      NameIsNew(View());
      id := Id(a, nextSequence);
      heap := heap[a := Timer(expired, interval, nextSequence)];
      nextSequence := nextSequence + 1;
      pending := pending + {a};
    }

    method DeleteTimer(a: Addr)
      requires a in heap
      modifies `heap, `freed
      ensures View() == Free(old(View()), a)
    {
      freed := freed + [heap[a].sequence];
      heap := heap - {a};
    }

    method ResetTimerFd(expired: int)
      modifies `deadline
      ensures View() == Reset(old(View()), expired)
    {
      if expired != 0 {
        deadline := expired;
      }
    }

    method ResetFromList()
      requires IndexesAgree(timers, active, heap)
      modifies `deadline
      ensures View() == ResetToEarliest(old(View()))
    {
      if timers != {} {
        assert Min(timers) in timers;
        ResetTimerFd(heap[Min(timers).addr].expired);
      } else {
        ResetTimerFd(0);
      }
    }

    // The result says whether the timer comes before all others.
    method SaveTimer(a: Addr) returns (earliestChanged: bool)
      requires a in heap
      modifies `timers, `active
      ensures View() == Save(old(View()), a)
      ensures old(IndexesAgree(timers, active, heap)) ==> IndexesAgree(timers, active, heap)
      ensures earliestChanged <==> forall e :: e in old(timers) ==> heap[a].expired < e.time
    {
      hide Min;
      if timers != {} {
        assert forall e :: e in timers ==> Min(timers).time <= e.time;
        assert Min(timers) in timers;
      }
      earliestChanged := timers == {} || Min(timers).time > heap[a].expired;
      timers := timers + {Entry(heap[a].expired, a)};
      active := active + {Id(a, heap[a].sequence)};
    }

    // The timer is held from now on, and the deadline is still the earliest expiry.
    method AddTimerInOwnLoop(a: Addr)
      requires Valid(View()) && a in pending
      modifies this
      ensures View() == Add(old(View()), a)
      ensures Valid(View()) && a in heap && Holds(View(), IdOf(heap, a))
      ensures heap == old(heap) && Entry(heap[a].expired, a) in timers && a !in pending
      ensures old(DeadlineIsEarliest(View())) ==> DeadlineIsEarliest(View())
    {
      hide IndexesAgree, Partitioned, NamedOnce, CancelsStick, RunsRespectCancels, Min;
      PendingIsLive(View());
      AddKeeps(View(), a);
      if DeadlineIsEarliest(View()) {
        AddKeepsDeadline(View(), a);
      }
      ghost var before, expiry := View(), heap[a].expired;
      EarliestMeans(before, expiry);
      var earliestChanged := SaveTimer(a);
      pending := pending - {a};
      if earliestChanged {
        ResetTimerFd(heap[a].expired);
      }
    }

    // Afterwards the pool no longer holds the timer, or it is in the batch and marked.
    method CancelTimerInOwnLoop(id: Id)
      requires Open(View())
      modifies this
      ensures View() == Cancel(old(View()), id)
      ensures Open(View())
      ensures Holds(View(), id) ==> calling && id in canceling
    {
      hide Valid, Cancel, Holds;
      CancelKeeps(View(), id);
      CancelLetsGo(View(), id);
      CancelNow(id);
    }

    method CancelNow(id: Id)
      requires Open(View())
      modifies this
      ensures View() == Cancel(old(View()), id)
    {
      hide IndexesAgree, Partitioned, NamedOnce, CancelsStick, RunsRespectCancels, Min;
      ghost var p := View();
      ActiveMeansIndexed(p, id);
      if Holds(p, id) {
        cancelled := cancelled[id.sequence := batchNo];
      }
      if id in active {
        RemoveParts(p, id.addr);
        timers := timers - {Entry(heap[id.addr].expired, id.addr)};
        DeleteTimer(id.addr);
        active := active - {id};
      } else if calling {
        canceling := canceling + {id};
      }
      ResetFromList();
    }

    method Perform(op: Op)
      requires Open(View())
      modifies this
      ensures View() == Apply(old(View()), op)
    {
      hide IndexesAgree, Partitioned, NamedOnce, CancelsStick, RunsRespectCancels, Min;
      match op
      case OpAllocate(a, expired, interval) =>
        if a !in heap {
          var id := NewTimer(a, expired, interval);
        }
      case OpAdd(a) =>
        if a in pending && a in heap {
          AddTimerInOwnLoop(a);
        }
      case OpCancel(id) =>
        CancelTimerInOwnLoop(id);
    }

    method PerformAll(ops: seq<Op>)
      requires Open(View())
      modifies this
      ensures View() == ApplyAll(old(View()), ops)
    {
      hide Valid, Apply;
      ghost var p := View();
      for i := 0 to |ops|
        invariant View() == ApplyAll(p, ops[..i]) && Open(View())
      {
        Perform(ops[i]);
        ApplyKeeps(ApplyAll(p, ops[..i]), ops[i]);
        assert ops[..i + 1][..i] == ops[..i];
      }
      assert ops[..|ops|] == ops;
    }

    // Take the expired entries off the timer list, in order.
    method TakeExpired(now: int) returns (expired: seq<Entry>)
      modifies `timers
      ensures expired == Sorted(Due(old(View()), now))
      ensures timers == old(timers) - Due(old(View()), now)
    {
      hide Min, Sorted;
      ghost var due := Due(View(), now);
      expired := [];
      while timers != {} && Min(timers).time <= now
        invariant timers <= old(timers)
        invariant forall e :: e in old(timers) ==> e in timers || e in due
        invariant expired + Sorted(DueIn(timers, now)) == Sorted(due)
        decreases timers
      {
        var first := Min(timers);
        TakeEarliest(timers, now);
        expired := expired + [first];
        timers := timers - {first};
      }
      NoneDue(timers, now);
      SortedNone();
      assert expired + [] == expired;
      assert forall e :: e in due && e in timers ==> e in DueIn(timers, now);
    }

    method EraseActive(expired: seq<Entry>)
      requires forall e :: e in expired ==> e.addr in heap
      modifies `active
      ensures active == old(active) - (set e | e in expired :: IdOf(heap, e.addr))
    {
      for i := 0 to |expired|
        invariant active == old(active) - (set e | e in expired[..i] :: IdOf(heap, e.addr))
      {
        var e := expired[i];
        active := active - {Id(e.addr, heap[e.addr].sequence)};
        assert expired[..i + 1] == expired[..i] + [e];
      }
      assert expired[..|expired|] == expired;
    }

    method FillExpiredTimers(now: int) returns (expired: seq<Entry>)
      requires IndexesAgree(timers, active, heap)
      modifies `timers, `active
      ensures expired == Sorted(Due(old(View()), now))
      ensures timers == old(timers) - Due(old(View()), now)
      ensures active == old(active) - DueIds(old(View()), now)
    {
      hide Min;
      expired := TakeExpired(now);
      EraseActive(expired);
    }

    // Re-arm or delete every timer of the batch, then reset the timerfd.
    method Update(now: int, expired: seq<Entry>)
      requires Valid(View()) && expired == batch
      modifies this
      ensures View() == ResetToEarliest(Settle(old(View()), now))
    {
      hide IndexesAgree, Partitioned, NamedOnce, CancelsStick, RunsRespectCancels, Min;
      ghost var p := View();
      for i := 0 to |expired|
        invariant Valid(View()) && batch == expired[i..]
        invariant Settle(View(), now) == Settle(p, now)
      {
        SettleOneKeeps(View(), now);
        ghost var q := View();
        var a := expired[i].addr;
        batch := batch[1..];
        if heap[a].interval != 0 && Id(a, heap[a].sequence) !in canceling {
          heap := heap[a := heap[a].(expired := now + heap[a].interval)];
          var earliestChanged := SaveTimer(a);
        } else {
          DeleteTimer(a);
        }
        assert View() == SettleOne(q, now);
      }
      ListedAreLive(View());
      ResetFromList();
    }

    // handle_read: readOk says whether the timerfd gave its eight bytes, and scripts
    // what the callbacks will do.
    method HandleRead(now: int, readOk: bool, scripts: seq<seq<Op>>)
      requires Quiet(View())
      modifies this
      ensures View() == if readOk then Fire(old(View()), now, scripts) else old(View())
    {
      hide IndexesAgree, Partitioned, NamedOnce, CancelsStick, RunsRespectCancels, Min;
      if !readOk {
        return;
      }
      ghost var p := View();
      ListedAreLive(p);
      var expired := FillExpiredTimers(now);
      batch, batchNo := expired, batchNo + 1;
      calling := true;
      canceling := {};
      ghost var b := Begin(p, now);
      BeginKeeps(p, now);
      RunCallbacks(expired, scripts);
      CallsKeep(b, scripts, |expired|);
      NotCalling(View());
      calling := false;
      Update(now, expired);
    }

    method RunCallbacks(expired: seq<Entry>, scripts: seq<seq<Op>>)
      requires Open(View()) && expired == batch
      modifies this
      ensures View() == Calls(old(View()), scripts, |expired|)
    {
      hide Valid, ApplyAll;
      ghost var b := View();
      for i := 0 to |expired|
        invariant View() == Calls(b, scripts, i)
      {
        CallsKeep(b, scripts, i);
        BatchIsLive(View());
        runs := runs + [Run(heap[expired[i].addr].sequence, batchNo)];
        CallKeeps(Calls(b, scripts, i), i);
        PerformAll(if i < |scripts| then scripts[i] else []);
      }
    }
  }

  lemma NameIsNew(p: Pool)
    requires Valid(p)
    ensures p.nextSequence !in p.freed && forall b :: b in p.heap ==> p.heap[b].sequence != p.nextSequence
    ensures forall e :: e in p.timers || e in p.batch ==> e.addr in p.heap
  {
    hide CancelsStick, RunsRespectCancels;
  }

  // Coming before the first is coming before all.
  lemma EarliestMeans(p: Pool, expired: int)
    ensures EarliestChanged(p, expired) <==> forall e :: e in p.timers ==> expired < e.time
  {
    hide Min;
    if p.timers != {} {
      assert Min(p.timers) in p.timers;
    }
  }

  lemma CancelLetsGo(p: Pool, id: Id)
    requires Open(p)
    ensures var q := Cancel(p, id); Holds(q, id) ==> q.calling && id in q.canceling
  {
    hide NamedOnce, CancelsStick, RunsRespectCancels, Min;
    ActiveMeansIndexed(p, id);
  }

  lemma SortedNone()
    ensures Sorted({}) == []
  {}

  lemma ListedAreLive(p: Pool)
    requires Valid(p)
    ensures IndexesAgree(p.timers, p.active, p.heap)
  {}
}
