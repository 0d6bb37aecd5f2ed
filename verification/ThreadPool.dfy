/** Task queue, workers and joinall of src/ThreadPool.cc with an unbounded task queue:
    any number of workers, spurious wakeups, steps at lock granularity. */
module ThreadPools {

  type Thread = nat

  // User tasks carry distinct numbers; a null std::function tells a worker to leave.
  datatype Task = User(id: nat) | Sentinel

  datatype Worker =
    | Idle                 // outside the lock, about to fetch a task
    | Waiting              // in empty_cv_.wait()
    | Woken                // out of the wait, not yet back inside the lock
    | Executing(id: nat)
    | Leaving              // took a sentinel, has not signalled yet
    | Exited

  datatype Phase = Open | Joining | Joined

  datatype State = State(
    phase: Phase,
    queue: seq<Task>,
    workers: map<Thread, Worker>,
    accepted: seq<nat>,    // user tasks in the order run_task stored them
    started: seq<nat>,     // user tasks in the order workers took them
    finished: seq<nat>)    // user tasks in the order they ended

  // ---------- Reading the state ----------

  function Users(q: seq<Task>): seq<nat> {
    if q == [] then [] else (if q[0].User? then [q[0].id] else []) + Users(q[1..])
  }

  function UserTasks(ids: seq<nat>): (q: seq<Task>)
    ensures |q| == |ids|
  {
    seq(|ids|, i requires 0 <= i < |ids| => User(ids[i]))
  }

  function Sentinels(n: nat): seq<Task> {
    seq(n, _ => Sentinel)
  }

  predicate AllSentinels(q: seq<Task>) {
    forall i :: 0 <= i < |q| ==> q[i] == Sentinel
  }

  // Sentinels come last.
  predicate SentinelsLast(q: seq<Task>) {
    forall i, j :: 0 <= i < j < |q| && q[i] == Sentinel ==> q[j] == Sentinel
  }

  function CountSentinels(q: seq<Task>): nat {
    if q == [] then 0 else (if q[0].Sentinel? then 1 else 0) + CountSentinels(q[1..])
  }

  predicate HasLeft(w: Worker) {
    w.Leaving? || w.Exited?
  }

  function WaitingSet(workers: map<Thread, Worker>): set<Thread> {
    set t | t in workers && workers[t].Waiting?
  }

  // Workers that have not taken a sentinel.
  function Staying(workers: map<Thread, Worker>): set<Thread> {
    set t | t in workers && !HasLeft(workers[t])
  }

  // A worker that will touch the queue, or signal, without being signalled first.
  predicate Awake(w: Worker) {
    !w.Waiting? && !w.Exited?
  }

  // ---------- Steps ----------

  // A signal wakes at least one waiting worker when there is any.
  predicate Signals(workers: map<Thread, Worker>, woken: set<Thread>) {
    woken <= WaitingSet(workers) && (WaitingSet(workers) != {} ==> woken != {})
  }

  function Wake(workers: map<Thread, Worker>, woken: set<Thread>): map<Thread, Worker> {
    map t | t in workers :: if t in woken then Woken else workers[t]
  }

  datatype Action =
    | RunTask(ids: seq<nat>, woken: set<Thread>)  // run_task, from any thread
    | JoinAll(woken: set<Thread>)                 // joinall queues its sentinels
    | Fetch(t: Thread)                            // a worker inside the lock
    | Spurious(t: Thread)
    | Finish(t: Thread)
    | SignalAndExit(t: Thread, woken: set<Thread>)
    | JoinReturns

  ghost predicate Next(s: State, s': State, a: Action) {
    match a
    case RunTask(ids, woken) =>
      && s.phase == Open && Signals(s.workers, woken) && Fresh(s.accepted, ids)
      && s' == s.(queue := s.queue + UserTasks(ids), accepted := s.accepted + ids, workers := Wake(s.workers, woken))
    case JoinAll(woken) =>
      && s.phase == Open && Signals(s.workers, woken)
      && s' == s.(phase := Joining, queue := s.queue + Sentinels(|s.workers.Keys|), workers := Wake(s.workers, woken))
    case Fetch(t) => t in s.workers && (s.workers[t].Idle? || s.workers[t].Woken?) && s' == Fetched(s, t)
    case Spurious(t) => t in s.workers && s.workers[t].Waiting? && s' == s.(workers := s.workers[t := Woken])
    case Finish(t) =>
      && t in s.workers && s.workers[t].Executing?
      && s' == s.(workers := s.workers[t := Idle], finished := s.finished + [s.workers[t].id])
    case SignalAndExit(t, woken) =>
      && t in s.workers && s.workers[t].Leaving? && Signals(s.workers, woken)
      && s' == s.(workers := Wake(s.workers, woken)[t := Exited])
    case JoinReturns =>
      && s.phase == Joining && (forall t :: t in s.workers ==> s.workers[t].Exited?)
      && s' == s.(phase := Joined)
  }

  // New task numbers, each used once.
  ghost predicate Fresh(accepted: seq<nat>, ids: seq<nat>) {
    forall i, j :: 0 <= i < j < |accepted + ids| && j >= |accepted| ==> (accepted + ids)[i] != (accepted + ids)[j]
  }

  function Fetched(s: State, t: Thread): State
    requires t in s.workers
  {
    if s.queue == [] then s.(workers := s.workers[t := Waiting])
    else match s.queue[0]
      case User(id) =>
        s.(queue := s.queue[1..], started := s.started + [id], workers := s.workers[t := Executing(id)])
      case Sentinel => s.(queue := s.queue[1..], workers := s.workers[t := Leaving])
  }

  ghost predicate Initial(s: State) {
    && s.phase == Open && s.queue == [] && s.accepted == [] && s.started == [] && s.finished == []
    && s.workers != map[] && forall t :: t in s.workers ==> s.workers[t].Idle?
  }

  // ---------- What stays true ----------

  ghost predicate Distinct(s: seq<nat>) {
    forall i, j :: 0 <= i < j < |s| ==> s[i] != s[j]
  }

  // Every task that was taken is being executed by one worker or has ended once.
  ghost predicate TasksAccounted(workers: map<Thread, Worker>, started: seq<nat>, finished: seq<nat>) {
    && Distinct(finished) && (forall id :: id in finished ==> id in started)
    && (forall id :: id in started ==> id in finished || (exists t :: t in workers && workers[t] == Executing(id)))
    && (forall t :: t in workers && workers[t].Executing? ==> workers[t].id in started && workers[t].id !in finished)
    && (forall t, u :: t in workers && u in workers && workers[t].Executing? && workers[u] == workers[t] ==> t == u)
  }

  // One sentinel is left for every worker that has not taken one.
  ghost predicate SentinelsMatch(phase: Phase, queue: seq<Task>, workers: map<Thread, Worker>) {
    && SentinelsLast(queue)
    && (phase == Open ==> CountSentinels(queue) == 0 && Staying(workers) == workers.Keys)
    && (phase != Open ==> CountSentinels(queue) == |Staying(workers)|)
    && (Staying(workers) != workers.Keys ==> AllSentinels(queue))
  }

  // A non-empty queue has somebody coming for it.
  ghost predicate Attended(queue: seq<Task>, workers: map<Thread, Worker>) {
    queue != [] ==> exists t :: t in workers && Awake(workers[t])
  }

  ghost predicate Valid(s: State) {
    && s.workers != map[]
    && Distinct(s.accepted) && s.accepted == s.started + Users(s.queue)
    && TasksAccounted(s.workers, s.started, s.finished)
    && SentinelsMatch(s.phase, s.queue, s.workers) && Attended(s.queue, s.workers)
  }

  // ---------- Lists of tasks ----------

  lemma {:induction false} Append(p: seq<Task>, q: seq<Task>)
    ensures Users(p + q) == Users(p) + Users(q) && CountSentinels(p + q) == CountSentinels(p) + CountSentinels(q)
  {
    if p == [] {
      assert p + q == q;
    } else {
      Append(p[1..], q);
      assert (p + q)[0] == p[0] && (p + q)[1..] == p[1..] + q;
      var head := if p[0].User? then [p[0].id] else [];
      assert head + (Users(p[1..]) + Users(q)) == (head + Users(p[1..])) + Users(q);
    }
  }

  lemma {:induction false} UsersOfUserTasks(ids: seq<nat>)
    ensures Users(UserTasks(ids)) == ids && CountSentinels(UserTasks(ids)) == 0
  {
    if ids != [] {
      UsersOfUserTasks(ids[1..]);
      assert UserTasks(ids)[1..] == UserTasks(ids[1..]);
    }
  }

  lemma {:induction false} OnlySentinels(q: seq<Task>)
    requires AllSentinels(q)
    ensures Users(q) == [] && CountSentinels(q) == |q|
  {
    if q != [] {
      OnlySentinels(q[1..]);
    }
  }

  lemma {:induction false} NoSentinels(q: seq<Task>)
    requires CountSentinels(q) == 0
    ensures forall i :: 0 <= i < |q| ==> q[i] != Sentinel
  {
    if q != [] {
      NoSentinels(q[1..]);
      forall i | 0 <= i < |q|
        ensures q[i] != Sentinel
      {
        assert i > 0 ==> q[i] == q[1..][i - 1];
      }
    }
  }

  // ---------- Workers ----------

  lemma WakeChanges(workers: map<Thread, Worker>, woken: set<Thread>)
    requires Signals(workers, woken)
    ensures Wake(workers, woken).Keys == workers.Keys
    ensures Staying(Wake(workers, woken)) == Staying(workers)
    ensures forall t :: t in workers && !workers[t].Waiting? ==> Wake(workers, woken)[t] == workers[t]
    ensures forall t :: t in workers && workers[t].Waiting? ==>
      Wake(workers, woken)[t].Waiting? || Wake(workers, woken)[t].Woken?
    ensures WaitingSet(workers) != {} ==> exists t :: t in workers && Wake(workers, woken)[t].Woken?
  {
    if WaitingSet(workers) != {} {
      var t :| t in woken;
      assert t in workers && Wake(workers, woken)[t].Woken?;
    }
  }

  lemma TasksKept(workers: map<Thread, Worker>, workers': map<Thread, Worker>, started: seq<nat>, finished: seq<nat>)
    requires TasksAccounted(workers, started, finished) && workers'.Keys == workers.Keys
    requires forall t :: t in workers ==> (workers[t].Executing? <==> workers'[t].Executing?)
    requires forall t :: t in workers && workers[t].Executing? ==> workers'[t] == workers[t]
    ensures TasksAccounted(workers', started, finished)
  {
    forall id | id in started && id !in finished
      ensures exists t :: t in workers' && workers'[t] == Executing(id)
    {
      var t :| t in workers && workers[t] == Executing(id);
      assert workers'[t] == Executing(id);
    }
  }

  // Someone comes for a queue that was just added to.
  lemma PushIsAttended(workers: map<Thread, Worker>, woken: set<Thread>)
    requires workers != map[] && Signals(workers, woken) && Staying(workers) == workers.Keys
    ensures exists t :: t in Wake(workers, woken) && Awake(Wake(workers, woken)[t])
  {
    WakeChanges(workers, woken);
    var u :| u in workers.Keys;
    assert u in Staying(workers);
    if workers[u].Waiting? {
      assert u in WaitingSet(workers);
    } else {
      assert Awake(Wake(workers, woken)[u]);
    }
  }

  lemma WakeKeepsTasks(workers: map<Thread, Worker>, woken: set<Thread>, started: seq<nat>, finished: seq<nat>)
    requires TasksAccounted(workers, started, finished) && Signals(workers, woken)
    ensures TasksAccounted(Wake(workers, woken), started, finished)
  {
    hide TasksAccounted;
    WakeChanges(workers, woken);
    TasksKept(workers, Wake(workers, woken), started, finished);
  }

  lemma QueueAfterRunTask(queue: seq<Task>, ids: seq<nat>)
    requires CountSentinels(queue) == 0
    ensures Users(queue + UserTasks(ids)) == Users(queue) + ids
    ensures CountSentinels(queue + UserTasks(ids)) == 0 && SentinelsLast(queue + UserTasks(ids))
  {
    Append(queue, UserTasks(ids));
    UsersOfUserTasks(ids);
    NoSentinels(queue + UserTasks(ids));
  }

  lemma QueueAfterJoinAll(queue: seq<Task>, n: nat)
    requires CountSentinels(queue) == 0
    ensures Users(queue + Sentinels(n)) == Users(queue)
    ensures CountSentinels(queue + Sentinels(n)) == n && SentinelsLast(queue + Sentinels(n))
  {
    Append(queue, Sentinels(n));
    OnlySentinels(Sentinels(n));
    NoSentinels(queue);
    assert Users(queue) + [] == Users(queue);
  }

  lemma FreshKeepsDistinct(accepted: seq<nat>, ids: seq<nat>)
    requires Distinct(accepted) && Fresh(accepted, ids)
    ensures Distinct(accepted + ids)
  {}

  lemma RunTaskKeeps(s: State, s': State, ids: seq<nat>, woken: set<Thread>)
    requires Valid(s) && Next(s, s', RunTask(ids, woken))
    ensures Valid(s')
  {
    hide TasksAccounted, Users, UserTasks, CountSentinels, SentinelsLast, Staying, Wake, Distinct, Fresh, Signals, Awake;
    WakeChanges(s.workers, woken);
    WakeKeepsTasks(s.workers, woken, s.started, s.finished);
    PushIsAttended(s.workers, woken);
    QueueAfterRunTask(s.queue, ids);
    FreshKeepsDistinct(s.accepted, ids);
    assert s.accepted + ids == s.started + (Users(s.queue) + ids);
  }

  lemma JoinAllKeeps(s: State, s': State, woken: set<Thread>)
    requires Valid(s) && Next(s, s', JoinAll(woken))
    ensures Valid(s')
  {
    hide TasksAccounted, Users, CountSentinels, SentinelsLast, Staying, Wake, Distinct, Signals, Awake;
    WakeChanges(s.workers, woken);
    WakeKeepsTasks(s.workers, woken, s.started, s.finished);
    PushIsAttended(s.workers, woken);
    QueueAfterJoinAll(s.queue, |s.workers.Keys|);
  }

  lemma StayingAfter(workers: map<Thread, Worker>, t: Thread, w: Worker)
    requires t in workers
    ensures HasLeft(w) ==> Staying(workers[t := w]) == Staying(workers) - {t}
    ensures !HasLeft(w) && t in Staying(workers) ==> Staying(workers[t := w]) == Staying(workers)
    ensures workers[t := w].Keys == workers.Keys
  {}

  lemma TakeFirst(queue: seq<Task>)
    requires queue != [] && SentinelsLast(queue)
    ensures SentinelsLast(queue[1..])
    ensures queue[0].User? ==>
      Users(queue) == [queue[0].id] + Users(queue[1..]) && CountSentinels(queue) == CountSentinels(queue[1..])
    ensures queue[0].Sentinel? ==>
      AllSentinels(queue[1..]) && Users(queue) == Users(queue[1..]) && CountSentinels(queue) == CountSentinels(queue[1..]) + 1
  {
    assert queue[0].Sentinel? ==> [] + Users(queue[1..]) == Users(queue[1..]);
  }

  // A task not started before is now executed by t alone.
  lemma StartTask(workers: map<Thread, Worker>, started: seq<nat>, finished: seq<nat>, t: Thread, id: nat)
    requires TasksAccounted(workers, started, finished) && t in workers && !workers[t].Executing? && id !in started
    ensures TasksAccounted(workers[t := Executing(id)], started + [id], finished)
  {
    var workers' := workers[t := Executing(id)];
    forall j | j in started + [id] && j !in finished
      ensures exists u :: u in workers' && workers'[u] == Executing(j)
    {
      if j in started {
        var u :| u in workers && workers[u] == Executing(j);
        assert workers'[u] == Executing(j);
      } else {
        assert workers'[t] == Executing(j);
      }
    }
  }

  lemma EndTask(workers: map<Thread, Worker>, started: seq<nat>, finished: seq<nat>, t: Thread)
    requires TasksAccounted(workers, started, finished) && t in workers && workers[t].Executing?
    ensures TasksAccounted(workers[t := Idle], started, finished + [workers[t].id])
  {
    var id, workers', finished' := workers[t].id, workers[t := Idle], finished + [workers[t].id];
    forall j | j in started && j !in finished'
      ensures exists u :: u in workers' && workers'[u] == Executing(j)
    {
      var u :| u in workers && workers[u] == Executing(j);
      assert u != t && workers'[u] == Executing(j);
    }
  }

  lemma ChangeOne(workers: map<Thread, Worker>, started: seq<nat>, finished: seq<nat>, t: Thread, w: Worker)
    requires TasksAccounted(workers, started, finished) && t in workers && !workers[t].Executing? && !w.Executing?
    ensures TasksAccounted(workers[t := w], started, finished)
  {
    hide TasksAccounted;
    TasksKept(workers, workers[t := w], started, finished);
  }

  lemma NextIsNew(accepted: seq<nat>, started: seq<nat>, id: nat, rest: seq<nat>)
    requires Distinct(accepted) && accepted == started + ([id] + rest)
    ensures id !in started && accepted == (started + [id]) + rest
  {
    assert accepted[|started|] == id;
    assert forall i :: 0 <= i < |started| ==> started[i] == accepted[i];
  }

  lemma FetchKeeps(s: State, s': State, t: Thread)
    requires Valid(s) && Next(s, s', Fetch(t))
    ensures Valid(s')
  {
    hide TasksAccounted, Users, CountSentinels, SentinelsLast, Staying, Distinct, AllSentinels;
    InStaying(s.workers, t);
    if s.queue == [] {
      StayingAfter(s.workers, t, Waiting);
      ChangeOne(s.workers, s.started, s.finished, t, Waiting);
    } else {
      TakeFirst(s.queue);
      match s.queue[0]
      case User(id) =>
        StayingAfter(s.workers, t, Executing(id));
        NextIsNew(s.accepted, s.started, id, Users(s.queue[1..]));
        StartTask(s.workers, s.started, s.finished, t, id);
        FirstIsUser(s.queue);
        assert Awake(s'.workers[t]);
      case Sentinel =>
        StayingAfter(s.workers, t, Leaving);
        ChangeOne(s.workers, s.started, s.finished, t, Leaving);
        OneFewer(Staying(s.workers), t);
        assert Awake(s'.workers[t]);
    }
  }

  lemma InStaying(workers: map<Thread, Worker>, t: Thread)
    requires t in workers
    ensures t in Staying(workers) <==> !HasLeft(workers[t])
  {}

  lemma OneFewer(a: set<Thread>, t: Thread)
    requires t in a
    ensures |a - {t}| == |a| - 1
  {}

  lemma FirstIsUser(queue: seq<Task>)
    requires queue != [] && queue[0].User?
    ensures !AllSentinels(queue)
  {}

  lemma FinishKeeps(s: State, s': State, t: Thread)
    requires Valid(s) && Next(s, s', Finish(t))
    ensures Valid(s')
  {
    hide TasksAccounted, Users, CountSentinels, SentinelsLast, Staying, Distinct, AllSentinels;
    InStaying(s.workers, t);
    StayingAfter(s.workers, t, Idle);
    EndTask(s.workers, s.started, s.finished, t);
    assert Awake(s'.workers[t]);
  }

  lemma SpuriousKeeps(s: State, s': State, t: Thread)
    requires Valid(s) && Next(s, s', Spurious(t))
    ensures Valid(s')
  {
    hide TasksAccounted, Users, CountSentinels, SentinelsLast, Staying, Distinct, AllSentinels;
    InStaying(s.workers, t);
    StayingAfter(s.workers, t, Woken);
    ChangeOne(s.workers, s.started, s.finished, t, Woken);
    assert Awake(s'.workers[t]);
  }

  // A worker that leaves wakes another if there is still work, and there is one to wake.
  lemma ExitIsAttended(queue: seq<Task>, workers: map<Thread, Worker>, t: Thread, woken: set<Thread>)
    requires t in workers && workers[t].Leaving? && Signals(workers, woken)
    requires queue != [] && AllSentinels(queue) && CountSentinels(queue) == |Staying(workers)|
    ensures exists u :: u in workers && u != t && Awake(Wake(workers, woken)[u])
  {
    OnlySentinels(queue);
    var u :| u in Staying(workers);
    WakeChanges(workers, woken);
    if workers[u].Waiting? {
      assert u in WaitingSet(workers);
      var v :| v in workers && Wake(workers, woken)[v].Woken?;
      assert v != t && Awake(Wake(workers, woken)[v]);
    } else {
      assert u != t && Awake(Wake(workers, woken)[u]);
    }
  }

  lemma ExitKeeps(s: State, s': State, t: Thread, woken: set<Thread>)
    requires Valid(s) && Next(s, s', SignalAndExit(t, woken))
    ensures Valid(s')
  {
    hide TasksAccounted, Users, CountSentinels, SentinelsLast, Staying, Distinct, AllSentinels, Wake, Signals, Awake;
    InStaying(s.workers, t);
    WakeChanges(s.workers, woken);
    WakeKeepsTasks(s.workers, woken, s.started, s.finished);
    var w := Wake(s.workers, woken);
    assert w[t] == s.workers[t];
    InStaying(w, t);
    StayingAfter(w, t, Exited);
    ChangeOne(w, s.started, s.finished, t, Exited);
    if s.queue != [] {
      ExitIsAttended(s.queue, s.workers, t, woken);
      var u :| u in s.workers && u != t && Awake(w[u]);
      assert s'.workers[u] == w[u];
    }
  }

  lemma NextKeeps(s: State, s': State, a: Action)
    requires Valid(s) && Next(s, s', a)
    ensures Valid(s')
  {
    hide TasksAccounted, Users, CountSentinels, SentinelsLast, Staying, Distinct, AllSentinels, Wake, Signals, Awake, Fetched;
    match a
    case RunTask(ids, woken) => RunTaskKeeps(s, s', ids, woken);
    case JoinAll(woken) => JoinAllKeeps(s, s', woken);
    case Fetch(t) => FetchKeeps(s, s', t);
    case Spurious(t) => SpuriousKeeps(s, s', t);
    case Finish(t) => FinishKeeps(s, s', t);
    case SignalAndExit(t, woken) => ExitKeeps(s, s', t, woken);
    case JoinReturns =>
  }

  // ---------- Whole runs ----------

  ghost predicate IsRun(states: seq<State>, actions: seq<Action>) {
    && |states| == |actions| + 1 && Initial(states[0])
    && forall i :: 0 <= i < |actions| ==> Next(states[i], states[i + 1], actions[i])
  }

  lemma InitiallyValid(s: State)
    requires Initial(s)
    ensures Valid(s)
  {}

  lemma {:induction false} AlwaysValid(states: seq<State>, actions: seq<Action>, i: nat)
    requires IsRun(states, actions) && i < |states|
    ensures Valid(states[i])
  {
    hide Next, Valid;
    if i == 0 {
      InitiallyValid(states[0]);
    } else {
      AlwaysValid(states, actions, i - 1);
      NextKeeps(states[i - 1], states[i], actions[i - 1]);
    }
  }

  // When joinall returns, every accepted task has run exactly once, every sentinel has
  // been taken, and the queue is empty.
  lemma JoinAllCompletes(states: seq<State>, actions: seq<Action>, i: nat)
    requires IsRun(states, actions) && i < |actions| && actions[i] == JoinReturns
    ensures var s := states[i + 1];
      && s.queue == [] && s.accepted == s.started
      && Distinct(s.accepted) && Distinct(s.finished) && (forall id :: id in s.finished <==> id in s.accepted)
      && (forall t :: t in s.workers ==> s.workers[t].Exited?)
  {
    AlwaysValid(states, actions, i);
    assert Next(states[i], states[i + 1], actions[i]);
    AllGone(states[i]);
  }

  lemma AllGone(s: State)
    requires Valid(s) && s.phase == Joining && forall t :: t in s.workers ==> s.workers[t].Exited?
    ensures s.queue == [] && s.accepted == s.started && forall id :: id in s.started ==> id in s.finished
  {
    assert Staying(s.workers) == {};
    var t :| t in s.workers.Keys;
    assert t !in Staying(s.workers);
    OnlySentinels(s.queue);
    assert s.started + [] == s.started;
  }

  // No deadlock in joinall: until the last worker has left, some worker can move on its own.
  lemma JoinAllProgresses(states: seq<State>, actions: seq<Action>, i: nat)
    requires IsRun(states, actions) && i < |states| && states[i].phase == Joining
    requires exists t :: t in states[i].workers && !states[i].workers[t].Exited?
    ensures exists t :: t in states[i].workers && Awake(states[i].workers[t])
  {
    AlwaysValid(states, actions, i);
    var s := states[i];
    var t :| t in s.workers && !s.workers[t].Exited?;
    if s.workers[t].Leaving? {
      assert Awake(s.workers[t]);
    } else {
      assert t in Staying(s.workers);
      assert s.queue != [];
    }
  }

  // ---------- What was accepted, read off the calls ----------

  // The tasks given to run_task, in order.
  function TasksOf(actions: seq<Action>): seq<nat> {
    if actions == [] then [] else
    TasksOf(actions[..|actions| - 1]) + if actions[|actions| - 1].RunTask? then actions[|actions| - 1].ids else []
  }

  lemma StepAccepts(s: State, s': State, a: Action)
    requires Next(s, s', a)
    ensures s'.accepted == s.accepted + if a.RunTask? then a.ids else []
  {
  }

  lemma {:induction false} AcceptedIsGiven(states: seq<State>, actions: seq<Action>, i: nat)
    requires IsRun(states, actions) && i < |states|
    ensures states[i].accepted == TasksOf(actions[..i])
    decreases i
  {
    hide Next;
    if i > 0 {
      AcceptedIsGiven(states, actions, i - 1);
      assert Next(states[i - 1], states[i], actions[i - 1]);
      StepAccepts(states[i - 1], states[i], actions[i - 1]);
      assert actions[..i][..i - 1] == actions[..i - 1];
    }
  }

  // Every task given to run_task has been taken by a worker, in the order of the calls, or
  // is still in the queue.
  lemma EveryTaskIsQueued(states: seq<State>, actions: seq<Action>, i: nat)
    requires IsRun(states, actions) && i < |states|
    ensures TasksOf(actions[..i]) == states[i].started + Users(states[i].queue)
  {
    hide TasksOf;
    AlwaysValid(states, actions, i);
    AcceptedIsGiven(states, actions, i);
  }

  // ---------- joinall ends ----------

  // Workers that have one more step to make besides fetching.
  function Engaged(workers: map<Thread, Worker>): set<Thread> {
    set t | t in workers && (workers[t].Executing? || workers[t].Leaving? || workers[t].Waiting?)
  }

  // An upper bound for the steps still to come while joinall waits.
  function StepsLeft(s: State): nat {
    2 * |s.queue| + |Engaged(s.workers)|
  }

  lemma EngagedAfter(workers: map<Thread, Worker>, t: Thread, w: Worker)
    requires t in workers
    ensures Engaged(workers[t := w]) ==
      if w.Executing? || w.Leaving? || w.Waiting? then Engaged(workers) + {t} else Engaged(workers) - {t}
  {
  }

  // Leaving workers only wake others on their way out.
  lemma EngagedAfterExit(workers: map<Thread, Worker>, t: Thread, woken: set<Thread>)
    requires t in workers && workers[t].Leaving? && Signals(workers, woken)
    ensures |Engaged(Wake(workers, woken)[t := Exited])| < |Engaged(workers)|
  {
    var after := Engaged(Wake(workers, woken)[t := Exited]);
    assert after <= Engaged(workers) - {t};
    SmallerSet(after, Engaged(workers) - {t});
    OneFewer(Engaged(workers), t);
  }

  lemma {:induction false} SmallerSet(a: set<Thread>, b: set<Thread>)
    requires a <= b
    ensures |a| <= |b|
  {
    assert b == a + (b - a);
  }

  // A worker that has not taken its sentinel finds a task.
  lemma TaskIsThere(s: State, t: Thread)
    requires Valid(s) && s.phase == Joining && t in s.workers && !HasLeft(s.workers[t])
    ensures s.queue != []
  {
    InStaying(s.workers, t);
    assert Staying(s.workers) != {};
  }

  lemma StepTaken(s: State, s': State, a: Action)
    requires Valid(s) && s.phase == Joining && Next(s, s', a) && a != JoinReturns
    ensures s'.phase == Joining && StepsLeft(s') < StepsLeft(s)
  {
    hide Valid, Engaged, Signals, Wake;
    match a
    case Fetch(t) =>
      TaskIsThere(s, t);
      EngagedAfter(s.workers, t, s'.workers[t]);
    case Spurious(t) =>
      EngagedAfter(s.workers, t, Woken);
      IsEngaged(s.workers, t);
      OneFewer(Engaged(s.workers), t);
    case Finish(t) =>
      EngagedAfter(s.workers, t, Idle);
      IsEngaged(s.workers, t);
      OneFewer(Engaged(s.workers), t);
    case SignalAndExit(t, woken) =>
      EngagedAfterExit(s.workers, t, woken);
  }

  lemma IsEngaged(workers: map<Thread, Worker>, t: Thread)
    requires t in workers && (workers[t].Executing? || workers[t].Leaving? || workers[t].Waiting?)
    ensures t in Engaged(workers)
  {
  }

  // joinall ends: from any moment of its wait the run makes no more than StepsLeft steps
  // before it returns, however the workers are scheduled and woken.
  lemma {:induction false} JoinAllBounded(states: seq<State>, actions: seq<Action>, i: nat, j: nat)
    requires IsRun(states, actions) && i <= j < |states|
    requires states[i].phase == Joining && states[j].phase == Joining
    ensures StepsLeft(states[j]) + (j - i) <= StepsLeft(states[i])
    decreases j
  {
    hide Valid, StepsLeft;
    if i < j {
      var k := j - 1;
      AlwaysValid(states, actions, k);
      assert Next(states[k], states[j], actions[k]);
      StillJoining(states, actions, i, k);
      StepTaken(states[k], states[j], actions[k]);
      JoinAllBounded(states, actions, i, k);
    }
  }

  // Once joinall has returned it does not wait again.
  lemma {:induction false} StillJoining(states: seq<State>, actions: seq<Action>, i: nat, k: nat)
    requires IsRun(states, actions) && i <= k < |states| - 1
    requires states[i].phase == Joining && states[k + 1].phase == Joining
    ensures states[k].phase == Joining
  {
    assert Next(states[k], states[k + 1], actions[k]);
    PhaseForward(states, actions, i, k);
  }

  lemma {:induction false} PhaseForward(states: seq<State>, actions: seq<Action>, i: nat, k: nat)
    requires IsRun(states, actions) && i <= k < |states| && states[i].phase != Open
    ensures states[k].phase != Open
    decreases k
  {
    if i < k {
      PhaseForward(states, actions, i, k - 1);
      assert Next(states[k - 1], states[k], actions[k - 1]);
    }
  }

  // While tasks are queued, some worker is awake, woken, or about to signal.
  lemma QueueIsAttended(states: seq<State>, actions: seq<Action>, i: nat)
    requires IsRun(states, actions) && i < |states| && states[i].queue != []
    ensures exists t :: t in states[i].workers && Awake(states[i].workers[t])
  {
    AlwaysValid(states, actions, i);
  }

  // ---------- The pool as an object ----------

  class ThreadPool {
    var tasks: seq<Task>                  // thread_main_cbs_
    var workers: map<Thread, Worker>      // threads_, and where each one is
    var phase: Phase
    ghost var accepted: seq<nat>
    ghost var started: seq<nat>
    ghost var finished: seq<nat>

    ghost function View(): State
      reads this
    {
      State(phase, tasks, workers, accepted, started, finished)
    }

    constructor (threads: set<Thread>)
      requires threads != {}
      ensures Initial(View()) && workers.Keys == threads
    {
      tasks, workers, phase := [], map t | t in threads :: Idle, Open;
      accepted, started, finished := [], [], [];
      new;
      var t :| t in threads;
      assert t in workers;
    }

    // The pushing loop of run_task.
    method PushTasks(more: seq<Task>)
      modifies `tasks
      ensures tasks == old(tasks) + more
    {
      for i := 0 to |more|
        invariant tasks == old(tasks) + more[..i]
      {
        tasks := tasks + [more[i]];
      }
      assert more[..|more|] == more;
    }

    // run_task, inside the lock.
    method RunUserTasks(ids: seq<nat>, woken: set<Thread>)
      requires Valid(View()) && phase == Open && Signals(workers, woken) && Fresh(accepted, ids)
      modifies this
      ensures Next(old(View()), View(), RunTask(ids, woken)) && Valid(View())
    {
      hide Valid;
      PushTasks(UserTasks(ids));
      accepted := accepted + ids;
      workers := Wake(workers, woken);
      NextKeeps(old(View()), View(), RunTask(ids, woken));
    }

    // joinall: run_task of one null task for each worker, inside the lock.
    method StopWorkers(woken: set<Thread>)
      requires Valid(View()) && phase == Open && Signals(workers, woken)
      modifies this
      ensures Next(old(View()), View(), JoinAll(woken)) && Valid(View())
    {
      hide Valid;
      PushTasks(Sentinels(|workers.Keys|));
      phase := Joining;
      workers := Wake(workers, woken);
      NextKeeps(old(View()), View(), JoinAll(woken));
    }

    // The critical section of a worker: wait, or take the first task.
    method FetchTask(t: Thread)
      requires Valid(View()) && t in workers && (workers[t].Idle? || workers[t].Woken?)
      modifies this
      ensures Next(old(View()), View(), Fetch(t)) && Valid(View())
    {
      hide Valid;
      if tasks == [] {
        workers := workers[t := Waiting];
      } else {
        var task := tasks[0];
        tasks := tasks[1..];
        if task.User? {
          started := started + [task.id];
          workers := workers[t := Executing(task.id)];
        } else {
          workers := workers[t := Leaving];
        }
      }
      NextKeeps(old(View()), View(), Fetch(t));
    }

    // The end of a task.
    method FinishTask(t: Thread)
      requires Valid(View()) && t in workers && workers[t].Executing?
      modifies this
      ensures Next(old(View()), View(), Finish(t)) && Valid(View())
    {
      hide Valid;
      finished := finished + [workers[t].id];
      workers := workers[t := Idle];
      NextKeeps(old(View()), View(), Finish(t));
    }

    // A worker that took a null task passes the signal on and ends.
    method Leave(t: Thread, woken: set<Thread>)
      requires Valid(View()) && t in workers && workers[t].Leaving? && Signals(workers, woken)
      modifies this
      ensures Next(old(View()), View(), SignalAndExit(t, woken)) && Valid(View())
    {
      hide Valid;
      workers := Wake(workers, woken)[t := Exited];
      NextKeeps(old(View()), View(), SignalAndExit(t, woken));
    }
  }
}
