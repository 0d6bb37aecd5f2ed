/** The bounded queue of include/synchronization/BlockingQueue.h: any number of producers
    and consumers, two condition variables, spurious wakeups.  Each step is one stay
    inside the lock. */
module BlockingQueues {

  type Thread = nat
  type Item = nat

  datatype State = State(
    queue: seq<Item>,
    waitingProducers: set<Thread>,   // blocked in full_cv_.wait()
    wokenProducers: set<Thread>,     // out of the wait, not yet back inside the lock
    waitingConsumers: set<Thread>,   // blocked in empty_cv_.wait()
    wokenConsumers: set<Thread>,
    offers: map<Thread, Item>,       // what each blocked producer holds
    pushed: seq<Item>,               // every item stored, in order
    popped: seq<Item>)               // every item handed out, in order

  const INITIAL := State([], {}, {}, {}, {}, map[], [], [])

  predicate Busy(s: State, t: Thread) {
    t in s.waitingProducers || t in s.wokenProducers || t in s.waitingConsumers || t in s.wokenConsumers
  }

  // A signal wakes at least one waiter when there is any.
  predicate Signals(waiting: set<Thread>, woken: set<Thread>) {
    woken <= waiting && (waiting != {} ==> woken != {})
  }

  datatype Action =
    | Push(t: Thread, x: Item, woken: set<Thread>)         // push enters the lock
    | ResumePush(t: Thread, woken: set<Thread>)            // a woken producer re-enters it
    | Pop(t: Thread, woken: set<Thread>)
    | ResumePop(t: Thread, woken: set<Thread>)
    | SpuriousProducer(t: Thread)
    | SpuriousConsumer(t: Thread)

  // The body of push once the lock is held: wait when full, else store and signal.
  ghost predicate InsidePush(maxSize: nat, s: State, s': State, t: Thread, x: Item, woken: set<Thread>) {
    if |s.queue| >= maxSize
    then s' == s.(waitingProducers := s.waitingProducers + {t}, offers := s.offers[t := x])
    else Signals(s.waitingConsumers, woken) &&
         s' == s.(queue := s.queue + [x], pushed := s.pushed + [x], offers := s.offers - {t},
                  waitingConsumers := s.waitingConsumers - woken, wokenConsumers := s.wokenConsumers + woken)
  }

  ghost predicate InsidePop(s: State, s': State, t: Thread, woken: set<Thread>) {
    if s.queue == []
    then s' == s.(waitingConsumers := s.waitingConsumers + {t})
    else Signals(s.waitingProducers, woken) &&
         s' == s.(queue := s.queue[1..], popped := s.popped + [s.queue[0]],
                  waitingProducers := s.waitingProducers - woken, wokenProducers := s.wokenProducers + woken)
  }

  ghost predicate Next(maxSize: nat, s: State, s': State, a: Action) {
    match a
    case Push(t, x, woken) => !Busy(s, t) && InsidePush(maxSize, s, s', t, x, woken)
    case ResumePush(t, woken) =>
      t in s.wokenProducers && t in s.offers &&
      InsidePush(maxSize, s.(wokenProducers := s.wokenProducers - {t}), s', t, s.offers[t], woken)
    case Pop(t, woken) => !Busy(s, t) && InsidePop(s, s', t, woken)
    case ResumePop(t, woken) =>
      t in s.wokenConsumers && InsidePop(s.(wokenConsumers := s.wokenConsumers - {t}), s', t, woken)
    case SpuriousProducer(t) =>
      t in s.waitingProducers &&
      s' == s.(waitingProducers := s.waitingProducers - {t}, wokenProducers := s.wokenProducers + {t})
    case SpuriousConsumer(t) =>
      t in s.waitingConsumers &&
      s' == s.(waitingConsumers := s.waitingConsumers - {t}, wokenConsumers := s.wokenConsumers + {t})
  }

  // ---------- What stays true ----------

  // Each thread is inside at most one call.
  ghost predicate Separate(s: State) {
    && s.waitingProducers !! s.wokenProducers
    && s.waitingConsumers !! s.wokenConsumers
    && (s.waitingProducers + s.wokenProducers) !! (s.waitingConsumers + s.wokenConsumers)
  }

  // While a consumer sleeps, every queued item has a woken consumer on its way to it;
  // likewise producers and free places.
  ghost predicate WakeupsCover(maxSize: nat, s: State) {
    && (s.waitingConsumers != {} ==> |s.queue| <= |s.wokenConsumers|)
    && (s.waitingProducers != {} ==> maxSize - |s.queue| <= |s.wokenProducers|)
  }

  ghost predicate Valid(maxSize: nat, s: State) {
    && |s.queue| <= maxSize
    && s.pushed == s.popped + s.queue
    && Separate(s) && WakeupsCover(maxSize, s)
    && s.waitingProducers + s.wokenProducers <= s.offers.Keys
  }

  // Waking somebody makes the woken set larger.
  lemma MoreWoken(woken: set<Thread>, more: set<Thread>)
    requires woken !! more
    ensures |woken + more| == |woken| + |more|
    ensures more != {} ==> |more| >= 1
  {}

  // A thread that leaves the woken set to re-enter the lock may leave one too few behind.
  lemma InsidePushKeeps(maxSize: nat, s: State, s': State, t: Thread, x: Item, woken: set<Thread>)
    requires |s.queue| <= maxSize && s.pushed == s.popped + s.queue && Separate(s) && !Busy(s, t)
    requires s.waitingConsumers != {} ==> |s.queue| <= |s.wokenConsumers|
    requires s.waitingProducers != {} ==> maxSize - |s.queue| <= |s.wokenProducers| + 1
    requires s.waitingProducers + s.wokenProducers <= s.offers.Keys
    requires InsidePush(maxSize, s, s', t, x, woken)
    ensures Valid(maxSize, s')
  {
    if |s.queue| < maxSize {
      assert s.pushed + [x] == s.popped + (s.queue + [x]);
      MoreWoken(s.wokenConsumers, woken);
    }
  }

  lemma InsidePopKeeps(maxSize: nat, s: State, s': State, t: Thread, woken: set<Thread>)
    requires |s.queue| <= maxSize && s.pushed == s.popped + s.queue && Separate(s) && !Busy(s, t)
    requires s.waitingConsumers != {} ==> |s.queue| <= |s.wokenConsumers| + 1
    requires s.waitingProducers != {} ==> maxSize - |s.queue| <= |s.wokenProducers|
    requires s.waitingProducers + s.wokenProducers <= s.offers.Keys
    requires InsidePop(s, s', t, woken)
    ensures Valid(maxSize, s')
  {
    if s.queue != [] {
      assert s.queue == [s.queue[0]] + s.queue[1..];
      assert s.popped + s.queue == (s.popped + [s.queue[0]]) + s.queue[1..];
      MoreWoken(s.wokenProducers, woken);
    }
  }

  lemma OneFewer(woken: set<Thread>, t: Thread)
    requires t in woken
    ensures |woken - {t}| == |woken| - 1
  {}

  lemma ResumePushKeeps(maxSize: nat, s: State, s': State, t: Thread, woken: set<Thread>)
    requires Valid(maxSize, s) && Next(maxSize, s, s', ResumePush(t, woken))
    ensures Valid(maxSize, s')
  {
    hide InsidePush, InsidePop;
    OneFewer(s.wokenProducers, t);
    InsidePushKeeps(maxSize, s.(wokenProducers := s.wokenProducers - {t}), s', t, s.offers[t], woken);
  }

  lemma ResumePopKeeps(maxSize: nat, s: State, s': State, t: Thread, woken: set<Thread>)
    requires Valid(maxSize, s) && Next(maxSize, s, s', ResumePop(t, woken))
    ensures Valid(maxSize, s')
  {
    hide InsidePush, InsidePop;
    OneFewer(s.wokenConsumers, t);
    InsidePopKeeps(maxSize, s.(wokenConsumers := s.wokenConsumers - {t}), s', t, woken);
  }

  lemma MoveAcross(waiting: set<Thread>, woken: set<Thread>, t: Thread)
    requires t in waiting && waiting !! woken
    ensures waiting - {t} !! woken + {t} && (waiting - {t}) + (woken + {t}) == waiting + woken
    ensures |woken + {t}| == |woken| + 1
  {}

  lemma SpuriousProducerKeeps(maxSize: nat, s: State, t: Thread)
    requires Valid(maxSize, s) && t in s.waitingProducers
    ensures Valid(maxSize, s.(waitingProducers := s.waitingProducers - {t}, wokenProducers := s.wokenProducers + {t}))
  {
    MoveAcross(s.waitingProducers, s.wokenProducers, t);
  }

  lemma SpuriousConsumerKeeps(maxSize: nat, s: State, t: Thread)
    requires Valid(maxSize, s) && t in s.waitingConsumers
    ensures Valid(maxSize, s.(waitingConsumers := s.waitingConsumers - {t}, wokenConsumers := s.wokenConsumers + {t}))
  {
    MoveAcross(s.waitingConsumers, s.wokenConsumers, t);
  }

  lemma NextKeeps(maxSize: nat, s: State, s': State, a: Action)
    requires Valid(maxSize, s) && Next(maxSize, s, s', a)
    ensures Valid(maxSize, s')
  {
    hide InsidePush, InsidePop;
    match a
    case Push(t, x, woken) => InsidePushKeeps(maxSize, s, s', t, x, woken);
    case ResumePush(t, woken) => ResumePushKeeps(maxSize, s, s', t, woken);
    case Pop(t, woken) => InsidePopKeeps(maxSize, s, s', t, woken);
    case ResumePop(t, woken) => ResumePopKeeps(maxSize, s, s', t, woken);
    case SpuriousProducer(t) => SpuriousProducerKeeps(maxSize, s, t);
    case SpuriousConsumer(t) => SpuriousConsumerKeeps(maxSize, s, t);
  }

  // ---------- Whole runs ----------

  ghost predicate IsRun(maxSize: nat, states: seq<State>, actions: seq<Action>) {
    && |states| == |actions| + 1 && states[0] == INITIAL
    && forall i :: 0 <= i < |actions| ==> Next(maxSize, states[i], states[i + 1], actions[i])
  }

  lemma {:induction false} AlwaysValid(maxSize: nat, states: seq<State>, actions: seq<Action>, i: nat)
    requires IsRun(maxSize, states, actions) && i < |states|
    ensures Valid(maxSize, states[i])
  {
    hide Next;
    if i > 0 {
      AlwaysValid(maxSize, states, actions, i - 1);
      NextKeeps(maxSize, states[i - 1], states[i], actions[i - 1]);
    }
  }

  // In every reachable state of a queue with room for an item, the bound holds, items
  // come out in the order they went in, and producers and consumers are never all
  // asleep with no wakeup under way.
  lemma NeverStuck(maxSize: nat, states: seq<State>, actions: seq<Action>, i: nat)
    requires maxSize > 0 && IsRun(maxSize, states, actions) && i < |states|
    ensures var s := states[i];
      && |s.queue| <= maxSize && s.popped <= s.pushed
      && !(s.waitingConsumers != {} && s.waitingProducers != {} && s.wokenConsumers == {} && s.wokenProducers == {})
      && (s.waitingConsumers != {} && s.wokenConsumers == {} ==> s.queue == [])
      && (s.waitingProducers != {} && s.wokenProducers == {} ==> |s.queue| == maxSize)
  {
    AlwaysValid(maxSize, states, actions, i);
  }

  // ---------- What was pushed and popped, read off the calls ----------

  datatype Option<T> = None | Some(value: T)

  // The item of the last push that thread t has called.
  function Offer(calls: seq<Action>, t: Thread): Option<Item> {
    if calls == [] then None else
    var last := calls[|calls| - 1];
    if last.Push? && last.t == t then Some(last.x) else Offer(calls[..|calls| - 1], t)
  }

  // What a step stores: with room in the queue, the item its thread is pushing.
  function Stored(maxSize: nat, s: State, before: seq<Action>, a: Action): seq<Item> {
    if |s.queue| >= maxSize then []
    else if a.Push? then [a.x]
    else if a.ResumePush? && Offer(before, a.t).Some? then [Offer(before, a.t).value]
    else []
  }

  function Handed(s: State, a: Action): seq<Item> {
    if (a.Pop? || a.ResumePop?) && s.queue != [] then [s.queue[0]] else []
  }

  ghost function AllStored(maxSize: nat, states: seq<State>, actions: seq<Action>, i: nat): seq<Item>
    requires i <= |actions| && |states| == |actions| + 1
  {
    if i == 0 then [] else
    AllStored(maxSize, states, actions, i - 1) + Stored(maxSize, states[i - 1], actions[..i - 1], actions[i - 1])
  }

  ghost function AllHanded(states: seq<State>, actions: seq<Action>, i: nat): seq<Item>
    requires i <= |actions| && |states| == |actions| + 1
  {
    if i == 0 then [] else AllHanded(states, actions, i - 1) + Handed(states[i - 1], actions[i - 1])
  }

  // Every producer inside push still holds the item it was called with.
  ghost predicate Remembers(s: State, calls: seq<Action>) {
    forall t :: t in s.waitingProducers || t in s.wokenProducers ==>
      t in s.offers && Offer(calls, t) == Some(s.offers[t])
  }

  lemma OfferSnoc(calls: seq<Action>, a: Action, t: Thread)
    ensures Offer(calls + [a], t) == if a.Push? && a.t == t then Some(a.x) else Offer(calls, t)
  {
    assert (calls + [a])[..|calls|] == calls;
  }

  lemma StepRemembers(maxSize: nat, s: State, s': State, calls: seq<Action>, a: Action)
    requires Valid(maxSize, s) && Remembers(s, calls) && Next(maxSize, s, s', a)
    ensures Remembers(s', calls + [a])
    ensures s'.pushed == s.pushed + Stored(maxSize, s, calls, a) && s'.popped == s.popped + Handed(s, a)
  {
    hide Offer, Valid;
    BusyOnce(maxSize, s);
    forall t ensures Offer(calls + [a], t) == if a.Push? && a.t == t then Some(a.x) else Offer(calls, t) {
      OfferSnoc(calls, a, t);
    }
  }

  lemma BusyOnce(maxSize: nat, s: State)
    requires Valid(maxSize, s)
    ensures s.waitingProducers !! s.wokenProducers
  {
  }

  lemma {:induction false} RunRemembers(maxSize: nat, states: seq<State>, actions: seq<Action>, i: nat)
    requires IsRun(maxSize, states, actions) && i < |states|
    ensures Remembers(states[i], actions[..i])
    ensures states[i].pushed == AllStored(maxSize, states, actions, i)
    ensures states[i].popped == AllHanded(states, actions, i)
    decreases i
  {
    hide Remembers, Valid, Next, Stored, Handed;
    if i == 0 {
      NobodyInside();
    } else {
      RunRemembers(maxSize, states, actions, i - 1);
      AlwaysValid(maxSize, states, actions, i - 1);
      StepRemembers(maxSize, states[i - 1], states[i], actions[..i - 1], actions[i - 1]);
      assert actions[..i] == actions[..i - 1] + [actions[i - 1]];
    }
  }

  lemma NobodyInside()
    ensures Remembers(INITIAL, [])
  {
  }

  // In every run: the items handed out, followed by the queue, are exactly the items that
  // push was called with, in the order in which the calls found room.
  lemma FirstInFirstOut(maxSize: nat, states: seq<State>, actions: seq<Action>, i: nat)
    requires IsRun(maxSize, states, actions) && i < |states|
    ensures AllHanded(states, actions, i) + states[i].queue == AllStored(maxSize, states, actions, i)
  {
    hide AllStored, AllHanded;
    AlwaysValid(maxSize, states, actions, i);
    RunRemembers(maxSize, states, actions, i);
  }

  // ---------- The queue as an object ----------

  class BoundedBlockingQueue {
    const maxSize: nat
    var queue: seq<Item>
    ghost var waitingProducers: set<Thread>
    ghost var wokenProducers: set<Thread>
    ghost var waitingConsumers: set<Thread>
    ghost var wokenConsumers: set<Thread>
    ghost var offers: map<Thread, Item>
    ghost var pushed: seq<Item>
    ghost var popped: seq<Item>

    ghost function View(): State
      reads this
    {
      State(queue, waitingProducers, wokenProducers, waitingConsumers, wokenConsumers, offers, pushed, popped)
    }

    constructor (maxSize: nat)
      ensures this.maxSize == maxSize && View() == INITIAL
    {
      this.maxSize := maxSize;
      queue := [];
      waitingProducers, wokenProducers, waitingConsumers, wokenConsumers := {}, {}, {}, {};
      offers, pushed, popped := map[], [], [];
    }

    // One turn of the wait loop of push, entered for the first time or after a wait.
    method TryPush(x: Item, ghost t: Thread, ghost woken: set<Thread>) returns (stored: bool)
      requires Signals(waitingConsumers, woken)
      modifies this
      ensures InsidePush(maxSize, old(View()), View(), t, x, woken)
      ensures stored <==> |old(queue)| < maxSize
    {
      if |queue| >= maxSize {
        waitingProducers, offers := waitingProducers + {t}, offers[t := x];
        return false;
      }
      queue := queue + [x];
      pushed, offers := pushed + [x], offers - {t};
      waitingConsumers, wokenConsumers := waitingConsumers - woken, wokenConsumers + woken;
      return true;
    }

    // One turn of the wait loop of pop.
    method TryPop(ghost t: Thread, ghost woken: set<Thread>) returns (front: seq<Item>)
      requires Signals(waitingProducers, woken)
      modifies this
      ensures InsidePop(old(View()), View(), t, woken)
      ensures front == if old(queue) == [] then [] else [old(queue)[0]]
    {
      if queue == [] {
        waitingConsumers := waitingConsumers + {t};
        return [];
      }
      front := queue[..1];
      queue := queue[1..];
      popped := popped + front;
      waitingProducers, wokenProducers := waitingProducers - woken, wokenProducers + woken;
    }

    method EnterPush(x: Item, ghost t: Thread, ghost woken: set<Thread>) returns (stored: bool)
      requires Valid(maxSize, View()) && !Busy(View(), t) && Signals(waitingConsumers, woken)
      modifies this
      ensures Next(maxSize, old(View()), View(), Push(t, x, woken)) && Valid(maxSize, View())
      ensures stored <==> |old(queue)| < maxSize
    {
      stored := TryPush(x, t, woken);
      NextKeeps(maxSize, old(View()), View(), Push(t, x, woken));
    }

    method AgainPush(x: Item, ghost t: Thread, ghost woken: set<Thread>) returns (stored: bool)
      requires Valid(maxSize, View()) && Signals(waitingConsumers, woken)
      requires t in wokenProducers && t in offers && offers[t] == x
      modifies this
      ensures Next(maxSize, old(View()), View(), ResumePush(t, woken)) && Valid(maxSize, View())
      ensures stored <==> |old(queue)| < maxSize
    {
      wokenProducers := wokenProducers - {t};
      stored := TryPush(x, t, woken);
      NextKeeps(maxSize, old(View()), View(), ResumePush(t, woken));
    }

    method EnterPop(ghost t: Thread, ghost woken: set<Thread>) returns (front: seq<Item>)
      requires Valid(maxSize, View()) && !Busy(View(), t) && Signals(waitingProducers, woken)
      modifies this
      ensures Next(maxSize, old(View()), View(), Pop(t, woken)) && Valid(maxSize, View())
      ensures old(popped) + front == popped
    {
      front := TryPop(t, woken);
      NextKeeps(maxSize, old(View()), View(), Pop(t, woken));
    }

    method AgainPop(ghost t: Thread, ghost woken: set<Thread>) returns (front: seq<Item>)
      requires Valid(maxSize, View()) && t in wokenConsumers && Signals(waitingProducers, woken)
      modifies this
      ensures Next(maxSize, old(View()), View(), ResumePop(t, woken)) && Valid(maxSize, View())
      ensures old(popped) + front == popped
    {
      wokenConsumers := wokenConsumers - {t};
      front := TryPop(t, woken);
      NextKeeps(maxSize, old(View()), View(), ResumePop(t, woken));
    }
  }
}
