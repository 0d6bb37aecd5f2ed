/** The functor queue and wakeup descriptor of src/EventLoop.cc, as a transition system:
    one owner thread, any number of posting threads, interleaved at lock granularity. */
module EventLoops {

  type Thread = nat
  type Functor = nat

  // Where the owner thread is.
  datatype Phase =
    | NotStarted           // loop() has not been called
    | Top                  // at the loop condition
    | InPoll               // in poller_->poll
    | Handling             // running the handlers of active channels
    | Calling              // do_calling_wakeup_functors, before the swap
    | Running              // running the functors taken by the swap
    | Stopped

  datatype State = State(
    phase: Phase,
    queue: seq<Functor>,     // wakeup_functors_
    taken: seq<Functor>,     // functors swapped out and not yet run
    calling: bool,           // calling_wakeup_functors_
    quit: bool,
    counter: nat,            // the wakeup eventfd
    mustRead: bool,          // the wakeup channel is active and not yet handled
    posters: set<Thread>,    // other threads between their push and their wakeup
    ownerPosting: bool,      // likewise the owner thread
    early: nat,              // posts of the owner thread before loop(), still in the queue
    swapped: bool,           // the queue has been swapped out at least once
    posted: seq<Functor>,    // every functor pushed, in order
    done: seq<Functor>)      // every functor run, in order

  const INITIAL := State(NotStarted, [], [], false, false, 0, false, {}, false, 0, false, [], [])

  datatype Action =
    | Push(t: Thread, f: Functor)   // another thread, under the lock
    | Wake(t: Thread)               // ... and its write to the eventfd
    | OwnerPush(f: Functor)         // queue_in_own_loop called by the owner thread
    | OwnerWake
    | Quit(owner: bool)             // quit(), from the owner thread or another one
    | Start
    | EnterPoll
    | PollReturns
    | ReadCounter                   // handle_read of the wakeup channel
    | BeginCalling
    | Swap                          // under the lock
    | RunOne
    | EndCalling
    | Stop

  function Step(s: State, a: Action): State {
    match a
    case Push(t, f) =>
      if t in s.posters then s else
      s.(queue := s.queue + [f], posted := s.posted + [f], posters := s.posters + {t})
    case Wake(t) =>
      if t !in s.posters then s else s.(counter := s.counter + 1, posters := s.posters - {t})
    case Quit(owner) =>
      if !owner then s.(quit := true, counter := s.counter + 1)
      else if InUserCode(s) && !s.ownerPosting then s.(quit := true) else s
    case _ => if s.ownerPosting && a != OwnerWake then s else OwnerStep(s, a)
  }

  // The owner thread runs user code before loop(), in handlers and in functors.
  predicate InUserCode(s: State) {
    s.phase == NotStarted || s.phase == Handling || s.phase == Running
  }

  function OwnerStep(s: State, a: Action): State {
    match a
    case OwnerPush(f) =>
      if !InUserCode(s) then s else
      s.(queue := s.queue + [f], posted := s.posted + [f], ownerPosting := s.calling,
         early := s.early + if s.phase == NotStarted then 1 else 0)
    case OwnerWake => if s.ownerPosting then s.(counter := s.counter + 1, ownerPosting := false) else s
    case Start => if s.phase == NotStarted then s.(phase := Top) else s
    case EnterPoll => if s.phase == Top && !s.quit then s.(phase := InPoll) else s
    case PollReturns => if s.phase == InPoll then s.(phase := Handling, mustRead := s.counter > 0) else s
    case ReadCounter => if s.phase == Handling && s.mustRead then s.(counter := 0, mustRead := false) else s
    case BeginCalling => if s.phase == Handling && !s.mustRead then s.(phase := Calling, calling := true) else s
    case Swap =>
      if s.phase == Calling
      then s.(phase := Running, taken := s.queue, queue := [], early := 0, swapped := true) else s
    case RunOne =>
      if s.phase == Running && s.taken != [] then s.(done := s.done + [s.taken[0]], taken := s.taken[1..]) else s
    case EndCalling => if s.phase == Running && s.taken == [] then s.(phase := Top, calling := false) else s
    case Stop => if s.phase == Top && s.quit then s.(phase := Stopped) else s
    case _ => s
  }

  function Run(s: State, actions: seq<Action>): State {
    if actions == [] then s else Step(Run(s, actions[..|actions| - 1]), actions[|actions| - 1])
  }

  // ---------- Safety ----------

  // Somebody will make, or has made, poll return.
  predicate WakeupDue(s: State) {
    s.counter > 0 || s.posters != {} || s.ownerPosting
  }

  // In poll, or on the way there.
  predicate MaySleep(s: State) {
    s.phase == NotStarted || s.phase == Top || s.phase == InPoll
  }

  predicate Valid(s: State) {
    // run at most once, in queue order
    && s.posted == s.done + s.taken + s.queue
    && (s.phase != Running ==> s.taken == [])
    && (s.calling <==> s.phase == Calling || s.phase == Running)
    && (s.ownerPosting ==> s.phase == Running)
    // posts of the owner before loop() are the only ones that can sit in the queue unannounced
    && s.early <= |s.queue|
    && (s.swapped ==> s.early == 0 && s.phase != NotStarted)
    && (s.phase == Running ==> s.swapped)
    && ((MaySleep(s) || s.phase == Running) && |s.queue| > s.early ==> WakeupDue(s))
    && (MaySleep(s) && !s.swapped && !s.quit && WakeupDue(s) ==> |s.queue| > s.early)
    && (s.mustRead ==> s.phase == Handling)
    // a loop that is to quit does not stay in poll
    && (s.phase == InPoll && s.quit ==> s.counter > 0)
  }

  lemma OthersKeep(s: State, a: Action)
    requires Valid(s) && (a.Push? || a.Wake? || a.Quit?)
    ensures Valid(Step(s, a))
  {
    hide OwnerStep;
    if a.Push? {
      assert s.posted + [a.f] == s.done + s.taken + (s.queue + [a.f]);
    }
  }

  lemma UserCodeKeeps(s: State, a: Action)
    requires Valid(s) && (a.OwnerPush? || a.OwnerWake?) && (s.ownerPosting ==> a.OwnerWake?)
    ensures Valid(OwnerStep(s, a))
  {
    if a.OwnerPush? {
      assert s.posted + [a.f] == s.done + s.taken + (s.queue + [a.f]);
    }
  }

  lemma SwapKeeps(s: State)
    requires Valid(s)
    ensures Valid(OwnerStep(s, Swap))
  {
    assert s.phase == Calling ==> s.done + s.taken + s.queue == s.done + s.queue + [];
  }

  lemma RunOneKeeps(s: State)
    requires Valid(s)
    ensures Valid(OwnerStep(s, RunOne))
  {
    if s.taken != [] {
      assert s.taken == [s.taken[0]] + s.taken[1..];
      assert s.done + s.taken == (s.done + [s.taken[0]]) + s.taken[1..];
    }
  }

  // The steps of the loop that move no functor.
  lemma ControlKeeps(s: State, a: Action)
    requires Valid(s) && !s.ownerPosting
    requires !a.Push? && !a.Wake? && !a.Quit? && !a.OwnerPush? && !a.OwnerWake? && !a.Swap? && !a.RunOne?
    ensures Valid(OwnerStep(s, a))
  {
  }

  lemma StepKeeps(s: State, a: Action)
    requires Valid(s)
    ensures Valid(Step(s, a))
  {
    hide Valid, OwnerStep;
    if a.Push? || a.Wake? || a.Quit? {
      OthersKeep(s, a);
    } else if !s.ownerPosting || a == OwnerWake {
      if a.OwnerPush? || a.OwnerWake? {
        UserCodeKeeps(s, a);
      } else if a.Swap? {
        SwapKeeps(s);
      } else if a.RunOne? {
        RunOneKeeps(s);
      } else {
        ControlKeeps(s, a);
      }
    }
  }

  lemma {:induction false} AlwaysValid(actions: seq<Action>)
    ensures Valid(Run(INITIAL, actions))
  {
    hide Step;
    if actions != [] {
      AlwaysValid(actions[..|actions| - 1]);
      StepKeeps(Run(INITIAL, actions[..|actions| - 1]), actions[|actions| - 1]);
    }
  }

  // In every run: what has been executed is an initial part of what was posted, so
  // each functor ran at most once and in order.  A loop that sleeps in poll is about to
  // be woken when the queue holds anything but posts the owner made before loop(); up to
  // the first swap, and unless quit() wakes it, exactly then.  After the first swap no
  // such posts are left, so any functor in the queue will wake the loop.
  lemma NoLostWakeup(actions: seq<Action>)
    ensures var s := Run(INITIAL, actions);
      && s.done <= s.posted
      && (s.phase == InPoll && |s.queue| > s.early ==> s.counter > 0 || s.posters != {})
      && (s.phase == InPoll && s.swapped && s.queue != [] ==> s.counter > 0 || s.posters != {})
      && (s.phase == InPoll && !s.swapped && !s.quit ==>
            (s.counter > 0 || s.posters != {} <==> |s.queue| > s.early))
  {
    AlwaysValid(actions);
  }

  // ---------- What was posted, read off the actions ----------

  // The functor that an action adds to the queue, if its thread is free to act.
  function PostOf(s: State, a: Action): seq<Functor> {
    if a.Push? && a.t !in s.posters then [a.f]
    else if a.OwnerPush? && InUserCode(s) && !s.ownerPosting then [a.f]
    else []
  }

  function Posts(s: State, actions: seq<Action>): seq<Functor> {
    if actions == [] then [] else
    Posts(s, actions[..|actions| - 1]) + PostOf(Run(s, actions[..|actions| - 1]), actions[|actions| - 1])
  }

  lemma StepPosts(s: State, a: Action)
    ensures Step(s, a).posted == s.posted + PostOf(s, a)
  {
    hide OwnerStep;
    if !a.Push? && !a.Wake? && !a.Quit? {
      OwnerPosts(s, a);
    }
  }

  lemma OwnerPosts(s: State, a: Action)
    ensures OwnerStep(s, a).posted == s.posted + if a.OwnerPush? && InUserCode(s) then [a.f] else []
  {
    hide InUserCode;
  }

  lemma {:induction false} PostedIsPosts(s: State, actions: seq<Action>)
    ensures Run(s, actions).posted == s.posted + Posts(s, actions)
  {
    hide Step, PostOf;
    if actions != [] {
      PostedIsPosts(s, actions[..|actions| - 1]);
      StepPosts(Run(s, actions[..|actions| - 1]), actions[|actions| - 1]);
    }
  }

  // In every run the functors executed, taken and queued are together exactly those that
  // were posted, in the order of posting.
  lemma NothingLost(actions: seq<Action>)
    ensures var s := Run(INITIAL, actions); s.done + s.taken + s.queue == Posts(INITIAL, actions)
  {
    hide Run, Posts;
    AlwaysValid(actions);
    PostedIsPosts(INITIAL, actions);
  }

  // quit() from whichever thread ends the loop: it does not sleep in poll after it, and at
  // the loop condition it stops instead of going on.
  lemma QuitIsSeen(actions: seq<Action>)
    ensures var s := Run(INITIAL, actions);
      && (s.quit && s.phase == InPoll ==> s.counter > 0)
      && (s.quit && s.phase == Top ==> Step(s, EnterPoll) == s && Step(s, Stop).phase == Stopped)
      && (!s.quit && s.phase == Top ==> Step(s, Stop) == s && Step(s, EnterPoll).phase == InPoll)
  {
    hide Run;
    AlwaysValid(actions);
  }

  // Once asked for, quitting is not taken back.
  lemma QuitStays(s: State, a: Action)
    ensures Step(s, a).quit <==> s.quit || (a.Quit? && (!a.owner || (InUserCode(s) && !s.ownerPosting)))
  {
  }

  // The one exception: a functor the owner thread queues before it calls loop() can be
  // left waiting in the queue while poll sleeps.
  lemma EarlyPostCanWait()
    ensures var s := Run(INITIAL, [OwnerPush(7), Start, EnterPoll]);
      s.phase == InPoll && s.queue == [7] && !WakeupDue(s)
  {
    var a := [OwnerPush(7), Start, EnterPoll];
    assert a[..2] == [OwnerPush(7), Start] && a[..2][..1] == [OwnerPush(7)] && a[..2][..1][..0] == [];
    assert Run(INITIAL, a[..2][..1]) == Step(INITIAL, OwnerPush(7));
  }

  // ---------- Progress ----------

  lemma RunSnoc(s: State, actions: seq<Action>, a: Action)
    ensures Run(s, actions + [a]) == Step(Run(s, actions), a)
  {
    assert (actions + [a])[..|actions|] == actions;
  }

  function Repeat(a: Action, n: nat): seq<Action> {
    if n == 0 then [] else Repeat(a, n - 1) + [a]
  }

  lemma {:induction false} RunConcat(s: State, a: seq<Action>, b: seq<Action>)
    ensures Run(s, a + b) == Run(Run(s, a), b)
    decreases |b|
  {
    hide Step;
    if b == [] {
      assert a + b == a;
    } else {
      var front, last := b[..|b| - 1], b[|b| - 1];
      RunConcat(s, a, front);
      assert a + b == (a + front) + [last] && b == front + [last];
      RunSnoc(s, a + front, last);
      RunSnoc(Run(s, a), front, last);
    }
  }

  // The next functor taken runs.
  lemma RunsNext(s: State, taken: seq<Functor>, n: nat)
    requires s.phase == Running && !s.ownerPosting && n < |taken| && s.taken == taken[n..]
    ensures Step(s, RunOne) == s.(done := s.done + [taken[n]], taken := taken[n + 1..])
  {
    assert s.taken[1..] == taken[n + 1..];
  }

  lemma {:induction false} RunFunctors(s: State, n: nat)
    requires s.phase == Running && !s.ownerPosting && n <= |s.taken|
    ensures Run(s, Repeat(RunOne, n)) == s.(done := s.done + s.taken[..n], taken := s.taken[n..])
  {
    hide Step, Run;
    if n == 0 {
      RunNone(s);
      assert s.taken[..0] == [] && s.done + [] == s.done;
    } else {
      RunFunctors(s, n - 1);
      RunSnoc(s, Repeat(RunOne, n - 1), RunOne);
      RunsNext(Run(s, Repeat(RunOne, n - 1)), s.taken, n - 1);
      assert s.taken[..n] == s.taken[..n - 1] + [s.taken[n - 1]];
      assert s.done + s.taken[..n - 1] + [s.taken[n - 1]] == s.done + s.taken[..n];
    }
  }

  // One pass of the loop, from a poll that has returned back to the loop condition.
  function Pass(n: nat): seq<Action> {
    [PollReturns, ReadCounter, BeginCalling, Swap] + Repeat(RunOne, n) + [EndCalling]
  }

  lemma UpToSwap(s: State)
    requires s.phase == InPoll && !s.ownerPosting
    ensures Run(s, [PollReturns, ReadCounter, BeginCalling, Swap]) ==
            s.(phase := Running, calling := true, taken := s.queue, queue := [], early := 0,
               swapped := true, counter := 0, mustRead := false)
  {
    hide Run, Step;
    FourSteps(s, PollReturns, ReadCounter, BeginCalling, Swap);
    var handling := s.(phase := Handling, mustRead := s.counter > 0);
    PollReturned(s);
    CounterRead(handling);
    SwapReached(handling.(counter := 0, mustRead := false));
  }

  lemma PollReturned(s: State)
    requires s.phase == InPoll && !s.ownerPosting
    ensures Step(s, PollReturns) == s.(phase := Handling, mustRead := s.counter > 0)
  {
  }

  lemma CounterRead(s: State)
    requires s.phase == Handling && !s.ownerPosting && s.mustRead == (s.counter > 0)
    ensures Step(s, ReadCounter) == s.(counter := 0, mustRead := false)
  {
  }

  lemma SwapReached(s: State)
    requires s.phase == Handling && !s.ownerPosting && !s.mustRead
    ensures Step(Step(s, BeginCalling), Swap) ==
      s.(phase := Running, calling := true, taken := s.queue, queue := [], early := 0, swapped := true)
  {
  }

  lemma FourSteps(s: State, a: Action, b: Action, c: Action, d: Action)
    ensures Run(s, [a, b, c, d]) == Step(Step(Step(Step(s, a), b), c), d)
  {
    hide Run, Step;
    RunNone(s);
    RunSnoc(s, [], a);
    RunSnoc(s, [a], b);
    RunSnoc(s, [a, b], c);
    RunSnoc(s, [a, b, c], d);
    assert [] + [a] == [a] && [a] + [b] == [a, b] && [a, b] + [c] == [a, b, c] && [a, b, c] + [d] == [a, b, c, d];
  }

  lemma RunNone(s: State)
    ensures Run(s, []) == s
  {}

  // A pass runs everything that was queued when poll returned, in order.
  lemma PassRunsQueue(s: State)
    requires Valid(s) && s.phase == InPoll
    ensures var t := Run(s, Pass(|s.queue|));
      t.phase == Top && t.queue == [] && t.taken == [] && t.done == s.done + s.queue && t.done == t.posted
  {
    hide Run, Repeat;
    var head, body := [PollReturns, ReadCounter, BeginCalling, Swap], Repeat(RunOne, |s.queue|);
    UpToSwap(s);
    var r := Run(s, head);
    RunFunctors(r, |s.queue|);
    RunConcat(s, head, body);
    RunSnoc(s, head + body, EndCalling);
    assert s.done + s.taken + s.queue == s.done + s.queue;
    assert s.queue[..|s.queue|] == s.queue && s.queue[|s.queue|..] == [];
  }

  // ---------- The loop as an object ----------

  // What other threads, and handlers and functors in the owner thread, may do.
  predicate Aside(a: Action) {
    a.Push? || a.Wake? || a.Quit? || a.OwnerPush? || a.OwnerWake?
  }

  predicate AllAside(actions: seq<Action>) {
    forall i :: 0 <= i < |actions| ==> Aside(actions[i])
  }

  lemma NothingAside()
    ensures AllAside([])
  {
  }

  // They leave the functors already taken alone.
  lemma {:induction false} AsideKeeps(s: State, actions: seq<Action>)
    requires AllAside(actions)
    ensures var t := Run(s, actions);
      t.phase == s.phase && t.taken == s.taken && t.done == s.done && t.calling == s.calling
  {
    hide Step, Aside;
    if actions != [] {
      AsideKeeps(s, actions[..|actions| - 1]);
      AsideStep(Run(s, actions[..|actions| - 1]), actions[|actions| - 1]);
    }
  }

  lemma AsideStep(s: State, a: Action)
    requires Aside(a)
    ensures var t := Step(s, a);
      t.phase == s.phase && t.taken == s.taken && t.done == s.done && t.calling == s.calling && s.posted <= t.posted
  {
    hide OwnerStep;
    if a.OwnerPush? || a.OwnerWake? {
      UserCodeStep(s, a);
    }
  }

  lemma UserCodeStep(s: State, a: Action)
    requires a.OwnerPush? || a.OwnerWake?
    ensures var t := OwnerStep(s, a);
      t.phase == s.phase && t.taken == s.taken && t.done == s.done && t.calling == s.calling && s.posted <= t.posted
  {
    hide InUserCode;
  }

  // The owner has a post of its own under way only while it runs functors.
  lemma OnlyRunningPosts(s: State)
    requires Valid(s) && s.phase != Running
    ensures !s.ownerPosting
  {
  }

  class EventLoop {
    var wakeupFunctors: seq<Functor>
    var functors: seq<Functor>         // swapped out by do_calling_wakeup_functors
    var calling: bool
    var quit: bool
    var counter: nat                   // the wakeup eventfd
    var phase: Phase                   // where the owner thread is
    var mustRead: bool
    var posters: set<Thread>           // threads between their push and their wakeup
    var ownerPosting: bool
    ghost var early: nat
    ghost var swapped: bool
    ghost var posted: seq<Functor>
    ghost var done: seq<Functor>

    ghost function View(): State
      reads this
    {
      State(phase, wakeupFunctors, functors, calling, quit, counter, mustRead, posters, ownerPosting, early, swapped,
            posted, done)
    }

    constructor ()
      ensures View() == INITIAL
    {
      wakeupFunctors, functors, calling, quit := [], [], false, false;
      phase, counter, mustRead, posters, ownerPosting := NotStarted, 0, false, {}, false;
      early, swapped := 0, false;
      posted, done := [], [];
    }

    // The critical section of queue_in_own_loop.
    method QueueLocked(f: Functor)
      modifies `wakeupFunctors, `posted
      ensures wakeupFunctors == old(wakeupFunctors) + [f] && posted == old(posted) + [f]
    {
      wakeupFunctors := wakeupFunctors + [f];
      posted := posted + [f];
    }

    // What another thread does.
    method PerformOther(a: Action)
      requires a.Push? || a.Wake? || a.Quit?
      modifies this
      ensures View() == Step(old(View()), a)
    {
      hide OwnerStep;
      match a {
        case Push(t, f) =>
          if t !in posters {
            QueueLocked(f);
            posters := posters + {t};
          }
        case Wake(t) =>
          if t in posters {
            counter := counter + 1;
            posters := posters - {t};
          }
        case Quit(owner) =>
          if !owner {
            quit := true;
            counter := counter + 1;
          } else if !ownerPosting && (phase == NotStarted || phase == Handling || phase == Running) {
            quit := true;
          }
      }
    }

    // What user code in the owner thread does.
    method PerformOwn(a: Action)
      requires a.OwnerPush? || a.OwnerWake?
      modifies this
      ensures View() == Step(old(View()), a)
    {
      if a.OwnerPush? {
        if !ownerPosting && (phase == NotStarted || phase == Handling || phase == Running) {
          QueueLocked(a.f);
          ownerPosting := calling;
          early := early + if phase == NotStarted then 1 else 0;
        }
      } else if ownerPosting {
        counter := counter + 1;
        ownerPosting := false;
      }
    }

    // One action of another thread or of user code: no functor is run or lost, and a
    // sleeping loop with more than early posts in its queue will be woken.
    method Perform(a: Action)
      requires Aside(a) && Valid(View())
      modifies this
      ensures View() == Step(old(View()), a)
      ensures Valid(View()) && functors == old(functors) && done == old(done) && old(posted) <= posted
      ensures phase == InPoll && |wakeupFunctors| > early ==> counter > 0 || posters != {}
    {
      hide Step;
      StepKeeps(View(), a);
      AsideStep(View(), a);
      if a.Push? || a.Wake? || a.Quit? {
        PerformOther(a);
      } else {
        PerformOwn(a);
      }
    }

    method PerformAll(actions: seq<Action>)
      requires AllAside(actions) && Valid(View())
      modifies this
      ensures View() == Run(old(View()), actions) && Valid(View())
    {
      hide Step, Aside, Valid;
      ghost var s := View();
      assert actions[..0] == [];
      for i := 0 to |actions|
        invariant Valid(View())
        invariant View() == Run(s, actions[..i])
      {
        Perform(actions[i]);
        assert actions[..i + 1][..i] == actions[..i];
      }
      assert actions[..|actions|] == actions;
    }

    // do_calling_wakeup_functors: whatever is queued before the swap and during the
    // functors, exactly the functors in the queue at the swap are run, in order.
    method DoCallingWakeupFunctors(before: seq<Action>, scripts: seq<seq<Action>>) returns (ran: seq<Functor>)
      requires Valid(View()) && phase == Handling && !mustRead && !ownerPosting
      requires AllAside(before) && forall i :: 0 <= i < |scripts| ==> AllAside(scripts[i])
      modifies this
      ensures Valid(View()) && phase == Top && functors == []
      ensures ran == Run(Step(old(View()), BeginCalling), before).queue
      ensures done == old(done) + ran
    {
      hide Valid, AllAside, Run, Step;
      BeginCallingFunctors();
      SwapFunctors(before);
      ran := functors;
      RunFunctorsTaken(scripts);
      EndCallingFunctors();
    }

    method BeginCallingFunctors()
      requires Valid(View()) && phase == Handling && !mustRead && !ownerPosting
      modifies `phase, `calling
      ensures Valid(View()) && View() == Step(old(View()), BeginCalling) && phase == Calling
    {
      StepKeeps(View(), BeginCalling);
      phase, calling := Calling, true;
    }

    // Under the lock, after whatever came first.
    method SwapFunctors(before: seq<Action>)
      requires Valid(View()) && phase == Calling && AllAside(before)
      modifies this
      ensures Valid(View()) && phase == Running && !ownerPosting && done == old(done)
      ensures functors == Run(old(View()), before).queue
    {
      hide AllAside, Run, Valid;
      PerformAll(before);
      AsideKeeps(old(View()), before);
      SwapKeeps(View());
      OnlyRunningPosts(View());
      phase, functors, wakeupFunctors := Running, wakeupFunctors, [];
      early, swapped := 0, true;
    }

    method RunFunctorsTaken(scripts: seq<seq<Action>>)
      requires Valid(View()) && phase == Running && !ownerPosting
      requires forall i :: 0 <= i < |scripts| ==> AllAside(scripts[i])
      modifies this
      ensures Valid(View()) && phase == Running && !ownerPosting
      ensures functors == [] && done == old(done) + old(functors)
    {
      hide Valid, AllAside;
      var i := 0;
      assert AllAside([]) by { NothingAside(); }
      while functors != []
        invariant Valid(View()) && phase == Running && !ownerPosting
        invariant done + functors == old(done) + old(functors)
        decreases |functors|
      {
        assert functors == [functors[0]] + functors[1..];
        RunNext(if i < |scripts| then scripts[i] else []);
        i := i + 1;
      }
    }

    method EndCallingFunctors()
      requires Valid(View()) && phase == Running && functors == [] && !ownerPosting
      modifies `phase, `calling
      ensures Valid(View()) && phase == Top
    {
      StepKeeps(View(), EndCalling);
      phase, calling := Top, false;
    }

    // One functor runs, with all that happens meanwhile; a post of its own is complete
    // when it returns.
    method RunNext(script: seq<Action>)
      requires Valid(View()) && phase == Running && functors != [] && !ownerPosting && AllAside(script)
      modifies this
      ensures Valid(View()) && phase == Running && !ownerPosting
      ensures functors == old(functors)[1..] && done == old(done) + [old(functors)[0]]
    {
      hide AllAside, Run;
      StepKeeps(View(), RunOne);
      done, functors := done + [functors[0]], functors[1..];
      ghost var s := View();
      PerformAll(script);
      AsideKeeps(s, script);
      SettlePosting();
    }

    // The owner's wakeup, when it is still due.
    method SettlePosting()
      requires Valid(View())
      modifies `counter, `ownerPosting
      ensures Valid(View()) && !ownerPosting
    {
      StepKeeps(View(), OwnerWake);
      if ownerPosting {
        counter, ownerPosting := counter + 1, false;
      }
    }
  }
}
