/** Channels (src/Channel.h) and the two pollers (src/PollPoller.cc, src/EPollPoller.cc):
    channel map, per-channel status, pollfd vector and kernel interest set. */
module Pollers {

  // ---------- What both pollers do ----------

  datatype Status = Init | Added | Deleted

  datatype Reg = Reg(status: Status, events: bv16)

  datatype Ctl = Add(fd: int, events: bv16) | Mod(fd: int, events: bv16) | Del(fd: int)

  // The channel map with each channel's status and events, and the control operations
  // issued so far.
  datatype View = View(registry: map<int, Reg>, log: seq<Ctl>)

  const NO_EVENT: bv16 := 0
  const READ_EVENT: bv16 := 3    // POLLIN | POLLPRI
  const WRITE_EVENT: bv16 := 4   // POLLOUT

  function StatusOf(v: View, fd: int): Status {
    if fd in v.registry then v.registry[fd].status else Init
  }

  // The control operation that update_channel issues.
  function Issued(status: Status, fd: int, ev: bv16): Ctl {
    if status != Added then Add(fd, ev) else if ev == NO_EVENT then Del(fd) else Mod(fd, ev)
  }

  // update_channel, for a channel whose events are now ev.
  function Updated(v: View, fd: int, ev: bv16): View {
    var status := if StatusOf(v, fd) == Added && ev == NO_EVENT then Deleted else Added;
    View(v.registry[fd := Reg(status, ev)], v.log + [Issued(StatusOf(v, fd), fd, ev)])
  }

  function Removed(v: View, fd: int): View {
    View(v.registry - {fd}, if StatusOf(v, fd) == Added then v.log + [Del(fd)] else v.log)
  }

  // ---------- The kernel's view of the control operations ----------

  function Controlled(m: map<int, bv16>, c: Ctl): map<int, bv16> {
    if c.Del? then m - {c.fd} else m[c.fd := c.events]
  }

  function Interest(log: seq<Ctl>): map<int, bv16> {
    if log == [] then map[] else Controlled(Interest(log[..|log| - 1]), log[|log| - 1])
  }

  // ADD only for an absent descriptor, MOD and DEL only for a present one.
  predicate Legal(log: seq<Ctl>) {
    log == [] ||
    (Legal(log[..|log| - 1]) &&
     var last := log[|log| - 1];
     (last.Add? <==> last.fd !in Interest(log[..|log| - 1])))
  }

  function Watched(registry: map<int, Reg>): map<int, bv16> {
    map fd | fd in registry && registry[fd].status == Added :: registry[fd].events
  }

  predicate Registered(registry: map<int, Reg>) {
    forall fd :: fd in registry ==> registry[fd].status != Init
  }

  // Every operation was legal, and left the kernel watching exactly the Added channels
  // for their current events.
  ghost predicate InStep(v: View) {
    Registered(v.registry) && Legal(v.log) && Interest(v.log) == Watched(v.registry)
  }

  lemma LogSnoc(log: seq<Ctl>, c: Ctl)
    ensures Legal(log + [c]) <==> Legal(log) && (c.Add? <==> c.fd !in Interest(log))
    ensures Interest(log + [c]) == Controlled(Interest(log), c)
  {
    assert (log + [c])[..|log|] == log;
  }

  lemma UpdatedKeeps(v: View, fd: int, ev: bv16)
    requires InStep(v)
    ensures InStep(Updated(v, fd, ev))
  {
    hide Legal, Interest;
    LogSnoc(v.log, Add(fd, ev));
    LogSnoc(v.log, Mod(fd, ev));
    LogSnoc(v.log, Del(fd));
    assert fd in Watched(v.registry) <==> StatusOf(v, fd) == Added;
  }

  lemma RemovedKeeps(v: View, fd: int)
    requires InStep(v)
    ensures InStep(Removed(v, fd))
  {
    hide Legal, Interest;
    LogSnoc(v.log, Del(fd));
    assert fd in Watched(v.registry) <==> StatusOf(v, fd) == Added;
  }

  // ---------- Any sequence of channel calls ----------

  datatype Op = EnableRead | DisableRead | EnableWrite | DisableWrite | DisableAll | Remove

  // The events_ mask after each call of Channel.
  function NewEvents(ev: bv16, op: Op): bv16 {
    match op
    case EnableRead => ev | READ_EVENT
    case DisableRead => ev & !READ_EVENT
    case EnableWrite => ev | WRITE_EVENT
    case DisableWrite => ev & !WRITE_EVENT
    case DisableAll => NO_EVENT
    case Remove => ev
  }

  datatype World = World(view: View, events: map<int, bv16>)

  function EventsOf(w: World, fd: int): bv16 {
    if fd in w.events then w.events[fd] else NO_EVENT
  }

  // Removing is allowed only for a registered channel without events.
  predicate Allowed(w: World, fd: int, op: Op) {
    op == Remove ==> fd in w.view.registry && EventsOf(w, fd) == NO_EVENT
  }

  function Call(w: World, fd: int, op: Op): World {
    if !Allowed(w, fd, op) then w
    else if op == Remove then w.(view := Removed(w.view, fd))
    else var ev := NewEvents(EventsOf(w, fd), op);
      World(Updated(w.view, fd, ev), w.events[fd := ev])
  }

  function Calls(calls: seq<(int, Op)>): World {
    if calls == [] then World(View(map[], []), map[]) else
    var c := calls[|calls| - 1];
    Call(Calls(calls[..|calls| - 1]), c.0, c.1)
  }

  ghost predicate Current(w: World) {
    InStep(w.view) && forall fd :: fd in w.view.registry ==> w.view.registry[fd].events == EventsOf(w, fd)
  }

  lemma CallKeeps(w: World, fd: int, op: Op)
    requires Current(w)
    ensures Current(Call(w, fd, op))
  {
    hide Legal, Interest, NewEvents;
    if Allowed(w, fd, op) {
      if op == Remove {
        RemovedKeeps(w.view, fd);
      } else {
        UpdatedKeeps(w.view, fd, NewEvents(EventsOf(w, fd), op));
      }
    }
  }

  // After any calls on any channels, every control operation issued was legal and the
  // kernel watches exactly the Added channels, each for its current events.
  lemma {:induction false} AlwaysCurrent(calls: seq<(int, Op)>)
    ensures Current(Calls(calls))
  {
    hide Call;
    if calls != [] {
      AlwaysCurrent(calls[..|calls| - 1]);
      CallKeeps(Calls(calls[..|calls| - 1]), calls[|calls| - 1].0, calls[|calls| - 1].1);
    }
  }

  // A channel is watched after a call exactly when it has events, unless the call leaves
  // a channel that was not Added without events: that one is added with an empty mask.
  lemma WatchedWhenWanted(w: World, fd: int, op: Op)
    requires Current(w) && op != Remove
    ensures var u := Call(w, fd, op);
      (fd in Interest(u.view.log) <==> EventsOf(u, fd) != NO_EVENT) <==>
      (StatusOf(w.view, fd) == Added || NewEvents(EventsOf(w, fd), op) != NO_EVENT)
  {
    hide Legal, Interest, NewEvents;
    CallKeeps(w, fd, op);
    assert fd in Watched(Call(w, fd, op).view.registry) <==> StatusOf(Call(w, fd, op).view, fd) == Added;
  }

  // Disabling twice adds the descriptor again, with no events.
  lemma DisabledTwiceIsWatched(fd: int)
    ensures var u := Calls([(fd, EnableRead), (fd, DisableRead), (fd, DisableRead)]);
      EventsOf(u, fd) == NO_EVENT && fd in Interest(u.view.log)
  {
    hide Legal, Interest, Current;
    var c1 := [(fd, EnableRead)];
    var c2 := c1 + [(fd, DisableRead)];
    var c3 := c2 + [(fd, DisableRead)];
    assert c3[..2] == c2 && c2[..1] == c1 && c1[..0] == [];
    assert Calls(c1) == Call(Calls([]), fd, EnableRead);
    assert StatusOf(Calls(c1).view, fd) == Added && EventsOf(Calls(c1), fd) == READ_EVENT;
    var w := Calls(c2);
    assert w == Call(Calls(c1), fd, DisableRead);
    assert EventsOf(w, fd) == NO_EVENT && StatusOf(w.view, fd) == Deleted;
    assert Calls(c3) == Call(w, fd, DisableRead);
    AlwaysCurrent(c2);
    WatchedWhenWanted(w, fd, DisableRead);
    assert c3 == [(fd, EnableRead), (fd, DisableRead), (fd, DisableRead)];
  }

  // ---------- What the calls ask for ----------

  // Whether the last call that said so asked for writes, or reads, on fd.
  predicate Wanted(calls: seq<(int, Op)>, fd: int, write: bool) {
    calls != [] &&
    var (f, op) := calls[|calls| - 1];
    if f == fd && (op == if write then EnableWrite else EnableRead) then true
    else if f == fd && (op == DisableAll || op == if write then DisableWrite else DisableRead) then false
    else Wanted(calls[..|calls| - 1], fd, write)
  }

  // POLLIN and POLLPRI for reads, POLLOUT for writes.
  function Mask(read: bool, write: bool): bv16 {
    if read && write then 7 else if read then 3 else if write then 4 else 0
  }

  lemma MaskChanges(r: bool, w: bool)
    ensures NewEvents(Mask(r, w), EnableRead) == Mask(true, w) && NewEvents(Mask(r, w), DisableRead) == Mask(false, w)
    ensures NewEvents(Mask(r, w), EnableWrite) == Mask(r, true) && NewEvents(Mask(r, w), DisableWrite) == Mask(r, false)
    ensures NewEvents(Mask(r, w), DisableAll) == Mask(false, false) == NO_EVENT
  {
  }

  // The events of every channel are what the calls on it last asked for.
  lemma {:induction false} EventsAreWanted(calls: seq<(int, Op)>, fd: int)
    ensures EventsOf(Calls(calls), fd) == Mask(Wanted(calls, fd, false), Wanted(calls, fd, true))
  {
    hide NewEvents, Mask, Call, EventsOf, Wanted;
    if calls == [] {
      NothingWanted(fd);
    } else {
      var front, last := calls[..|calls| - 1], calls[|calls| - 1];
      EventsAreWanted(front, fd);
      CallEvents(Calls(front), last.0, last.1, fd);
      var r, w := Wanted(front, fd, false), Wanted(front, fd, true);
      WantedNext(calls, fd);
      MaskChanges(r, w);
    }
  }

  lemma NothingWanted(fd: int)
    ensures EventsOf(Calls([]), fd) == Mask(Wanted([], fd, false), Wanted([], fd, true))
  {
  }

  lemma CallEvents(w: World, fd: int, op: Op, k: int)
    ensures EventsOf(Call(w, fd, op), k) ==
      if k == fd && op != Remove then NewEvents(EventsOf(w, k), op) else EventsOf(w, k)
  {
    hide NewEvents, Updated, Removed;
  }

  // How the last call changes what is wanted.
  lemma WantedNext(calls: seq<(int, Op)>, fd: int)
    requires calls != []
    ensures var (f, op) := calls[|calls| - 1];
      var front := calls[..|calls| - 1];
      var r, w := Wanted(front, fd, false), Wanted(front, fd, true);
      && Wanted(calls, fd, false) ==
           (if f != fd then r else if op == EnableRead then true else if op == DisableRead || op == DisableAll then false else r)
      && Wanted(calls, fd, true) ==
           (if f != fd then w else if op == EnableWrite then true else if op == DisableWrite || op == DisableAll then false else w)
  {
  }

  // A call puts its channel into the map, or a removal takes it out of the map and out of
  // the kernel's set.
  lemma CallRegisters(w: World, fd: int, op: Op)
    requires Current(w) && Allowed(w, fd, op)
    ensures fd in Call(w, fd, op).view.registry <==> op != Remove
    ensures op == Remove ==> fd !in Interest(Call(w, fd, op).view.log)
  {
    hide Legal, Interest, NewEvents;
    CallKeeps(w, fd, op);
  }

  // A call does not touch other channels.
  lemma CallElsewhere(w: World, fd: int, op: Op, k: int)
    requires Current(w) && k != fd
    ensures var u := Call(w, fd, op);
      && EventsOf(u, k) == EventsOf(w, k) && StatusOf(u.view, k) == StatusOf(w.view, k)
      && (k in Interest(u.view.log) <==> k in Interest(w.view.log))
      && (k in Interest(u.view.log) ==> Interest(u.view.log)[k] == Interest(w.view.log)[k])
  {
    hide Legal, Interest, NewEvents;
    CallKeeps(w, fd, op);
    var u := Call(w, fd, op);
    assert k in Watched(u.view.registry) <==> k in Watched(w.view.registry);
  }

  // One call on the channel of fd, seen from its poller and its own events.
  predicate Turned(v: View, ev: bv16, v': View, ev': bv16, fd: int, op: Op) {
    var w := Call(World(v, map[fd := ev]), fd, op);
    v' == w.view && ev' == EventsOf(w, fd)
  }

  lemma TurnedIsCall(w: World, v': View, ev': bv16, fd: int, op: Op)
    requires Turned(w.view, EventsOf(w, fd), v', ev', fd, op)
    ensures Call(w, fd, op).view == v'
    ensures forall k :: EventsOf(Call(w, fd, op), k) == if k == fd then ev' else EventsOf(w, k)
  {
    hide Updated, Removed, NewEvents;
  }

  // ---------- Channels ----------

  class Channel {
    const fd: int
    var events: bv16
    var revents: int
    var status: Status

    constructor (fd: int)
      ensures this.fd == fd && events == NO_EVENT && revents == 0 && status == Init
    {
      this.fd := fd;
      events := NO_EVENT;
      revents := 0;
      status := Init;
    }
  }

  ghost function Registry(channels: map<int, Channel>): map<int, Reg>
    reads channels.Values
  {
    map fd | fd in channels :: Reg(channels[fd].status, channels[fd].events)
  }

  ghost predicate Keyed(channels: map<int, Channel>) {
    forall fd :: fd in channels ==> channels[fd].fd == fd
  }

  // A channel outside the map is Init, and a descriptor in the map has one channel.
  ghost predicate Knows(channels: map<int, Channel>, ch: Channel)
    reads ch
  {
    if ch.status == Init then ch.fd !in channels else ch.fd in channels && channels[ch.fd] == ch
  }

  lemma SameElsewhere(before: map<int, Channel>, after: map<int, Channel>, fd: int, k: int)
    requires after - {fd} == before - {fd} && k != fd
    ensures k in after <==> k in before
    ensures k in before ==> after[k] == before[k]
  {
    assert k in after <==> k in after - {fd};
    assert k in before <==> k in before - {fd};
    if k in before {
      assert (after - {fd})[k] == after[k] && (before - {fd})[k] == before[k];
    }
  }

  // The descriptors of m are those of the Added channels.
  ghost predicate Tracks(registry: map<int, Reg>, m: map<int, bv16>) {
    forall fd :: fd in m <==> fd in registry && registry[fd].status == Added
  }

  lemma UpdatedTracks(v: View, fd: int, ev: bv16)
    requires Registered(v.registry) && Tracks(v.registry, Interest(v.log))
    ensures var u := Updated(v, fd, ev);
      Registered(u.registry) && Tracks(u.registry, Interest(u.log))
    ensures Issued(StatusOf(v, fd), fd, ev).Add? <==> fd !in Interest(v.log)
  {
    hide Legal, Interest;
    LogSnoc(v.log, Issued(StatusOf(v, fd), fd, ev));
  }

  lemma RemovedTracks(v: View, fd: int)
    requires Registered(v.registry) && Tracks(v.registry, Interest(v.log))
    ensures var u := Removed(v, fd);
      Registered(u.registry) && Tracks(u.registry, Interest(u.log))
    ensures StatusOf(v, fd) == Added <==> fd in Interest(v.log)
  {
    hide Legal, Interest;
    LogSnoc(v.log, Del(fd));
  }

  lemma StatusKnown(channels: map<int, Channel>, ch: Channel)
    requires Knows(channels, ch)
    ensures StatusOf(View(Registry(channels), []), ch.fd) == ch.status
  {
  }

  lemma RegistryIs(channels: map<int, Channel>, r: map<int, Reg>)
    requires r.Keys == channels.Keys
    requires forall fd :: fd in channels ==> r[fd] == Reg(channels[fd].status, channels[fd].events)
    ensures Registry(channels) == r
  {
    assert Registry(channels).Keys == channels.Keys;
    assert forall fd :: fd in r ==> Registry(channels)[fd] == r[fd];
  }

  lemma AlreadyThere(channels: map<int, Channel>, ch: Channel)
    ensures ch.fd in channels && channels[ch.fd] == ch ==> channels[ch.fd := ch] == channels
  {
  }

  lemma RegistryPlus(channels: map<int, Channel>, ch: Channel)
    ensures Registry(channels[ch.fd := ch]) == Registry(channels)[ch.fd := Reg(ch.status, ch.events)]
    ensures Keyed(channels) ==> Keyed(channels[ch.fd := ch])
  {
  }

  lemma RegistryMinus(channels: map<int, Channel>, fd: int)
    ensures Registry(channels - {fd}) == Registry(channels) - {fd}
    ensures Keyed(channels) ==> Keyed(channels - {fd})
  {
  }

  // set_status.
  method SetStatus(ghost channels: map<int, Channel>, ch: Channel, status: Status)
    requires Keyed(channels) && (ch.fd in channels ==> channels[ch.fd] == ch)
    modifies ch`status
    ensures ch.status == status
    ensures Registry(channels) == if ch.fd in channels
      then old(Registry(channels))[ch.fd := Reg(status, ch.events)] else old(Registry(channels))
  {
    ghost var r := Registry(channels);
    assert forall fd :: fd in channels && fd != ch.fd ==> channels[fd] != ch;
    ch.status := status;
    RegistryIs(channels, if ch.fd in channels then r[ch.fd := Reg(status, ch.events)] else r);
  }

  method SetEvents(ghost channels: map<int, Channel>, ch: Channel, ev: bv16)
    requires Keyed(channels) && (ch.fd in channels ==> channels[ch.fd] == ch)
    modifies ch`events
    ensures ch.events == ev
    ensures Registry(channels) == if ch.fd in channels
      then old(Registry(channels))[ch.fd := Reg(ch.status, ev)] else old(Registry(channels))
  {
    ghost var r := Registry(channels);
    assert forall fd :: fd in channels && fd != ch.fd ==> channels[fd] != ch;
    ch.events := ev;
    RegistryIs(channels, if ch.fd in channels then r[ch.fd := Reg(ch.status, ev)] else r);
  }

  // Changing the events of a channel leaves the statuses alone.
  lemma RetagKeeps(r: map<int, Reg>, log: seq<Ctl>, fd: int, ev: bv16)
    requires fd in r && Registered(r) && Tracks(r, Interest(log))
    ensures var q := r[fd := Reg(r[fd].status, ev)];
      && Registered(q) && Tracks(q, Interest(log))
      && Updated(View(q, log), fd, ev) == Updated(View(r, log), fd, ev)
  {
    hide Interest;
    var q := r[fd := Reg(r[fd].status, ev)];
    assert forall s :: q[fd := Reg(s, ev)] == r[fd := Reg(s, ev)];
  }

  // ---------- The pollfd vector ----------

  datatype PollFd = PollFd(fd: int, events: bv16, revents: int)

  // One entry for each descriptor of m, with its events.
  ghost predicate Lists(listen: seq<PollFd>, m: map<int, bv16>) {
    && (forall i, j :: 0 <= i < j < |listen| ==> listen[i].fd != listen[j].fd)
    && (forall i :: 0 <= i < |listen| ==> listen[i].fd in m && m[listen[i].fd] == listen[i].events)
    && (forall fd :: fd in m ==> HasEntry(listen, fd))
  }

  ghost predicate HasEntry(listen: seq<PollFd>, fd: int) {
    exists i :: 0 <= i < |listen| && listen[i].fd == fd
  }

  lemma ListsAdded(listen: seq<PollFd>, m: map<int, bv16>, p: PollFd)
    requires Lists(listen, m) && p.fd !in m
    ensures Lists(listen + [p], m[p.fd := p.events])
  {
    var after := listen + [p];
    forall fd | fd in m[p.fd := p.events] ensures HasEntry(after, fd) {
      if fd == p.fd {
        assert after[|listen|].fd == fd;
      } else {
        var i :| 0 <= i < |listen| && listen[i].fd == fd;
        assert after[i].fd == fd;
      }
    }
  }

  lemma ListsModified(listen: seq<PollFd>, m: map<int, bv16>, k: nat, p: PollFd)
    requires Lists(listen, m) && k < |listen| && listen[k].fd == p.fd
    ensures Lists(listen[k := p], m[p.fd := p.events])
  {
    var after := listen[k := p];
    forall fd | fd in m[p.fd := p.events] ensures HasEntry(after, fd) {
      var i :| 0 <= i < |listen| && listen[i].fd == fd;
      assert after[i].fd == fd;
    }
  }

  lemma ListsDeleted(listen: seq<PollFd>, m: map<int, bv16>, k: nat)
    requires Lists(listen, m) && k < |listen|
    ensures Lists(listen[..k] + listen[k + 1..], m - {listen[k].fd})
  {
    var after := listen[..k] + listen[k + 1..];
    forall fd | fd in m - {listen[k].fd} ensures HasEntry(after, fd) {
      var i :| 0 <= i < |listen| && listen[i].fd == fd;
      assert after[if i < k then i else i - 1].fd == fd;
    }
  }

  // ---------- What poll reports ----------

  // The descriptors with a result, in vector order, each with its result.
  function Ready(listen: seq<PollFd>): seq<(int, int)> {
    if listen == [] then [] else
    var rest := Ready(listen[..|listen| - 1]);
    var last := listen[|listen| - 1];
    if last.revents > 0 then rest + [(last.fd, last.revents)] else rest
  }

  function FirstOf(n: int, s: seq<(int, int)>): seq<(int, int)> {
    if n <= 0 then [] else if n < |s| then s[..n] else s
  }

  ghost predicate Reports(listen: seq<PollFd>, r: (int, int)) {
    exists i :: 0 <= i < |listen| && listen[i].fd == r.0 && listen[i].revents == r.1 > 0
  }

  ghost predicate Distinct(listen: seq<PollFd>) {
    forall i, j :: 0 <= i < j < |listen| ==> listen[i].fd != listen[j].fd
  }

  lemma ReportsSnoc(listen: seq<PollFd>, r: (int, int))
    requires listen != []
    ensures var n := |listen| - 1;
      Reports(listen, r) <==>
      Reports(listen[..n], r) || (r == (listen[n].fd, listen[n].revents) && r.1 > 0)
  {
    var n := |listen| - 1;
    if Reports(listen[..n], r) {
      var i :| 0 <= i < n && listen[..n][i].fd == r.0 && listen[..n][i].revents == r.1 > 0;
      assert listen[i].fd == r.0;
    }
    if Reports(listen, r) {
      var i :| 0 <= i < |listen| && listen[i].fd == r.0 && listen[i].revents == r.1 > 0;
      assert i < n ==> listen[..n][i].fd == r.0;
    }
  }

  // Exactly the entries with a result are ready, and no descriptor is ready twice.
  lemma {:induction false} ReadyExactly(listen: seq<PollFd>)
    requires Distinct(listen)
    ensures forall r :: r in Ready(listen) <==> Reports(listen, r)
    ensures forall a, b :: 0 <= a < b < |Ready(listen)| ==> Ready(listen)[a].0 != Ready(listen)[b].0
  {
    if listen != [] {
      var n := |listen| - 1;
      ReadyExactly(listen[..n]);
      forall r ensures r in Ready(listen) <==> Reports(listen, r) {
        ReportsSnoc(listen, r);
      }
      forall k | 0 <= k < |Ready(listen[..n])| ensures Ready(listen[..n])[k].0 != listen[n].fd {
        assert Reports(listen[..n], Ready(listen[..n])[k]);
      }
    }
  }

  lemma {:induction false} ReadyPrefix(listen: seq<PollFd>, i: nat)
    requires i <= |listen|
    ensures Ready(listen[..i]) <= Ready(listen)
    decreases |listen| - i
  {
    if i < |listen| {
      assert listen[..i + 1][..i] == listen[..i];
      ReadyPrefix(listen, i + 1);
    } else {
      assert listen[..i] == listen;
    }
  }

  // A scan that stops at i, for want of entries or of results, saw the first num results.
  lemma FirstReached(listen: seq<PollFd>, i: nat, num: int)
    requires i <= |listen|
    requires if num <= 0 then i == 0 else |Ready(listen[..i])| <= num
    requires i < |listen| && num > 0 ==> |Ready(listen[..i])| == num
    ensures Ready(listen[..i]) == FirstOf(num, Ready(listen))
  {
    ReadyPrefix(listen, i);
    assert i == |listen| ==> listen[..i] == listen;
  }

  lemma NothingReady()
    ensures Ready([]) == []
  {
  }

  lemma ReadySnoc(listen: seq<PollFd>, i: nat)
    requires i < |listen|
    ensures Ready(listen[..i + 1]) ==
      if listen[i].revents > 0 then Ready(listen[..i]) + [(listen[i].fd, listen[i].revents)] else Ready(listen[..i])
  {
    assert listen[..i + 1][..i] == listen[..i];
  }

  lemma NotYetActive(listen: seq<PollFd>, i: nat, r: seq<(int, int)>)
    requires Distinct(listen) && i < |listen| && r == Ready(listen[..i])
    ensures forall k :: 0 <= k < |r| ==> r[k].0 != listen[i].fd
  {
    ReadyExactly(listen[..i]);
    forall k | 0 <= k < |r| ensures r[k].0 != listen[i].fd {
      assert Reports(listen[..i], r[k]);
    }
  }

  // What the channels of an active list carry to the event loop.
  ghost function Carried(active: seq<Channel>): (r: seq<(int, int)>)
    reads active
    ensures |r| == |active| && forall k :: 0 <= k < |r| ==> r[k] == (active[k].fd, active[k].revents)
  {
    if active == [] then [] else
    var last := active[|active| - 1];
    Carried(active[..|active| - 1]) + [(last.fd, last.revents)]
  }

  // set_revents, and one more active channel.
  method Activate(active: seq<Channel>, ch: Channel, result: int) returns (more: seq<Channel>)
    requires forall k :: 0 <= k < |active| ==> Carried(active)[k].0 != ch.fd
    modifies ch`revents
    ensures more == active + [ch] && ch.revents == result
    ensures Carried(more) == old(Carried(active)) + [(ch.fd, result)]
  {
    assert forall k :: 0 <= k < |active| ==> Carried(active)[k].0 == active[k].fd;
    ch.revents := result;
    more := active + [ch];
    assert more[..|active|] == active;
  }

  function WithResults(listen: seq<PollFd>, results: seq<nat>): seq<PollFd>
    requires |results| == |listen|
  {
    seq(|listen|, i requires 0 <= i < |listen| => listen[i].(revents := results[i]))
  }

  lemma ResultsList(listen: seq<PollFd>, results: seq<nat>, m: map<int, bv16>)
    requires Lists(listen, m) && |results| == |listen|
    ensures Lists(WithResults(listen, results), m)
  {
    forall fd | fd in m ensures HasEntry(WithResults(listen, results), fd) {
      var i :| 0 <= i < |listen| && listen[i].fd == fd;
      assert WithResults(listen, results)[i].fd == fd;
    }
  }

  lemma ListsFacts(listen: seq<PollFd>, m: map<int, bv16>, registry: map<int, Reg>)
    requires Lists(listen, m) && Tracks(registry, m)
    ensures Distinct(listen) && forall i :: 0 <= i < |listen| ==> listen[i].fd in registry
  {
  }

  // ---------- poll ----------

  class PollPoller {
    var channels: map<int, Channel>
    var listen: seq<PollFd>
    ghost var log: seq<Ctl>

    ghost predicate Consistent()
      reads this, channels.Values
    {
      && Keyed(channels)
      && Registered(Registry(channels))
      && Legal(log)
      && Tracks(Registry(channels), Interest(log))
      && Lists(listen, Interest(log))
    }

    ghost function Abs(): View
      reads this, channels.Values
    {
      View(Registry(channels), log)
    }

    ghost predicate Valid()
      reads this, channels.Values
    {
      Consistent() && InStep(Abs())
    }

    constructor ()
      ensures Valid() && Abs() == View(map[], []) && channels == map[]
    {
      channels := map[];
      listen := [];
      log := [];
    }

    method FindPollEvents(fd: int) returns (i: nat)
      ensures i <= |listen|
      ensures forall j :: 0 <= j < i ==> listen[j].fd != fd
      ensures i < |listen| ==> listen[i].fd == fd
    {
      i := 0;
      while i < |listen|
        invariant i <= |listen|
        invariant forall j :: 0 <= j < i ==> listen[j].fd != fd
      {
        if listen[i].fd == fd {
          return;
        }
        i := i + 1;
      }
    }

    method UpdatePollEvents(c: Ctl)
      requires Lists(listen, Interest(log)) && Legal(log)
      requires c.Add? <==> c.fd !in Interest(log)
      modifies `listen, `log
      ensures log == old(log) + [c] && Legal(log)
      ensures Interest(log) == Controlled(Interest(old(log)), c)
      ensures Lists(listen, Interest(log))
    {
      hide Legal, Interest;
      var it := FindPollEvents(c.fd);
      LogSnoc(log, c);
      assert c.fd in Interest(log) ==> HasEntry(listen, c.fd);
      match c {
        case Add(fd, ev) =>
          ListsAdded(listen, Interest(log), PollFd(fd, ev, 0));
          listen := listen + [PollFd(fd, ev, 0)];
        case Del(fd) =>
          ListsDeleted(listen, Interest(log), it);
          listen := listen[..it] + listen[it + 1..];
        case Mod(fd, ev) =>
          ListsModified(listen, Interest(log), it, PollFd(fd, ev, 0));
          listen := listen[it := PollFd(fd, ev, 0)];
      }
      log := log + [c];
    }

    method UpdateChannel(ch: Channel)
      requires Consistent() && Knows(channels, ch)
      modifies this, ch`status
      ensures Consistent() && Knows(channels, ch)
      ensures Abs() == Updated(old(Abs()), ch.fd, ch.events)
      ensures channels == old(channels)[ch.fd := ch]
    {
      hide Legal, Interest, Lists, Registry, Tracks, Keyed;
      AlreadyThere(channels, ch);
      UpdatedTracks(Abs(), ch.fd, ch.events);
      StatusKnown(channels, ch);
      if ch.status != Added {
        if ch.status == Init {
          RegistryPlus(channels, ch);
          channels := channels[ch.fd := ch];
        }
        SetStatus(channels, ch, Added);
        UpdatePollEvents(Add(ch.fd, ch.events));
      } else if ch.events == NO_EVENT {
        UpdatePollEvents(Del(ch.fd));
        SetStatus(channels, ch, Deleted);
      } else {
        RegistryPlus(channels, ch);
        UpdatePollEvents(Mod(ch.fd, ch.events));
      }
      assert Abs() == Updated(old(Abs()), ch.fd, ch.events);
    }

    method RemoveChannel(ch: Channel)
      requires Consistent() && Knows(channels, ch) && ch.status != Init && ch.events == NO_EVENT
      modifies this, ch`status
      ensures Consistent() && Knows(channels, ch)
      ensures Abs() == Removed(old(Abs()), ch.fd)
      ensures channels == old(channels) - {ch.fd}
    {
      hide Legal, Interest, Lists, Registry, Tracks, Keyed;
      RemovedTracks(Abs(), ch.fd);
      StatusKnown(channels, ch);
      RegistryMinus(channels, ch.fd);
      channels := channels - {ch.fd};
      if ch.status == Added {
        UpdatePollEvents(Del(ch.fd));
      }
      SetStatus(channels, ch, Init);
    }

    // One call of Channel: change the events, then update or remove.
    method Perform(ch: Channel, op: Op)
      requires Valid() && Knows(channels, ch)
      modifies this, ch`status, ch`events
      ensures Valid() && Knows(channels, ch)
      ensures Turned(old(Abs()), old(ch.events), Abs(), ch.events, ch.fd, op)
      ensures channels - {ch.fd} == old(channels) - {ch.fd}
    {
      hide Legal, Interest, Lists, Registry, Tracks, Keyed, InStep, NewEvents, Updated, Removed;
      StatusKnown(channels, ch);
      ghost var v := Abs();
      if op == Remove {
        if ch.fd in channels && ch.events == NO_EVENT {
          RemovedKeeps(v, ch.fd);
          RemoveChannel(ch);
        }
      } else {
        var ev := NewEvents(ch.events, op);
        UpdatedKeeps(v, ch.fd, ev);
        if ch.fd in channels {
          RetagKeeps(Registry(channels), log, ch.fd, ev);
        }
        SetEvents(channels, ch, ev);
        UpdateChannel(ch);
      }
    }

    // Any calls on fresh channels: the poller ends where Calls does.
    method PerformAll(table: map<int, Channel>, calls: seq<(int, Op)>)
      requires Valid() && Abs() == View(map[], []) && channels == map[]
      requires Keyed(table)
      requires forall fd :: fd in table ==> table[fd].status == Init && table[fd].events == NO_EVENT
      requires forall i :: 0 <= i < |calls| ==> calls[i].0 in table
      modifies this, table.Values
      ensures Valid() && Abs() == Calls(calls).view
      ensures forall fd :: fd in table ==> table[fd].events == EventsOf(Calls(calls), fd)
    {
      hide Valid, Abs, Call, Turned;
      assert calls[..0] == [];
      for i := 0 to |calls|
        invariant Valid() && Abs() == Calls(calls[..i]).view
        invariant forall fd :: fd in table ==> Knows(channels, table[fd])
        invariant forall fd :: fd in table ==> table[fd].events == EventsOf(Calls(calls[..i]), fd)
      {
        var (fd, op) := calls[i];
        ghost var w, before := Calls(calls[..i]), channels;
        assert calls[..i + 1][..i] == calls[..i];
        Perform(table[fd], op);
        TurnedIsCall(w, Abs(), table[fd].events, fd, op);
        forall k | k in table && k != fd ensures Knows(channels, table[k]) {
          assert table[k].fd == k && table[k] != table[fd];
          SameElsewhere(before, channels, fd, k);
        }
      }
      assert calls[..|calls|] == calls;
    }

    method FillActiveChannels(num: int) returns (active: seq<Channel>)
      requires Keyed(channels) && Distinct(listen)
      requires forall i :: 0 <= i < |listen| ==> listen[i].fd in channels
      modifies channels.Values`revents
      ensures Carried(active) == FirstOf(num, Ready(listen))
      ensures forall k :: 0 <= k < |active| ==> active[k].fd in channels && channels[active[k].fd] == active[k]
    {
      hide Ready, Carried, Distinct, Reports, FirstOf;
      active := [];
      var left, i := num, 0;
      NothingReady();
      while i < |listen| && left > 0
        invariant 0 <= i <= |listen|
        invariant Carried(active) == Ready(listen[..i])
        invariant forall k :: 0 <= k < |active| ==> active[k].fd in channels && channels[active[k].fd] == active[k]
        invariant left == num - |active| && (num > 0 ==> left >= 0) && (num <= 0 ==> i == 0)
      {
        ReadySnoc(listen, i);
        if listen[i].revents > 0 {
          left := left - 1;
          var ch := channels[listen[i].fd];
          NotYetActive(listen, i, Carried(active));
          active := Activate(active, ch, listen[i].revents);
        }
        i := i + 1;
      }
      FirstReached(listen, i, num);
    }

    // The kernel stores one result for each entry; the channels with a result become active.
    method Poll(results: seq<nat>) returns (active: seq<Channel>)
      requires Valid() && |results| == |listen|
      modifies `listen, channels.Values`revents
      ensures Valid() && Abs() == old(Abs())
      ensures listen == WithResults(old(listen), results)
      ensures forall r :: r in Carried(active) <==> Reports(listen, r)
      ensures forall a, b :: 0 <= a < b < |active| ==> active[a] != active[b]
      ensures forall k :: 0 <= k < |active| ==> active[k].fd in channels && channels[active[k].fd] == active[k]
    {
      hide Legal, Interest, Lists, Tracks, Distinct, Ready, Reports, WithResults;
      ghost var r := Registry(channels);
      ResultsList(listen, results, Interest(log));
      listen := WithResults(listen, results);
      ListsFacts(listen, Interest(log), r);
      ReadyExactly(listen);
      var num := |Ready(listen)|;
      active := FillActiveChannels(num);
      RegistryIs(channels, r);
      assert forall k :: 0 <= k < |active| ==> Carried(active)[k].0 == active[k].fd;
    }
  }

  // ---------- epoll ----------

  // An entry of the kernel's interest set, with the channel epoll_wait will hand back.
  datatype Watch = Watch(events: bv16, channel: Channel)

  ghost predicate Holds(kernel: map<int, Watch>, m: map<int, bv16>) {
    forall fd :: (fd in kernel <==> fd in m) && (fd in m ==> kernel[fd].events == m[fd])
  }

  lemma HeldKey(kernel: map<int, Watch>, m: map<int, bv16>, fd: int)
    requires Holds(kernel, m)
    ensures fd in kernel <==> fd in m
  {
  }

  ghost predicate Points(kernel: map<int, Watch>, channels: map<int, Channel>) {
    forall fd :: fd in kernel ==> fd in channels && channels[fd] == kernel[fd].channel
  }

  // The kernel's set after a control operation for ch.
  function Changed(kernel: map<int, Watch>, c: Ctl, ch: Channel): map<int, Watch> {
    if c.Del? then kernel - {c.fd} else kernel[c.fd := Watch(c.events, ch)]
  }

  lemma PointsUpdated(kernel: map<int, Watch>, channels: map<int, Channel>, c: Ctl, ch: Channel)
    requires Points(kernel, channels) && c.fd == ch.fd
    ensures Points(Changed(kernel, c, ch), channels[ch.fd := ch])
    ensures c.Del? ==> Points(Changed(kernel, c, ch), channels - {ch.fd})
    ensures ch.fd !in kernel ==> Points(kernel, channels - {ch.fd})
  {
  }

  class EPollPoller {
    var channels: map<int, Channel>
    ghost var kernel: map<int, Watch>
    ghost var log: seq<Ctl>

    ghost predicate Consistent()
      reads this, channels.Values
    {
      && Keyed(channels)
      && Registered(Registry(channels))
      && Legal(log)
      && Tracks(Registry(channels), Interest(log))
      && Holds(kernel, Interest(log))
      && Points(kernel, channels)
    }

    ghost function Abs(): View
      reads this, channels.Values
    {
      View(Registry(channels), log)
    }

    ghost predicate Valid()
      reads this, channels.Values
    {
      Consistent() && InStep(Abs())
    }

    constructor ()
      ensures Valid() && Abs() == View(map[], []) && channels == map[]
    {
      channels := map[];
      kernel := map[];
      log := [];
    }

    // epoll_ctl, which the kernel refuses unless the operation is legal.
    method UpdatePollEvents(c: Ctl, ch: Channel)
      requires Holds(kernel, Interest(log)) && Legal(log)
      requires c.Add? <==> c.fd !in kernel
      modifies `kernel, `log
      ensures log == old(log) + [c] && Legal(log)
      ensures kernel == Changed(old(kernel), c, ch)
      ensures Holds(kernel, Interest(log))
    {
      hide Legal, Interest;
      LogSnoc(log, c);
      kernel := Changed(kernel, c, ch);
      log := log + [c];
    }

    method UpdateChannel(ch: Channel)
      requires Consistent() && Knows(channels, ch)
      modifies this, ch`status
      ensures Consistent() && Knows(channels, ch)
      ensures Abs() == Updated(old(Abs()), ch.fd, ch.events)
      ensures channels == old(channels)[ch.fd := ch]
    {
      hide Legal, Interest, Holds, Points, Changed, Registry, Tracks, Keyed;
      ghost var c := Issued(ch.status, ch.fd, ch.events);
      PointsUpdated(kernel, channels, c, ch);
      AlreadyThere(channels, ch);
      UpdatedTracks(Abs(), ch.fd, ch.events);
      HeldKey(kernel, Interest(log), ch.fd);
      StatusKnown(channels, ch);
      if ch.status != Added {
        if ch.status == Init {
          RegistryPlus(channels, ch);
          channels := channels[ch.fd := ch];
        }
        SetStatus(channels, ch, Added);
        UpdatePollEvents(Add(ch.fd, ch.events), ch);
      } else if ch.events == NO_EVENT {
        UpdatePollEvents(Del(ch.fd), ch);
        SetStatus(channels, ch, Deleted);
      } else {
        RegistryPlus(channels, ch);
        UpdatePollEvents(Mod(ch.fd, ch.events), ch);
      }
      assert kernel == Changed(old(kernel), c, ch);
      assert channels == old(channels)[ch.fd := ch];
      assert Points(kernel, channels);
      assert Registry(channels) == Updated(old(Abs()), ch.fd, ch.events).registry;
      assert Abs() == Updated(old(Abs()), ch.fd, ch.events);
    }

    method RemoveChannel(ch: Channel)
      requires Consistent() && Knows(channels, ch) && ch.status != Init && ch.events == NO_EVENT
      modifies this, ch`status
      ensures Consistent() && Knows(channels, ch)
      ensures Abs() == Removed(old(Abs()), ch.fd)
      ensures channels == old(channels) - {ch.fd}
    {
      hide Legal, Interest, Holds, Points, Changed, Registry, Tracks, Keyed;
      RemovedTracks(Abs(), ch.fd);
      PointsUpdated(kernel, channels, Del(ch.fd), ch);
      HeldKey(kernel, Interest(log), ch.fd);
      StatusKnown(channels, ch);
      RegistryMinus(channels, ch.fd);
      channels := channels - {ch.fd};
      if ch.status == Added {
        UpdatePollEvents(Del(ch.fd), ch);
      }
      SetStatus(channels, ch, Init);
    }

    // One call of Channel: change the events, then update or remove.
    method Perform(ch: Channel, op: Op)
      requires Valid() && Knows(channels, ch)
      modifies this, ch`status, ch`events
      ensures Valid() && Knows(channels, ch)
      ensures Turned(old(Abs()), old(ch.events), Abs(), ch.events, ch.fd, op)
      ensures channels - {ch.fd} == old(channels) - {ch.fd}
    {
      hide Legal, Interest, Holds, Points, Registry, Tracks, Keyed, InStep, NewEvents, Updated, Removed;
      StatusKnown(channels, ch);
      ghost var v := Abs();
      if op == Remove {
        if ch.fd in channels && ch.events == NO_EVENT {
          RemovedKeeps(v, ch.fd);
          RemoveChannel(ch);
        }
      } else {
        var ev := NewEvents(ch.events, op);
        UpdatedKeeps(v, ch.fd, ev);
        if ch.fd in channels {
          RetagKeeps(Registry(channels), log, ch.fd, ev);
        }
        SetEvents(channels, ch, ev);
        UpdateChannel(ch);
      }
    }

    // Any calls on fresh channels: the poller ends where Calls does.
    method PerformAll(table: map<int, Channel>, calls: seq<(int, Op)>)
      requires Valid() && Abs() == View(map[], []) && channels == map[]
      requires Keyed(table)
      requires forall fd :: fd in table ==> table[fd].status == Init && table[fd].events == NO_EVENT
      requires forall i :: 0 <= i < |calls| ==> calls[i].0 in table
      modifies this, table.Values
      ensures Valid() && Abs() == Calls(calls).view
      ensures forall fd :: fd in table ==> table[fd].events == EventsOf(Calls(calls), fd)
    {
      hide Valid, Abs, Call, Turned;
      assert calls[..0] == [];
      for i := 0 to |calls|
        invariant Valid() && Abs() == Calls(calls[..i]).view
        invariant forall fd :: fd in table ==> Knows(channels, table[fd])
        invariant forall fd :: fd in table ==> table[fd].events == EventsOf(Calls(calls[..i]), fd)
      {
        var (fd, op) := calls[i];
        ghost var w, before := Calls(calls[..i]), channels;
        assert calls[..i + 1][..i] == calls[..i];
        Perform(table[fd], op);
        TurnedIsCall(w, Abs(), table[fd].events, fd, op);
        forall k | k in table && k != fd ensures Knows(channels, table[k]) {
          assert table[k].fd == k && table[k] != table[fd];
          SameElsewhere(before, channels, fd, k);
        }
      }
      assert calls[..|calls|] == calls;
    }

    // fired is what epoll_wait stored: at most one event for each watched channel.
    method FillActiveChannels(fired: seq<(Channel, int)>, num: nat) returns (active: seq<Channel>)
      requires Valid() && num <= |fired|
      requires forall i :: 0 <= i < |fired| ==> fired[i].0.fd in kernel && kernel[fired[i].0.fd].channel == fired[i].0
      requires forall i, j :: 0 <= i < j < |fired| ==> fired[i].0 != fired[j].0
      modifies channels.Values`revents
      ensures |active| == num
      ensures forall k :: 0 <= k < num ==> active[k] == fired[k].0 && active[k].revents == fired[k].1
      ensures forall k :: 0 <= k < num ==> active[k].fd in channels && channels[active[k].fd] == active[k]
    {
      hide Legal, Interest, Tracks, Holds;
      active := [];
      for i := 0 to num
        invariant |active| == i
        invariant forall k :: 0 <= k < i ==> active[k] == fired[k].0 && active[k].revents == fired[k].1
      {
        var ch := fired[i].0;
        assert ch.fd in channels && channels[ch.fd] == ch;
        ch.revents := fired[i].1;
        active := active + [ch];
      }
    }
  }
}
