/** The poll poller: an array of slots in bijection with the channels, kept so by swapping with the last slot. */
module PollPoller {
  import opened Channel

  datatype PollFd = PollFd(fd: int, events: Interest, revents: int)

  /** The descriptor a slot stands for: -fd - 1 is how fd is ignored. */
  function Descriptor(x: int): int {
    if x < 0 then -x - 1 else x
  }

  /** Every channel has the slot its index says, with its events, and every slot is that of a channel. */
  ghost predicate Bijective(index: map<int, int>, events: map<int, Interest>, pollfds: seq<PollFd>) {
    && index.Keys == events.Keys
    && (forall fd :: fd in index ==> Placed(fd, index[fd], pollfds) && pollfds[index[fd]].events == events[fd])
    && (forall i {:trigger pollfds[i]} :: 0 <= i < |pollfds| ==>
          Descriptor(pollfds[i].fd) in index && index[Descriptor(pollfds[i].fd)] == i)
  }

  ghost predicate Placed(fd: int, i: int, pollfds: seq<PollFd>) {
    fd >= 0 && 0 <= i < |pollfds| && (pollfds[i].fd == fd || pollfds[i].fd == -fd - 1)
  }

  /** A new channel in a new slot at the end. */
  lemma BijectiveAdded(index: map<int, int>, events: map<int, Interest>, pollfds: seq<PollFd>, fd: int, e: Interest)
    requires Bijective(index, events, pollfds) && fd >= 0 && fd !in index
    ensures Bijective(index[fd := |pollfds|], events[fd := e], pollfds + [PollFd(fd, e, 0)])
  {
  }

  /** Other events, ignored or not, in the slot a channel has. */
  lemma BijectiveUpdated(index: map<int, int>, events: map<int, Interest>, pollfds: seq<PollFd>, fd: int, slot: PollFd)
    requires Bijective(index, events, pollfds) && fd in index && (slot.fd == fd || slot.fd == -fd - 1)
    ensures Bijective(index, events[fd := slot.events], pollfds[index[fd] := slot])
  {
    forall g | g in index && g != fd ensures index[g] != index[fd] {
      assert Placed(g, index[g], pollfds);
    }
  }

  /** The descriptors the kernel looks at: those of the slots that are not ignored. */
  function Looked(index: map<int, int>, pollfds: seq<PollFd>): set<int> {
    set fd | fd in index && 0 <= index[fd] < |pollfds| && pollfds[index[fd]].fd == fd
  }

  lemma LookedAdded(index: map<int, int>, events: map<int, Interest>, pollfds: seq<PollFd>, fd: int, e: Interest)
    requires Bijective(index, events, pollfds) && fd >= 0 && fd !in index
    ensures Looked(index[fd := |pollfds|], pollfds + [PollFd(fd, e, 0)]) == Looked(index, pollfds) + {fd}
  {
    forall g | g in index ensures 0 <= index[g] < |pollfds| {
      assert Placed(g, index[g], pollfds);
    }
  }

  lemma LookedUpdated(index: map<int, int>, events: map<int, Interest>, pollfds: seq<PollFd>, fd: int, slot: PollFd)
    requires Bijective(index, events, pollfds) && fd in index && 0 <= index[fd] < |pollfds|
    ensures slot.fd == pollfds[index[fd]].fd ==> Looked(index, pollfds[index[fd] := slot]) == Looked(index, pollfds)
    ensures slot.fd == -fd - 1 ==> Looked(index, pollfds[index[fd] := slot]) == Looked(index, pollfds) - {fd}
  {
    forall g | g in index && g != fd ensures index[g] != index[fd] {
      assert Placed(g, index[g], pollfds);
    }
    assert Placed(fd, index[fd], pollfds);
  }

  lemma LookedRemoved(index: map<int, int>, events: map<int, Interest>, pollfds: seq<PollFd>, fd: int)
    requires Bijective(index, events, pollfds) && fd in index && Placed(fd, index[fd], pollfds)
    ensures Looked(Moved(index, pollfds, fd), Without(pollfds, index[fd])) == Looked(index, pollfds) - {fd}
  {
    var index', pollfds' := Moved(index, pollfds, fd), Without(pollfds, index[fd]);
    forall g | g in index && g != fd ensures g in Looked(index', pollfds') <==> g in Looked(index, pollfds) {
      assert Placed(g, index[g], pollfds);
    }
    hide Bijective;
  }

  /** The indexes without a channel: the one in the last slot now has its slot. */
  function Moved(index: map<int, int>, pollfds: seq<PollFd>, fd: int): map<int, int>
    requires fd in index && pollfds != []
  {
    var last := Descriptor(pollfds[|pollfds| - 1].fd);
    (if last == fd then index else index[last := index[fd]]) - {fd}
  }

  lemma BijectiveRemoved(index: map<int, int>, events: map<int, Interest>, pollfds: seq<PollFd>, fd: int)
    requires Bijective(index, events, pollfds) && fd in index
    ensures var k, last := index[fd], Descriptor(pollfds[|pollfds| - 1].fd);
      && last in index && (k == |pollfds| - 1 <==> last == fd)
      && Bijective(Moved(index, pollfds, fd), events - {fd}, Without(pollfds, k))
  {
    forall g | g in index && g != fd ensures index[g] != index[fd] {
      assert Placed(g, index[g], pollfds);
    }
  }

  // ---- what requests do, on values

  lemma AtHome(channels: map<int, Channel>, d: Channel)
    requires forall fd :: fd in channels ==> channels[fd].fd == fd
    ensures d in channels.Values ==> d.fd in channels && channels[d.fd] == d
  {
    if d in channels.Values {
      if forall fd :: fd in channels ==> channels[fd] != d {
        assert false;
      }
    }
  }

  /** What a channel says of itself: the events its owner wants, and its slot. */
  datatype Mark = Mark(events: Interest, index: int)

  /** The poller and its channels at one moment. */
  datatype Snap = Snap(marks: map<Channel, Mark>, channels: map<int, Channel>, pollfds: seq<PollFd>)

  ghost function IndexesOf(m: Snap): map<int, int> {
    map fd | fd in m.channels && m.channels[fd] in m.marks :: m.marks[m.channels[fd]].index
  }

  ghost function EventsOf(m: Snap): map<int, Interest> {
    map fd | fd in m.channels && m.channels[fd] in m.marks :: m.marks[m.channels[fd]].events
  }

  ghost predicate Sound(m: Snap) {
    && (forall fd :: fd in m.channels ==> m.channels[fd] in m.marks && m.channels[fd].fd == fd)
    && Bijective(IndexesOf(m), EventsOf(m), m.pollfds)
  }

  /** What the source's assertions allow: c is new to the poller, or the channel it has for the descriptor; one that
      is removed wants nothing and is ignored. */
  predicate Allowed(c: Channel, mark: Mark, channels: map<int, Channel>, pollfds: seq<PollFd>, r: Request) {
    if r == Remove then
      && c.fd in channels && channels[c.fd] == c && mark.events == NONE
      && 0 <= mark.index < |pollfds| && pollfds[mark.index].fd == -c.fd - 1
    else
      c.fd >= 0 && if mark.index < 0 then c.fd !in channels else c.fd in channels && channels[c.fd] == c
  }

  /** The slots after a request: a new one at the end, or the one the channel has, ignored from when it has no
      events. */
  function SlotAsked(pollfds: seq<PollFd>, fd: int, index: int, events: Interest): seq<PollFd> {
    if index < 0 then pollfds + [PollFd(fd, events, 0)]
    else if index < |pollfds| then
      pollfds[index := PollFd(if events == NONE then -fd - 1 else pollfds[index].fd, events, 0)]
    else pollfds
  }

  /** A request of the owner of c. */
  ghost function Asked(m: Snap, c: Channel, r: Request): Snap
    requires c in m.marks && Allowed(c, m.marks[c], m.channels, m.pollfds, r)
  {
    var mark, e := m.marks[c], Wanted(r, m.marks[c].events);
    if r == Remove then
      var last := Descriptor(m.pollfds[|m.pollfds| - 1].fd);
      Snap(if last == c.fd || last !in m.channels || m.channels[last] !in m.marks then m.marks
           else m.marks[m.channels[last] := m.marks[m.channels[last]].(index := mark.index)],
           m.channels - {c.fd}, Without(m.pollfds, mark.index))
    else
      Snap(m.marks[c := Mark(e, if mark.index < 0 then |m.pollfds| else mark.index)], m.channels[c.fd := c],
           SlotAsked(m.pollfds, c.fd, mark.index, e))
  }

  /** Is request i of a run one the source allows when it is made? */
  ghost predicate Taken(cs: seq<Channel>, requests: seq<(nat, Request)>, trace: seq<Snap>, i: nat)
    requires i < |requests| && i < |trace|
  {
    var m, k := trace[i], requests[i].0;
    k < |cs| && cs[k] in m.marks && Allowed(cs[k], m.marks[cs[k]], m.channels, m.pollfds, requests[i].1)
  }

  /** The history of a run: the poller is sound at all moments, each request the source allows has its effect on the
      moment before, and the others have none. */
  ghost predicate History(cs: seq<Channel>, requests: seq<(nat, Request)>, trace: seq<Snap>) {
    && |trace| == |requests| + 1
    && (forall i :: 0 <= i < |trace| ==> Sound(trace[i]) && forall c :: c in cs ==> c in trace[i].marks)
    && (forall i :: 0 <= i < |requests| ==>
          trace[i + 1] == if Taken(cs, requests, trace, i) then Asked(trace[i], cs[requests[i].0], requests[i].1) else trace[i])
  }

  lemma HistoryMore(cs: seq<Channel>, requests: seq<(nat, Request)>, i: nat, trace: seq<Snap>, m: Snap)
    requires i < |requests| && History(cs, requests[..i], trace) && Sound(m) && forall c :: c in cs ==> c in m.marks
    requires m == if Taken(cs, requests, trace, i) then Asked(trace[i], cs[requests[i].0], requests[i].1) else trace[i]
    ensures History(cs, requests[..i + 1], trace + [m])
  {
    hide Sound, Asked, Allowed;
    var requests', trace' := requests[..i + 1], trace + [m];
    forall j | 0 <= j < i + 1
      ensures trace'[j + 1] ==
        if Taken(cs, requests', trace', j) then Asked(trace'[j], cs[requests'[j].0], requests'[j].1) else trace'[j]
    {
      if j < i {
        assert Taken(cs, requests', trace', j) <==> Taken(cs, requests[..i], trace, j);
      } else {
        assert Taken(cs, requests', trace', j) <==> Taken(cs, requests, trace, i);
      }
    }
  }

  // ---- what the channels want, over a run

  /** The requests of the owner of c that were taken, of the first i. */
  ghost function RequestsOf(cs: seq<Channel>, requests: seq<(nat, Request)>, trace: seq<Snap>, i: nat, c: Channel): seq<Request>
    requires i <= |requests| < |trace|
  {
    if i == 0 then [] else
      RequestsOf(cs, requests, trace, i - 1, c) +
        if Taken(cs, requests, trace, i - 1) && cs[requests[i - 1].0] == c then [requests[i - 1].1] else []
  }

  lemma AskedWants(m: Snap, c: Channel, r: Request, d: Channel)
    requires Sound(m) && c in m.marks && d in m.marks && Allowed(c, m.marks[c], m.channels, m.pollfds, r)
    ensures d in Asked(m, c, r).marks
    ensures Asked(m, c, r).marks[d].events == if d == c then Wanted(r, m.marks[c].events) else m.marks[d].events
  {
    hide Bijective;
  }

  /** In every history: what a channel wants is what its owner last asked of it, about reading and about writing. */
  lemma {:induction false} WantsExactly(cs: seq<Channel>, requests: seq<(nat, Request)>, trace: seq<Snap>, i: nat, c: Channel)
    requires History(cs, requests, trace) && i <= |requests| && c in cs
    ensures c in trace[0].marks && c in trace[i].marks
    ensures var rs, first := RequestsOf(cs, requests, trace, i, c), trace[0].marks[c].events;
      && trace[i].marks[c].events == WantedAfter(rs, first)
      && trace[i].marks[c].events == Interest(Reads(rs, first.read), Writes(rs, first.write))
  {
    hide Sound, Asked, Allowed;
    var rs, first := RequestsOf(cs, requests, trace, i, c), trace[0].marks[c].events;
    WantedExactly(rs, first);
    if i > 0 {
      WantsExactly(cs, requests, trace, i - 1, c);
      var k, r, before := requests[i - 1].0, requests[i - 1].1, RequestsOf(cs, requests, trace, i - 1, c);
      WantedNext(before, r, first);
      hide Reads, Writes, WantedAfter;
      if Taken(cs, requests, trace, i - 1) {
        AskedWants(trace[i - 1], cs[k], r, c);
        assert cs[k] != c ==> rs == before;
      } else {
        assert rs == before;
      }
    }
  }

  /** A request is taken when the channel is in the poller, or is new and its descriptor is not; a removal when it is
      in the poller, wants nothing and is not looked at. */
  lemma TakenExactly(m: Snap, c: Channel, r: Request)
    requires Sound(m) && c in m.marks && c.fd >= 0
    requires m.marks[c].index >= 0 ==> c.fd in m.channels && m.channels[c.fd] == c
    ensures Allowed(c, m.marks[c], m.channels, m.pollfds, r) <==>
      if r == Remove then c.fd in m.channels && m.channels[c.fd] == c && m.marks[c].events == NONE && c.fd !in Looking(m)
      else m.marks[c].index >= 0 || c.fd !in m.channels
  {
    if c.fd in m.channels && m.channels[c.fd] == c {
      PlacedIn(IndexesOf(m), EventsOf(m), m.pollfds, c.fd);
    }
    hide Bijective;
  }

  // ---- which channels are looked at, over a run

  /** The descriptors looked at in a moment. */
  ghost function Looking(m: Snap): set<int> {
    Looked(IndexesOf(m), m.pollfds)
  }

  /** Request i, if taken, disables a channel that has been added, or takes its last event. */
  ghost predicate DisabledAt(cs: seq<Channel>, requests: seq<(nat, Request)>, trace: seq<Snap>, i: nat, fd: int)
    requires i < |requests| && i < |trace|
  {
    Taken(cs, requests, trace, i) &&
      var c, r := cs[requests[i].0], requests[i].1;
      c.fd == fd && r != Remove && trace[i].marks[c].index >= 0 && Wanted(r, trace[i].marks[c].events) == NONE
  }

  ghost predicate RemovedAt(cs: seq<Channel>, requests: seq<(nat, Request)>, trace: seq<Snap>, i: nat, fd: int)
    requires i < |requests| && i < |trace|
  {
    Taken(cs, requests, trace, i) && cs[requests[i].0].fd == fd && requests[i].1 == Remove
  }

  /** Before moment i the channel was disabled, and not removed since. */
  ghost predicate DisabledSince(cs: seq<Channel>, requests: seq<(nat, Request)>, trace: seq<Snap>, i: nat, fd: int)
    requires i <= |requests| < |trace|
  {
    exists j :: 0 <= j < i && DisabledAt(cs, requests, trace, j, fd) && NotRemoved(cs, requests, trace, j + 1, i, fd)
  }

  ghost predicate NotRemoved(cs: seq<Channel>, requests: seq<(nat, Request)>, trace: seq<Snap>, j: nat, i: nat, fd: int)
    requires j <= i <= |requests| < |trace|
  {
    forall k :: j <= k < i ==> !RemovedAt(cs, requests, trace, k, fd)
  }

  /** It was in the poller and ignored when the run began, and has not been removed since. */
  ghost predicate DisabledBefore(cs: seq<Channel>, requests: seq<(nat, Request)>, trace: seq<Snap>, i: nat, fd: int)
    requires i <= |requests| < |trace|
  {
    fd in trace[0].channels && fd !in Looking(trace[0]) && NotRemoved(cs, requests, trace, 0, i, fd)
  }

  /** How one request changes which channels are looked at. */
  lemma LookingAsked(m: Snap, c: Channel, r: Request)
    requires Sound(m) && c in m.marks && Allowed(c, m.marks[c], m.channels, m.pollfds, r)
    ensures Looking(Asked(m, c, r)) ==
      if r == Remove then Looking(m) - {c.fd}
      else if m.marks[c].index < 0 then Looking(m) + {c.fd}
      else if Wanted(r, m.marks[c].events) == NONE then Looking(m) - {c.fd}
      else Looking(m)
  {
    var mark, e, index := m.marks[c], Wanted(r, m.marks[c].events), IndexesOf(m);
    IndexesAsked(m, c, r);
    hide Bijective, Looked, Asked;
    if r == Remove {
      PlacedIn(index, EventsOf(m), m.pollfds, c.fd);
      LookedRemoved(index, EventsOf(m), m.pollfds, c.fd);
    } else if mark.index < 0 {
      LookedAdded(index, EventsOf(m), m.pollfds, c.fd, e);
    } else {
      PlacedIn(index, EventsOf(m), m.pollfds, c.fd);
      LookedUpdated(index, EventsOf(m), m.pollfds, c.fd, SlotAsked(m.pollfds, c.fd, mark.index, e)[mark.index]);
    }
  }

  lemma KeysOf(m: Snap)
    requires Sound(m)
    ensures IndexesOf(m).Keys == EventsOf(m).Keys == m.channels.Keys
  {
    hide Bijective;
    assert forall fd :: fd in m.channels.Keys ==> fd in IndexesOf(m).Keys && fd in EventsOf(m).Keys;
  }

  lemma IndexesAsked(m: Snap, c: Channel, r: Request)
    requires Sound(m) && c in m.marks && Allowed(c, m.marks[c], m.channels, m.pollfds, r)
    ensures var n, index := Asked(m, c, r), IndexesOf(m);
      if r == Remove then
        c.fd in index && index[c.fd] == m.marks[c].index && m.pollfds != []
        && IndexesOf(n) == Moved(index, m.pollfds, c.fd) && n.pollfds == Without(m.pollfds, index[c.fd])
      else if m.marks[c].index < 0 then
        c.fd !in index && IndexesOf(n) == index[c.fd := |m.pollfds|]
        && n.pollfds == m.pollfds + [PollFd(c.fd, Wanted(r, m.marks[c].events), 0)]
      else
        c.fd in index && index[c.fd] == m.marks[c].index && IndexesOf(n) == index
  {
    if r == Remove {
      IndexesRemoved(m, c);
    } else {
      IndexesUpdated(m, c, r);
    }
    hide Bijective, Asked, Allowed, IndexesOf;
  }

  lemma IndexesRemoved(m: Snap, c: Channel)
    requires Sound(m) && c in m.marks && Allowed(c, m.marks[c], m.channels, m.pollfds, Remove)
    ensures var n, index := Asked(m, c, Remove), IndexesOf(m);
      && c.fd in index && index[c.fd] == m.marks[c].index && m.pollfds != []
      && IndexesOf(n) == Moved(index, m.pollfds, c.fd) && n.pollfds == Without(m.pollfds, index[c.fd])
  {
    var n, index := Asked(m, c, Remove), IndexesOf(m);
    KeysOf(m);
    BijectiveRemoved(index, EventsOf(m), m.pollfds, c.fd);
    hide Bijective;
    var last := Descriptor(m.pollfds[|m.pollfds| - 1].fd);
    assert last in m.channels && m.channels[last] in m.marks;
    var moved := Moved(index, m.pollfds, c.fd);
    assert IndexesOf(n).Keys == moved.Keys;
    forall g | g in n.channels ensures IndexesOf(n)[g] == moved[g] {
      assert m.channels[g].fd == g;
    }
    assert IndexesOf(n) == moved;
  }

  lemma IndexesUpdated(m: Snap, c: Channel, r: Request)
    requires Sound(m) && c in m.marks && r != Remove && Allowed(c, m.marks[c], m.channels, m.pollfds, r)
    ensures var n, index := Asked(m, c, r), IndexesOf(m);
      if m.marks[c].index < 0 then
        c.fd !in index && IndexesOf(n) == index[c.fd := |m.pollfds|]
        && n.pollfds == m.pollfds + [PollFd(c.fd, Wanted(r, m.marks[c].events), 0)]
      else
        c.fd in index && index[c.fd] == m.marks[c].index && IndexesOf(n) == index
  {
    var n, index := Asked(m, c, r), IndexesOf(m);
    KeysOf(m);
    hide Bijective;
    var index' := index[c.fd := n.marks[c].index];
    assert IndexesOf(n).Keys == index'.Keys;
    forall g | g in n.channels ensures IndexesOf(n)[g] == index'[g] {
      assert g != c.fd ==> m.channels[g].fd == g;
    }
    assert IndexesOf(n) == index';
    assert m.marks[c].index >= 0 ==> index' == index;
  }

  lemma PlacedIn(index: map<int, int>, events: map<int, Interest>, slots: seq<PollFd>, fd: int)
    requires Bijective(index, events, slots) && fd in index
    ensures Placed(fd, index[fd], slots)
  {
  }

  lemma SinceNext(cs: seq<Channel>, requests: seq<(nat, Request)>, trace: seq<Snap>, i: nat, fd: int)
    requires i < |requests| < |trace|
    ensures DisabledSince(cs, requests, trace, i + 1, fd) <==>
      DisabledAt(cs, requests, trace, i, fd) || (DisabledSince(cs, requests, trace, i, fd) && !RemovedAt(cs, requests, trace, i, fd))
    ensures DisabledBefore(cs, requests, trace, i + 1, fd) <==>
      DisabledBefore(cs, requests, trace, i, fd) && !RemovedAt(cs, requests, trace, i, fd)
  {
    hide DisabledAt, RemovedAt, Looking;
    if DisabledAt(cs, requests, trace, i, fd) {
      assert NotRemoved(cs, requests, trace, i + 1, i + 1, fd);
    }
    if DisabledSince(cs, requests, trace, i, fd) && !RemovedAt(cs, requests, trace, i, fd) {
      var j :| 0 <= j < i && DisabledAt(cs, requests, trace, j, fd) && NotRemoved(cs, requests, trace, j + 1, i, fd);
      assert NotRemoved(cs, requests, trace, j + 1, i + 1, fd);
    }
    if DisabledSince(cs, requests, trace, i + 1, fd) && !DisabledAt(cs, requests, trace, i, fd) {
      var j :| 0 <= j < i + 1 && DisabledAt(cs, requests, trace, j, fd) && NotRemoved(cs, requests, trace, j + 1, i + 1, fd);
      assert j < i && NotRemoved(cs, requests, trace, j + 1, i, fd) && !RemovedAt(cs, requests, trace, i, fd);
    }
  }

  /** Over every run: a channel in the poller is looked at exactly when it has not been disabled since it was added,
      in the run or before it. */
  lemma {:induction false} LookedAtExactly(cs: seq<Channel>, requests: seq<(nat, Request)>, trace: seq<Snap>, i: nat, fd: int)
    requires History(cs, requests, trace) && i <= |requests|
    ensures DisabledSince(cs, requests, trace, i, fd) || DisabledBefore(cs, requests, trace, i, fd) ==> fd in trace[i].channels
    ensures fd in trace[i].channels ==>
      (fd in Looking(trace[i]) <==> !DisabledSince(cs, requests, trace, i, fd) && !DisabledBefore(cs, requests, trace, i, fd))
  {
    hide Sound, Looking, DisabledSince, DisabledBefore, Asked;
    if i > 0 {
      LookedAtExactly(cs, requests, trace, i - 1, fd);
      LookedAtNext(cs, requests, trace, i - 1, fd);
    } else {
      NotDisabledYet(cs, requests, trace, fd);
    }
  }

  lemma NotDisabledYet(cs: seq<Channel>, requests: seq<(nat, Request)>, trace: seq<Snap>, fd: int)
    requires |requests| < |trace|
    ensures !DisabledSince(cs, requests, trace, 0, fd)
    ensures DisabledBefore(cs, requests, trace, 0, fd) <==> fd in trace[0].channels && fd !in Looking(trace[0])
  {
    hide Looking;
  }

  lemma LookedAtNext(cs: seq<Channel>, requests: seq<(nat, Request)>, trace: seq<Snap>, i: nat, fd: int)
    requires History(cs, requests, trace) && i < |requests|
    requires DisabledSince(cs, requests, trace, i, fd) || DisabledBefore(cs, requests, trace, i, fd) ==> fd in trace[i].channels
    requires fd in trace[i].channels ==>
      (fd in Looking(trace[i]) <==> !DisabledSince(cs, requests, trace, i, fd) && !DisabledBefore(cs, requests, trace, i, fd))
    ensures DisabledSince(cs, requests, trace, i + 1, fd) || DisabledBefore(cs, requests, trace, i + 1, fd) ==> fd in trace[i + 1].channels
    ensures fd in trace[i + 1].channels ==>
      (fd in Looking(trace[i + 1]) <==> !DisabledSince(cs, requests, trace, i + 1, fd) && !DisabledBefore(cs, requests, trace, i + 1, fd))
  {
    SinceNext(cs, requests, trace, i, fd);
    hide DisabledSince, DisabledBefore, Looking, Sound;
    var m, n := trace[i], trace[i + 1];
    if Taken(cs, requests, trace, i) {
      LookingAsked(m, cs[requests[i].0], requests[i].1);
    }
  }

  class PollPoller {
    var pollfds: seq<PollFd>
    var channels: map<int, Channel>

    ghost function Indexes(): map<int, int>
      reads this, channels.Values
    {
      map fd | fd in channels :: channels[fd].index
    }

    ghost function Events(): map<int, Interest>
      reads this, channels.Values
    {
      map fd | fd in channels :: channels[fd].events
    }

    ghost predicate Valid()
      reads this, channels.Values
    {
      && (forall fd :: fd in channels ==> channels[fd].fd == fd)
      && Bijective(Indexes(), Events(), pollfds)
    }

    constructor ()
      ensures Valid() && channels == map[] && pollfds == []
    {
      pollfds, channels := [], map[];
    }

    predicate Known(c: Channel)
      reads this, c
    {
      c.fd >= 0 && if c.index < 0 then c.fd !in channels else c.fd in channels && channels[c.fd] == c
    }

    predicate Ignored(fd: int)
      requires fd in channels
      reads this, channels.Values
    {
      var i := channels[fd].index;
      0 <= i < |pollfds| && pollfds[i].fd == -fd - 1
    }

    /** Is the descriptor of a channel one the kernel looks at? */
    predicate Watched(fd: int)
      requires fd in channels
      reads this, channels.Values
    {
      var i := channels[fd].index;
      0 <= i < |pollfds| && pollfds[i].fd == fd
    }

    /** The owner has set the events of c, which the poller has yet to see. */
    ghost predicate ValidBut(c: Channel, seen: Interest)
      reads this, channels.Values, c
    {
      && Known(c) && (forall fd :: fd in channels ==> channels[fd].fd == fd)
      && Bijective(Indexes(), if c.index < 0 then Events() else Events()[c.fd := seen], pollfds)
    }

    /** A new channel gets the last slot; a known one keeps its own. A slot once ignored is not looked at again. */
    method UpdateChannel(c: Channel, ghost seen: Interest)
      requires ValidBut(c, seen)
      modifies this`pollfds, this`channels, c`index
      ensures Valid() && channels == old(channels)[c.fd := c] && |pollfds| == |old(pollfds)| + (if old(c.index) < 0 then 1 else 0)
      ensures c.index == (if old(c.index) < 0 then |old(pollfds)| else old(c.index)) && c.index < |pollfds|
      ensures pollfds == SlotAsked(old(pollfds), c.fd, old(c.index), c.events)
      ensures Indexes() == old(Indexes())[c.fd := c.index]
      ensures Watched(c.fd) <==> old(c.index < 0 || (Watched(c.fd) && !c.IsNoneEvent()))
      ensures old(c.index) >= 0 ==> c.index == old(c.index)
      ensures forall i :: 0 <= i < |old(pollfds)| && i != old(c.index) ==> pollfds[i] == old(pollfds)[i]
    {
      hide Bijective;
      if c.index < 0 {
        AddSlot(c);
      } else {
        ChangeSlot(c, seen);
      }
    }

    method AddSlot(c: Channel)
      requires ValidBut(c, NONE) && c.index < 0
      modifies this`pollfds, this`channels, c`index
      ensures Valid() && channels == old(channels)[c.fd := c] && pollfds == old(pollfds) + [PollFd(c.fd, c.events, 0)]
      ensures c.index == |old(pollfds)| && Indexes() == old(Indexes())[c.fd := c.index]
    {
      ghost var index, events := Indexes(), Events();
      hide Bijective;
      BijectiveAdded(index, events, pollfds, c.fd, c.events);
      pollfds := pollfds + [PollFd(c.fd, c.events, 0)];
      c.index := |pollfds| - 1;
      channels := channels[c.fd := c];
      forall g | g in channels ensures Indexes()[g] == index[c.fd := c.index][g] && Events()[g] == events[c.fd := c.events][g] {
        if g != c.fd { assert channels[g] == old(channels[g]) != c; }
      }
      assert Indexes() == index[c.fd := c.index] && Events() == events[c.fd := c.events];
    }

    method ChangeSlot(c: Channel, ghost seen: Interest)
      requires ValidBut(c, seen) && c.index >= 0
      modifies this`pollfds
      ensures Valid() && |pollfds| == |old(pollfds)| && c.index < |pollfds| && Indexes() == old(Indexes())[c.fd := c.index]
      ensures pollfds == old(pollfds)[c.index :=
        PollFd(if c.IsNoneEvent() then -c.fd - 1 else old(pollfds)[c.index].fd, c.events, 0)]
    {
      ghost var index, events := Indexes(), Events()[c.fd := seen];
      hide Bijective;
      var idx := c.index;
      PlacedAt(index, events, pollfds, c.fd);
      ghost var slot := PollFd(if c.IsNoneEvent() then -c.fd - 1 else pollfds[idx].fd, c.events, 0);
      BijectiveUpdated(index, events, pollfds, c.fd, slot);
      assert events[c.fd := c.events] == Events();
      pollfds := pollfds[idx := pollfds[idx].(events := c.events, revents := 0)];
      if c.IsNoneEvent() {
        pollfds := pollfds[idx := pollfds[idx].(fd := -c.fd - 1)];
      }
      assert pollfds == old(pollfds)[idx := slot];
      assert Indexes() == index && index[c.fd] == c.index;
    }

    /** Takes an ignored channel out: the last slot moves into its place. */
    method RemoveChannel(c: Channel)
      requires Valid() && c.fd in channels && channels[c.fd] == c && c.IsNoneEvent() && Ignored(c.fd)
      modifies this`pollfds, this`channels, channels.Values`index
      ensures Valid() && channels == old(channels) - {c.fd}
      ensures c.index == old(c.index) && c.fd in old(Indexes()) && Indexes() == Moved(old(Indexes()), old(pollfds), c.fd)
      ensures pollfds == Without(old(pollfds), old(c.index))
    {
      ghost var index, events := Indexes(), Events();
      hide Bijective;
      var idx := c.index;
      PlacedAt(index, events, pollfds, c.fd);
      BijectiveRemoved(index, events, pollfds, c.fd);
      channels := channels - {c.fd};
      if idx == |pollfds| - 1 {
        pollfds := pollfds[..|pollfds| - 1];
        assert Indexes() == index - {c.fd};
      } else {
        var channelAtEnd := pollfds[|pollfds| - 1].fd;
        pollfds := pollfds[idx := pollfds[|pollfds| - 1]][|pollfds| - 1 := pollfds[idx]];
        if channelAtEnd < 0 {
          channelAtEnd := -channelAtEnd - 1;
        }
        channels[channelAtEnd].index := idx;
        pollfds := pollfds[..|pollfds| - 1];
        forall g | g in channels ensures Indexes()[g] == index[channelAtEnd := idx][g] {
          if g != channelAtEnd { assert channels[g] != channels[channelAtEnd]; }
        }
        assert Indexes() == index[channelAtEnd := idx] - {c.fd};
      }
      assert Events() == events - {c.fd};
      assert pollfds == Without(old(pollfds), idx);
    }

    /** Channel::update and Channel::remove. A removed channel keeps its old index and cannot come back. */
    method Ask(c: Channel, r: Request)
      requires Valid() && Possible(c, r)
      modifies this`pollfds, this`channels, c, channels.Values`index
      ensures Valid() && c.events == Wanted(r, old(c.events))
      ensures channels == if r == Remove then old(channels) - {c.fd} else old(channels)[c.fd := c]
      ensures r == Remove ==>
        && c.index == old(c.index) && c.fd in old(Indexes()) && pollfds == Without(old(pollfds), old(c.index))
        && Indexes() == Moved(old(Indexes()), old(pollfds), c.fd)
      ensures r != Remove ==>
        && pollfds == SlotAsked(old(pollfds), c.fd, old(c.index), c.events)
        && c.index == (if old(c.index) < 0 then |old(pollfds)| else old(c.index))
        && Indexes() == old(Indexes())[c.fd := c.index]
      ensures r != Remove ==>
        && Known(c) && c.index >= 0
        && (Watched(c.fd) <==> old(c.index < 0) || (old(Known(c) && c.index >= 0 && Watched(c.fd)) && c.events != NONE))
    {
      if r == Remove {
        RemoveChannel(c);
      } else {
        ghost var index, events, seen := Indexes(), Events(), c.events;
        hide Bijective;
        c.events := Wanted(r, c.events);
        forall g | g in channels ensures Indexes()[g] == index[g]
          && (if c.index < 0 then Events()[g] == events[g] else Events()[c.fd := seen][g] == events[g]) {
          if channels[g] == c { assert g == c.fd; }
        }
        assert Indexes() == index && (if c.index < 0 then Events() else Events()[c.fd := seen]) == events;
        UpdateChannel(c, seen);
      }
    }

    /** What the source's assertions allow. */
    predicate Possible(c: Channel, r: Request)
      reads this, c
    {
      Allowed(c, Mark(c.events, c.index), channels, pollfds, r)
    }

    /** poll reports on the slots that are not ignored, and says how many answer. */
    method Poll(answers: seq<nat>) returns (active: seq<Channel>)
      requires Valid() && |answers| == |pollfds|
      requires forall i :: 0 <= i < |answers| && pollfds[i].fd < 0 ==> answers[i] == 0
      modifies this`pollfds, channels.Values`revents
      ensures Valid() && pollfds == Answered(old(pollfds), answers) && Found(active, Answering(pollfds))
    {
      AnsweredBijective(Indexes(), Events(), pollfds, answers);
      hide Bijective, Answering;
      ghost var index, events := Indexes(), Events();
      pollfds := Answered(pollfds, answers);
      assert Indexes() == index && Events() == events;
      active := FillActiveChannels(|Answering(pollfds)|);
    }

    /** The channels of these slots, in order, each marked with what its slot reports. */
    ghost predicate Found(active: seq<Channel>, slots: seq<nat>)
      reads this, channels.Values, active
    {
      && |active| == |slots|
      && forall k :: 0 <= k < |slots| && slots[k] < |pollfds| ==>
           && active[k].fd == pollfds[slots[k]].fd && active[k].fd in channels && channels[active[k].fd] == active[k]
           && active[k].index == slots[k] && active[k].revents == pollfds[slots[k]].revents
    }

    method FillActiveChannels(numEvents: nat) returns (active: seq<Channel>)
      requires Valid() && numEvents == |Answering(pollfds)|
      requires forall i :: 0 <= i < |pollfds| && pollfds[i].revents > 0 ==> pollfds[i].fd >= 0
      modifies channels.Values`revents
      ensures Valid() && Found(active, Answering(pollfds))
    {
      hide Bijective, Answering;
      var left, i := numEvents, 0;
      active := [];
      AnsweringNone();
      assert pollfds[..0] == [];
      while i < |pollfds| && left > 0
        invariant i <= |pollfds| && left + |Answering(pollfds[..i])| == numEvents
        invariant Valid() && Found(active, Answering(pollfds[..i]))
        decreases |pollfds| - i
      {
        AnsweringNext(pollfds, i);
        AnsweringPrefix(pollfds, i + 1);
        if pollfds[i].revents > 0 {
          left := left - 1;
          var c := Report(i);
          AnsweringBelow(pollfds, i);
          active := active + [c];
        }
        i := i + 1;
      }
      AnsweringPrefix(pollfds, i);
    }

    /** The channel of a slot, marked with what the slot reports. */
    method Report(i: nat) returns (c: Channel)
      requires Valid() && i < |pollfds| && pollfds[i].fd >= 0
      modifies channels.Values`revents
      ensures Valid() && c.fd == pollfds[i].fd && c.fd in channels && channels[c.fd] == c && c.index == i
      ensures c.revents == pollfds[i].revents
      ensures forall d :: d in channels.Values && d != c ==> d.revents == old(d.revents)
    {
      SlotAt(Indexes(), Events(), pollfds, i);
      hide Bijective;
      c := channels[pollfds[i].fd];
      c.revents := pollfds[i].revents;
    }

    ghost function Now(cs: seq<Channel>): Snap
      reads this, cs
    {
      Snap(map c | c in cs :: Mark(c.events, c.index), channels, pollfds)
    }

    /** Any sequence of requests of any channels has a history, which ends in the poller as it then is; requests the
        source's assertions exclude are skipped. */
    method Run(cs: seq<Channel>, requests: seq<(nat, Request)>) returns (ghost trace: seq<Snap>)
      requires Valid() && forall d :: d in channels.Values ==> d in cs
      modifies this, cs
      ensures Valid() && History(cs, requests, trace)
      ensures trace[0] == old(Now(cs)) && trace[|requests|] == Now(cs)
    {
      hide Bijective, Sound;
      SoundNow(cs);
      trace := [Now(cs)];
      for i := 0 to |requests|
        invariant Valid() && (forall d :: d in channels.Values ==> d in cs) && History(cs, requests[..i], trace)
        invariant trace[0] == old(Now(cs)) && trace[i] == Now(cs)
      {
        if requests[i].0 < |cs| && Possible(cs[requests[i].0], requests[i].1) {
          AskOne(cs, cs[requests[i].0], requests[i].1);
        }
        SoundNow(cs);
        HistoryMore(cs, requests, i, trace, Now(cs));
        trace := trace + [Now(cs)];
      }
      assert requests[..|requests|] == requests;
    }

    lemma SoundNow(cs: seq<Channel>)
      requires Valid() && forall d :: d in channels.Values ==> d in cs
      ensures Sound(Now(cs))
    {
      hide Bijective;
      var m := Now(cs);
      assert IndexesOf(m) == Indexes() && EventsOf(m) == Events();
    }

    /** A request of one of these channels moves at most one of the others to another slot. */
    method AskOne(ghost cs: seq<Channel>, c: Channel, r: Request)
      requires Valid() && c in cs && Possible(c, r) && forall d :: d in channels.Values ==> d in cs
      modifies this`pollfds, this`channels, c, channels.Values`index
      ensures Valid() && Now(cs) == Asked(old(Now(cs)), c, r) && forall d :: d in channels.Values ==> d in cs
    {
      hide Bijective;
      ghost var before, index := Now(cs), Indexes();
      Ask(c, r);
      ghost var m := Asked(before, c, r);
      forall d | d in cs ensures Now(cs).marks[d] == m.marks[d] {
        AtHome(before.channels, d);
        if d != c && d.fd in before.channels && before.channels[d.fd] == d {
          assert d.fd != c.fd && d.fd in channels && channels[d.fd] == d;
          assert index[d.fd] == before.marks[d].index && Indexes()[d.fd] == d.index;
        }
      }
      assert Now(cs).marks == m.marks;
    }

    /** A channel that was disabled and is enabled again is not looked at. */
    method EnabledAgain(c: Channel)
      requires Valid() && Known(c) && c.index >= 0
      modifies this`pollfds, this`channels, c, channels.Values`index
      ensures Valid() && c.events.read && c.fd in channels && !Watched(c.fd)
    {
      hide Bijective;
      Ask(c, DisableAll);
      Ask(c, EnableReading);
    }

    lemma PlacedAt(index: map<int, int>, events: map<int, Interest>, slots: seq<PollFd>, fd: int)
      requires Bijective(index, events, slots) && fd in index
      ensures Placed(fd, index[fd], slots)
    {
    }
  }

  /** A sequence of slots without slot k, the last in its place. */
  function Without(s: seq<PollFd>, k: int): seq<PollFd>
    requires 0 <= k < |s|
  {
    s[k := s[|s| - 1]][..|s| - 1]
  }

  /** The slots that answer, in order. */
  function Answering(slots: seq<PollFd>): seq<nat> {
    if slots == [] then []
    else
      var n := |slots| - 1;
      Answering(slots[..n]) + (if slots[n].revents > 0 then [n] else [])
  }

  /** Exactly the slots that answer, in order. */
  lemma {:induction false} AnsweringExactly(slots: seq<PollFd>)
    ensures var s := Answering(slots);
      && (forall k :: 0 <= k < |s| ==> s[k] < |slots| && slots[s[k]].revents > 0)
      && (forall i :: 0 <= i < |slots| && slots[i].revents > 0 ==> i in s)
      && (forall k, l :: 0 <= k < l < |s| ==> s[k] < s[l])
  {
    if slots != [] {
      var n := |slots| - 1;
      var before, t, s := slots[..n], Answering(slots[..n]), Answering(slots);
      AnsweringExactly(before);
      assert s == t + if slots[n].revents > 0 then [n] else [];
      hide Answering;
      forall i | 0 <= i < |slots| && slots[i].revents > 0 ensures i in s {
        if i < n {
          assert before[i] == slots[i] && i in t;
        } else {
          assert s[|t|] == n;
        }
      }
      forall k | 0 <= k < |s| ensures s[k] < |slots| && slots[s[k]].revents > 0 {
        if k < |t| {
          assert s[k] == t[k] && before[t[k]] == slots[t[k]];
        }
      }
      forall k, l | 0 <= k < l < |s| ensures s[k] < s[l] {
        assert s[k] == t[k] && (l < |t| ==> s[l] == t[l]);
      }
    }
  }

  lemma AnsweringNone()
    ensures Answering([]) == []
  {
  }

  lemma AnsweringNext(slots: seq<PollFd>, i: nat)
    requires i < |slots|
    ensures Answering(slots[..i + 1]) == Answering(slots[..i]) + (if slots[i].revents > 0 then [i] else [])
  {
    assert slots[..i + 1][..i] == slots[..i];
  }

  lemma AnsweringBelow(slots: seq<PollFd>, i: nat)
    requires i < |slots|
    ensures forall k :: 0 <= k < |Answering(slots[..i])| ==> Answering(slots[..i])[k] < i
  {
    AnsweringExactly(slots[..i]);
  }

  lemma {:induction false} AnsweringPrefix(slots: seq<PollFd>, i: nat)
    requires i <= |slots|
    ensures Answering(slots[..i]) <= Answering(slots) && (i == |slots| ==> slots[..i] == slots)
    ensures |Answering(slots[..i])| == |Answering(slots)| ==> Answering(slots[..i]) == Answering(slots)
    decreases |slots|
  {
    if i < |slots| {
      var n := |slots| - 1;
      AnsweringPrefix(slots[..n], i);
      hide Answering;
      assert slots[..n][..i] == slots[..i] && slots[..n + 1] == slots;
      AnsweringNext(slots, n);
    } else {
      assert slots[..i] == slots;
    }
  }

  function Answered(slots: seq<PollFd>, answers: seq<nat>): (s: seq<PollFd>)
    requires |slots| == |answers|
    ensures |s| == |slots| && forall i :: 0 <= i < |s| ==> s[i] == slots[i].(revents := answers[i])
  {
    seq(|slots|, i requires 0 <= i < |slots| == |answers| => slots[i].(revents := answers[i]))
  }

  lemma AnsweredBijective(index: map<int, int>, events: map<int, Interest>, slots: seq<PollFd>, answers: seq<nat>)
    requires Bijective(index, events, slots) && |slots| == |answers|
    ensures Bijective(index, events, Answered(slots, answers))
  {
  }

  lemma SlotAt(index: map<int, int>, events: map<int, Interest>, slots: seq<PollFd>, i: nat)
    requires Bijective(index, events, slots) && i < |slots| && slots[i].fd >= 0
    ensures slots[i].fd in index && index[slots[i].fd] == i
  {
  }
}
