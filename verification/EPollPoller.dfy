/** The epoll poller: its channel map, the marks on the channels, and the interest set of the kernel. */
module EPollPoller {
  import opened Channel

  const NEW := -1
  const ADDED := 1
  const DELETED := 2
  const INIT_EVENT_LIST_SIZE := 16

  datatype Operation = Add | Mod | Del

  /** What the kernel keeps for a registered descriptor, and reports of a ready one. */
  datatype EpollEvent = EpollEvent(events: Interest, channel: Channel)
  datatype Ready = Ready(fd: int, revents: int)

  // ---- what requests do, on values

  /** What a channel says of itself: the events its owner wants, and the mark of the poller. */
  datatype Mark = Mark(events: Interest, index: int)

  /** The poller, its channels and the kernel at one moment. */
  datatype Snap = Snap(marks: map<Channel, Mark>, channels: map<int, Channel>, kernel: map<int, EpollEvent>)

  /** What the source's assertions allow: c is new to the poller, or the channel it has for the descriptor; one that
      is removed is not new and wants nothing. */
  predicate Allowed(c: Channel, mark: Mark, channels: map<int, Channel>, r: Request) {
    && (if mark.index == NEW then c.fd !in channels else c.fd in channels && channels[c.fd] == c)
    && (r == Remove ==> mark.index != NEW && mark.events == NONE)
  }

  /** A request of the owner of c. Only what has been added, and wants nothing now, leaves the interest set. */
  ghost function Asked(m: Snap, c: Channel, r: Request): Snap
    requires c in m.marks
  {
    var e := Wanted(r, m.marks[c].events);
    if r == Remove then
      Snap(m.marks[c := Mark(e, NEW)], m.channels - {c.fd}, m.kernel - {c.fd})
    else if m.marks[c].index == ADDED && e == NONE then
      Snap(m.marks[c := Mark(e, DELETED)], m.channels[c.fd := c], m.kernel - {c.fd})
    else
      Snap(m.marks[c := Mark(e, ADDED)], m.channels[c.fd := c], m.kernel[c.fd := EpollEvent(e, c)])
  }

  /** A request takes the poller from m to m'; one that is not allowed is skipped. */
  ghost predicate Effect(cs: seq<Channel>, m: Snap, request: (nat, Request), m': Snap) {
    (forall c :: c in cs ==> c in m.marks) &&
    if request.0 < |cs| && Allowed(cs[request.0], m.marks[cs[request.0]], m.channels, request.1)
    then m' == Asked(m, cs[request.0], request.1)
    else m' == m
  }

  /** The mark on a channel says whether the kernel has its descriptor, and the kernel has its events. */
  ghost predicate Agreeing(m: Snap) {
    && m.kernel.Keys <= m.channels.Keys
    && forall fd :: fd in m.channels && m.channels[fd] in m.marks ==>
         var c := m.channels[fd];
         && c.fd == fd && (m.marks[c].index == ADDED || m.marks[c].index == DELETED)
         && (fd in m.kernel <==> m.marks[c].index == ADDED)
         && (fd in m.kernel ==> m.kernel[fd] == EpollEvent(m.marks[c].events, c))
  }

  /** The history of a run: each request has its effect on the moment before, and at all moments all agrees. */
  ghost predicate History(cs: seq<Channel>, requests: seq<(nat, Request)>, trace: seq<Snap>) {
    && |trace| == |requests| + 1
    && (forall i :: 0 <= i < |trace| ==> Agreeing(trace[i]) && forall c :: c in cs ==> c in trace[i].marks)
    && (forall i :: 0 <= i < |requests| ==> Effect(cs, trace[i], requests[i], trace[i + 1]))
  }

  lemma HistoryMore(cs: seq<Channel>, requests: seq<(nat, Request)>, i: nat, trace: seq<Snap>, m: Snap)
    requires i < |requests| && History(cs, requests[..i], trace) && Effect(cs, trace[i], requests[i], m) && Agreeing(m)
    requires forall c :: c in cs ==> c in m.marks
    ensures History(cs, requests[..i + 1], trace + [m])
  {
    hide Effect, Agreeing;
  }

  // ---- what a run amounts to, from its requests

  ghost predicate Taken(cs: seq<Channel>, requests: seq<(nat, Request)>, trace: seq<Snap>, i: nat)
    requires i < |requests| && i < |trace|
  {
    var m, k := trace[i], requests[i].0;
    k < |cs| && cs[k] in m.marks && Allowed(cs[k], m.marks[cs[k]], m.channels, requests[i].1)
  }

  /** The requests of the owner of c that were taken, of the first i. */
  ghost function RequestsOf(cs: seq<Channel>, requests: seq<(nat, Request)>, trace: seq<Snap>, i: nat, c: Channel): seq<Request>
    requires i <= |requests| < |trace|
  {
    if i == 0 then [] else
      RequestsOf(cs, requests, trace, i - 1, c) +
        if Taken(cs, requests, trace, i - 1) && cs[requests[i - 1].0] == c then [requests[i - 1].1] else []
  }

  /** Does the kernel have the descriptor after these requests of its channel? It has it while the channel wants
      something; a request that leaves nothing to want takes it out if it is there, and puts it in if it is not. */
  predicate Registered(rs: seq<Request>, first: Interest, before: bool) {
    if rs == [] then before else
      var n := |rs| - 1;
      rs[n] != Remove && (WantedAfter(rs, first) != NONE || !Registered(rs[..n], first, before))
  }

  lemma RegisteredNext(rs: seq<Request>, r: Request, first: Interest, before: bool)
    ensures Registered(rs + [r], first, before) <==>
      r != Remove && (Wanted(r, WantedAfter(rs, first)) != NONE || !Registered(rs, first, before))
  {
    WantedNext(rs, r, first);
    assert (rs + [r])[..|rs|] == rs;
  }

  lemma EffectAt(cs: seq<Channel>, requests: seq<(nat, Request)>, trace: seq<Snap>, i: nat)
    requires History(cs, requests, trace) && i < |requests|
    ensures |trace| == |requests| + 1 && (forall c :: c in cs ==> c in trace[i].marks)
    ensures trace[i + 1] == if Taken(cs, requests, trace, i) then Asked(trace[i], cs[requests[i].0], requests[i].1) else trace[i]
  {
    hide Agreeing, Asked, Allowed;
    assert Effect(cs, trace[i], requests[i], trace[i + 1]);
  }

  lemma AskedMarks(m: Snap, c: Channel, r: Request, d: Channel)
    requires c in m.marks && d in m.marks
    ensures d in Asked(m, c, r).marks
    ensures var mark, mark' := m.marks[d], Asked(m, c, r).marks[d];
      if d != c then mark' == mark else
        && mark'.events == Wanted(r, mark.events)
        && (mark'.index == ADDED <==> r != Remove && (Wanted(r, mark.events) != NONE || mark.index != ADDED))
  {
  }

  /** In every history: what a channel wants is what its owner last asked of it, about reading and about writing; and
      its mark says that the kernel has it exactly if the requests taken say so. */
  lemma {:induction false} MarksExactly(cs: seq<Channel>, requests: seq<(nat, Request)>, trace: seq<Snap>, i: nat, c: Channel)
    requires History(cs, requests, trace) && i <= |requests| && c in cs
    ensures c in trace[0].marks && c in trace[i].marks
    ensures var rs, first, mark := RequestsOf(cs, requests, trace, i, c), trace[0].marks[c], trace[i].marks[c];
      && mark.events == WantedAfter(rs, first.events)
      && mark.events == Interest(Reads(rs, first.events.read), Writes(rs, first.events.write))
      && (mark.index == ADDED <==> Registered(rs, first.events, first.index == ADDED))
  {
    hide Agreeing, Asked, Effect, Allowed;
    var first := trace[0].marks[c];
    WantedExactly(RequestsOf(cs, requests, trace, i, c), first.events);
    if i > 0 {
      MarksExactly(cs, requests, trace, i - 1, c);
      EffectAt(cs, requests, trace, i - 1);
      var k, r, before := requests[i - 1].0, requests[i - 1].1, RequestsOf(cs, requests, trace, i - 1, c);
      WantedNext(before, r, first.events);
      RegisteredNext(before, r, first.events, first.index == ADDED);
      hide Reads, Writes, WantedAfter, Registered, History;
      if Taken(cs, requests, trace, i - 1) {
        AskedMarks(trace[i - 1], cs[k], r, c);
        assert cs[k] != c ==> RequestsOf(cs, requests, trace, i, c) == before;
      } else {
        assert RequestsOf(cs, requests, trace, i, c) == before;
      }
    }
  }

  /** And so for the kernel: it has the descriptor of a channel in the poller exactly then, with what the channel
      wants. */
  lemma KernelExactly(cs: seq<Channel>, requests: seq<(nat, Request)>, trace: seq<Snap>, i: nat, c: Channel)
    requires History(cs, requests, trace) && i <= |requests| && c in cs
    requires c.fd in trace[i].channels && trace[i].channels[c.fd] == c
    ensures c in trace[0].marks
    ensures var rs, first := RequestsOf(cs, requests, trace, i, c), trace[0].marks[c];
      && (c.fd in trace[i].kernel <==> Registered(rs, first.events, first.index == ADDED))
      && (c.fd in trace[i].kernel ==>
            trace[i].kernel[c.fd] == EpollEvent(Interest(Reads(rs, first.events.read), Writes(rs, first.events.write)), c))
  {
    MarksExactly(cs, requests, trace, i, c);
    hide Effect, Registered, Reads, Writes, WantedAfter;
    assert Agreeing(trace[i]);
  }

  /** A request is taken when the channel is in the poller, or is new and its descriptor is not; a removal when it is
      in the poller and wants nothing. */
  lemma TakenExactly(c: Channel, mark: Mark, channels: map<int, Channel>, r: Request)
    requires c.fd in channels && channels[c.fd] == c <==> mark.index != -1
    ensures Allowed(c, mark, channels, r) <==>
      if r == Remove then c.fd in channels && channels[c.fd] == c && mark.events == Interest(false, false)
      else c.fd in channels ==> channels[c.fd] == c
  {
  }

  class EPollPoller {
    var channels: map<int, Channel>
    /** The interest set of the kernel. */
    var kernel: map<int, EpollEvent>
    /** The room for events of one call. */
    var events: nat

    ghost predicate Valid()
      reads this, channels.Values
    {
      && events > 0 && kernel.Keys <= channels.Keys
      && (forall fd :: fd in channels ==> Agrees(fd))
    }

    /** The mark on a channel says whether the kernel has its descriptor, and the kernel has its events. */
    ghost predicate Agrees(fd: int)
      requires fd in channels
      reads this, channels[fd]
    {
      var c := channels[fd];
      && c.fd == fd && (c.index == ADDED || c.index == DELETED)
      && (fd in kernel <==> c.index == ADDED)
      && (fd in kernel ==> kernel[fd] == EpollEvent(c.events, c))
    }

    constructor ()
      ensures Valid() && channels == map[] && kernel == map[] && events == 16
    {
      channels, kernel, events := map[], map[], INIT_EVENT_LIST_SIZE;
    }

    /** A call the kernel accepts: it refuses to add a registered descriptor, and to change or delete another. */
    method Update(operation: Operation, c: Channel)
      requires operation == Add <==> c.fd !in kernel
      modifies this`kernel
      ensures kernel == if operation == Del then old(kernel) - {c.fd} else old(kernel)[c.fd := EpollEvent(c.events, c)]
    {
      kernel := if operation == Del then kernel - {c.fd} else kernel[c.fd := EpollEvent(c.events, c)];
    }

    /** Is c new to the poller, or the channel it has for the descriptor? */
    predicate Known(c: Channel)
      reads this, c
    {
      if c.index == NEW then c.fd !in channels else c.fd in channels && channels[c.fd] == c
    }

    /** The owner has set the events of c; everything else agrees. */
    ghost predicate ValidBut(c: Channel)
      reads this, channels.Values, c
    {
      && events > 0 && kernel.Keys <= channels.Keys && Known(c)
      && (forall fd :: fd in channels ==> channels[fd].fd == fd && (channels[fd] != c ==> Agrees(fd)))
      && (c.index == NEW || (c.index == ADDED && c.fd in kernel) || (c.index == DELETED && c.fd !in kernel))
    }

    method UpdateChannel(c: Channel)
      requires ValidBut(c)
      modifies this`channels, this`kernel, c`index
      ensures Valid() && channels == old(channels)[c.fd := c]
      ensures kernel == if old(c.index) == ADDED && c.IsNoneEvent() then old(kernel) - {c.fd}
                        else old(kernel)[c.fd := EpollEvent(c.events, c)]
      ensures c.index == if old(c.index) == ADDED && c.IsNoneEvent() then DELETED else ADDED
    {
      if c.index == NEW || c.index == DELETED {
        if c.index == NEW {
          channels := channels[c.fd := c];
        }
        c.index := ADDED;
        Update(Add, c);
      } else {
        if c.IsNoneEvent() {
          Update(Del, c);
          c.index := DELETED;
        } else {
          Update(Mod, c);
        }
      }
    }

    method RemoveChannel(c: Channel)
      requires Valid() && c.fd in channels && channels[c.fd] == c && c.IsNoneEvent()
      modifies this`channels, this`kernel, c`index
      ensures Valid() && Known(c) && channels == old(channels) - {c.fd} && kernel == old(kernel) - {c.fd}
      ensures c.index == NEW
    {
      var index := c.index;
      channels := channels - {c.fd};
      if index == ADDED {
        Update(Del, c);
      }
      c.index := NEW;
    }

    /** What the source's assertions allow. */
    predicate Possible(c: Channel, r: Request)
      reads this, c
    {
      Allowed(c, Mark(c.events, c.index), channels, r)
    }

    /** Channel::update and Channel::remove: what the owner asks of its channel reaches the kernel. */
    method Ask(c: Channel, r: Request)
      requires Valid() && Possible(c, r)
      modifies this`channels, this`kernel, c`events, c`index
      ensures Valid() && Known(c) && c.events == Wanted(r, old(c.events))
      ensures channels == if r == Remove then old(channels) - {c.fd} else old(channels)[c.fd := c]
      ensures forall fd :: fd in kernel && fd != c.fd <==> fd in old(kernel) && fd != c.fd
      ensures forall fd :: fd in kernel && fd != c.fd ==> kernel[fd] == old(kernel)[fd]
      ensures c.events != NONE ==> c.fd in kernel && kernel[c.fd] == EpollEvent(c.events, c)
      ensures c.events == NONE ==> (c.fd in kernel <==> r != Remove && old(c.index) != ADDED)
      ensures c.index == if r == Remove then NEW else if old(c.index) == ADDED && c.events == NONE then DELETED else ADDED
      ensures kernel == if r == Remove || (old(c.index) == ADDED && c.events == NONE) then old(kernel) - {c.fd}
                        else old(kernel)[c.fd := EpollEvent(c.events, c)]
    {
      if r == Remove {
        RemoveChannel(c);
      } else {
        c.events := Wanted(r, c.events);
        UpdateChannel(c);
      }
    }

    /** epoll_wait reports registered descriptors, no more than there is room for; their channels are found and
        marked, in order, and the room doubles when it was used up. */
    method Poll(ready: seq<Ready>) returns (active: seq<Channel>)
      requires Valid() && |ready| <= events
      requires forall i :: 0 <= i < |ready| ==> ready[i].fd in kernel
      requires forall i, j :: 0 <= i < j < |ready| ==> ready[i].fd != ready[j].fd
      modifies this`events, channels.Values`revents
      ensures Valid() && |active| == |ready|
      ensures forall i :: 0 <= i < |active| ==>
        channels[ready[i].fd] == active[i] && active[i].fd == ready[i].fd && active[i].revents == ready[i].revents
      ensures events == if |ready| == old(events) then 2 * old(events) else old(events)
    {
      active := [];
      for i := 0 to |ready|
        invariant Valid() && |active| == i && events == old(events)
        invariant forall k :: 0 <= k < i ==> active[k] == channels[ready[k].fd] && active[k].revents == ready[k].revents
      {
        var c := kernel[ready[i].fd].channel;
        c.revents := ready[i].revents;
        active := active + [c];
      }
      if |ready| == events {
        events := 2 * events;
      }
    }

    ghost function Now(cs: seq<Channel>): Snap
      reads this, cs
    {
      Snap(map c | c in cs :: Mark(c.events, c.index), channels, kernel)
    }

    /** Any sequence of requests of any channels has a history, which ends in the poller and the kernel as they then
        are; requests the source's assertions exclude are skipped. */
    method Run(cs: seq<Channel>, requests: seq<(nat, Request)>) returns (ghost trace: seq<Snap>)
      requires Valid()
      modifies this, cs
      ensures Valid() && History(cs, requests, trace)
      ensures trace[0] == old(Now(cs)) && trace[|requests|] == Now(cs)
    {
      hide Agreeing;
      AgreeNow(cs);
      trace := [Now(cs)];
      for i := 0 to |requests|
        invariant Valid() && History(cs, requests[..i], trace)
        invariant trace[0] == old(Now(cs)) && trace[i] == Now(cs)
      {
        ghost var m := Now(cs);
        if requests[i].0 < |cs| && Possible(cs[requests[i].0], requests[i].1) {
          AskOne(cs, cs[requests[i].0], requests[i].1);
        }
        AgreeNow(cs);
        HistoryMore(cs, requests, i, trace, Now(cs));
        trace := trace + [Now(cs)];
      }
      assert requests[..|requests|] == requests;
    }

    lemma AgreeNow(cs: seq<Channel>)
      requires Valid()
      ensures Agreeing(Now(cs))
    {
      var m := Now(cs);
      forall fd | fd in channels && channels[fd] in m.marks ensures Agrees(fd) {
      }
    }

    /** A request of one of these channels leaves the others alone. */
    method AskOne(ghost cs: seq<Channel>, c: Channel, r: Request)
      requires Valid() && c in cs && Possible(c, r)
      modifies this`channels, this`kernel, c`events, c`index
      ensures Valid() && Now(cs) == Asked(old(Now(cs)), c, r)
    {
      ghost var before := Now(cs);
      Ask(c, r);
      assert Now(cs).marks == Asked(before, c, r).marks;
    }

    /** A channel that is disabled twice is registered again, with nothing to report. */
    method DisabledTwice(c: Channel)
      requires Valid() && Known(c) && c.index == ADDED
      modifies this`channels, this`kernel, c`events, c`index
      ensures Valid() && c.fd in kernel && kernel[c.fd].events == NONE
    {
      Ask(c, DisableAll);
      Ask(c, DisableAll);
    }
  }
}
