/** The timer queue of the event loop: two indexes over the same timers, cancellation while callbacks
    run, and the timerfd that must never be armed too late. */
module TimerQueue {

  /** A timer object in memory. A repeating timer is due again interval microseconds after it ran. */
  datatype Timer = Timer(expiration: int, repeat: bool, interval: nat, sequence: int)

  /** An element of timers_: expiration first, address second. */
  datatype Entry = Entry(when: int, addr: nat)

  /** What a caller holds: an address, which memory may reuse, and a sequence number, which is never reused. */
  datatype TimerId = TimerId(addr: nat, sequence: int)

  /** The timerfd: disarmed, or armed for a requested time, when it was set, and due to fire at another. */
  datatype Fd = Off | Armed(request: int, armedAt: int, at: int)

  predicate Before(e: Entry, f: Entry) {
    e.when < f.when || (e.when == f.when && e.addr < f.addr)
  }

  ghost predicate Sorted(s: seq<Entry>) {
    forall i, j :: 0 <= i < j < |s| ==> Before(s[i], s[j])
  }

  /** How many entries of a sorted sequence come before e; std::set::lower_bound. */
  function LowerBound(s: seq<Entry>, e: Entry): (n: nat)
    ensures n <= |s|
    ensures forall i :: 0 <= i < n ==> Before(s[i], e)
    ensures n < |s| ==> !Before(s[n], e)
  {
    if s == [] || !Before(s[0], e) then 0 else
      var n := LowerBound(s[1..], e);
      assert forall i :: 0 < i < n + 1 ==> s[i] == s[1..][i - 1];
      n + 1
  }

  /** std::set::insert of an element not yet there. */
  function Inserted(s: seq<Entry>, e: Entry): seq<Entry> {
    s[..LowerBound(s, e)] + [e] + s[LowerBound(s, e)..]
  }

  lemma BeforeOrder(e: Entry, f: Entry, g: Entry)
    ensures e == f || Before(e, f) || Before(f, e)
    ensures Before(e, f) && Before(f, g) ==> Before(e, g)
    ensures Before(e, f) ==> !Before(f, e) && e != f
  {
  }

  lemma LowerBoundSplits(s: seq<Entry>, e: Entry)
    requires Sorted(s) && e !in s
    ensures forall i :: LowerBound(s, e) <= i < |s| ==> Before(e, s[i])
  {
    var n := LowerBound(s, e);
    if n < |s| {
      BeforeOrder(e, s[n], e);
      forall i | n <= i < |s| ensures Before(e, s[i]) {
        BeforeOrder(e, s[n], s[i]);
      }
    }
  }

  lemma InsertedMembers(s: seq<Entry>, e: Entry)
    ensures forall x :: x in Inserted(s, e) <==> x in s || x == e
    ensures |Inserted(s, e)| == |s| + 1
  {
    var n := LowerBound(s, e);
    assert s == s[..n] + s[n..];
  }

  lemma InsertedSorted(s: seq<Entry>, e: Entry)
    requires Sorted(s) && e !in s
    ensures Sorted(Inserted(s, e)) && |Inserted(s, e)| == |s| + 1
    ensures Inserted(s, e)[0] == if s == [] || Before(e, s[0]) then e else s[0]
  {
    var n, r := LowerBound(s, e), Inserted(s, e);
    LowerBoundSplits(s, e);
    if s != [] {
      BeforeOrder(e, s[0], e);
    }
    hide LowerBound, Before;
    forall i, j | 0 <= i < j < |r| ensures Before(r[i], r[j]) {
      assert r[i] == if i < n then s[i] else if i == n then e else s[i - 1];
      assert r[j] == if j < n then s[j] else if j == n then e else s[j - 1];
      if i < n < j {
        assert Before(s[i], s[j - 1]);
      }
    }
  }

  /** std::set::erase of an element. */
  function Erased(s: seq<Entry>, e: Entry): seq<Entry> {
    if s == [] then [] else if s[0] == e then s[1..] else [s[0]] + Erased(s[1..], e)
  }

  lemma {:induction false} ErasedSorted(s: seq<Entry>, e: Entry)
    requires Sorted(s) && e in s
    ensures Sorted(Erased(s, e)) && |Erased(s, e)| == |s| - 1
    ensures forall x :: x in Erased(s, e) <==> x in s && x != e
    ensures Erased(s, e) != [] ==> s != [] && !Before(Erased(s, e)[0], s[0])
  {
    if s[0] != e {
      ErasedSorted(s[1..], e);
      assert s == [s[0]] + s[1..];
    } else {
      assert forall x :: x in s <==> x == s[0] || x in s[1..];
    }
  }

  // ---- the invariant, part by part

  ghost predicate SameTimers(timers: seq<Entry>, active: set<TimerId>, heap: map<nat, Timer>) {
    && Sorted(timers)
    && (forall e :: e in timers ==>
          e.addr in heap && heap[e.addr].expiration == e.when && TimerId(e.addr, heap[e.addr].sequence) in active)
    && (forall id :: id in active ==>
          id.addr in heap && heap[id.addr].sequence == id.sequence && Entry(heap[id.addr].expiration, id.addr) in timers)
  }

  /** Every timer in memory has exactly one owner: a queued functor, the queue or the batch being run. */
  ghost predicate OneOwner(timers: seq<Entry>, batch: seq<Entry>, pending: set<nat>, heap: map<nat, Timer>) {
    && (forall a :: a in heap <==> a in pending || InSeq(timers, a) || InSeq(batch, a))
    && (forall a :: a in pending ==> !InSeq(timers, a) && !InSeq(batch, a))
    && (forall a :: !(InSeq(timers, a) && InSeq(batch, a)))
    && (forall i, j :: 0 <= i < j < |batch| ==> batch[i].addr != batch[j].addr)
    && (forall e :: e in batch ==> e.addr in heap && heap[e.addr].expiration == e.when)
  }

  ghost predicate InSeq(s: seq<Entry>, a: nat) {
    exists e :: e in s && e.addr == a
  }

  /** Sequence numbers are unique for ever: every number given out is in memory or freed, not both. */
  ghost predicate Numbered(heap: map<nat, Timer>, freed: set<int>, created: nat) {
    && (forall a :: a in heap ==> 0 < heap[a].sequence <= created && heap[a].sequence !in freed)
    && (forall a, a' :: a in heap && a' in heap && heap[a].sequence == heap[a'].sequence ==> a == a')
    && (forall s :: s in freed ==> 0 < s <= created)
    && (forall s :: 0 < s <= created && s !in freed ==> exists a :: a in heap && heap[a].sequence == s)
  }

  /** No timer whose cancellation has executed is in the queue; one that is in the batch is noted. */
  ghost predicate Cancellations(timers: seq<Entry>, batch: seq<Entry>, pending: set<nat>, heap: map<nat, Timer>,
                                canceling: set<TimerId>, cancelled: set<int>, created: nat) {
    && (forall e :: e in timers && e.addr in heap ==> heap[e.addr].sequence !in cancelled)
    && (forall a :: a in pending && a in heap ==> heap[a].sequence !in cancelled)
    && (forall e :: e in batch && e.addr in heap && heap[e.addr].sequence in cancelled ==>
          TimerId(e.addr, heap[e.addr].sequence) in canceling)
    && (forall s :: s in cancelled ==> s <= created)
  }

  /** An armed timerfd fires at the requested time, but at least 100 microseconds after it was set. */
  function ArmedFor(expiration: int, clock: int): (fd: Fd)
    ensures fd.Armed? && fd.request == expiration && fd.armedAt == clock
    ensures fd.at >= expiration && fd.at >= clock + 100 && (fd.at == expiration || fd.at == clock + 100)
  {
    Armed(expiration, clock, clock + if expiration - clock < 100 then 100 else expiration - clock)
  }

  /** Outside handleRead an unempty queue has its timerfd armed no later than the earliest timer, and it fires at
      that time or 100 microseconds after it was set; inside, at least for timers due before the time of the
      read. */
  ghost predicate ArmedInTime(timers: seq<Entry>, fd: Fd, reading: bool, now: int) {
    timers != [] && (reading ==> timers[0].when < now) ==>
      && fd.Armed? && fd.request <= timers[0].when
      && (fd.at <= timers[0].when || fd.at == fd.armedAt + 100)
  }

  /** The timers due by now: the entries before (now, UINTPTR_MAX), an address above that of any timer. */
  function Due(s: seq<Entry>, now: int): (n: nat)
    ensures n <= |s|
    ensures forall i :: 0 <= i < n ==> s[i].when <= now
    ensures n < |s| ==> s[n].when > now
  {
    if s == [] || s[0].when > now then 0 else
      var n := Due(s[1..], now);
      assert forall i :: 0 < i < n + 1 ==> s[i] == s[1..][i - 1];
      n + 1
  }

  /** A batch is exactly the timers due, in order of expiration. */
  lemma DueExactly(s: seq<Entry>, now: int)
    requires Sorted(s)
    ensures forall e :: e in s[..Due(s, now)] <==> e in s && e.when <= now
    ensures forall e :: e in s[Due(s, now)..] <==> e in s && e.when > now
    ensures Sorted(s[..Due(s, now)]) && Sorted(s[Due(s, now)..])
  {
    var n := Due(s, now);
    forall i | n <= i < |s| ensures s[i].when > now {
      if i > n {
        assert Before(s[n], s[i]);
      }
    }
    forall e | e in s ensures e in s[..n] || e in s[n..] {
      var i :| 0 <= i < |s| && s[i] == e;
      assert if i < n then s[..n][i] == e else s[n..][i - n] == e;
    }
  }

  function Sequences(batch: seq<Entry>, heap: map<nat, Timer>): seq<int> {
    seq(|batch|, i requires 0 <= i < |batch| => if batch[i].addr in heap then heap[batch[i].addr].sequence else 0)
  }

  lemma FreshAddress(heap: map<nat, Timer>) returns (a: nat)
    ensures a !in heap
  {
    a := Above(heap.Keys);
  }

  lemma {:induction false} Above(s: set<nat>) returns (a: nat)
    ensures a !in s && forall x :: x in s ==> x < a
    decreases |s|
  {
    if x :| x in s {
      var b := Above(s - {x});
      a := if b > x then b else x + 1;
      assert forall y :: y in s ==> y == x || y in s - {x};
    } else {
      a := 0;
    }
  }

  // ---- how each step keeps each part

  lemma MakeSame(timers: seq<Entry>, active: set<TimerId>, heap: map<nat, Timer>, a: nat, t: Timer)
    requires SameTimers(timers, active, heap) && a !in heap
    ensures SameTimers(timers, active, heap[a := t])
  {
  }

  lemma MakeOwner(timers: seq<Entry>, batch: seq<Entry>, pending: set<nat>, heap: map<nat, Timer>, a: nat, t: Timer)
    requires OneOwner(timers, batch, pending, heap) && a !in heap
    ensures OneOwner(timers, batch, pending + {a}, heap[a := t])
  {
    hide InSeq;
  }

  lemma MakeNumbered(heap: map<nat, Timer>, freed: set<int>, created: nat, a: nat, t: Timer)
    requires Numbered(heap, freed, created) && a !in heap && t.sequence == created + 1
    ensures Numbered(heap[a := t], freed, created + 1)
  {
    var heap' := heap[a := t];
    forall s | 0 < s <= created + 1 && s !in freed ensures exists b :: b in heap' && heap'[b].sequence == s {
      if s == created + 1 {
        assert heap'[a].sequence == s;
      } else {
        var b :| b in heap && heap[b].sequence == s;
        assert heap'[b].sequence == s;
      }
    }
  }

  lemma MakeCancellations(timers: seq<Entry>, batch: seq<Entry>, pending: set<nat>, heap: map<nat, Timer>,
                          canceling: set<TimerId>, cancelled: set<int>, created: nat, a: nat, t: Timer)
    requires Cancellations(timers, batch, pending, heap, canceling, cancelled, created)
    requires a !in heap && t.sequence == created + 1
    ensures Cancellations(timers, batch, pending + {a}, heap[a := t], canceling, cancelled, created + 1)
  {
  }

  lemma InsertSame(timers: seq<Entry>, active: set<TimerId>, heap: map<nat, Timer>, a: nat)
    requires SameTimers(timers, active, heap) && a in heap && !InSeq(timers, a)
    ensures var e := Entry(heap[a].expiration, a);
            && e !in timers && TimerId(a, heap[a].sequence) !in active
            && SameTimers(Inserted(timers, e), active + {TimerId(a, heap[a].sequence)}, heap)
            && InsertedFront(timers, e)
  {
    var e := Entry(heap[a].expiration, a);
    assert e !in timers;
    InsertedSorted(timers, e);
    InsertedMembers(timers, e);
    hide Inserted, Sorted;
  }

  /** The front of the queue after an insertion. */
  ghost predicate InsertedFront(s: seq<Entry>, e: Entry) {
    && Inserted(s, e) != []
    && Inserted(s, e)[0].when == if s == [] || e.when < s[0].when then e.when else s[0].when
  }

  lemma InsertedInSeq(s: seq<Entry>, e: Entry, a: nat)
    ensures InSeq(Inserted(s, e), a) <==> InSeq(s, a) || a == e.addr
  {
    InsertedMembers(s, e);
    hide Inserted;
    assert e in Inserted(s, e);
    if InSeq(s, a) {
      var x :| x in s && x.addr == a;
      assert x in Inserted(s, e);
    }
  }

  lemma QueuedOwner(timers: seq<Entry>, batch: seq<Entry>, pending: set<nat>, heap: map<nat, Timer>, a: nat, e: Entry)
    requires OneOwner(timers, batch, pending, heap) && a in pending && e.addr == a
    ensures OneOwner(Inserted(timers, e), batch, pending - {a}, heap)
  {
    forall b: nat ensures InSeq(Inserted(timers, e), b) <==> InSeq(timers, b) || b == a {
      InsertedInSeq(timers, e, b);
    }
    hide InSeq, Inserted;
  }

  lemma QueuedCancellations(timers: seq<Entry>, batch: seq<Entry>, pending: set<nat>, heap: map<nat, Timer>,
                            canceling: set<TimerId>, cancelled: set<int>, created: nat, a: nat, e: Entry)
    requires Cancellations(timers, batch, pending, heap, canceling, cancelled, created)
    requires a in pending && a in heap && e.addr == a
    ensures Cancellations(Inserted(timers, e), batch, pending - {a}, heap, canceling, cancelled, created)
  {
    InsertedMembers(timers, e);
    hide Inserted;
  }

  /** The timer of an active id leaves the queue and memory. */
  lemma CancelSame(timers: seq<Entry>, active: set<TimerId>, heap: map<nat, Timer>, id: TimerId)
    requires SameTimers(timers, active, heap) && id in active
    ensures id.addr in heap && heap[id.addr].sequence == id.sequence
    ensures var e := Entry(heap[id.addr].expiration, id.addr);
            && e in timers && SameTimers(Erased(timers, e), active - {id}, heap - {id.addr})
  {
    var e := Entry(heap[id.addr].expiration, id.addr);
    ErasedSorted(timers, e);
    hide Erased, Sorted;
  }

  lemma ErasedInSeq(s: seq<Entry>, e: Entry, b: nat, heap: map<nat, Timer>)
    requires Sorted(s) && e in s
    requires forall x :: x in s ==> x.addr in heap && heap[x.addr].expiration == x.when
    ensures InSeq(Erased(s, e), b) <==> InSeq(s, b) && b != e.addr
  {
    ErasedSorted(s, e);
    hide Erased, Sorted;
    if InSeq(s, b) && b != e.addr {
      var x :| x in s && x.addr == b;
      assert x in Erased(s, e);
    }
  }

  lemma CancelOwner(timers: seq<Entry>, active: set<TimerId>, batch: seq<Entry>, pending: set<nat>, heap: map<nat, Timer>, e: Entry)
    requires SameTimers(timers, active, heap) && OneOwner(timers, batch, pending, heap) && e in timers
    ensures OneOwner(Erased(timers, e), batch, pending, heap - {e.addr})
  {
    QueueFacts(timers, active, heap, e);
    QueuedOnly(timers, batch, pending, heap, e);
    hide SameTimers, Sorted, InSeq, Erased;
    forall b: nat ensures InSeq(Erased(timers, e), b) <==> InSeq(timers, b) && b != e.addr {
      ErasedInSeq(timers, e, b, heap);
    }
  }

  lemma QueuedOnly(timers: seq<Entry>, batch: seq<Entry>, pending: set<nat>, heap: map<nat, Timer>, e: Entry)
    requires OneOwner(timers, batch, pending, heap) && e in timers
    ensures e.addr in heap && e.addr !in pending && !InSeq(batch, e.addr)
    ensures forall x :: x in batch ==> x.addr != e.addr
  {
    assert InSeq(timers, e.addr);
    assert !InSeq(batch, e.addr);
  }

  lemma FreeNumbered(heap: map<nat, Timer>, freed: set<int>, created: nat, a: nat)
    requires Numbered(heap, freed, created) && a in heap
    ensures Numbered(heap - {a}, freed + {heap[a].sequence}, created) && heap[a].sequence !in freed
  {
    var heap', s' := heap - {a}, heap[a].sequence;
    forall s | 0 < s <= created && s !in freed + {s'} ensures exists b :: b in heap' && heap'[b].sequence == s {
      var b :| b in heap && heap[b].sequence == s;
      assert b in heap' && heap'[b].sequence == s;
    }
  }

  lemma CancelCancellations(timers: seq<Entry>, batch: seq<Entry>, pending: set<nat>, heap: map<nat, Timer>,
                            canceling: set<TimerId>, cancelled: set<int>, created: nat, freed: set<int>, e: Entry)
    requires Cancellations(timers, batch, pending, heap, canceling, cancelled, created)
    requires Numbered(heap, freed, created) && Sorted(timers) && e in timers && e.addr in heap
    requires forall x :: x in timers ==> x.addr in heap && heap[x.addr].expiration == x.when
    ensures Cancellations(Erased(timers, e), batch, pending, heap - {e.addr}, canceling, cancelled + {heap[e.addr].sequence}, created)
  {
    ErasedSorted(timers, e);
    hide Erased, Sorted;
  }

  /** Cancelling a timer that is in the batch, or no longer there at all, only notes it. */
  lemma NoteCancellations(timers: seq<Entry>, active: set<TimerId>, batch: seq<Entry>, pending: set<nat>, heap: map<nat, Timer>,
                          canceling: set<TimerId>, cancelled: set<int>, created: nat, freed: set<int>, id: TimerId)
    requires Cancellations(timers, batch, pending, heap, canceling, cancelled, created)
    requires SameTimers(timers, active, heap) && Numbered(heap, freed, created)
    requires id !in active && IssuedIn(heap, freed, id) && !(id.addr in pending && id.addr in heap && heap[id.addr].sequence == id.sequence)
    ensures Cancellations(timers, batch, pending, heap, canceling + {id}, cancelled + {id.sequence}, created)
    ensures batch == [] ==> Cancellations(timers, batch, pending, heap, canceling, cancelled + {id.sequence}, created)
  {
  }

  /** The id was given out by addTimer: its timer has been freed since or is still at that address. */
  ghost predicate IssuedIn(heap: map<nat, Timer>, freed: set<int>, id: TimerId) {
    id.sequence in freed || (id.addr in heap && heap[id.addr].sequence == id.sequence)
  }

  lemma PendingTimer(timers: seq<Entry>, batch: seq<Entry>, pending: set<nat>, heap: map<nat, Timer>, a: nat)
    requires OneOwner(timers, batch, pending, heap) && a in pending
    ensures a in heap && !InSeq(timers, a)
  {
    hide InSeq;
  }

  lemma QueueFacts(timers: seq<Entry>, active: set<TimerId>, heap: map<nat, Timer>, e: Entry)
    requires SameTimers(timers, active, heap)
    ensures Sorted(timers) && forall x :: x in timers ==> x.addr in heap && heap[x.addr].expiration == x.when
  {
    hide Sorted;
  }

  lemma QueuedNotPending(timers: seq<Entry>, batch: seq<Entry>, pending: set<nat>, heap: map<nat, Timer>, e: Entry)
    requires OneOwner(timers, batch, pending, heap) && e in timers
    ensures e.addr !in pending
  {
    assert InSeq(timers, e.addr);
  }

  lemma NoteNothing(timers: seq<Entry>, batch: seq<Entry>, pending: set<nat>, heap: map<nat, Timer>,
                    canceling: set<TimerId>, cancelled: set<int>, created: nat, id: TimerId)
    requires Cancellations(timers, batch, pending, heap, canceling, cancelled, created)
    ensures Cancellations(timers, batch, pending, heap, canceling + {id}, cancelled, created)
  {
  }

  /** The timers of the batch are untouched. */
  ghost predicate BatchKept(batch: seq<Entry>, heap: map<nat, Timer>, heap': map<nat, Timer>) {
    forall e :: e in batch ==> e.addr in heap && e.addr in heap' && heap'[e.addr] == heap[e.addr]
  }

  lemma BatchLives(timers: seq<Entry>, batch: seq<Entry>, pending: set<nat>, heap: map<nat, Timer>)
    requires OneOwner(timers, batch, pending, heap)
    ensures forall e :: e in batch ==> e.addr in heap && heap[e.addr].expiration == e.when
  {
    hide InSeq;
  }

  lemma KeptAtFirst(timers: seq<Entry>, batch: seq<Entry>, pending: set<nat>, heap: map<nat, Timer>)
    requires OneOwner(timers, batch, pending, heap)
    ensures BatchKept(batch, heap, heap)
  {
    hide InSeq;
  }

  lemma QueuedNotBatch(timers: seq<Entry>, active: set<TimerId>, batch: seq<Entry>, pending: set<nat>, heap: map<nat, Timer>, id: TimerId)
    requires SameTimers(timers, active, heap) && OneOwner(timers, batch, pending, heap) && id in active
    ensures BatchKept(batch, heap, heap - {id.addr})
  {
    assert InSeq(timers, id.addr);
    forall e | e in batch ensures e.addr != id.addr {
      assert InSeq(batch, e.addr);
    }
    hide InSeq, Sorted;
  }

  ghost function Ids(s: seq<Entry>, heap: map<nat, Timer>): set<TimerId> {
    set e | e in s && e.addr in heap :: TimerId(e.addr, heap[e.addr].sequence)
  }

  lemma EntriesApart(timers: seq<Entry>, active: set<TimerId>, heap: map<nat, Timer>, n: nat)
    requires SameTimers(timers, active, heap) && n <= |timers|
    ensures forall e, f :: e in timers[..n] && f in timers[n..] ==> e.addr != f.addr
  {
    forall e, f | e in timers[..n] && f in timers[n..] ensures e.addr != f.addr {
      var i :| 0 <= i < n && timers[i] == e;
      var j :| 0 <= j < |timers| - n && timers[n..][j] == f;
      assert timers[n + j] == f && Before(timers[i], timers[n + j]);
    }
  }

  /** The first n timers leave both indexes and become the batch. */
  lemma ExpiredSame(timers: seq<Entry>, active: set<TimerId>, heap: map<nat, Timer>, n: nat)
    requires SameTimers(timers, active, heap) && n <= |timers|
    ensures SameTimers(timers[n..], active - Ids(timers[..n], heap), heap)
  {
    var s, r, ids := timers[..n], timers[n..], Ids(timers[..n], heap);
    EntriesApart(timers, active, heap, n);
    forall id | id in active && id !in ids ensures Entry(heap[id.addr].expiration, id.addr) in r {
      var e := Entry(heap[id.addr].expiration, id.addr);
      var i :| 0 <= i < |timers| && timers[i] == e;
      assert i < n ==> e in s;
      assert i >= n ==> r[i - n] == e;
    }
  }

  lemma SplitInSeq(s: seq<Entry>, n: nat, a: nat)
    requires n <= |s|
    ensures InSeq(s, a) <==> InSeq(s[..n], a) || InSeq(s[n..], a)
  {
    assert forall e :: e in s[..n] || e in s[n..] ==> e in s;
    if InSeq(s, a) {
      var e :| e in s && e.addr == a;
      var i :| 0 <= i < |s| && s[i] == e;
      assert if i < n then s[..n][i] == e else s[n..][i - n] == e;
    }
  }

  lemma ExpiredOwner(timers: seq<Entry>, active: set<TimerId>, pending: set<nat>, heap: map<nat, Timer>, n: nat)
    requires SameTimers(timers, active, heap) && OneOwner(timers, [], pending, heap) && n <= |timers|
    ensures OneOwner(timers[n..], timers[..n], pending, heap)
  {
    var s, r := timers[..n], timers[n..];
    forall a: nat ensures InSeq(timers, a) <==> InSeq(s, a) || InSeq(r, a) {
      SplitInSeq(timers, n, a);
    }
    EntriesApart(timers, active, heap, n);
    assert forall a: nat :: !(InSeq(r, a) && InSeq(s, a));
    assert forall a: nat :: !InSeq([], a);
    hide InSeq;
    forall i, j | 0 <= i < j < |s| ensures s[i].addr != s[j].addr {
      assert Before(s[i], s[j]) && s[i] in timers && s[j] in timers;
    }
  }

  lemma ExpiredCancellations(timers: seq<Entry>, active: set<TimerId>, pending: set<nat>, heap: map<nat, Timer>,
                             canceling: set<TimerId>, cancelled: set<int>, created: nat, n: nat)
    requires Cancellations(timers, [], pending, heap, canceling, cancelled, created) && n <= |timers|
    ensures Cancellations(timers[n..], timers[..n], pending, heap, {}, cancelled, created)
  {
    assert forall e :: e in timers[..n] || e in timers[n..] ==> e in timers;
  }

  lemma HeadOut(timers: seq<Entry>, batch: seq<Entry>, pending: set<nat>, heap: map<nat, Timer>)
    requires OneOwner(timers, batch, pending, heap) && batch != []
    ensures var a := batch[0].addr;
            && a in heap && !InSeq(timers, a) && a !in pending
            && (forall b: nat :: InSeq(batch[1..], b) <==> InSeq(batch, b) && b != a)
  {
    var a := batch[0].addr;
    assert InSeq(batch, a);
    forall b: nat ensures InSeq(batch[1..], b) <==> InSeq(batch, b) && b != a {
      if InSeq(batch[1..], b) {
        var e :| e in batch[1..] && e.addr == b;
        var j :| 0 <= j < |batch| - 1 && batch[1..][j] == e;
        assert batch[j + 1] == e;
      }
      if InSeq(batch, b) && b != a {
        var e :| e in batch && e.addr == b;
        var j :| 0 <= j < |batch| && batch[j] == e;
        assert batch[1..][j - 1] == e;
      }
    }
  }

  /** The head of the batch is freed. */
  lemma DropOwner(timers: seq<Entry>, active: set<TimerId>, batch: seq<Entry>, pending: set<nat>, heap: map<nat, Timer>)
    requires SameTimers(timers, active, heap) && OneOwner(timers, batch, pending, heap) && batch != []
    ensures batch[0].addr in heap
    ensures OneOwner(timers, batch[1..], pending, heap - {batch[0].addr})
    ensures SameTimers(timers, active, heap - {batch[0].addr})
  {
    var a := batch[0].addr;
    HeadOut(timers, batch, pending, heap);
    assert forall e :: e in batch[1..] ==> e in batch;
    assert forall e :: e in batch[1..] ==> e.addr != a by {
      forall e | e in batch[1..] ensures e.addr != a {
        assert InSeq(batch[1..], e.addr);
      }
    }
    forall e | e in timers ensures e.addr != a {
      assert InSeq(timers, e.addr);
    }
    hide InSeq;
  }

  lemma DropCancellations(timers: seq<Entry>, batch: seq<Entry>, pending: set<nat>, heap: map<nat, Timer>,
                          canceling: set<TimerId>, cancelled: set<int>, created: nat)
    requires Cancellations(timers, batch, pending, heap, canceling, cancelled, created) && batch != []
    ensures Cancellations(timers, batch[1..], pending, heap - {batch[0].addr}, canceling, cancelled, created)
  {
  }

  /** The head of the batch goes back into the queue with a new expiration. */
  lemma RestartOwner(timers: seq<Entry>, active: set<TimerId>, batch: seq<Entry>, pending: set<nat>, heap: map<nat, Timer>, t: Timer, e: Entry)
    requires SameTimers(timers, active, heap) && OneOwner(timers, batch, pending, heap) && batch != []
    requires e.addr == batch[0].addr
    ensures var a := batch[0].addr;
            && a in heap && !InSeq(timers, a) && SameTimers(timers, active, heap[a := t])
            && OneOwner(Inserted(timers, e), batch[1..], pending, heap[a := t])
  {
    var a := batch[0].addr;
    HeadOut(timers, batch, pending, heap);
    forall b: nat ensures InSeq(Inserted(timers, e), b) <==> InSeq(timers, b) || b == a {
      InsertedInSeq(timers, e, b);
    }
    forall x | x in batch[1..] ensures x.addr != a && x in batch {
      assert InSeq(batch[1..], x.addr);
    }
    forall x | x in timers ensures x.addr != a {
      assert InSeq(timers, x.addr);
    }
    hide InSeq, Inserted;
  }

  lemma RestartNumbered(heap: map<nat, Timer>, freed: set<int>, created: nat, a: nat, t: Timer)
    requires Numbered(heap, freed, created) && a in heap && t.sequence == heap[a].sequence
    ensures Numbered(heap[a := t], freed, created)
  {
    var heap' := heap[a := t];
    assert forall b :: b in heap' ==> b in heap && heap'[b].sequence == heap[b].sequence;
    forall s | 0 < s <= created && s !in freed ensures exists b :: b in heap' && heap'[b].sequence == s {
      var b :| b in heap && heap[b].sequence == s;
      assert b in heap' && heap'[b].sequence == s;
    }
  }

  lemma RestartCancellations(timers: seq<Entry>, batch: seq<Entry>, pending: set<nat>, heap: map<nat, Timer>,
                             canceling: set<TimerId>, cancelled: set<int>, created: nat, t: Timer, e: Entry)
    requires Cancellations(timers, batch, pending, heap, canceling, cancelled, created) && batch != []
    requires e.addr == batch[0].addr && e.addr in heap && t.sequence == heap[e.addr].sequence
    requires TimerId(e.addr, t.sequence) !in canceling
    ensures Cancellations(Inserted(timers, e), batch[1..], pending, heap[e.addr := t], canceling, cancelled, created)
  {
    InsertedMembers(timers, e);
    hide Inserted;
    assert forall x :: x in batch[1..] ==> x in batch;
  }

  /** What happens while a callback runs: the callback adds and cancels, another thread makes a timer whose
      insertion is still queued. */
  datatype Action = Add(when: int, repeat: bool, interval: nat) | Cancel(id: TimerId) | Create(when: int, repeat: bool, interval: nat)

  // ---- what each step does, on values

  /** The whole queue at one moment, but for the timerfd. */
  datatype Snap = Snap(timers: seq<Entry>, active: set<TimerId>, canceling: set<TimerId>, calling: bool, heap: map<nat, Timer>,
                       created: nat, pending: set<nat>, batch: seq<Entry>, freed: set<int>, cancelled: set<int>, ran: seq<int>)

  const EMPTY := Snap([], {}, {}, false, map[], 0, {}, [], {}, {}, [])

  /** A timer is made at a free address. */
  ghost predicate Made(s: Snap, a: nat, when: int, repeat: bool, interval: nat, t: Snap) {
    && a !in s.heap
    && t == s.(heap := s.heap[a := Timer(when, repeat, interval, s.created + 1)], created := s.created + 1, pending := s.pending + {a})
  }

  /** A queued insertion is done. */
  function TakenOver(s: Snap, a: nat): Snap
    requires a in s.heap
  {
    s.(timers := Inserted(s.timers, Entry(s.heap[a].expiration, a)),
       active := s.active + {TimerId(a, s.heap[a].sequence)},
       pending := s.pending - {a})
  }

  ghost predicate QueuedIn(heap: map<nat, Timer>, pending: set<nat>, id: TimerId) {
    id.addr in pending && id.addr in heap && heap[id.addr].sequence == id.sequence
  }

  ghost function Cancelled(s: Snap, id: TimerId): Snap {
    if id in s.active && id.addr in s.heap then
      s.(timers := Erased(s.timers, Entry(s.heap[id.addr].expiration, id.addr)), active := s.active - {id},
         heap := s.heap - {id.addr}, freed := s.freed + {id.sequence}, cancelled := s.cancelled + {id.sequence})
    else
      s.(cancelled := s.cancelled + if IssuedIn(s.heap, s.freed, id) && !QueuedIn(s.heap, s.pending, id) then {id.sequence} else {},
         canceling := s.canceling + if s.calling then {id} else {})
  }

  /** One action takes the queue from s to t. */
  ghost predicate Acted(s: Snap, action: Action, t: Snap) {
    match action
    case Add(when, repeat, interval) =>
      exists a: nat, m: Snap :: Made(s, a, when, repeat, interval, m) && t == TakenOver(m, a)
    case Cancel(id) => t == Cancelled(s, id)
    case Create(when, repeat, interval) =>
      exists a: nat :: Made(s, a, when, repeat, interval, t)
  }

  ghost function Called(s: Snap, a: nat): Snap {
    if a in s.heap then s.(ran := s.ran + [s.heap[a].sequence]) else s
  }

  function ScriptAt(script: seq<seq<Action>>, i: nat): seq<Action> {
    if i < |script| then script[i] else []
  }

  /** What happens in a firing, one thing after another: a callback is called, or it or another thread acts. */
  datatype Doing = Call(addr: nat) | Do(action: Action)

  function Doings(actions: seq<Action>): (d: seq<Doing>)
    ensures |d| == |actions| && forall j :: 0 <= j < |d| ==> d[j] == Do(actions[j])
  {
    seq(|actions|, j requires 0 <= j < |actions| => Do(actions[j]))
  }

  /** The callbacks of the first n timers of a batch, each with what happens while it runs. */
  function Program(batch: seq<Entry>, n: nat, script: seq<seq<Action>>): seq<Doing>
    requires n <= |batch|
  {
    if n == 0 then [] else Program(batch, n - 1, script) + [Call(batch[n - 1].addr)] + Doings(ScriptAt(script, n - 1))
  }

  ghost predicate Done(s: Snap, doing: Doing, t: Snap) {
    match doing
    case Call(a) => t == Called(s, a)
    case Do(action) => Acted(s, action, t)
  }

  /** The moments between the steps of a program. */
  ghost predicate Chain(program: seq<Doing>, moments: seq<Snap>) {
    && |moments| == |program| + 1
    && forall i :: 0 <= i < |program| ==> Done(moments[i], program[i], moments[i + 1])
  }

  /** The timers due leave both indexes. */
  ghost function Begun(s: Snap, now: int): Snap {
    var n := Due(s.timers, now);
    s.(timers := s.timers[n..], active := s.active - Ids(s.timers[..n], s.heap), batch := s.timers[..n], calling := true, canceling := {})
  }

  /** The head of the batch goes back into the queue or is freed. */
  ghost function HeadRestored(s: Snap, now: int): Snap
    requires s.batch != []
  {
    var a := s.batch[0].addr;
    if a !in s.heap then s.(batch := s.batch[1..]) else
      var timer := s.heap[a];
      if timer.repeat && TimerId(a, timer.sequence) !in s.canceling then
        var again := timer.(expiration := now + timer.interval);
        s.(heap := s.heap[a := again], timers := Inserted(s.timers, Entry(again.expiration, a)),
           active := s.active + {TimerId(a, timer.sequence)}, batch := s.batch[1..])
      else
        s.(heap := s.heap - {a}, freed := s.freed + {timer.sequence}, batch := s.batch[1..])
  }

  ghost function Restored(s: Snap, now: int): Snap
    decreases |s.batch|
  {
    if s.batch == [] then s else Restored(HeadRestored(s, now), now)
  }

  /** A firing of the timerfd takes the queue from s to t, through these moments of its callbacks. */
  ghost predicate Read(s: Snap, now: int, script: seq<seq<Action>>, moments: seq<Snap>, t: Snap) {
    var b := Begun(s, now);
    && Chain(Program(b.batch, |b.batch|, script), moments) && moments[0] == b
    && t == Restored(moments[|moments| - 1].(calling := false), now)
  }

  // ---- what a firing amounts to

  function CancelsOf(action: Action): set<TimerId> {
    if action.Cancel? then {action.id} else {}
  }

  function CancelsIn(actions: seq<Action>): set<TimerId> {
    if actions == [] then {} else CancelsIn(actions[..|actions| - 1]) + CancelsOf(actions[|actions| - 1])
  }

  /** Every id the first n callbacks cancel. */
  function Cancels(script: seq<seq<Action>>, n: nat): set<TimerId> {
    if n == 0 then {} else Cancels(script, n - 1) + CancelsIn(ScriptAt(script, n - 1))
  }

  lemma CancelsMore(actions: seq<Action>, j: nat)
    requires j < |actions|
    ensures CancelsIn(actions[..j + 1]) == CancelsIn(actions[..j]) + CancelsOf(actions[j])
  {
    assert actions[..j + 1][..j] == actions[..j];
  }

  /** Since the batch was taken out, exactly the ids in done have been cancelled: those of the batch are noted,
      those of the queue are gone and the others still there, and queued insertions are untouched. */
  ghost predicate Progress(b: Snap, done: set<TimerId>, t: Snap) {
    && (forall e :: e in b.batch && e.addr in b.heap ==> Noted(TimerId(e.addr, b.heap[e.addr].sequence), done, t))
    && (forall id :: id in b.active && id.addr in b.heap ==> Spared(id, b.heap[id.addr], done, t))
    && (forall a :: a in b.pending && a in b.heap ==> a in t.pending && a in t.heap && t.heap[a] == b.heap[a])
    && b.cancelled <= t.cancelled && b.freed <= t.freed
  }

  ghost predicate Noted(id: TimerId, done: set<TimerId>, t: Snap) {
    (id in t.canceling <==> id in done) && (id in done ==> id.sequence in t.cancelled)
  }

  ghost predicate Spared(id: TimerId, timer: Timer, done: set<TimerId>, t: Snap) {
    if id in done then id.sequence in t.freed && id.sequence in t.cancelled
    else id in t.active && id.addr in t.heap && t.heap[id.addr] == timer
  }

  /** Everything the queue keeps true, on a snapshot. */
  ghost predicate Sound(s: Snap) {
    && SameTimers(s.timers, s.active, s.heap)
    && OneOwner(s.timers, s.batch, s.pending, s.heap)
    && Numbered(s.heap, s.freed, s.created)
    && Cancellations(s.timers, s.batch, s.pending, s.heap, s.canceling, s.cancelled, s.created)
  }

  lemma ActiveApart(s: Snap, id: TimerId, other: TimerId)
    requires SameTimers(s.timers, s.active, s.heap) && id in s.active && other in s.active && id.addr == other.addr
    ensures id == other
  {
  }

  lemma BatchApart(s: Snap, e: Entry)
    requires SameTimers(s.timers, s.active, s.heap) && OneOwner(s.timers, s.batch, s.pending, s.heap) && e in s.batch
    ensures e.addr in s.heap && e.addr !in s.pending
    ensures forall id :: id in s.active ==> id.addr in s.heap && id.addr != e.addr
  {
    assert InSeq(s.batch, e.addr);
    forall id | id in s.active ensures id.addr in s.heap && id.addr != e.addr {
      assert Entry(s.heap[id.addr].expiration, id.addr) in s.timers;
      assert InSeq(s.timers, id.addr);
    }
    hide InSeq, Sorted;
  }

  lemma ActiveNotPending(s: Snap, id: TimerId)
    requires SameTimers(s.timers, s.active, s.heap) && OneOwner(s.timers, s.batch, s.pending, s.heap) && id in s.active
    ensures id.addr in s.heap && id.addr !in s.pending
  {
    QueuedNotPending(s.timers, s.batch, s.pending, s.heap, Entry(s.heap[id.addr].expiration, id.addr));
  }

  lemma ProgressMade(b: Snap, done: set<TimerId>, s: Snap, a: nat, when: int, repeat: bool, interval: nat, t: Snap)
    requires Progress(b, done, s) && Made(s, a, when, repeat, interval, t)
    ensures Progress(b, done, t)
  {
  }

  lemma ProgressTaken(b: Snap, done: set<TimerId>, s: Snap, a: nat)
    requires Progress(b, done, s) && a in s.heap && a !in b.pending
    ensures Progress(b, done, TakenOver(s, a))
  {
    hide Inserted;
  }

  lemma ProgressCancelled(b: Snap, done: set<TimerId>, s: Snap, id: TimerId)
    requires Progress(b, done, s) && Sound(s) && s.calling && s.batch == b.batch && BatchKept(b.batch, b.heap, s.heap)
    requires forall a :: a in b.pending ==> a in b.heap
    ensures Progress(b, done + {id}, Cancelled(s, id))
  {
    hide Inserted, InSeq, Erased;
    if id in s.active {
      ActiveNotPending(s, id);
      ProgressErased(b, done, s, id);
    } else {
      ProgressNoted(b, done, s, id);
    }
    hide Progress, Cancelled, Sound;
  }

  /** The id is in the queue and leaves it. */
  lemma ProgressErased(b: Snap, done: set<TimerId>, s: Snap, id: TimerId)
    requires Progress(b, done, s) && Sound(s) && s.batch == b.batch && BatchKept(b.batch, b.heap, s.heap) && id in s.active
    requires id.addr in s.heap && id.addr !in s.pending
    ensures Progress(b, done + {id}, Cancelled(s, id))
  {
    var t, more := Cancelled(s, id), done + {id};
    forall e | e in b.batch && e.addr in b.heap ensures Noted(TimerId(e.addr, b.heap[e.addr].sequence), more, t) {
      assert Noted(TimerId(e.addr, b.heap[e.addr].sequence), done, s);
      ErasedNotes(b, s, id, e, done);
    }
    forall x | x in b.active && x.addr in b.heap ensures Spared(x, b.heap[x.addr], more, t) {
      assert Spared(x, b.heap[x.addr], done, s);
      ErasedSpares(s, id, x, b.heap[x.addr], done);
    }
    hide Sound, BatchKept, Erased, Noted, Spared;
  }

  lemma ErasedNotes(b: Snap, s: Snap, id: TimerId, e: Entry, done: set<TimerId>)
    requires Sound(s) && s.batch == b.batch && id in s.active && id.addr in s.heap
    requires e in b.batch && e.addr in b.heap && Noted(TimerId(e.addr, b.heap[e.addr].sequence), done, s)
    ensures Noted(TimerId(e.addr, b.heap[e.addr].sequence), done + {id}, Cancelled(s, id))
  {
    BatchApart(s, e);
    hide Sound, Erased, IssuedIn, QueuedIn;
  }

  lemma ErasedSpares(s: Snap, id: TimerId, x: TimerId, timer: Timer, done: set<TimerId>)
    requires SameTimers(s.timers, s.active, s.heap) && id in s.active && id.addr in s.heap && Spared(x, timer, done, s)
    ensures Spared(x, timer, done + {id}, Cancelled(s, id))
  {
    if x !in done && x.addr == id.addr {
      ActiveApart(s, id, x);
    }
    hide SameTimers, Erased, IssuedIn, QueuedIn;
  }

  /** The id is not in the queue and is noted. */
  lemma ProgressNoted(b: Snap, done: set<TimerId>, s: Snap, id: TimerId)
    requires Progress(b, done, s) && Sound(s) && s.calling && s.batch == b.batch && BatchKept(b.batch, b.heap, s.heap)
    requires id !in s.active
    ensures Progress(b, done + {id}, Cancelled(s, id))
  {
    var t, more := Cancelled(s, id), done + {id};
    forall e | e in b.batch && e.addr in b.heap ensures Noted(TimerId(e.addr, b.heap[e.addr].sequence), more, t) {
      BatchApart(s, e);
      assert Noted(TimerId(e.addr, b.heap[e.addr].sequence), done, s);
    }
    forall x | x in b.active && x.addr in b.heap ensures Spared(x, b.heap[x.addr], more, t) {
      assert Spared(x, b.heap[x.addr], done, s);
    }
    hide Sound, BatchKept, Noted, Spared;
  }

  lemma ProgressActed(b: Snap, done: set<TimerId>, s: Snap, action: Action, t: Snap)
    requires Progress(b, done, s) && Sound(s) && s.calling && s.batch == b.batch && BatchKept(b.batch, b.heap, s.heap)
    requires forall a :: a in b.pending ==> a in b.heap
    requires Acted(s, action, t)
    ensures Progress(b, done + CancelsOf(action), t)
  {
    hide Progress, Sound, BatchKept, Cancelled;
    assert done + {} == done;
    match action
    case Add(when, repeat, interval) =>
      var a: nat, m: Snap :| Made(s, a, when, repeat, interval, m) && t == TakenOver(m, a);
      ProgressMade(b, done, s, a, when, repeat, interval, m);
      MadeApart(b, done, s, a, when, repeat, interval, m);
      ProgressTaken(b, done, m, a);
    case Cancel(id) =>
      ProgressCancelled(b, done, s, id);
    case Create(when, repeat, interval) =>
      var a: nat :| Made(s, a, when, repeat, interval, t);
      ProgressMade(b, done, s, a, when, repeat, interval, t);
  }

  lemma MadeApart(b: Snap, done: set<TimerId>, s: Snap, a: nat, when: int, repeat: bool, interval: nat, t: Snap)
    requires Progress(b, done, s) && Made(s, a, when, repeat, interval, t)
    requires forall x :: x in b.pending ==> x in b.heap
    ensures a in t.heap && a !in b.pending
  {
  }

  lemma NoProgress(b: Snap)
    requires Sound(b) && b.canceling == {}
    ensures Progress(b, {}, b)
    ensures forall a :: a in b.pending ==> a in b.heap
  {
    hide SameTimers, Numbered, Cancellations, InSeq;
  }

  /** What restoring a batch amounts to: repeating timers that were not noted are queued again, the others freed,
      and nothing else changes. */
  ghost predicate PutBack(s: Snap, now: int, t: Snap) {
    && (forall e :: e in s.batch && e.addr in s.heap ==>
          RestartedOrFreed(TimerId(e.addr, s.heap[e.addr].sequence), s.heap[e.addr], s.canceling, now, t))
    && (forall a :: a in s.heap && !InSeq(s.batch, a) ==> a in t.heap && t.heap[a] == s.heap[a])
    && s.active <= t.active && s.freed <= t.freed
    && t.pending == s.pending && t.cancelled == s.cancelled && t.ran == s.ran && t.batch == [] && t.calling == s.calling
  }

  ghost predicate RestartedOrFreed(id: TimerId, timer: Timer, stopped: set<TimerId>, now: int, t: Snap) {
    if timer.repeat && id !in stopped then
      id.addr in t.heap && t.heap[id.addr] == timer.(expiration := now + timer.interval) && id in t.active
    else
      timer.sequence in t.freed
  }

  lemma {:induction false} RestoredBatch(s: Snap, now: int)
    requires forall i, j :: 0 <= i < j < |s.batch| ==> s.batch[i].addr != s.batch[j].addr
    requires forall e :: e in s.batch ==> e.addr in s.heap
    ensures PutBack(s, now, Restored(s, now))
    decreases |s.batch|
  {
    if s.batch != [] {
      HeadPutBack(s, now);
      RestoredBatch(HeadRestored(s, now), now);
      PutBackFirst(s, now, HeadRestored(s, now), Restored(s, now));
    }
  }

  /** The head of the batch is put back or freed and the rest of the batch untouched. */
  lemma HeadPutBack(s: Snap, now: int)
    requires forall i, j :: 0 <= i < j < |s.batch| ==> s.batch[i].addr != s.batch[j].addr
    requires forall e :: e in s.batch ==> e.addr in s.heap
    requires s.batch != []
    ensures var m, e0 := HeadRestored(s, now), s.batch[0];
            && RestartedOrFreed(TimerId(e0.addr, s.heap[e0.addr].sequence), s.heap[e0.addr], s.canceling, now, m)
            && (forall e :: e in m.batch ==> e in s.batch && e.addr != e0.addr && e.addr in m.heap && m.heap[e.addr] == s.heap[e.addr])
  {
    hide Inserted;
  }

  lemma PutBackFirst(s: Snap, now: int, m: Snap, t: Snap)
    requires s.batch != [] && m == HeadRestored(s, now) && PutBack(m, now, t)
    requires forall e :: e in s.batch ==> e.addr in s.heap
    requires var e0 := s.batch[0];
             && RestartedOrFreed(TimerId(e0.addr, s.heap[e0.addr].sequence), s.heap[e0.addr], s.canceling, now, m)
             && (forall e :: e in m.batch ==> e in s.batch && e.addr != e0.addr && e.addr in m.heap && m.heap[e.addr] == s.heap[e.addr])
    ensures PutBack(s, now, t)
  {
    hide Inserted;
    var e0 := s.batch[0];
    assert !InSeq(m.batch, e0.addr);
    forall e | e in s.batch && e.addr in s.heap
      ensures RestartedOrFreed(TimerId(e.addr, s.heap[e.addr].sequence), s.heap[e.addr], s.canceling, now, t)
    {
      if e != e0 {
        assert e in m.batch;
      }
    }
    forall a | a in s.heap && !InSeq(s.batch, a) ensures a in t.heap && t.heap[a] == s.heap[a] {
      assert e0 in s.batch && !InSeq(m.batch, a);
    }
  }

  /** What one firing means: exactly the timers due run, in order, none of them cancelled before; of these a timer
      is queued again exactly if it repeats and no callback cancelled it; of the others a timer stays exactly if
      no callback cancelled it; and queued insertions stay queued. */
  ghost predicate Fired(s: Snap, now: int, script: seq<seq<Action>>, t: Snap) {
    var due := s.timers[..Due(s.timers, now)];
    var done := Cancels(script, |due|);
    && t.ran == s.ran + Sequences(due, s.heap)
    && (forall x :: x in Sequences(due, s.heap) ==> x !in s.cancelled)
    && DueServed(s, due, done, now, t)
    && LaterSpared(s, done, now, t)
    && (forall a :: a in s.pending && a in s.heap ==> a in t.pending && a in t.heap && t.heap[a] == s.heap[a])
    && s.cancelled <= t.cancelled && s.freed <= t.freed
  }

  ghost predicate DueServed(s: Snap, due: seq<Entry>, done: set<TimerId>, now: int, t: Snap) {
    forall e :: e in due && e.addr in s.heap ==>
      var id := TimerId(e.addr, s.heap[e.addr].sequence);
      RestartedOrFreed(id, s.heap[e.addr], done, now, t) && (id in done ==> id.sequence in t.cancelled)
  }

  ghost predicate LaterSpared(s: Snap, done: set<TimerId>, now: int, t: Snap) {
    forall id :: id in s.active && id.addr in s.heap && s.heap[id.addr].expiration > now ==> Spared(id, s.heap[id.addr], done, t)
  }

  lemma LaterActive(s: Snap, now: int)
    requires Sound(s) && s.batch == []
    ensures forall id :: id in s.active && id.addr in s.heap && s.heap[id.addr].expiration > now ==> id in Begun(s, now).active
  {
    DueExactly(s.timers, now);
    hide Due, SameTimers, OneOwner, Numbered, Cancellations;
    assert s.active <= s.active;
  }

  lemma FiredAfter(s: Snap, now: int, script: seq<seq<Action>>, m: Snap)
    requires Sound(s) && Sound(m) && s.batch == []
    requires var b := Begun(s, now);
      && Progress(b, Cancels(script, |b.batch|), m) && m.batch == b.batch && BatchKept(b.batch, b.heap, m.heap)
      && m.ran == b.ran + Sequences(b.batch, b.heap)
      && forall x :: x in Sequences(b.batch, b.heap) ==> x !in s.cancelled
    ensures Fired(s, now, script, Restored(m.(calling := false), now))
  {
    hide Sound, Restored, Due, Cancels, Sequences, DueServed, LaterSpared, Ids, BatchKept, Progress, PutBack;
    var b, m', t := Begun(s, now), m.(calling := false), Restored(m.(calling := false), now);
    var done := Cancels(script, |b.batch|);
    LaterActive(s, now);
    DistinctBatch(m);
    RestoredBatch(m', now);
    DueRestored(b, done, m, now, t);
    LaterRestored(s, b, done, m, now, t);
    RestRestored(b, done, m, now, t);
    DueServedAlike(s, b, done, now, t);
  }

  lemma DueServedAlike(s: Snap, b: Snap, done: set<TimerId>, now: int, t: Snap)
    requires DueServed(b, b.batch, done, now, t) && s.heap == b.heap
    ensures DueServed(s, b.batch, done, now, t)
  {
    hide RestartedOrFreed;
  }

  lemma RestRestored(b: Snap, done: set<TimerId>, m: Snap, now: int, t: Snap)
    requires Progress(b, done, m) && Sound(m) && PutBack(m.(calling := false), now, t)
    ensures forall a :: a in b.pending && a in b.heap ==> a in t.pending && a in t.heap && t.heap[a] == b.heap[a]
    ensures b.cancelled <= t.cancelled && b.freed <= t.freed && t.ran == m.ran
  {
    forall a | a in b.pending && a in b.heap ensures a in t.pending && a in t.heap && t.heap[a] == b.heap[a] {
      PendingNotBatch(m, a);
    }
    hide Sound, InSeq, Spared, RestartedOrFreed, Noted;
  }

  lemma DueRestored(b: Snap, done: set<TimerId>, m: Snap, now: int, t: Snap)
    requires Progress(b, done, m) && BatchKept(b.batch, b.heap, m.heap) && m.batch == b.batch
    requires PutBack(m.(calling := false), now, t)
    ensures DueServed(b, b.batch, done, now, t)
  {
    forall e | e in b.batch && e.addr in b.heap
      ensures var id := TimerId(e.addr, b.heap[e.addr].sequence);
              RestartedOrFreed(id, b.heap[e.addr], done, now, t) && (id in done ==> id.sequence in t.cancelled)
    {
      var id := TimerId(e.addr, b.heap[e.addr].sequence);
      assert Noted(id, done, m);
      assert RestartedOrFreed(id, b.heap[e.addr], m.canceling, now, t);
    }
  }

  lemma LaterRestored(s: Snap, b: Snap, done: set<TimerId>, m: Snap, now: int, t: Snap)
    requires Progress(b, done, m) && Sound(m) && PutBack(m.(calling := false), now, t) && b.heap == s.heap
    requires forall id :: id in s.active && id.addr in s.heap && s.heap[id.addr].expiration > now ==> id in b.active
    ensures LaterSpared(s, done, now, t)
  {
    forall id | id in s.active && id.addr in s.heap && s.heap[id.addr].expiration > now
      ensures Spared(id, s.heap[id.addr], done, t)
    {
      SparedRestored(b, done, m, now, id, t);
    }
  }

  lemma SparedRestored(b: Snap, done: set<TimerId>, m: Snap, now: int, id: TimerId, t: Snap)
    requires Progress(b, done, m) && Sound(m) && PutBack(m.(calling := false), now, t)
    requires id in b.active && id.addr in b.heap
    ensures Spared(id, b.heap[id.addr], done, t)
  {
    assert Spared(id, b.heap[id.addr], done, m);
    if id !in done {
      ActiveNotBatch(m, id);
    }
    hide Sound, InSeq, Noted, RestartedOrFreed;
  }

  lemma DistinctBatch(m: Snap)
    requires Sound(m)
    ensures forall i, j :: 0 <= i < j < |m.batch| ==> m.batch[i].addr != m.batch[j].addr
    ensures forall e :: e in m.batch ==> e.addr in m.heap
  {
    hide SameTimers, Numbered, Cancellations, InSeq;
  }

  lemma ActiveNotBatch(m: Snap, id: TimerId)
    requires Sound(m) && id in m.active
    ensures !InSeq(m.batch, id.addr)
  {
    if InSeq(m.batch, id.addr) {
      var e :| e in m.batch && e.addr == id.addr;
      BatchApart(m, e);
    }
  }

  lemma PendingNotBatch(m: Snap, a: nat)
    requires Sound(m) && a in m.pending
    ensures !InSeq(m.batch, a)
  {
    hide InSeq, SameTimers, Numbered, Cancellations;
  }

  class Queue {
    var timers: seq<Entry>
    var active: set<TimerId>
    var canceling: set<TimerId>
    var calling: bool
    var fd: Fd
    var heap: map<nat, Timer>
    var created: nat
    /** Timers whose insertion is among the functors queued for the loop. */
    var pending: set<nat>
    ghost var batch: seq<Entry>
    ghost var freed: set<int>
    ghost var cancelled: set<int>
    ghost var reading: bool
    ghost var readAt: int
    ghost var ran: seq<int>

    ghost predicate Valid()
      reads this
    {
      && SameTimers(timers, active, heap)
      && OneOwner(timers, batch, pending, heap)
      && Numbered(heap, freed, created)
      && Cancellations(timers, batch, pending, heap, canceling, cancelled, created)
      && ArmedInTime(timers, fd, reading, readAt)
      && (!reading ==> batch == [] && !calling)
      && (batch != [] && reading ==> calling)
    }

    ghost function Snapshot(): Snap
      reads this
    {
      Snap(timers, active, canceling, calling, heap, created, pending, batch, freed, cancelled, ran)
    }

    constructor ()
      ensures Valid() && !reading && Snapshot() == EMPTY
    {
      timers, active, canceling, calling, fd, heap, created := [], {}, {}, false, Off, map[], 0;
      pending, batch, freed, cancelled, reading, readAt, ran := {}, [], {}, {}, false, 0, [];
    }

    /** new Timer: the caller's functor owns it until the loop inserts it. */
    method NewTimer(when: int, repeat: bool, interval: nat) returns (id: TimerId)
      requires Valid()
      modifies this`heap, this`created, this`pending
      ensures Valid() && id.addr !in old(heap) && id.sequence == created == old(created) + 1
      ensures Made(old(Snapshot()), id.addr, when, repeat, interval, Snapshot())
      ensures BatchKept(batch, old(heap), heap)
    {
      hide SameTimers, OneOwner, Numbered, Cancellations;
      BatchLives(timers, batch, pending, heap);
      ghost var free := FreshAddress(heap);
      var a: nat :| a !in heap;
      ghost var t := Timer(when, repeat, interval, created + 1);
      MakeSame(timers, active, heap, a, t);
      MakeOwner(timers, batch, pending, heap, a, t);
      MakeNumbered(heap, freed, created, a, t);
      MakeCancellations(timers, batch, pending, heap, canceling, cancelled, created, a, t);
      created := created + 1;
      heap := heap[a := Timer(when, repeat, interval, created)];
      pending := pending + {a};
      id := TimerId(a, created);
    }

    method ResetTimerfd(expiration: int)
      modifies this`fd
      ensures fd.Armed? && fd == ArmedFor(expiration, fd.armedAt)
    {
      var clock := *;
      fd := ArmedFor(expiration, clock);
    }

    /** Puts a timer into both indexes; says whether it is now the earliest. */
    method Insert(a: nat) returns (earliestChanged: bool)
      requires SameTimers(timers, active, heap) && a in heap && !InSeq(timers, a)
      modifies this`timers, this`active
      ensures earliestChanged <==> old(timers) == [] || heap[a].expiration < old(timers)[0].when
      ensures timers == Inserted(old(timers), Entry(heap[a].expiration, a))
      ensures active == old(active) + {TimerId(a, heap[a].sequence)} && SameTimers(timers, active, heap)
    {
      InsertSame(timers, active, heap, a);
      hide SameTimers, InSeq, Inserted;
      var when := heap[a].expiration;
      earliestChanged := timers == [] || when < timers[0].when;
      timers := Inserted(timers, Entry(when, a));
      active := active + {TimerId(a, heap[a].sequence)};
    }

    /** The queue takes over a timer; the timerfd is set again if it is the earliest. */
    method AddTimerInLoop(a: nat)
      requires Valid() && a in pending
      modifies this`timers, this`active, this`pending, this`fd
      ensures Valid() && a in heap && Snapshot() == TakenOver(old(Snapshot()), a)
    {
      hide SameTimers, OneOwner, Numbered, Cancellations, Inserted;
      PendingTimer(timers, batch, pending, heap, a);
      ghost var e := Entry(heap[a].expiration, a);
      InsertSame(timers, active, heap, a);
      QueuedOwner(timers, batch, pending, heap, a, e);
      QueuedCancellations(timers, batch, pending, heap, canceling, cancelled, created, a, e);
      var earliestChanged := Insert(a);
      if earliestChanged {
        ResetTimerfd(heap[a].expiration);
      }
      pending := pending - {a};
    }

    /** Frees the timer if it is in the queue; otherwise notes it if callbacks are running. Every other timer
        stays, also one that now lives at the address of a stale id. */
    method CancelInLoop(id: TimerId)
      requires Valid() && (reading ==> calling)
      modifies this`timers, this`active, this`canceling, this`heap, this`freed, this`cancelled
      ensures Valid() && Snapshot() == Cancelled(old(Snapshot()), id)
      ensures BatchKept(batch, old(heap), heap)
    {
      hide SameTimers, OneOwner, Numbered, Cancellations, Erased, InSeq, BatchKept;
      KeptAtFirst(timers, batch, pending, heap);
      if id in active {
        QueuedNotBatch(timers, active, batch, pending, heap, id);
        CancelSame(timers, active, heap, id);
        var e := Entry(heap[id.addr].expiration, id.addr);
        CancelOwner(timers, active, batch, pending, heap, e);
        FreeNumbered(heap, freed, created, id.addr);
        QueueFacts(timers, active, heap, e);
        CancelCancellations(timers, batch, pending, heap, canceling, cancelled, created, freed, e);
        ErasedSorted(timers, e);
        QueuedNotPending(timers, batch, pending, heap, e);
        timers := Erased(timers, e);
        freed := freed + {id.sequence};
        cancelled := cancelled + {id.sequence};
        heap := heap - {id.addr};
        active := active - {id};
      } else {
        if IssuedIn(heap, freed, id) && !QueuedIn(heap, pending, id) {
          NoteCancellations(timers, active, batch, pending, heap, canceling, cancelled, created, freed, id);
          cancelled := cancelled + {id.sequence};
        } else {
          NoteNothing(timers, batch, pending, heap, canceling, cancelled, created, id);
        }
        if calling {
          canceling := canceling + {id};
        }
      }
    }

    /** Moves the timers due by now out of both indexes, in order. */
    method GetExpired(now: int) returns (expired: seq<Entry>)
      requires SameTimers(timers, active, heap)
      modifies this`timers, this`active
      ensures expired == old(timers)[..Due(old(timers), now)] && timers == old(timers)[Due(old(timers), now)..]
      ensures active == old(active) - Ids(expired, heap)
    {
      var n := Due(timers, now);
      expired := timers[..n];
      ExpiredLive(timers, active, heap, n);
      timers := timers[n..];
      for i := 0 to |expired|
        invariant timers == old(timers)[n..]
        invariant active == old(active) - Ids(expired[..i], heap)
      {
        assert expired[..i + 1] == expired[..i] + [expired[i]];
        active := active - {TimerId(expired[i].addr, heap[expired[i].addr].sequence)};
      }
      assert expired[..|expired|] == expired;
    }

    /** Puts the timer at the head of the batch back if it repeats and was not cancelled, and else frees it. */
    method RestoreHead(a: nat, now: int)
      requires SameTimers(timers, active, heap) && OneOwner(timers, batch, pending, heap)
      requires Numbered(heap, freed, created)
      requires Cancellations(timers, batch, pending, heap, canceling, cancelled, created)
      requires ArmedInTime(timers, fd, true, now) && batch != [] && batch[0].addr == a
      modifies this`timers, this`active, this`heap, this`freed, this`batch
      ensures SameTimers(timers, active, heap) && OneOwner(timers, batch, pending, heap)
      ensures Numbered(heap, freed, created)
      ensures Cancellations(timers, batch, pending, heap, canceling, cancelled, created)
      ensures ArmedInTime(timers, fd, true, now) && batch == old(batch)[1..]
      ensures Snapshot() == HeadRestored(old(Snapshot()), now)
    {
      hide SameTimers, OneOwner, Numbered, Cancellations, Inserted, InSeq;
      DropOwner(timers, active, batch, pending, heap);
      var t := heap[a];
      if t.repeat && TimerId(a, t.sequence) !in canceling {
        var t' := t.(expiration := now + t.interval);
        ghost var e := Entry(t'.expiration, a);
        RestartOwner(timers, active, batch, pending, heap, t', e);
        RestartNumbered(heap, freed, created, a, t');
        RestartCancellations(timers, batch, pending, heap, canceling, cancelled, created, t', e);
        InsertSame(timers, active, heap[a := t'], a);
        heap := heap[a := t'];
        var earliestChanged := Insert(a);
      } else {
        FreeNumbered(heap, freed, created, a);
        DropCancellations(timers, batch, pending, heap, canceling, cancelled, created);
        freed := freed + {t.sequence};
        heap := heap - {a};
      }
      batch := batch[1..];
    }

    /** Puts repeating timers that were not cancelled back, frees the others, and arms the timerfd. */
    method Reset(expired: seq<Entry>, now: int)
      requires SameTimers(timers, active, heap) && OneOwner(timers, batch, pending, heap)
      requires Numbered(heap, freed, created)
      requires Cancellations(timers, batch, pending, heap, canceling, cancelled, created)
      requires ArmedInTime(timers, fd, true, now) && batch == expired && now > 0
      modifies this`timers, this`active, this`heap, this`freed, this`batch, this`fd
      ensures SameTimers(timers, active, heap) && OneOwner(timers, batch, pending, heap)
      ensures Numbered(heap, freed, created)
      ensures Cancellations(timers, batch, pending, heap, canceling, cancelled, created)
      ensures ArmedInTime(timers, fd, false, now) && batch == []
      ensures Snapshot() == Restored(old(Snapshot()), now)
    {
      hide SameTimers, OneOwner, Numbered, Cancellations, Inserted, InSeq;
      for i := 0 to |expired|
        invariant SameTimers(timers, active, heap) && OneOwner(timers, batch, pending, heap)
        invariant Numbered(heap, freed, created)
        invariant Cancellations(timers, batch, pending, heap, canceling, cancelled, created)
        invariant ArmedInTime(timers, fd, true, now) && batch == expired[i..]
        invariant Restored(Snapshot(), now) == Restored(old(Snapshot()), now)
      {
        assert batch[0] == expired[i] && batch[1..] == expired[i + 1..];
        RestoreHead(expired[i].addr, now);
      }
      var nextExpire := 0;
      if timers != [] {
        QueueFacts(timers, active, heap, timers[0]);
        nextExpire := heap[timers[0].addr].expiration;
      }
      if nextExpire > 0 {
        ResetTimerfd(nextExpire);
      }
    }

    /** One action while a callback runs. */
    method Perform(action: Action)
      requires Valid() && (reading ==> calling)
      modifies this`timers, this`active, this`canceling, this`heap, this`freed, this`cancelled, this`pending, this`created, this`fd
      ensures Valid() && Acted(old(Snapshot()), action, Snapshot()) && BatchKept(batch, old(heap), heap)
    {
      hide SameTimers, OneOwner, Numbered, Cancellations, Inserted, Erased;
      match action
      case Add(when, repeat, interval) =>
        var id := NewTimer(when, repeat, interval);
        ghost var m := Snapshot();
        AddTimerInLoop(id.addr);
        assert Made(old(Snapshot()), id.addr, when, repeat, interval, m);
      case Cancel(id) =>
        CancelInLoop(id);
      case Create(when, repeat, interval) =>
        var id := NewTimer(when, repeat, interval);
    }

    /** What happens while one callback runs, after the ids in done have been cancelled since b. */
    method Callback(actions: seq<Action>, ghost b: Snap, ghost done: set<TimerId>, ghost program: seq<Doing>, ghost past: seq<Snap>)
      returns (ghost moments: seq<Snap>)
      requires Valid() && calling && reading && batch == b.batch && BatchKept(batch, b.heap, heap)
      requires forall a :: a in b.pending ==> a in b.heap
      requires Progress(b, done, Snapshot())
      requires Chain(program, past) && past[|past| - 1] == Snapshot()
      modifies this`timers, this`active, this`canceling, this`heap, this`freed, this`cancelled, this`pending, this`created, this`fd
      ensures Valid() && BatchKept(batch, b.heap, heap)
      ensures Chain(program + Doings(actions), moments) && moments[0] == past[0] && moments[|moments| - 1] == Snapshot()
      ensures Progress(b, done + CancelsIn(actions), Snapshot())
    {
      hide SameTimers, OneOwner, Numbered, Cancellations, BatchKept, ArmedInTime, Progress, Acted, Chain;
      assert done + {} == done && CancelsIn([]) == {};
      assert program + Doings(actions[..0]) == program;
      ChainLength(program, past);
      moments := past;
      for j := 0 to |actions|
        invariant Valid() && BatchKept(batch, b.heap, heap)
        invariant Chain(program + Doings(actions[..j]), moments) && |moments| > 0
        invariant moments[0] == past[0] && moments[|moments| - 1] == Snapshot()
        invariant Progress(b, done + CancelsIn(actions[..j]), Snapshot())
      {
        ghost var s := Snapshot();
        Perform(actions[j]);
        KeptTwice(batch, b.heap, s.heap, heap);
        ProgressActed(b, done + CancelsIn(actions[..j]), s, actions[j], Snapshot());
        CancelsMore(actions, j);
        assert done + CancelsIn(actions[..j + 1]) == done + CancelsIn(actions[..j]) + CancelsOf(actions[j]);
        ChainMore(program + Doings(actions[..j]), moments, Do(actions[j]), Snapshot());
        assert program + Doings(actions[..j]) + [Do(actions[j])] == program + Doings(actions[..j + 1]);
        moments := moments + [Snapshot()];
      }
      assert actions[..|actions|] == actions;
    }

    /** Runs the callbacks of a batch; the script says what happens meanwhile. */
    method RunBatch(expired: seq<Entry>, script: seq<seq<Action>>) returns (ghost moments: seq<Snap>)
      requires Valid() && calling && reading && batch == expired && canceling == {}
      modifies this`timers, this`active, this`canceling, this`heap, this`freed, this`cancelled, this`pending, this`created, this`fd, this`ran
      ensures Valid() && BatchKept(expired, old(heap), heap)
      ensures ran == old(ran) + Sequences(expired, old(heap))
      ensures Chain(Program(expired, |expired|, script), moments)
      ensures |moments| > 0 && moments[0] == old(Snapshot()) && moments[|moments| - 1] == Snapshot()
      ensures Progress(old(Snapshot()), Cancels(script, |expired|), Snapshot())
    {
      hide SameTimers, OneOwner, Numbered, Cancellations, BatchKept, Sequences, ArmedInTime, Progress, Acted, Chain, Doings, Program, Cancels, CancelsIn, ScriptAt, Called;
      ghost var b := Snapshot();
      KeptAtFirst(timers, batch, pending, heap);
      NothingRan(ran, expired, b.heap);
      NoProgress(b);
      ChainNone(b, expired, script);
      moments := [b];
      for i := 0 to |expired|
        invariant Valid() && BatchKept(expired, b.heap, heap)
        invariant ran == b.ran + Sequences(expired[..i], b.heap)
        invariant Chain(Program(expired, i, script), moments)
        invariant |moments| > 0 && moments[0] == b && moments[|moments| - 1] == Snapshot()
        invariant Progress(b, Cancels(script, i), Snapshot())
      {
        ghost var m, a := Snapshot(), expired[i].addr;
        BatchMember(expired, b.heap, heap, i);
        ran := ran + [heap[a].sequence];
        ProgressCalled(b, Cancels(script, i), m, a);
        CallbackOne(m, a, expired, i, script);
        ChainMore(Program(expired, i, script), moments, Call(a), Snapshot());
        moments := Callback(ScriptAt(script, i), b, Cancels(script, i), Program(expired, i, script) + [Call(a)], moments + [Snapshot()]);
        ChainLength(Program(expired, i + 1, script), moments);
      }
      assert expired[..|expired|] == expired;
    }

    /** The timerfd fired: runs exactly the timers due by now, in order, each callback doing what the script
        says, none of them one whose cancellation had executed before. */
    method HandleRead(now: int, script: seq<seq<Action>>) returns (ghost moments: seq<Snap>)
      requires Valid() && !reading && now > 0
      modifies this
      ensures Valid() && !reading
      ensures Read(old(Snapshot()), now, script, moments, Snapshot()) && Fired(old(Snapshot()), now, script, Snapshot())
    {
      hide SameTimers, OneOwner, Numbered, Cancellations, Sequences, ArmedInTime, Fired, Progress, Chain, Program, BatchKept, Restored, Due, Cancels;
      ghost var s := Snapshot();
      NoneCancelled(timers, active, pending, heap, canceling, cancelled, created, Due(timers, now));
      var expired := BeginRead(now);
      moments := RunBatch(expired, script);
      ghost var m := Snapshot();
      FiredAfter(s, now, script, m);
      calling := false;
      Reset(expired, now);
      reading := false;
    }

    /** The first half of handleRead: the timerfd is read and the timers due become the batch. */
    method BeginRead(now: int) returns (expired: seq<Entry>)
      requires Valid() && !reading
      modifies this`fd, this`timers, this`active, this`batch, this`reading, this`readAt, this`calling, this`canceling
      ensures Valid() && reading && calling && readAt == now && batch == expired
      ensures Snapshot() == Begun(old(Snapshot()), now)
    {
      hide SameTimers, OneOwner, Numbered, Cancellations, Ids, Sorted;
      ghost var n := Due(timers, now);
      ExpiredSame(timers, active, heap, n);
      ExpiredOwner(timers, active, pending, heap, n);
      ExpiredCancellations(timers, active, pending, heap, canceling, cancelled, created, n);
      fd := Off;
      expired := GetExpired(now);
      batch, reading, readAt := expired, true, now;
      calling := true;
      canceling := {};
    }
  }

  lemma ExpiredLive(timers: seq<Entry>, active: set<TimerId>, heap: map<nat, Timer>, n: nat)
    requires SameTimers(timers, active, heap) && n <= |timers|
    ensures forall i :: 0 <= i < n ==> timers[i].addr in heap
    ensures Ids([], heap) == {}
  {
    forall i | 0 <= i < n ensures timers[i].addr in heap {
      assert timers[i] in timers;
    }
  }

  lemma NoneCancelled(timers: seq<Entry>, active: set<TimerId>, pending: set<nat>, heap: map<nat, Timer>,
                      canceling: set<TimerId>, cancelled: set<int>, created: nat, n: nat)
    requires Cancellations(timers, [], pending, heap, canceling, cancelled, created) && SameTimers(timers, active, heap)
    requires n <= |timers|
    ensures forall s :: s in Sequences(timers[..n], heap) ==> s !in cancelled
  {
    forall i | 0 <= i < n ensures timers[i].addr in heap && heap[timers[i].addr].sequence !in cancelled {
      assert timers[i] in timers;
    }
  }

  lemma ChainNone(s: Snap, batch: seq<Entry>, script: seq<seq<Action>>)
    ensures Chain([], [s]) && Cancels(script, 0) == {} && Program(batch, 0, script) == []
  {
  }

  lemma CallbackOne(m: Snap, a: nat, batch: seq<Entry>, i: nat, script: seq<seq<Action>>)
    requires i < |batch| && a == batch[i].addr && a in m.heap
    ensures Called(m, a) == m.(ran := m.ran + [m.heap[a].sequence])
    ensures Program(batch, i + 1, script) == Program(batch, i, script) + [Call(a)] + Doings(ScriptAt(script, i))
    ensures Cancels(script, i + 1) == Cancels(script, i) + CancelsIn(ScriptAt(script, i))
  {
  }

  lemma ChainLength(program: seq<Doing>, moments: seq<Snap>)
    requires Chain(program, moments)
    ensures |moments| == |program| + 1
  {
    hide Done;
  }

  lemma ChainMore(program: seq<Doing>, moments: seq<Snap>, doing: Doing, t: Snap)
    requires Chain(program, moments) && Done(moments[|moments| - 1], doing, t)
    ensures Chain(program + [doing], moments + [t])
  {
    hide Done;
  }

  lemma ProgressCalled(b: Snap, done: set<TimerId>, s: Snap, a: nat)
    requires Progress(b, done, s)
    ensures Progress(b, done, Called(s, a))
  {
  }

  lemma NothingRan(ran: seq<int>, expired: seq<Entry>, heap: map<nat, Timer>)
    ensures ran == ran + Sequences(expired[..0], heap)
  {
  }

  lemma BatchMember(expired: seq<Entry>, heap0: map<nat, Timer>, heap: map<nat, Timer>, i: nat)
    requires i < |expired| && BatchKept(expired, heap0, heap)
    ensures expired[i].addr in heap
    ensures Sequences(expired[..i + 1], heap0) == Sequences(expired[..i], heap0) + [heap[expired[i].addr].sequence]
  {
    assert expired[i] in expired;
  }

  lemma KeptTwice(batch: seq<Entry>, h0: map<nat, Timer>, h1: map<nat, Timer>, h2: map<nat, Timer>)
    requires BatchKept(batch, h0, h1) && BatchKept(batch, h1, h2)
    ensures BatchKept(batch, h0, h2)
  {
  }

  /** The two indexes hold the same number of timers, as every operation asserts. */
  lemma {:induction false} SameSize(timers: seq<Entry>, active: set<TimerId>, heap: map<nat, Timer>)
    requires SameTimers(timers, active, heap)
    ensures |timers| == |active|
    decreases |timers|
  {
    if timers == [] {
      assert forall id :: id !in active;
      assert active == {};
    } else {
      var e := timers[0];
      assert e in timers;
      var id := TimerId(e.addr, heap[e.addr].sequence);
      CancelSame(timers, active, heap, id);
      ErasedSorted(timers, e);
      SameSize(Erased(timers, e), active - {id}, heap - {id.addr});
    }
  }

  // ---- whole runs

  /** What the loop does next: a request made on the loop thread or a timer made on another, a queued
      insertion, or a firing of the timerfd. */
  datatype Event = Request(action: Action) | Functor(addr: nat) | Fire(now: int, script: seq<seq<Action>>)

  ghost predicate Effect(s: Snap, event: Event, t: Snap) {
    match event
    case Request(action) => Acted(s, action, t)
    case Functor(a) => t == if a in s.pending && a in s.heap then TakenOver(s, a) else s
    case Fire(now, script) => 
      if now > 0 then (exists moments :: Read(s, now, script, moments, t)) && Fired(s, now, script, t) else t == s
  }

  /** A moment between two events: the invariants hold, both indexes have the same size and no callback runs. */
  ghost predicate AtRest(s: Snap) {
    Sound(s) && |s.timers| == |s.active| && !s.calling && s.batch == []
  }

  /** The history of a run: it starts empty and each event has its effect on the moment before. */
  ghost predicate History(events: seq<Event>, trace: seq<Snap>) {
    && |trace| == |events| + 1 && trace[0] == EMPTY
    && (forall i :: 0 <= i < |trace| ==> AtRest(trace[i]))
    && (forall i :: 0 <= i < |events| ==> Effect(trace[i], events[i], trace[i + 1]))
  }

  /** Every run has a history, which ends in the queue as it then is. */
  method Run(events: seq<Event>) returns (q: Queue, ghost trace: seq<Snap>)
    ensures q.Valid() && !q.reading
    ensures History(events, trace) && q.Snapshot() == trace[|events|]
  {
    hide SameTimers, OneOwner, Numbered, Cancellations, ArmedInTime, Inserted, BatchKept, Read, Fired, Acted;
    q := new Queue();
    SameSize(q.timers, q.active, q.heap);
    trace := [q.Snapshot()];
    for i := 0 to |events|
      invariant q.Valid() && !q.reading && fresh(q) && History(events[..i], trace) && q.Snapshot() == trace[i]
    {
      ghost var s := q.Snapshot();
      match events[i] {
        case Request(action) =>
          q.Perform(action);
        case Functor(addr) =>
          if addr in q.pending {
            PendingTimer(q.timers, q.batch, q.pending, q.heap, addr);
            q.AddTimerInLoop(addr);
          }
        case Fire(now, script) =>
          if now > 0 {
            ghost var moments := q.HandleRead(now, script);
          }
      }
      SameSize(q.timers, q.active, q.heap);
      HistoryMore(events, i, trace, q.Snapshot());
      trace := trace + [q.Snapshot()];
    }
    assert events[..|events|] == events;
  }

  lemma HistoryMore(events: seq<Event>, i: nat, trace: seq<Snap>, t: Snap)
    requires i < |events| && History(events[..i], trace) && Effect(trace[i], events[i], t) && AtRest(t)
    ensures History(events[..i + 1], trace + [t])
  {
    hide Effect, AtRest;
  }

  // ---- what each event does, field by field

  /** A timer with these times is made at a free address, with the next sequence number. */
  ghost predicate NewIn(s: Snap, a: nat, when: int, repeat: bool, interval: nat, t: Snap) {
    && a !in s.heap && t.created == s.created + 1
    && t.heap == s.heap[a := Timer(when, repeat, interval, s.created + 1)]
  }

  ghost predicate ActedAs(s: Snap, action: Action, t: Snap) {
    && t.ran == s.ran
    && match action
       case Add(when, repeat, interval) =>
         exists a: nat :: NewIn(s, a, when, repeat, interval, t) && t.pending == s.pending
           && t.active == s.active + {TimerId(a, s.created + 1)}
           && forall e :: e in t.timers <==> e in s.timers || e == Entry(when, a)
       case Create(when, repeat, interval) =>
         exists a: nat :: NewIn(s, a, when, repeat, interval, t) && t.pending == s.pending + {a}
           && t.active == s.active && t.timers == s.timers
       case Cancel(id) =>
         && t.pending == s.pending && t.created == s.created
         && t.active == s.active - {id} && t.heap == (if id in s.active then s.heap - {id.addr} else s.heap)
         && (forall e :: e in t.timers <==> e in s.timers && !(id in s.active && e.addr == id.addr))
  }

  lemma AddedFields(s: Snap, action: Action, t: Snap)
    requires Sound(s) && action.Add? && Acted(s, action, t)
    ensures ActedAs(s, action, t)
  {
    hide Sound;
    var a: nat, m: Snap :| Made(s, a, action.when, action.repeat, action.interval, m) && t == TakenOver(m, a);
    InsertedMembers(s.timers, Entry(action.when, a));
    PendingFresh(s, a);
    assert NewIn(s, a, action.when, action.repeat, action.interval, t);
    assert s.pending + {a} - {a} == s.pending;
    hide Inserted, Made;
  }

  lemma CancelledFields(s: Snap, action: Action, t: Snap)
    requires Sound(s) && action.Cancel? && Acted(s, action, t)
    ensures ActedAs(s, action, t)
  {
    var id := action.id;
    if id in s.active {
      CancelSame(s.timers, s.active, s.heap, id);
      CancelledEntries(s, id);
    }
    hide Sound, Erased, IssuedIn, QueuedIn;
  }

  lemma ActedFields(s: Snap, action: Action, t: Snap)
    requires Sound(s) && Acted(s, action, t)
    ensures ActedAs(s, action, t)
  {
    hide Sound;
    match action
    case Add(_, _, _) =>
      AddedFields(s, action, t);
    case Create(when, repeat, interval) =>
      var a: nat :| Made(s, a, when, repeat, interval, t);
      assert NewIn(s, a, when, repeat, interval, t);
    case Cancel(_) =>
      CancelledFields(s, action, t);
  }

  lemma PendingFresh(s: Snap, a: nat)
    requires Sound(s) && a !in s.heap
    ensures a !in s.pending
  {
    hide SameTimers, Numbered, Cancellations, InSeq;
  }

  lemma CancelledEntries(s: Snap, id: TimerId)
    requires Sound(s) && id in s.active && id.addr in s.heap
    ensures forall e :: e in Erased(s.timers, Entry(s.heap[id.addr].expiration, id.addr)) <==> e in s.timers && e.addr != id.addr
  {
    var e := Entry(s.heap[id.addr].expiration, id.addr);
    ErasedSorted(s.timers, e);
    hide Erased, OneOwner, Numbered, Cancellations, Sorted;
  }

  /** Timer k of the queue was due, and is what ran as number k. */
  ghost predicate RanAt(s: Snap, k: nat, now: int, t: Snap)
    requires k < |s.timers| && |s.ran| + k < |t.ran|
  {
    s.timers[k].when <= now && s.timers[k].addr in s.heap && t.ran[|s.ran| + k] == s.heap[s.timers[k].addr].sequence
  }

  /** A queued insertion is done when its functor runs, and only once; a firing runs the timers due, each once, in the
      order of the queue. */
  ghost predicate HappenedAs(s: Snap, event: Event, t: Snap) {
    match event
    case Request(action) => ActedAs(s, action, t)
    case Functor(a) =>
      if a in s.pending && a in s.heap then
        && t.pending == s.pending - {a} && t.heap == s.heap && t.ran == s.ran
        && t.active == s.active + {TimerId(a, s.heap[a].sequence)}
        && forall e :: e in t.timers <==> e in s.timers || e == Entry(s.heap[a].expiration, a)
      else t == s
    case Fire(now, script) =>
      if now > 0 then
        var n := |t.ran| - |s.ran|;
        && 0 <= n <= |s.timers| && s.ran <= t.ran
          && (forall k :: 0 <= k < n ==> RanAt(s, k, now, t))
          && (forall k :: n <= k < |s.timers| ==> s.timers[k].when > now)
      else t == s
  }

  /** In every history each event does exactly this. */
  lemma HappenedExactly(events: seq<Event>, trace: seq<Snap>, i: nat)
    requires History(events, trace) && i < |events|
    ensures |trace| == |events| + 1 && HappenedAs(trace[i], events[i], trace[i + 1])
  {
    hide History, Effect, HappenedAs, AtRest;
    LongEnough(events, trace);
    Happened(events, trace, i);
    RestAt(events, trace, i);
    EventFields(trace[i], events[i], trace[i + 1]);
  }

  /** And at every moment the queue is in the order of the pairs: by expiration, and at one expiration by address. */
  lemma Ordered(events: seq<Event>, trace: seq<Snap>, i: nat, j: nat, k: nat)
    requires History(events, trace) && i < |trace| && j < k < |trace[i].timers|
    ensures var e, f := trace[i].timers[j], trace[i].timers[k];
      e.when < f.when || (e.when == f.when && e.addr < f.addr)
  {
    RestAt(events, trace, i);
    hide History, OneOwner, Numbered, Cancellations;
    assert Sorted(trace[i].timers);
  }

  lemma EventFields(s: Snap, event: Event, t: Snap)
    requires AtRest(s) && Effect(s, event, t)
    ensures HappenedAs(s, event, t)
  {
    hide Sound, Acted, ActedAs, Inserted, Fired, Read;
    match event
    case Request(action) => ActedFields(s, action, t);
    case Functor(a) =>
      if a in s.heap {
        InsertedMembers(s.timers, Entry(s.heap[a].expiration, a));
      }
    case Fire(now, script) =>
      if now > 0 {
        FiredAs(s, now, script, t);
      }
  }

  lemma RestAt(events: seq<Event>, trace: seq<Snap>, i: nat)
    requires History(events, trace) && i < |trace|
    ensures AtRest(trace[i])
  {
    hide Effect, AtRest;
  }

  lemma FiredAs(s: Snap, now: int, script: seq<seq<Action>>, t: Snap)
    requires Sound(s) && Fired(s, now, script, t)
    ensures var n := Due(s.timers, now);
      && |t.ran| == |s.ran| + n && s.ran <= t.ran
      && (forall k :: 0 <= k < n ==> RanAt(s, k, now, t))
      && (forall k :: n <= k < |s.timers| ==> s.timers[k].when > now)
  {
    hide Sound, DueServed, LaterSpared, Due;
    var n := Due(s.timers, now);
    SoundTimers(s);
    DueExactly(s.timers, now);
    ExpiredLive(s.timers, s.active, s.heap, n);
    hide SameTimers, Sorted;
    forall k | 0 <= k < n ensures RanAt(s, k, now, t) {
      assert s.timers[..n][k] == s.timers[k];
    }
    forall k | n <= k < |s.timers| ensures s.timers[k].when > now {
      assert s.timers[k] == s.timers[n..][k - n];
    }
  }

  lemma SoundTimers(s: Snap)
    requires Sound(s)
    ensures SameTimers(s.timers, s.active, s.heap) && Sorted(s.timers)
  {
    hide OneOwner, Numbered, Cancellations, Sorted;
  }

  /** Cancelling is for ever, and what has run is never taken back. */
  lemma EffectGrows(s: Snap, event: Event, t: Snap)
    requires Effect(s, event, t)
    ensures s.cancelled <= t.cancelled && s.ran <= t.ran
    ensures !event.Fire? ==> t.ran == s.ran
  {
  }

  lemma LongEnough(events: seq<Event>, trace: seq<Snap>)
    requires History(events, trace)
    ensures |trace| == |events| + 1
  {
    hide Effect, AtRest;
  }

  lemma Happened(events: seq<Event>, trace: seq<Snap>, i: nat)
    requires History(events, trace) && i < |events|
    ensures Effect(trace[i], events[i], trace[i + 1])
  {
    hide Effect, AtRest;
  }

  lemma {:induction false} CancelledGrows(events: seq<Event>, trace: seq<Snap>, i: nat, k: nat)
    requires History(events, trace) && i <= k <= |events|
    ensures trace[i].cancelled <= trace[k].cancelled
    decreases k - i
  {
    hide History, Effect;
    if i < k {
      LongEnough(events, trace);
      Happened(events, trace, i);
      EffectGrows(trace[i], events[i], trace[i + 1]);
      CancelledGrows(events, trace, i + 1, k);
    }
  }

  lemma EffectSpares(s: Snap, event: Event, t: Snap, sequence: int)
    requires Effect(s, event, t) && sequence in s.cancelled
    ensures s.ran <= t.ran && sequence !in t.ran[|s.ran|..]
  {
    EffectGrows(s, event, t);
    hide Acted, Read, DueServed, LaterSpared, Due, Sequences;
    if event.Fire? && event.now > 0 {
      assert t.ran[|s.ran|..] == Sequences(s.timers[..Due(s.timers, event.now)], s.heap);
    }
  }

  /** A timer that has been cancelled at some moment is in no later batch. */
  lemma NeverAgain(events: seq<Event>, trace: seq<Snap>, i: nat, k: nat, sequence: int)
    requires History(events, trace) && i <= k < |events| && sequence in trace[i].cancelled
    ensures trace[k].ran <= trace[k + 1].ran && sequence !in trace[k + 1].ran[|trace[k].ran|..]
  {
    hide History, Effect;
    LongEnough(events, trace);
    CancelledGrows(events, trace, i, k);
    Happened(events, trace, k);
    EffectSpares(trace[k], events[k], trace[k + 1], sequence);
  }

  lemma EffectCancels(s: Snap, id: TimerId, t: Snap)
    requires Effect(s, Request(Cancel(id)), t) && IssuedIn(s.heap, s.freed, id) && !QueuedIn(s.heap, s.pending, id)
    ensures id.sequence in t.cancelled
  {
    hide IssuedIn, QueuedIn, Erased;
  }

  /** A cancellation keeps its timer from every later batch if the id was given out and its insertion is not
      still queued. */
  lemma CancelledNeverRuns(events: seq<Event>, trace: seq<Snap>, i: nat, k: nat, id: TimerId)
    requires History(events, trace) && i < k < |events| && events[i] == Request(Cancel(id))
    requires IssuedIn(trace[i].heap, trace[i].freed, id) && !QueuedIn(trace[i].heap, trace[i].pending, id)
    ensures trace[k].ran <= trace[k + 1].ran && id.sequence !in trace[k + 1].ran[|trace[k].ran|..]
  {
    hide History, Effect, IssuedIn, QueuedIn;
    LongEnough(events, trace);
    Happened(events, trace, i);
    EffectCancels(trace[i], id, trace[i + 1]);
    NeverAgain(events, trace, i + 1, k, id.sequence);
  }

  lemma {:induction false} RestoredCancelled(s: Snap, now: int)
    ensures Restored(s, now).cancelled == s.cancelled
    decreases |s.batch|
  {
    if s.batch != [] {
      RestoredCancelled(HeadRestored(s, now), now);
    }
  }

  lemma DoneGrows(s: Snap, doing: Doing, t: Snap)
    requires Done(s, doing, t)
    ensures s.cancelled <= t.cancelled
  {
    hide Inserted, Erased;
  }

  lemma {:induction false} ChainGrows(program: seq<Doing>, moments: seq<Snap>, p: nat)
    requires Chain(program, moments) && p <= |program|
    ensures moments[p].cancelled <= moments[|program|].cancelled
    decreases |program| - p
  {
    hide Done;
    if p < |program| {
      DoneGrows(moments[p], program[p], moments[p + 1]);
      ChainGrows(program, moments, p + 1);
    }
  }

  /** The same for a cancellation inside a callback of a firing, at whichever of its moments: also for a timer that
      an earlier callback of the firing made. */
  lemma CancelledInCallback(events: seq<Event>, trace: seq<Snap>, i: nat, k: nat, now: int, script: seq<seq<Action>>,
                            moments: seq<Snap>, p: nat, id: TimerId)
    requires History(events, trace) && i < k < |events| && events[i] == Fire(now, script) && now > 0
    requires Read(trace[i], now, script, moments, trace[i + 1])
    requires var batch := Begun(trace[i], now).batch; var program := Program(batch, |batch|, script);
             p < |program| && program[p] == Do(Cancel(id))
    requires IssuedIn(moments[p].heap, moments[p].freed, id) && !QueuedIn(moments[p].heap, moments[p].pending, id)
    ensures id.sequence in trace[i + 1].cancelled
    ensures trace[k].ran <= trace[k + 1].ran && id.sequence !in trace[k + 1].ran[|trace[k].ran|..]
  {
    CancelledByFiring(trace[i], now, script, moments, trace[i + 1], p, id);
    hide Read, Program, Begun;
    NeverAgain(events, trace, i + 1, k, id.sequence);
  }

  lemma CancelledByFiring(s: Snap, now: int, script: seq<seq<Action>>, moments: seq<Snap>, t: Snap, p: nat, id: TimerId)
    requires Read(s, now, script, moments, t)
    requires var batch := Begun(s, now).batch; var program := Program(batch, |batch|, script);
             p < |program| && program[p] == Do(Cancel(id))
    requires IssuedIn(moments[p].heap, moments[p].freed, id) && !QueuedIn(moments[p].heap, moments[p].pending, id)
    ensures id.sequence in t.cancelled
  {
    var batch := Begun(s, now).batch;
    var program := Program(batch, |batch|, script);
    hide Program, Begun, IssuedIn, QueuedIn, Erased;
    assert Done(moments[p], program[p], moments[p + 1]);
    assert id.sequence in moments[p + 1].cancelled;
    ChainGrows(program, moments, p + 1);
    RestoredCancelled(moments[|program|].(calling := false), now);
  }

  /** Cancelling takes effect exactly when the id was given out and its insertion is not still queued; while it is,
      nothing at all changes. */
  lemma CancelExactly(s: Snap, id: TimerId)
    requires AtRest(s) && id.sequence !in s.cancelled
    ensures id.sequence in Cancelled(s, id).cancelled <==> IssuedIn(s.heap, s.freed, id) && !QueuedIn(s.heap, s.pending, id)
    ensures QueuedIn(s.heap, s.pending, id) ==> Cancelled(s, id) == s
  {
    if id in s.active {
      ActiveNotPending(s, id);
    }
    hide OneOwner, Numbered, Cancellations, Sorted, Erased;
  }

  lemma OneDue(heap: map<nat, Timer>, a: nat, t: Timer, now: int)
    requires a in heap && heap[a] == t && t.expiration <= now
    ensures var s := Inserted([], Entry(t.expiration, a));
            Sequences(s[..Due(s, now)], heap) == [t.sequence]
  {
    var s := Inserted([], Entry(t.expiration, a));
    assert s == [Entry(t.expiration, a)];
    assert Due(s[1..], now) == 0;
  }

  /** A cancellation that executes while the insertion is still queued has no effect: the timer runs. */
  method CancelTooEarly() returns (q: Queue, id: TimerId)
    ensures q.ran == [id.sequence]
  {
    hide SameTimers, OneOwner, Numbered, Cancellations, ArmedInTime, Sequences, Inserted, BatchKept, Due;
    q := new Queue();
    id := q.NewTimer(5, false, 0);
    q.CancelInLoop(id);
    q.AddTimerInLoop(id.addr);
    OneDue(q.heap, id.addr, Timer(5, false, 0, id.sequence), 10);
    ghost var moments := q.HandleRead(10, []);
  }
}
