/** The bounded blocking queue, as its threads interleave: one mutex, two condition variables, spurious wakeups,
    and newcomers who may take the mutex before a woken thread gets it back. */
module BoundedQueue {

  datatype Option<+T> = None | Some(value: T)

  datatype Op<+T> = Put(item: T) | Take

  /** Where a thread stands. Woken says that a notify, not chance, ended its last wait. */
  datatype Pc<+T> =
    | Idle
    | Entering(op: Op<T>)
    | Testing(op: Op<T>, woken: bool)
    | Blocked(op: Op<T>)
    | Returning(op: Op<T>, woken: bool)
    | Acting(op: Op<T>, woken: bool)
    | Notifying(op: Op<T>, got: Option<T>)
    | Leaving(op: Op<T>, got: Option<T>)

  /** What a schedule is made of: a call, a step of a thread (whom it would wake), a wait that ends by chance. */
  datatype Event<+T> = Call(t: nat, op: Op<T>) | Step(t: nat, u: nat) | Spurious(t: nat)

  predicate Holds<T>(pc: Pc<T>) {
    pc.Testing? || pc.Acting? || pc.Notifying? || pc.Leaving?
  }

  predicate Waits<T>(pc: Pc<T>, take: bool) {
    pc.Blocked? && pc.op.Take? == take
  }

  /** Woken by a notify, and not yet through with its push or pop. */
  predicate Awake<T>(pc: Pc<T>, take: bool) {
    (pc.Returning? || pc.Testing? || pc.Acting?) && pc.woken && pc.op.Take? == take
  }

  /** How many of the threads are awake. */
  ghost function AwakeCount<T>(pcs: seq<Pc<T>>, take: bool): nat {
    if pcs == [] then 0 else (if Awake(pcs[0], take) then 1 else 0) + AwakeCount(pcs[1..], take)
  }

  lemma {:induction false} AwakeUpdate<T>(pcs: seq<Pc<T>>, t: nat, pc: Pc<T>, take: bool)
    requires t < |pcs|
    ensures AwakeCount(pcs[t := pc], take) + (if Awake(pcs[t], take) then 1 else 0)
         == AwakeCount(pcs, take) + (if Awake(pc, take) then 1 else 0)
  {
    if t > 0 {
      AwakeUpdate(pcs[1..], t - 1, pc, take);
      assert pcs[t := pc][1..] == pcs[1..][t - 1 := pc];
    } else {
      assert pcs[t := pc][1..] == pcs[1..];
    }
  }

  /** Steps left to a thread, and to wake another, at most. */
  function Rank<T>(pc: Pc<T>): nat {
    match pc
    case Idle => 0
    case Leaving(_, _) => 1
    case Notifying(_, _) => 4
    case Acting(_, _) => 5
    case Blocked(_) => 5
    case Testing(_, _) => 6
    case Returning(_, _) => 7
    case Entering(_) => 7
  }

  ghost function Work<T>(pcs: seq<Pc<T>>): nat {
    if pcs == [] then 0 else Rank(pcs[0]) + Work(pcs[1..])
  }

  lemma {:induction false} WorkUpdate<T>(pcs: seq<Pc<T>>, t: nat, pc: Pc<T>)
    requires t < |pcs|
    ensures Work(pcs[t := pc]) + Rank(pcs[t]) == Work(pcs) + Rank(pc)
  {
    if t > 0 {
      WorkUpdate(pcs[1..], t - 1, pc);
      assert pcs[t := pc][1..] == pcs[1..][t - 1 := pc];
    } else {
      assert pcs[t := pc][1..] == pcs[1..];
    }
  }

  /** The holder of the mutex, and only it, is where the mutex is held. */
  ghost predicate Exclusive<T>(pcs: seq<Pc<T>>, holder: Option<nat>) {
    && (forall t :: 0 <= t < |pcs| ==> (Holds(pcs[t]) <==> holder == Some(t)))
    && (holder.Some? ==> holder.value < |pcs|)
  }

  /** Items for takers, free places for putters. */
  function Room(len: nat, capacity: nat, take: bool): nat
    requires len <= capacity
  {
    if take then len else capacity - len
  }

  /** A thread sits between its push and its notify, or its pop and its notify. */
  ghost predicate Announcing<T>(pcs: seq<Pc<T>>, take: bool) {
    exists t :: 0 <= t < |pcs| && pcs[t].Notifying? && pcs[t].op.Take? != take
  }

  /** Nobody is stranded: while a thread waits that no notify has woken, there are no more items (or free places)
      than awake threads to use them, but for one about to be announced. */
  ghost predicate NoneStranded<T>(pcs: seq<Pc<T>>, len: nat, capacity: nat, take: bool)
    requires len <= capacity
  {
    (exists t :: 0 <= t < |pcs| && Waits(pcs[t], take)) ==>
      Room(len, capacity, take) <= AwakeCount(pcs, take) + (if Announcing(pcs, take) then 1 else 0)
  }

  /** What every step keeps, apart from the content. */
  ghost predicate Orderly<T>(pcs: seq<Pc<T>>, holder: Option<nat>, len: nat, capacity: nat) {
    && len <= capacity && Exclusive(pcs, holder)
    && (forall t :: 0 <= t < |pcs| && pcs[t].Acting? ==> Room(len, capacity, pcs[t].op.Take?) > 0)
    && NoneStranded(pcs, len, capacity, true) && NoneStranded(pcs, len, capacity, false)
  }

  /** A thread that moves on without pushing, popping or notifying strands nobody. */
  lemma StrandedKept<T>(pcs: seq<Pc<T>>, t: nat, pc: Pc<T>, len: nat, capacity: nat, take: bool)
    requires t < |pcs| && len <= capacity && NoneStranded(pcs, len, capacity, take)
    requires !pc.Notifying? && !pcs[t].Notifying? && Awake(pc, take) == Awake(pcs[t], take)
    requires Waits(pc, take) ==> Waits(pcs[t], take)
    ensures NoneStranded(pcs[t := pc], len, capacity, take)
  {
    AwakeUpdate(pcs, t, pc, take);
    hide AwakeCount, Room, Awake, Waits;
    var after := pcs[t := pc];
    if exists u :: 0 <= u < |after| && Waits(after[u], take) {
      var u :| 0 <= u < |after| && Waits(after[u], take);
      assert Waits(pcs[u], take);
    }
    if Announcing(pcs, take) {
      var u :| 0 <= u < |pcs| && pcs[u].Notifying? && pcs[u].op.Take? != take;
      assert after[u] == pcs[u];
    }
  }

  /** One that goes to wait finds no room. */
  lemma StrandedBlocked<T>(pcs: seq<Pc<T>>, t: nat, pc: Pc<T>, len: nat, capacity: nat)
    requires t < |pcs| && len <= capacity && pc.Blocked? && pcs[t].Testing? && pc.op == pcs[t].op
    requires NoneStranded(pcs, len, capacity, true) && NoneStranded(pcs, len, capacity, false)
    requires Room(len, capacity, pc.op.Take?) == 0
    ensures NoneStranded(pcs[t := pc], len, capacity, true) && NoneStranded(pcs[t := pc], len, capacity, false)
  {
    StrandedKept(pcs, t, pc, len, capacity, !pc.op.Take?);
  }

  /** A push or pop by the holder: the room it uses was its own, the room it makes is about to be announced. */
  lemma StrandedActed<T>(pcs: seq<Pc<T>>, t: nat, pc: Pc<T>, len: nat, capacity: nat, len': nat)
    requires t < |pcs| && len <= capacity && pcs[t].Acting? && pc.Notifying? && pc.op == pcs[t].op
    requires forall u :: 0 <= u < |pcs| ==> !pcs[u].Notifying?
    requires NoneStranded(pcs, len, capacity, true) && NoneStranded(pcs, len, capacity, false)
    requires len' <= capacity && len' == if pc.op.Take? then len - 1 else len + 1
    ensures NoneStranded(pcs[t := pc], len', capacity, true) && NoneStranded(pcs[t := pc], len', capacity, false)
  {
    var after := pcs[t := pc];
    assert after[t].Notifying?;
    forall take: bool ensures NoneStranded(after, len', capacity, take) {
      AwakeUpdate(pcs, t, pc, take);
      hide AwakeCount, Awake, Waits;
      assert !Announcing(pcs, take);
      if exists u :: 0 <= u < |after| && Waits(after[u], take) {
        var u :| 0 <= u < |after| && Waits(after[u], take);
        assert Waits(pcs[u], take);
      }
    }
  }

  /** The announcement wakes one that waits, if any does. */
  lemma StrandedNotified<T>(pcs: seq<Pc<T>>, t: nat, pc: Pc<T>, u: nat, len: nat, capacity: nat)
    requires t < |pcs| && len <= capacity && pcs[t].Notifying? && pc.Leaving? && pc.op == pcs[t].op
    requires forall v :: 0 <= v < |pcs| && pcs[v].Notifying? ==> v == t
    requires NoneStranded(pcs, len, capacity, true) && NoneStranded(pcs, len, capacity, false)
    requires u < |pcs| && (Waits(pcs[u], !pc.op.Take?) || forall v :: 0 <= v < |pcs| ==> !Waits(pcs[v], !pc.op.Take?))
    ensures var after := pcs[t := pc];
      var woken := if Waits(pcs[u], !pc.op.Take?) then after[u := Returning(pcs[u].op, true)] else after;
      NoneStranded(woken, len, capacity, true) && NoneStranded(woken, len, capacity, false)
  {
    var take := !pc.op.Take?;
    var after := pcs[t := pc];
    var woken := if Waits(pcs[u], take) then after[u := Returning(pcs[u].op, true)] else after;
    forall kind: bool ensures NoneStranded(woken, len, capacity, kind) {
      AwakeUpdate(pcs, t, pc, kind);
      if Waits(pcs[u], take) {
        AwakeUpdate(after, u, Returning(pcs[u].op, true), kind);
      }
      hide AwakeCount, Room;
      assert !Announcing(pcs, !take);
      if exists v :: 0 <= v < |woken| && Waits(woken[v], kind) {
        var v :| 0 <= v < |woken| && Waits(woken[v], kind);
        assert Waits(pcs[v], kind);
      }
    }
  }

  lemma OrderlyNotified<T>(pcs: seq<Pc<T>>, holder: Option<nat>, t: nat, pc: Pc<T>, u: nat, len: nat, capacity: nat)
    requires Orderly(pcs, holder, len, capacity)
    requires t < |pcs| && pcs[t].Notifying? && pc.Leaving? && pc.op == pcs[t].op
    requires u < |pcs| && (Waits(pcs[u], !pc.op.Take?) || forall v :: 0 <= v < |pcs| ==> !Waits(pcs[v], !pc.op.Take?))
    ensures var after := pcs[t := pc];
      var woken := if Waits(pcs[u], !pc.op.Take?) then after[u := Returning(pcs[u].op, true)] else after;
      Orderly(woken, holder, len, capacity) && Work(woken) < Work(pcs)
  {
    StrandedNotified(pcs, t, pc, u, len, capacity);
    WorkUpdate(pcs, t, pc);
    hide NoneStranded, Work;
    if Waits(pcs[u], !pc.op.Take?) {
      WorkUpdate(pcs[t := pc], u, Returning(pcs[u].op, true));
    }
  }

  /** Can a thread take a step now? */
  predicate CanGo<T>(pc: Pc<T>, holder: Option<nat>) {
    match pc
    case Idle => false
    case Blocked(_) => false
    case Entering(_) => holder == None
    case Returning(_, _) => holder == None
    case _ => true
  }

  /** All threads are idle or wait, takers for an empty queue and putters for a full one. */
  ghost predicate AtRest<T>(pcs: seq<Pc<T>>, len: nat, capacity: nat) {
    && (forall t :: 0 <= t < |pcs| ==> pcs[t].Idle? || pcs[t].Blocked?)
    && (forall t :: 0 <= t < |pcs| && Waits(pcs[t], true) ==> len == 0)
    && (forall t :: 0 <= t < |pcs| && Waits(pcs[t], false) ==> len == capacity)
  }

  lemma {:induction false} NoneAwake<T>(pcs: seq<Pc<T>>, take: bool)
    requires forall t :: 0 <= t < |pcs| ==> pcs[t].Idle? || pcs[t].Blocked?
    ensures AwakeCount(pcs, take) == 0
  {
    if pcs != [] {
      NoneAwake(pcs[1..], take);
    }
  }

  lemma HolderGoes<T>(pcs: seq<Pc<T>>, holder: Option<nat>)
    requires Exclusive(pcs, holder)
    ensures holder.Some? ==> CanGo(pcs[holder.value], holder)
  {
  }

  /** When nobody can go, nobody waits for what is there. */
  lemma NoDeadlock<T>(pcs: seq<Pc<T>>, holder: Option<nat>, len: nat, capacity: nat)
    requires Orderly(pcs, holder, len, capacity)
    requires forall t :: 0 <= t < |pcs| ==> !CanGo(pcs[t], holder)
    ensures AtRest(pcs, len, capacity) && holder == None
  {
    HolderGoes(pcs, holder);
    NoneAwake(pcs, true);
    NoneAwake(pcs, false);
  }

  // ---- what each event does, on values

  /** The queue and its threads at one moment, with all that was ever put, and taken, in order. */
  datatype Moment<T> = Moment(items: seq<T>, holder: Option<nat>, pcs: seq<Pc<T>>, puts: seq<T>, takes: seq<T>)

  /** The next step of a thread takes the queue from m to m'; u is whom it would wake. */
  ghost predicate Went<T>(capacity: nat, m: Moment<T>, t: nat, u: nat, m': Moment<T>)
    requires t < |m.pcs|
  {
    match m.pcs[t]
    case Entering(op) => m' == m.(holder := Some(t), pcs := m.pcs[t := Testing(op, false)])
    case Returning(op, woken) => m' == m.(holder := Some(t), pcs := m.pcs[t := Testing(op, woken)])
    case Testing(op, woken) =>
      if (if op.Take? then |m.items| == 0 else |m.items| == capacity)
      then m' == m.(holder := None, pcs := m.pcs[t := Blocked(op)])
      else m' == m.(pcs := m.pcs[t := Acting(op, woken)])
    case Acting(Put(x), _) =>
      m' == m.(items := m.items + [x], puts := m.puts + [x], pcs := m.pcs[t := Notifying(Put(x), None)])
    case Acting(Take, _) =>
      && m.items != []
      && m' == m.(items := m.items[1..], takes := m.takes + [m.items[0]], pcs := m.pcs[t := Notifying(Take, Some(m.items[0]))])
    case Notifying(op, got) => m' == m.(pcs := m'.pcs) && Notified(m.pcs, t, op, got, u, m'.pcs)
    case Leaving(_, _) => m' == m.(holder := None, pcs := m.pcs[t := Idle])
    case Idle => false
    case Blocked(_) => false
  }

  /** If threads wait on the other condition, one of them wakes, u if it is one of them. */
  ghost predicate Notified<T>(pcs: seq<Pc<T>>, t: nat, op: Op<T>, got: Option<T>, u: nat, pcs': seq<Pc<T>>)
    requires t < |pcs|
  {
    var after := pcs[t := Leaving(op, got)];
    if exists v :: 0 <= v < |pcs| && Waits(pcs[v], !op.Take?) then
      exists v :: 0 <= v < |pcs| && Waits(pcs[v], !op.Take?) && pcs' == after[v := Returning(pcs[v].op, true)]
        && (u < |pcs| && Waits(pcs[u], !op.Take?) ==> v == u)
    else pcs' == after
  }

  /** An event takes the queue from m to m'; what a thread cannot do is skipped. */
  ghost predicate Happened<T>(capacity: nat, m: Moment<T>, e: Event<T>, m': Moment<T>) {
    match e
    case Call(t, op) => m' == if t < |m.pcs| && m.pcs[t].Idle? then m.(pcs := m.pcs[t := Entering(op)]) else m
    case Step(t, u) => if t < |m.pcs| && CanGo(m.pcs[t], m.holder) then Went(capacity, m, t, u, m') else m' == m
    case Spurious(t) =>
      m' == if t < |m.pcs| && m.pcs[t].Blocked? then m.(pcs := m.pcs[t := Returning(m.pcs[t].op, false)]) else m
  }

  /** The history of a schedule: each event has its effect on the moment before. */
  ghost predicate History<T>(capacity: nat, schedule: seq<Event<T>>, trace: seq<Moment<T>>) {
    && |trace| == |schedule| + 1
    && forall i :: 0 <= i < |schedule| ==> Happened(capacity, trace[i], schedule[i], trace[i + 1])
  }

  lemma HistoryMore<T>(capacity: nat, schedule: seq<Event<T>>, i: nat, trace: seq<Moment<T>>, m: Moment<T>)
    requires i < |schedule| && History(capacity, schedule[..i], trace) && Happened(capacity, trace[i], schedule[i], m)
    ensures History(capacity, schedule[..i + 1], trace + [m])
  {
    hide Happened;
  }

  // ---- no call is lost, and none is done twice

  /** What a thread has been asked to put or take and has not yet put or taken. */
  ghost function Wanted<T>(pc: Pc<T>): multiset<Op<T>> {
    if pc.Idle? || pc.Notifying? || pc.Leaving? then multiset{} else multiset{pc.op}
  }

  ghost function Wanting<T>(pcs: seq<Pc<T>>): multiset<Op<T>> {
    if pcs == [] then multiset{} else Wanted(pcs[0]) + Wanting(pcs[1..])
  }

  lemma BothSides<Z>(a: multiset<Z>, b: multiset<Z>, c: multiset<Z>, d: multiset<Z>, e: multiset<Z>)
    requires b + c == d + e
    ensures a + b + c == a + d + e
  {
    assert a + b + c == a + (b + c);
    assert a + d + e == a + (d + e);
  }

  lemma Without<Z>(a: multiset<Z>, b: multiset<Z>)
    ensures a + multiset{} == a && multiset{} + a == a
    ensures (forall c :: a + c == b + c ==> a == b)
  {
    forall c | a + c == b + c ensures a == b {
      assert a + c - c == a && b + c - c == b;
    }
  }

  lemma {:induction false} WantingUpdate<T>(pcs: seq<Pc<T>>, t: nat, pc: Pc<T>)
    requires t < |pcs|
    ensures Wanting(pcs[t := pc]) + Wanted(pcs[t]) == Wanting(pcs) + Wanted(pc)
  {
    hide Wanted;
    if t > 0 {
      WantingUpdate(pcs[1..], t - 1, pc);
      assert pcs[t := pc][1..] == pcs[1..][t - 1 := pc];
      BothSides(Wanted(pcs[0]), Wanting(pcs[1..][t - 1 := pc]), Wanted(pcs[t]), Wanting(pcs[1..]), Wanted(pc));
    } else {
      assert pcs[t := pc][1..] == pcs[1..];
      BothSides(multiset{}, Wanted(pc) + Wanting(pcs[1..]), Wanted(pcs[0]), Wanted(pcs[0]) + Wanting(pcs[1..]), Wanted(pc));
      Without(Wanted(pc) + Wanting(pcs[1..]), multiset{});
      Without(Wanted(pcs[0]) + Wanting(pcs[1..]), multiset{});
    }
  }

  ghost function PutOps<T>(items: seq<T>): multiset<Op<T>> {
    if items == [] then multiset{} else PutOps(items[..|items| - 1]) + multiset{Put(items[|items| - 1])}
  }

  ghost function TakeOps<T>(items: seq<T>): multiset<Op<T>> {
    if items == [] then multiset{} else TakeOps(items[..|items| - 1]) + multiset{Take}
  }

  lemma OneMore<T>(items: seq<T>, x: T)
    ensures PutOps(items + [x]) == PutOps(items) + multiset{Put(x)}
    ensures TakeOps(items + [x]) == TakeOps<T>(items) + multiset{Take}
  {
    assert (items + [x])[..|items|] == items;
  }

  /** What has been put or taken, and what threads have been asked to. */
  ghost function Known<T>(m: Moment<T>): multiset<Op<T>> {
    KnownOf(m.puts, m.takes, m.pcs)
  }

  ghost function KnownOf<T>(puts: seq<T>, takes: seq<T>, pcs: seq<Pc<T>>): multiset<Op<T>> {
    PutOps(puts) + TakeOps(takes) + Wanting(pcs)
  }

  /** What idle threads are asked by the first i events. */
  ghost function Called<T>(schedule: seq<Event<T>>, trace: seq<Moment<T>>, i: nat): multiset<Op<T>>
    requires i <= |schedule| < |trace|
  {
    if i == 0 then multiset{} else
      Called(schedule, trace, i - 1) + CallOf(trace[i - 1], schedule[i - 1])
  }

  ghost function CallOf<T>(m: Moment<T>, e: Event<T>): multiset<Op<T>> {
    if e.Call? && e.t < |m.pcs| && m.pcs[e.t].Idle? then multiset{e.op} else multiset{}
  }

  /** Another stage of one thread: what is known grows by what it then wants, and loses what it wanted. */
  lemma PcKnown<T>(puts: seq<T>, takes: seq<T>, pcs: seq<Pc<T>>, t: nat, pc: Pc<T>)
    requires t < |pcs|
    ensures KnownOf(puts, takes, pcs[t := pc]) + Wanted(pcs[t]) == KnownOf(puts, takes, pcs) + Wanted(pc)
    ensures Wanted(pcs[t]) == Wanted(pc) ==> KnownOf(puts, takes, pcs[t := pc]) == KnownOf(puts, takes, pcs)
  {
    WantingUpdate(pcs, t, pc);
    hide Wanting, Wanted, PutOps, TakeOps;
    BothSides(PutOps(puts) + TakeOps(takes), Wanting(pcs[t := pc]), Wanted(pcs[t]), Wanting(pcs), Wanted(pc));
    Without(KnownOf(puts, takes, pcs[t := pc]), KnownOf(puts, takes, pcs));
  }

  /** A push or a pop: what the thread wanted is done. */
  lemma PutKnown<T>(puts: seq<T>, takes: seq<T>, pcs: seq<Pc<T>>, t: nat, pc: Pc<T>, x: T)
    requires t < |pcs| && Wanted(pc) == multiset{} && Wanted(pcs[t]) == multiset{Put(x)}
    ensures KnownOf(puts + [x], takes, pcs[t := pc]) == KnownOf(puts, takes, pcs)
  {
    OneMore(puts, x);
    PcKnown(puts, takes, pcs, t, pc);
    Without(KnownOf(puts, takes, pcs), multiset{});
    hide Wanting, Wanted, PutOps, TakeOps;
    Moved(PutOps(puts), TakeOps(takes), Wanting(pcs[t := pc]), multiset{Put(x)});
  }

  lemma TakeKnown<T>(puts: seq<T>, takes: seq<T>, pcs: seq<Pc<T>>, t: nat, pc: Pc<T>, x: T)
    requires t < |pcs| && Wanted(pc) == multiset{} && Wanted(pcs[t]) == multiset{Take}
    ensures KnownOf(puts, takes + [x], pcs[t := pc]) == KnownOf(puts, takes, pcs)
  {
    OneMore(takes, x);
    PcKnown(puts, takes, pcs, t, pc);
    Without(KnownOf(puts, takes, pcs), multiset{});
    hide Wanting, Wanted, PutOps, TakeOps;
    Moved(PutOps(puts), TakeOps(takes), Wanting(pcs[t := pc]), multiset{Take});
  }

  lemma Moved<Z>(p: multiset<Z>, q: multiset<Z>, w: multiset<Z>, x: multiset<Z>)
    ensures p + x + q + w == p + q + w + x
    ensures p + (q + x) + w == p + q + w + x
  {
  }

  lemma WentKnown<T>(capacity: nat, m: Moment<T>, t: nat, u: nat, m': Moment<T>)
    requires t < |m.pcs| && CanGo(m.pcs[t], m.holder) && Went(capacity, m, t, u, m')
    ensures Known(m') == Known(m)
  {
    hide KnownOf;
    match m.pcs[t]
    case Acting(Put(x), _) => PutKnown(m.puts, m.takes, m.pcs, t, Notifying(Put(x), None), x);
    case Acting(Take, _) => TakeKnown(m.puts, m.takes, m.pcs, t, Notifying(Take, Some(m.items[0])), m.items[0]);
    case Notifying(op, got) => NotifiedKnown(m.puts, m.takes, m.pcs, t, op, got, u, m'.pcs);
    case Entering(op) => PcKnown(m.puts, m.takes, m.pcs, t, Testing(op, false));
    case Returning(op, woken) => PcKnown(m.puts, m.takes, m.pcs, t, Testing(op, woken));
    case Testing(op, woken) =>
      PcKnown(m.puts, m.takes, m.pcs, t, Blocked(op));
      PcKnown(m.puts, m.takes, m.pcs, t, Acting(op, woken));
    case Leaving(_, _) => PcKnown(m.puts, m.takes, m.pcs, t, Idle);
    case Idle =>
    case Blocked(_) =>
  }

  lemma NotifiedKnown<T>(puts: seq<T>, takes: seq<T>, pcs: seq<Pc<T>>, t: nat, op: Op<T>, got: Option<T>, u: nat, pcs': seq<Pc<T>>)
    requires t < |pcs| && pcs[t] == Notifying(op, got) && Notified(pcs, t, op, got, u, pcs')
    ensures KnownOf(puts, takes, pcs') == KnownOf(puts, takes, pcs)
  {
    hide KnownOf;
    var after := pcs[t := Leaving(op, got)];
    PcKnown(puts, takes, pcs, t, Leaving(op, got));
    if exists v :: 0 <= v < |pcs| && Waits(pcs[v], !op.Take?) {
      var v :| 0 <= v < |pcs| && Waits(pcs[v], !op.Take?) && pcs' == after[v := Returning(pcs[v].op, true)];
      assert after[v] == pcs[v];
      PcKnown(puts, takes, after, v, Returning(pcs[v].op, true));
    }
  }

  lemma EventKnown<T>(capacity: nat, m: Moment<T>, e: Event<T>, m': Moment<T>)
    requires Happened(capacity, m, e, m')
    ensures Known(m') == Known(m) + CallOf(m, e)
  {
    hide KnownOf, Went;
    Without(Known(m), multiset{});
    match e
    case Call(t, op) =>
      if t < |m.pcs| && m.pcs[t].Idle? {
        CallKnown(m, t, op);
      }
    case Step(t, u) =>
      if t < |m.pcs| && CanGo(m.pcs[t], m.holder) {
        WentKnown(capacity, m, t, u, m');
      }
    case Spurious(t) =>
      if t < |m.pcs| && m.pcs[t].Blocked? {
        PcKnown(m.puts, m.takes, m.pcs, t, Returning(m.pcs[t].op, false));
      }
  }

  lemma CallKnown<T>(m: Moment<T>, t: nat, op: Op<T>)
    requires t < |m.pcs| && m.pcs[t].Idle?
    ensures KnownOf(m.puts, m.takes, m.pcs[t := Entering(op)]) == KnownOf(m.puts, m.takes, m.pcs) + multiset{op}
  {
    hide KnownOf;
    PcKnown(m.puts, m.takes, m.pcs, t, Entering(op));
    Without(KnownOf(m.puts, m.takes, m.pcs[t := Entering(op)]), multiset{});
  }

  /** Over every run, at every moment: what has been put and taken, and what threads are still asked to, is exactly
      what they have been asked. */
  lemma {:induction false} CallsExactly<T>(capacity: nat, schedule: seq<Event<T>>, trace: seq<Moment<T>>, i: nat)
    requires History(capacity, schedule, trace) && i <= |schedule|
    ensures |trace| == |schedule| + 1
    ensures Known(trace[i]) == Known(trace[0]) + Called(schedule, trace, i)
  {
    hide Known, Happened;
    Without(Known(trace[0]), multiset{});
    if i > 0 {
      CallsExactly(capacity, schedule, trace, i - 1);
      EventKnown(capacity, trace[i - 1], schedule[i - 1], trace[i]);
      assert Known(trace[0]) + Called(schedule, trace, i - 1) + CallOf(trace[i - 1], schedule[i - 1])
        == Known(trace[0]) + (Called(schedule, trace, i - 1) + CallOf(trace[i - 1], schedule[i - 1]));
    }
  }

  class Queue<T> {
    const capacity: nat
    var items: seq<T>
    var holder: Option<nat>
    var pcs: seq<Pc<T>>

    /** All that was ever put, and taken, in order. */
    ghost var puts: seq<T>
    ghost var takes: seq<T>

    ghost predicate Valid()
      reads this
    {
      puts == takes + items && Orderly(pcs, holder, |items|, capacity)
    }

    ghost function Now(): Moment<T>
      reads this
    {
      Moment(items, holder, pcs, puts, takes)
    }

    constructor (maxSize: nat, threads: nat)
      ensures Valid() && capacity == maxSize && items == [] && pcs == seq(threads, i => Idle) && puts == []
    {
      capacity := maxSize;
      items, holder, pcs := [], None, seq(threads, i => Idle);
      puts, takes := [], [];
    }

    /** A thread calls put or take. */
    method Start(t: nat, op: Op<T>)
      requires Valid() && t < |pcs| && pcs[t].Idle?
      modifies this`pcs
      ensures Valid() && pcs == old(pcs)[t := Entering(op)]
    {
      StrandedKept(pcs, t, Entering(op), |items|, capacity, true);
      StrandedKept(pcs, t, Entering(op), |items|, capacity, false);
      hide NoneStranded;
      pcs := pcs[t := Entering(op)];
    }

    /** The mutex is free, and t gets it: a newcomer as well as one that comes back from its wait. */
    method Lock(t: nat)
      requires Valid() && t < |pcs| && (pcs[t].Entering? || pcs[t].Returning?) && holder == None
      modifies this`pcs, this`holder
      ensures Valid() && pcs == old(pcs)[t := Testing(old(pcs[t].op), old(pcs[t].Returning? && pcs[t].woken))]
      ensures holder == Some(t) && Work(pcs) < Work(old(pcs))
    {
      var pc := Testing(pcs[t].op, pcs[t].Returning? && pcs[t].woken);
      StrandedKept(pcs, t, pc, |items|, capacity, true);
      StrandedKept(pcs, t, pc, |items|, capacity, false);
      WorkUpdate(pcs, t, pc);
      hide NoneStranded;
      holder, pcs := Some(t), pcs[t := pc];
    }

    /** The test of the wait loop: a full queue makes a putter wait, an empty one a taker. */
    method Test(t: nat)
      requires Valid() && t < |pcs| && pcs[t].Testing?
      modifies this`pcs, this`holder
      ensures Valid() && Work(pcs) < Work(old(pcs))
      ensures var op := old(pcs[t].op);
        if Room(|items|, capacity, op.Take?) == 0 then pcs == old(pcs)[t := Blocked(op)] && holder == None
        else pcs == old(pcs)[t := Acting(op, old(pcs[t].woken))] && holder == old(holder)
    {
      hide Work;
      var op := pcs[t].op;
      if if op.Take? then |items| == 0 else |items| == capacity {
        StrandedBlocked(pcs, t, Blocked(op), |items|, capacity);
        WorkUpdate(pcs, t, Blocked(op));
        hide NoneStranded;
        holder, pcs := None, pcs[t := Blocked(op)];
      } else {
        StrandedKept(pcs, t, Acting(op, pcs[t].woken), |items|, capacity, true);
        StrandedKept(pcs, t, Acting(op, pcs[t].woken), |items|, capacity, false);
        WorkUpdate(pcs, t, Acting(op, pcs[t].woken));
        hide NoneStranded;
        pcs := pcs[t := Acting(op, pcs[t].woken)];
      }
    }

    /** push_back, or front and pop_front. */
    method Act(t: nat)
      requires Valid() && t < |pcs| && pcs[t].Acting?
      modifies this`pcs, this`items, this`puts, this`takes
      ensures Valid() && Work(pcs) < Work(old(pcs))
      ensures match old(pcs[t].op)
        case Put(x) =>
          && items == old(items) + [x] && puts == old(puts) + [x] && takes == old(takes)
          && pcs == old(pcs)[t := Notifying(Put(x), None)]
        case Take =>
          && old(items) != [] && items == old(items)[1..]
          && puts == old(puts) && takes == old(takes) + [old(items)[0]]
          && pcs == old(pcs)[t := Notifying(Take, Some(old(items)[0]))]
    {
      hide Work, AwakeCount, Went, Happened;
      match pcs[t].op
      case Put(x) =>
        StrandedActed(pcs, t, Notifying(Put(x), None), |items|, capacity, |items| + 1);
        WorkUpdate(pcs, t, Notifying(Put(x), None));
        hide NoneStranded;
        items, puts := items + [x], puts + [x];
        pcs := pcs[t := Notifying(Put(x), None)];
      case Take =>
        StrandedActed(pcs, t, Notifying(Take, Some(items[0])), |items|, capacity, |items| - 1);
        WorkUpdate(pcs, t, Notifying(Take, Some(items[0])));
        hide NoneStranded;
        takes := takes + [items[0]];
        pcs, items := pcs[t := Notifying(Take, Some(items[0]))], items[1..];
    }

    /** Signals the other condition: if threads wait on it, one of them wakes, u if it is one of them. */
    method Notify(t: nat, u: nat)
      requires Valid() && t < |pcs| && pcs[t].Notifying?
      modifies this`pcs
      ensures Valid() && Work(pcs) < Work(old(pcs))
      ensures |pcs| == |old(pcs)| && Notified(old(pcs), t, old(pcs[t].op), old(pcs[t].got), u, pcs)
    {
      hide Orderly, Work, AwakeCount;
      var op, got := pcs[t].op, pcs[t].got;
      var v := Waiter(!op.Take?, u);
      OrderlyNotified(pcs, holder, t, Leaving(op, got), if v == |pcs| then t else v, |items|, capacity);
      if v < |pcs| {
        pcs := pcs[t := Leaving(op, got)][v := Returning(pcs[v].op, true)];
      } else {
        pcs := pcs[t := Leaving(op, got)];
      }
    }

    /** One that waits, u if it does; or none. */
    method Waiter(take: bool, u: nat) returns (v: nat)
      ensures v <= |pcs|
      ensures v < |pcs| ==> Waits(pcs[v], take)
      ensures v == |pcs| ==> forall j :: 0 <= j < |pcs| ==> !Waits(pcs[j], take)
      ensures u < |pcs| && Waits(pcs[u], take) ==> v == u
    {
      if u < |pcs| && Waits(pcs[u], take) { return u; }
      v := 0;
      while v < |pcs| && !Waits(pcs[v], take)
        invariant v <= |pcs| && forall j :: 0 <= j < v ==> !Waits(pcs[j], take)
      {
        v := v + 1;
      }
    }

    /** Unlocks and returns; a take returns what it popped. */
    method Unlock(t: nat) returns (got: Option<T>)
      requires Valid() && t < |pcs| && pcs[t].Leaving?
      modifies this`pcs, this`holder
      ensures Valid() && pcs == old(pcs)[t := Idle] && holder == None && got == old(pcs[t].got)
      ensures Work(pcs) < Work(old(pcs))
    {
      got := pcs[t].got;
      StrandedKept(pcs, t, Idle, |items|, capacity, true);
      StrandedKept(pcs, t, Idle, |items|, capacity, false);
      WorkUpdate(pcs, t, Idle);
      hide NoneStranded;
      holder, pcs := None, pcs[t := Idle];
    }

    /** A wait that ends without a notify. */
    method WakeUp(t: nat)
      requires Valid() && t < |pcs| && pcs[t].Blocked?
      modifies this`pcs
      ensures Valid() && pcs == old(pcs)[t := Returning(old(pcs[t].op), false)]
    {
      var pc := Returning(pcs[t].op, false);
      StrandedKept(pcs, t, pc, |items|, capacity, true);
      StrandedKept(pcs, t, pc, |items|, capacity, false);
      hide NoneStranded;
      pcs := pcs[t := pc];
    }

    /** The next step of a thread that is not waiting; u is whom it would wake. */
    method Go(t: nat, u: nat)
      requires Valid() && t < |pcs| && CanGo(pcs[t], holder)
      modifies this
      ensures Valid() && |pcs| == |old(pcs)| && Work(pcs) < Work(old(pcs))
      ensures old(puts) <= puts && old(takes) <= takes && Went(capacity, old(Now()), t, u, Now())
    {
      hide Orderly, Work, Notified;
      match pcs[t]
      case Entering(_) => Lock(t);
      case Returning(_, _) => Lock(t);
      case Testing(_, _) => Test(t);
      case Acting(_, _) => Act(t);
      case Notifying(_, _) => Notify(t, u);
      case Leaving(_, _) => var got := Unlock(t);
    }

    /** Any schedule, of calls, steps and spurious wakeups, has a history, which ends in the queue as it then is. */
    method Run(schedule: seq<Event<T>>) returns (ghost trace: seq<Moment<T>>)
      requires Valid()
      modifies this
      ensures History(capacity, schedule, trace) && trace[0] == old(Now()) && trace[|schedule|] == Now()
      ensures Valid() && |pcs| == |old(pcs)| && puts == takes + items && |items| <= capacity
      ensures old(puts) <= puts && old(takes) <= takes
    {
      hide Went;
      trace := [Now()];
      for i := 0 to |schedule|
        invariant Valid() && |pcs| == |old(pcs)| && old(puts) <= puts && old(takes) <= takes
        invariant History(capacity, schedule[..i], trace) && trace[0] == old(Now()) && trace[i] == Now()
      {
        ghost var m := Now();
        match schedule[i] {
          case Call(t, op) => if t < |pcs| && pcs[t].Idle? { Start(t, op); }
          case Step(t, u) => if t < |pcs| && CanGo(pcs[t], holder) { Go(t, u); }
          case Spurious(t) => if t < |pcs| && pcs[t].Blocked? { WakeUp(t); }
        }
        assert Happened(capacity, m, schedule[i], Now());
        HistoryMore(capacity, schedule, i, trace, Now());
        trace := trace + [Now()];
      }
      assert schedule[..|schedule|] == schedule;
    }

    /** With no more calls, whoever goes first, the threads come to rest; then takers wait only for an empty
        queue and putters only for a full one. */
    method Settle()
      requires Valid()
      modifies this
      ensures Valid() && AtRest(pcs, |items|, capacity)
      ensures old(puts) <= puts && old(takes) <= takes
    {
      hide Orderly, AtRest, Work;
      while exists t :: 0 <= t < |pcs| && CanGo(pcs[t], holder)
        invariant Valid() && old(puts) <= puts && old(takes) <= takes
        decreases Work(pcs)
      {
        var t: nat :| t < |pcs| && CanGo(pcs[t], holder);
        var u: nat := *;
        Go(t, u);
      }
      NoDeadlock(pcs, holder, |items|, capacity);
    }
  }
}
