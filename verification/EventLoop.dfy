/** The event loop's queue of functors and its wakeup protocol: the loop thread and other threads take
    atomic steps in any order. */
module EventLoop {

  /** Another thread is at rest, or has pushed a functor (or stored quit_) and not yet written the wakeup fd. */
  datatype ThreadPc = Resting | MustWake

  /** Where the loop thread is: outside loop(), at the test of quit_, in poll, handling events (and the wakeup
      channel is among the active ones), about to swap the queue, or running the functors it swapped out. */
  datatype LoopPc = Outside | AtTest | Polling | Handling(wakeupActive: bool) | Swapping | Running(functors: seq<int>, next: nat)

  /** One atomic step of some thread. */
  datatype Step =
    | Push(t: nat, f: int) | StoreQuit(t: nat) | Wake(t: nat)
    | LoopPush(f: int) | LoopWake | LoopQuit
    | Start | Test | PollReturns | HandleRead | BeginFunctors | Swap | RunNext | EndFunctors

  predicate SomeMustWake(threads: map<nat, ThreadPc>) {
    exists t :: t in threads && threads[t] == MustWake
  }

  /** The functors swapped out and not yet run. */
  ghost function Left(pc: LoopPc): seq<int> {
    if pc.Running? && pc.next <= |pc.functors| then pc.functors[pc.next..] else []
  }

  /** The loop and its threads at one moment, with what has been pushed, what has run, and which of the queue the
      loop thread pushed while outside loop(). */
  datatype Moment = Moment(pending: seq<int>, wakeups: nat, calling: bool, quit: bool, pc: LoopPc, owes: bool,
                           threads: map<nat, ThreadPc>, pushed: seq<int>, ran: seq<int>, early: seq<bool>)

  const FIRST := Moment([], 0, false, false, Outside, false, map[], [], [], [])

  /** Whether the thread a step belongs to stands where it can take it. */
  predicate CanTake(pc: LoopPc, owes: bool, threads: map<nat, ThreadPc>, step: Step) {
    match step
    case Push(t, f) => t !in threads || threads[t] == Resting
    case StoreQuit(t) => t !in threads || threads[t] == Resting
    case Wake(t) => t in threads && threads[t] == MustWake
    case LoopPush(f) => !owes && (pc.Outside? || pc.Handling? || pc.Running?)
    case LoopWake => owes
    case LoopQuit => !owes && (pc.Handling? || pc.Running?)
    case Start => pc.Outside?
    case Test => pc.AtTest?
    case PollReturns => pc.Polling?
    case HandleRead => pc.Handling? && pc.wakeupActive
    case BeginFunctors => pc.Handling? && !pc.wakeupActive
    case Swap => pc.Swapping?
    case RunNext => !owes && pc.Running? && pc.next < |pc.functors|
    case EndFunctors => !owes && pc.Running? && pc.next == |pc.functors|
  }

  /** The moment after a step that can be taken. */
  ghost function Next(m: Moment, step: Step): Moment
    requires CanTake(m.pc, m.owes, m.threads, step)
  {
    match step
    case Push(t, f) => m.(pending := m.pending + [f], pushed := m.pushed + [f], early := m.early + [false],
                          threads := m.threads[t := MustWake])
    case StoreQuit(t) => m.(quit := true, threads := m.threads[t := MustWake])
    case Wake(t) => m.(wakeups := m.wakeups + 1, threads := m.threads[t := Resting])
    case LoopPush(f) => m.(pending := m.pending + [f], pushed := m.pushed + [f], early := m.early + [m.pc.Outside?],
                           owes := m.calling)
    case LoopWake => m.(wakeups := m.wakeups + 1, owes := false)
    case LoopQuit => m.(quit := true)
    case Start => m.(quit := false, pc := AtTest)
    case Test => m.(pc := if m.quit then Outside else Polling)
    case PollReturns => m.(pc := Handling(m.wakeups > 0))
    case HandleRead => m.(wakeups := 0, pc := Handling(false))
    case BeginFunctors => m.(calling := true, pc := Swapping)
    case Swap => m.(pc := Running(m.pending, 0), pending := [], early := [])
    case RunNext => m.(ran := m.ran + [m.pc.functors[m.pc.next]], pc := Running(m.pc.functors, m.pc.next + 1))
    case EndFunctors => m.(calling := false, pc := AtTest)
  }

  /** The wakeup fd is readable, or some thread sits between its push and its wakeup write. */
  ghost predicate SignalledAt(m: Moment) {
    m.wakeups > 0 || m.owes || SomeMustWake(m.threads)
  }

  /** Every functor in the queue was pushed by the loop thread outside loop(). */
  ghost predicate AllEarlyAt(early: seq<bool>) {
    forall i :: 0 <= i < |early| ==> early[i]
  }

  /** What every step keeps. */
  ghost predicate Sound(m: Moment) {
    // every functor pushed has run, in order, or is in the batch or the queue, in order
    && m.pushed == m.ran + Left(m.pc) + m.pending
    && (m.pc.Running? ==> m.pc.next <= |m.pc.functors|)
    && (m.calling <==> m.pc.Swapping? || m.pc.Running?)
    && (m.owes ==> m.pc.Running?)
    && (m.pc == Handling(true) ==> m.wakeups > 0)
    && |m.early| == |m.pending|
    // while functors run, none in the queue is an early one: the swap has taken those
    && (m.pc.Running? ==> forall i :: 0 <= i < |m.early| ==> !m.early[i])
    // unless the loop is on its way to the swap, every functor in the queue is signalled but the early ones
    && (m.pc.Outside? || m.pc.AtTest? || m.pc.Polling? || m.pc.Running? ==> SignalledAt(m) || AllEarlyAt(m.early))
    // a loop that has seen quit_ false and is asked to quit will be woken
    && (m.pc.Polling? && m.quit ==> SignalledAt(m))
  }

  /** On its way into a poll that nothing will wake, with functors in the queue, all of them early. */
  ghost predicate Stranded(m: Moment) {
    (m.pc.AtTest? || m.pc.Polling?) && !SignalledAt(m) && AllEarlyAt(m.early) && m.pending != []
  }

  /** The loop thread's next step while it is in loop() and pushes nothing. */
  function Turn(pc: LoopPc, owes: bool): Step
    requires !pc.Outside?
  {
    match pc
    case AtTest => Test
    case Polling => PollReturns
    case Handling(active) => if active then HandleRead else BeginFunctors
    case Swapping => Swap
    case Running(functors, next) => if owes then LoopWake else if next < |functors| then RunNext else EndFunctors
  }

  /** Where a schedule leads; steps that cannot be taken are skipped. */
  ghost function After(schedule: seq<Step>): Moment {
    if schedule == [] then FIRST else
      var n := |schedule| - 1;
      var m := After(schedule[..n]);
      if CanTake(m.pc, m.owes, m.threads, schedule[n]) then Next(m, schedule[n]) else m
  }

  class Loop {
    var pending: seq<int>
    var wakeups: nat
    var calling: bool
    var quit: bool
    var pc: LoopPc
    /** The loop thread has pushed a functor in queueInLoop and its wakeup write comes next. */
    var owes: bool
    var threads: map<nat, ThreadPc>
    ghost var pushed: seq<int>
    ghost var ran: seq<int>
    /** Of each functor in the queue, whether the loop thread pushed it while outside loop(). */
    ghost var early: seq<bool>

    ghost predicate Signalled()
      reads this
    {
      SignalledAt(Now())
    }

    ghost predicate AllEarly()
      reads this
    {
      AllEarlyAt(early)
    }

    ghost predicate Valid()
      reads this
    {
      Sound(Now())
    }

    constructor ()
      ensures Valid() && Now() == FIRST
    {
      pending, wakeups, calling, quit, pc, owes, threads := [], 0, false, false, Outside, false, map[];
      pushed, ran, early := [], [], [];
    }

    ghost function Now(): Moment
      reads this
    {
      Moment(pending, wakeups, calling, quit, pc, owes, threads, pushed, ran, early)
    }

    predicate Enabled(step: Step)
      reads this
    {
      CanTake(pc, owes, threads, step)
    }

    /** queueInLoop on another thread: the push under the mutex; the wakeup write is a later step. */
    method DoPush(t: nat, f: int)
      requires Valid() && Enabled(Push(t, f))
      modifies this`pending, this`threads, this`pushed, this`early
      ensures Valid() && Now() == Next(old(Now()), Push(t, f)) && threads[t] == MustWake
    {
      assert ran + Left(pc) + pending + [f] == ran + Left(pc) + (pending + [f]);
      pending := pending + [f];
      pushed := pushed + [f];
      early := early + [false];
      threads := threads[t := MustWake];
      assert t in threads && threads[t] == MustWake;
    }

    /** quit() on another thread: the store; the wakeup write is a later step. */
    method DoStoreQuit(t: nat)
      requires Valid() && Enabled(StoreQuit(t))
      modifies this`quit, this`threads
      ensures Valid() && Now() == Next(old(Now()), StoreQuit(t)) && threads[t] == MustWake && quit
    {
      quit := true;
      threads := threads[t := MustWake];
      assert t in threads && threads[t] == MustWake;
    }

    method DoWake(t: nat)
      requires Valid() && Enabled(Wake(t))
      modifies this`wakeups, this`threads
      ensures Valid() && Now() == Next(old(Now()), Wake(t)) && Signalled()
    {
      wakeups := wakeups + 1;
      threads := threads[t := Resting];
    }

    /** queueInLoop on the loop thread: a wakeup is due only while functors are being run. */
    method DoLoopPush(f: int)
      requires Valid() && Enabled(LoopPush(f))
      modifies this`pending, this`owes, this`pushed, this`early
      ensures Valid() && Now() == Next(old(Now()), LoopPush(f))
    {
      assert ran + Left(pc) + pending + [f] == ran + Left(pc) + (pending + [f]);
      pending := pending + [f];
      pushed := pushed + [f];
      if calling {
        owes := true;
      }
      early := early + [pc.Outside?];
    }

    method DoLoopWake()
      requires Valid() && Enabled(LoopWake)
      modifies this`wakeups, this`owes
      ensures Valid() && Now() == Next(old(Now()), LoopWake) && Signalled()
    {
      wakeups := wakeups + 1;
      owes := false;
    }

    method DoStart()
      requires Valid() && Enabled(Start)
      modifies this`quit, this`pc
      ensures Valid() && Now() == Next(old(Now()), Start)
    {
      quit := false;
      pc := AtTest;
    }

    /** The loop goes back into poll only when it is signalled or has nothing in its queue but what it queued
        itself before loop(). */
    method DoTest()
      requires Valid() && Enabled(Test)
      modifies this`pc
      ensures Valid() && Now() == Next(old(Now()), Test)
      ensures pc.Polling? ==> Signalled() || AllEarly()
    {
      pc := if quit then Outside else Polling;
    }

    method DoPollReturns()
      requires Valid() && Enabled(PollReturns)
      modifies this`pc
      ensures Valid() && Now() == Next(old(Now()), PollReturns)
    {
      pc := Handling(wakeups > 0);
    }

    method DoHandleRead()
      requires Valid() && Enabled(HandleRead)
      modifies this`pc, this`wakeups
      ensures Valid() && Now() == Next(old(Now()), HandleRead)
    {
      wakeups := 0;
      pc := Handling(false);
    }

    method DoSwap()
      requires Valid() && Enabled(Swap)
      modifies this`pc, this`pending, this`early
      ensures Valid() && Now() == Next(old(Now()), Swap)
    {
      assert Left(Running(pending, 0)) == pending;
      pc := Running(pending, 0);
      pending := [];
      early := [];
    }

    /** Runs the next functor of the batch: the oldest functor not yet run. */
    method DoRunNext()
      requires Valid() && Enabled(RunNext)
      modifies this`pc, this`ran
      ensures Valid() && old(ran) < ran <= pushed
      ensures Now() == Next(old(Now()), RunNext)
    {
      ghost var left := Left(pc);
      assert left == [pc.functors[pc.next]] + left[1..];
      assert ran + left + pending == ran + [left[0]] + left[1..] + pending;
      ran := ran + [pc.functors[pc.next]];
      pc := Running(pc.functors, pc.next + 1);
    }

    method DoBeginFunctors()
      requires Valid() && Enabled(BeginFunctors)
      modifies this`calling, this`pc
      ensures Valid() && Now() == Next(old(Now()), BeginFunctors)
    {
      calling := true;
      pc := Swapping;
    }

    method DoEndFunctors()
      requires Valid() && Enabled(EndFunctors)
      modifies this`calling, this`pc
      ensures Valid() && Now() == Next(old(Now()), EndFunctors)
    {
      calling := false;
      pc := AtTest;
    }

    /** Takes a step if its thread can; every step keeps the protocol. */
    method Take(step: Step)
      requires Valid()
      modifies this
      ensures Valid() && old(pushed) <= pushed && old(ran) <= ran
      ensures Now() == if old(Enabled(step)) then Next(old(Now()), step) else old(Now())
    {
      if !Enabled(step) { return; }
      match step
      case Push(t, f) => DoPush(t, f);
      case StoreQuit(t) => DoStoreQuit(t);
      case Wake(t) => DoWake(t);
      case LoopPush(f) => DoLoopPush(f);
      case LoopWake => DoLoopWake();
      case LoopQuit => quit := true;
      case Start => DoStart();
      case Test => DoTest();
      case PollReturns => DoPollReturns();
      case HandleRead => DoHandleRead();
      case BeginFunctors => DoBeginFunctors();
      case Swap => DoSwap();
      case RunNext => DoRunNext();
      case EndFunctors => DoEndFunctors();
    }

    method LoopStep()
      requires Valid() && !pc.Outside?
      modifies this
      ensures Valid() && old(Enabled(Turn(pc, owes))) && Now() == Next(old(Now()), old(Turn(pc, owes)))
    {
      match pc
      case AtTest => DoTest();
      case Polling => DoPollReturns();
      case Handling(active) => if active { DoHandleRead(); } else { DoBeginFunctors(); }
      case Swapping => DoSwap();
      case Running(functors, next) =>
        if owes { DoLoopWake(); } else if next < |functors| { DoRunNext(); } else { DoEndFunctors(); }
    }

    /** Some thread writes the wakeup it owes. */
    method SomeWake()
      requires Valid() && SomeMustWake(threads)
      modifies this`wakeups, this`threads
      ensures Valid() && wakeups > 0 && |Owing(threads)| < |Owing(old(threads))|
      ensures Now() == old(Now()).(wakeups := wakeups, threads := threads)
    {
      var t :| t in threads && threads[t] == MustWake;
      ghost var before := threads;
      DoWake(t);
      assert t in Owing(before) && Owing(threads) == Owing(before) - {t};
    }

    /** Is poll blocked for ever, unless another descriptor or its timeout ends it? */
    predicate Blocked()
      reads this
    {
      pc.Polling? && wakeups == 0 && !SomeMustWake(threads)
    }

    /** No wakeup is lost, and none is seen twice. Let poll return only when the wakeup descriptor is readable, and
        let there be no more pushes and no quit: whatever the order of the steps that are left, the loop comes to rest
        in poll, and every functor pushed has run, unless the loop is stranded with early ones from the start, and then
        it stays so. */
    method Settle()
      requires Valid() && !pc.Outside? && !quit
      modifies this
      ensures Valid() && pushed == old(pushed) && !pc.Outside? && Blocked()
      ensures ran == pushed || (pc.Polling? && !Signalled() && AllEarly())
      ensures ran == pushed <==> !old(Stranded(Now()))
    {
      hide Next, Sound, Work, Stranded;
      while !Blocked()
        invariant Valid() && !pc.Outside? && !quit && pushed == old(pushed)
        invariant Stranded(Now()) <==> old(Stranded(Now()))
        decreases |Owing(threads)|, Work(Now())
      {
        var others := *;
        if SomeMustWake(threads) && (others || (pc.Polling? && wakeups == 0)) {
          WakeKeeps(Now());
          SomeWake();
          WakeKeeps(Now());
        } else {
          SettleTurn(Now());
          LoopStep();
        }
      }
      Settled(Now());
    }

    /** No quit is lost that is stored while the loop runs: with no more pushes, whatever the order of the steps
        that are left, the loop is left, though poll returns only when the wakeup descriptor is readable. */
    method Leave()
      requires Valid() && !pc.Outside? && quit
      modifies this
      ensures Valid() && pc.Outside? && quit && pushed == old(pushed)
    {
      hide Next, Sound, WayOut;
      while !pc.Outside?
        invariant Valid() && quit && pushed == old(pushed)
        decreases WayOut(Now()), |Owing(threads)|
      {
        var others := *;
        if SomeMustWake(threads) && (others || (pc.Polling? && wakeups == 0)) {
          WakeKeeps(Now());
          SomeWake();
          WakeKeeps(Now());
        } else {
          LeaveTurn(Now());
          LoopStep();
        }
      }
    }

    /** A quit stored before loop() is entered is lost: the loop clears it and polls. */
    method QuitBeforeLoop(t: nat)
      requires Valid() && pc.Outside? && Enabled(StoreQuit(t))
      modifies this
      ensures Valid() && pc.Polling? && !quit
    {
      DoStoreQuit(t);
      DoWake(t);
      assert quit;
      DoStart();
      DoTest();
    }

    /** A functor the loop thread queues before it enters loop() is in the queue, with no wakeup under way, when
        the loop polls: nothing wakes it. */
    method QueuedBeforeLoop(f: int)
      requires Valid() && pc.Outside? && !Signalled()
      modifies this
      ensures Valid() && pc.Polling? && pending == old(pending) + [f] && !Signalled()
    {
      DoLoopPush(f);
      DoStart();
      DoTest();
    }
  }

  /** The threads that have yet to write their wakeup. */
  ghost function Owing(threads: map<nat, ThreadPc>): set<nat> {
    set t | t in threads && threads[t] == MustWake
  }

  /** How many steps the loop thread needs until it rests in poll: in each stage of a round, with a wakeup still to be
      read and without. */
  ghost function Work(m: Moment): nat {
    var dirty := m.wakeups > 0 || m.owes;
    2 * |m.pending| + (if m.owes then 1 else 0) +
    match m.pc
    case Outside => 0
    case AtTest => if dirty then 7 else 1
    case Polling => if dirty then 6 else 0
    case Handling(active) => if active then 5 else if dirty then 10 else 4
    case Swapping => if dirty then 9 else 3
    case Running(_, _) => (if dirty then 8 else 2) + |Left(m.pc)|
  }

  /** How many steps it needs until it is out of a loop that has been asked to quit. */
  ghost function WayOut(m: Moment): nat {
    match m.pc
    case Outside => 0
    case AtTest => 1
    case Polling => 6 + |m.pending|
    case Handling(active) => (if active then 5 else 4) + |m.pending|
    case Swapping => 3 + |m.pending|
    case Running(_, _) => 2 + |Left(m.pc)| + (if m.owes then 1 else 0)
  }

  /** A thread that owes its wakeup, or a readable descriptor, keeps the loop from being stranded; writing a wakeup
      is no step of the loop thread. */
  lemma WakeKeeps(m: Moment)
    ensures SomeMustWake(m.threads) || m.wakeups > 0 ==> !Stranded(m)
    ensures forall w, ts :: WayOut(m.(wakeups := w, threads := ts)) == WayOut(m)
  {
  }

  /** Unless the loop rests in poll, a turn of the loop thread uses up work and strands nobody. */
  lemma SettleTurn(m: Moment)
    requires Sound(m) && !m.pc.Outside? && !m.quit && (m.pc.Polling? ==> m.wakeups > 0)
    ensures CanTake(m.pc, m.owes, m.threads, Turn(m.pc, m.owes))
    ensures var n := Next(m, Turn(m.pc, m.owes));
      Work(n) < Work(m) && (Stranded(n) <==> Stranded(m)) && !n.pc.Outside? && !n.quit && n.pushed == m.pushed
      && n.threads == m.threads
  {
    hide SomeMustWake;
    if m.pc.Running? && m.pending != [] {
      assert !m.early[0] && SignalledAt(m);
    }
  }

  lemma LeaveTurn(m: Moment)
    requires Sound(m) && !m.pc.Outside? && m.quit && (m.pc.Polling? ==> m.wakeups > 0 || !SomeMustWake(m.threads))
    ensures CanTake(m.pc, m.owes, m.threads, Turn(m.pc, m.owes))
    ensures var n := Next(m, Turn(m.pc, m.owes)); WayOut(n) < WayOut(m) && n.quit && n.pushed == m.pushed
  {
    hide SomeMustWake;
  }

  lemma Settled(m: Moment)
    requires Sound(m) && m.pc.Polling? && m.wakeups == 0 && !SomeMustWake(m.threads)
    ensures m.ran == m.pushed || (m.pc.Polling? && !SignalledAt(m) && AllEarlyAt(m.early))
    ensures m.ran == m.pushed <==> !Stranded(m)
  {
    hide SomeMustWake;
    assert Left(m.pc) == [] && m.pushed == m.ran + m.pending;
  }

  lemma AfterNext(schedule: seq<Step>, i: nat)
    requires i < |schedule|
    ensures var m := After(schedule[..i]);
      After(schedule[..i + 1]) == if CanTake(m.pc, m.owes, m.threads, schedule[i]) then Next(m, schedule[i]) else m
  {
    assert schedule[..i + 1][..i] == schedule[..i];
  }

  lemma QuitNext(schedule: seq<Step>, i: nat)
    requires i < |schedule| && After(schedule[..i]).quit
    ensures After(schedule[..i + 1]).quit <==> !Entered(schedule, i)
  {
    AfterNext(schedule, i);
    var m := After(schedule[..i]);
    hide After;
    assert CanTake(m.pc, m.owes, m.threads, schedule[i]) ==> (Next(m, schedule[i]).quit <==> !schedule[i].Start?);
  }

  /** In every schedule: a quit stands as long as loop() is not entered after it, and exactly so long. */
  lemma {:induction false} QuitStands(schedule: seq<Step>, i: nat, k: nat)
    requires i <= k <= |schedule| && After(schedule[..i]).quit
    ensures (forall j :: i <= j < k ==> !Entered(schedule, j)) ==> After(schedule[..k]).quit
    decreases k
  {
    hide After, Entered;
    if i < k && forall j :: i <= j < k ==> !Entered(schedule, j) {
      QuitStands(schedule, i, k - 1);
      QuitNext(schedule, k - 1);
    }
  }

  /** Is step j of a schedule the loop thread entering loop()? */
  ghost predicate Entered(schedule: seq<Step>, j: nat)
    requires j < |schedule|
  {
    schedule[j].Start? && After(schedule[..j]).pc.Outside?
  }

  // ---- what a schedule amounts to, from its steps alone

  /** Thread t has pushed or stored quit_ and not yet written its wakeup: of its steps the last one says. */
  ghost predicate Owes(schedule: seq<Step>, t: nat) {
    schedule != [] &&
      var n := |schedule| - 1;
      if schedule[n] == Wake(t) then false
      else if schedule[n] == StoreQuit(t) || (schedule[n].Push? && schedule[n].t == t) then true
      else Owes(schedule[..n], t)
  }

  /** The loop thread runs its own code: before loop(), in an event handler or in a functor. */
  ghost predicate LoopRuns(m: Moment) {
    !m.owes && (m.pc.Outside? || m.pc.Handling? || m.pc.Running?)
  }

  /** Does step i push a functor? */
  ghost predicate Pushes(schedule: seq<Step>, i: nat)
    requires i < |schedule|
  {
    match schedule[i]
    case Push(t, f) => !Owes(schedule[..i], t)
    case LoopPush(f) => LoopRuns(After(schedule[..i]))
    case _ => false
  }

  /** Does step i store quit_? */
  ghost predicate Quits(schedule: seq<Step>, i: nat)
    requires i < |schedule|
  {
    match schedule[i]
    case StoreQuit(t) => !Owes(schedule[..i], t)
    case LoopQuit => LoopRuns(After(schedule[..i])) && !After(schedule[..i]).pc.Outside?
    case _ => false
  }

  /** The functors the first n steps push, in order, each with whether the loop thread pushed it outside loop(). */
  ghost function Pushed(schedule: seq<Step>, n: nat): seq<(int, bool)>
    requires n <= |schedule|
  {
    if n == 0 then [] else
      Pushed(schedule, n - 1) + if Pushes(schedule, n - 1) then [(schedule[n - 1].f, PushedEarly(schedule, n - 1))] else []
  }

  ghost predicate PushedEarly(schedule: seq<Step>, i: nat)
    requires i < |schedule|
  {
    schedule[i].LoopPush? && After(schedule[..i]).pc.Outside?
  }

  /** What a step changes of what is pushed, of quit_ and of the threads. */
  lemma NextChanges(m: Moment, step: Step)
    requires CanTake(m.pc, m.owes, m.threads, step)
    ensures var n := Next(m, step);
      && n.pushed == m.pushed + (if step.Push? || step.LoopPush? then [step.f] else [])
      && (n.quit <==> if step.Start? then false else m.quit || step.StoreQuit? || step.LoopQuit?)
      && n.threads == (match step
                       case Push(t, _) => m.threads[t := MustWake]
                       case StoreQuit(t) => m.threads[t := MustWake]
                       case Wake(t) => m.threads[t := Resting]
                       case _ => m.threads)
  {
  }

  lemma PrefixOwes(schedule: seq<Step>, i: nat, t: nat)
    requires i < |schedule|
    ensures Owes(schedule[..i + 1], t) <==>
      if schedule[i] == Wake(t) then false
      else schedule[i] == StoreQuit(t) || (schedule[i].Push? && schedule[i].t == t) || Owes(schedule[..i], t)
  {
    assert schedule[..i + 1][..i] == schedule[..i];
  }

  /** A thread owes its wakeup exactly if its last push or quit is later than its last wakeup. */
  lemma {:induction false} OwesExactly(schedule: seq<Step>, t: nat)
    ensures var m := After(schedule); t in m.threads && m.threads[t] == MustWake <==> Owes(schedule, t)
  {
    if schedule != [] {
      var n := |schedule| - 1;
      OwesExactly(schedule[..n], t);
      var m := After(schedule[..n]);
      assert schedule[..n + 1] == schedule;
      AfterNext(schedule, n);
      PrefixOwes(schedule, n, t);
      hide After, Owes;
      if CanTake(m.pc, m.owes, m.threads, schedule[n]) {
        NextChanges(m, schedule[n]);
        hide Next;
      }
    }
  }

  /** The steps that push and those that store quit_ are those that can be taken. */
  lemma TakenExactly(schedule: seq<Step>, i: nat)
    requires i < |schedule|
    ensures var m, step := After(schedule[..i]), schedule[i];
      && (Pushes(schedule, i) <==> (step.Push? || step.LoopPush?) && CanTake(m.pc, m.owes, m.threads, step))
      && (Quits(schedule, i) <==> (step.StoreQuit? || step.LoopQuit?) && CanTake(m.pc, m.owes, m.threads, step))
      && (Entered(schedule, i) <==> step.Start? && CanTake(m.pc, m.owes, m.threads, step))
  {
    var step := schedule[i];
    if step.Push? || step.StoreQuit? {
      OwesExactly(schedule[..i], step.t);
    }
    hide After, Owes;
  }

  ghost predicate NotEntered(schedule: seq<Step>, i: nat, k: nat)
    requires k <= |schedule|
  {
    forall j :: i <= j < k ==> !Entered(schedule, j)
  }

  /** Of the first n steps some one stored quit_, and loop() was not entered after it. */
  ghost predicate QuitAsked(schedule: seq<Step>, n: nat)
    requires n <= |schedule|
  {
    exists i :: 0 <= i < n && Quits(schedule, i) && NotEntered(schedule, i + 1, n)
  }

  lemma QuitAskedNext(schedule: seq<Step>, n: nat)
    requires n < |schedule|
    ensures QuitAsked(schedule, n + 1) <==> Quits(schedule, n) || (QuitAsked(schedule, n) && !Entered(schedule, n))
  {
    hide Quits, Entered;
    if Quits(schedule, n) {
      assert NotEntered(schedule, n + 1, n + 1);
    }
    if QuitAsked(schedule, n) && !Entered(schedule, n) {
      var i :| 0 <= i < n && Quits(schedule, i) && NotEntered(schedule, i + 1, n);
      assert NotEntered(schedule, i + 1, n + 1);
    }
    if QuitAsked(schedule, n + 1) && !Quits(schedule, n) {
      var i :| 0 <= i < n + 1 && Quits(schedule, i) && NotEntered(schedule, i + 1, n + 1);
      assert i < n && !Entered(schedule, n) && NotEntered(schedule, i + 1, n);
    }
  }

  /** At every moment of every schedule, quit_ is set exactly if some step has stored it and loop() was not entered
      since. */
  lemma {:induction false} QuitExactly(schedule: seq<Step>, n: nat)
    requires n <= |schedule|
    ensures After(schedule[..n]).quit <==> QuitAsked(schedule, n)
  {
    if n > 0 {
      QuitExactly(schedule, n - 1);
      QuitAskedNext(schedule, n - 1);
      AfterNext(schedule, n - 1);
      TakenExactly(schedule, n - 1);
      var m, step := After(schedule[..n - 1]), schedule[n - 1];
      hide After, QuitAsked, Quits, Entered;
      if CanTake(m.pc, m.owes, m.threads, step) {
        NextChanges(m, step);
      }
      hide Next, CanTake;
    }
  }

  function Functors(pushed: seq<(int, bool)>): (s: seq<int>)
    ensures |s| == |pushed| && forall i :: 0 <= i < |s| ==> s[i] == pushed[i].0
  {
    seq(|pushed|, i requires 0 <= i < |pushed| => pushed[i].0)
  }

  /** At every moment exactly the functors pushed so far are pushed, and an early mark in the queue is that of one the
      loop thread pushed outside loop(). */
  lemma {:induction false} PushedExactly(schedule: seq<Step>, n: nat)
    requires n <= |schedule|
    ensures MarkedAs(After(schedule[..n]), Pushed(schedule, n))
  {
    if n > 0 {
      var k := n - 1;
      PushedExactly(schedule, k);
      PushedNext(schedule, k);
      AfterNext(schedule, k);
      TakenExactly(schedule, k);
      var m, step, p := After(schedule[..k]), schedule[k], Pushed(schedule, k);
      hide After, Pushes, MarkedAs, Pushed, Functors;
      if CanTake(m.pc, m.owes, m.threads, step) {
        MarkedNext(m, step, p);
      } else {
        assert p + [] == p;
      }
      hide Next, CanTake;
    }
  }

  lemma PushedNext(schedule: seq<Step>, k: nat)
    requires k < |schedule|
    ensures Pushed(schedule, k + 1) == Pushed(schedule, k) +
      if Pushes(schedule, k) then [(schedule[k].f, schedule[k].LoopPush? && After(schedule[..k]).pc.Outside?)] else []
  {
    hide Pushes, After;
  }

  ghost predicate MarkedAs(m: Moment, p: seq<(int, bool)>) {
    m.pushed == Functors(p) && Marks(m.early, p)
  }

  /** These are the marks of the last functors pushed. */
  ghost predicate Marks(early: seq<bool>, p: seq<(int, bool)>) {
    |early| <= |p| && forall i :: 0 <= i < |early| ==> early[i] == p[|p| - |early| + i].1
  }

  lemma MarkMore(early: seq<bool>, p: seq<(int, bool)>, f: int, b: bool)
    requires Marks(early, p)
    ensures Marks(early + [b], p + [(f, b)]) && Functors(p + [(f, b)]) == Functors(p) + [f]
    ensures Marks([], p)
  {
    assert forall i :: 0 <= i < |p| ==> (p + [(f, b)])[i] == p[i];
  }

  lemma MarkedNext(m: Moment, step: Step, p: seq<(int, bool)>)
    requires MarkedAs(m, p) && CanTake(m.pc, m.owes, m.threads, step)
    ensures MarkedAs(Next(m, step), p + if step.Push? || step.LoopPush? then [(step.f, step.LoopPush? && m.pc.Outside?)] else [])
  {
    NextChanges(m, step);
    NextEarly(m, step);
    hide Next, CanTake;
    if step.Push? || step.LoopPush? {
      MarkMore(m.early, p, step.f, step.LoopPush? && m.pc.Outside?);
    } else {
      MarkMore(m.early, p, 0, false);
      assert p + [] == p && m.pushed + [] == m.pushed;
    }
    hide Marks, Functors;
  }

  lemma NextEarly(m: Moment, step: Step)
    requires CanTake(m.pc, m.owes, m.threads, step)
    ensures Next(m, step).early ==
      if step.Push? then m.early + [false]
      else if step.LoopPush? then m.early + [m.pc.Outside?]
      else if step.Swap? then [] else m.early
  {
  }

  /** Whatever the interleaving: functors run in push order, each once, and a loop in poll has nothing in its queue
      that will not wake it, but what it queued itself before it entered loop(). */
  method Run(schedule: seq<Step>) returns (loop: Loop)
    ensures loop.Valid() && loop.Now() == After(schedule) && loop.ran <= loop.pushed
    ensures loop.pc.Polling? && !loop.Signalled() ==> loop.AllEarly() && |loop.early| == |loop.pending|
  {
    hide Next;
    loop := new Loop();
    for i := 0 to |schedule|
      invariant loop.Valid() && fresh(loop) && loop.Now() == After(schedule[..i])
    {
      AfterNext(schedule, i);
      loop.Take(schedule[i]);
    }
    assert schedule[..|schedule|] == schedule;
  }
}
