/** The sending side of a connection: what is written at once, what waits in the output buffer, and when the
    write side may be shut down. The loop runs one step at a time; other threads post tasks to it. */
module TcpConnection {
  import opened Buffer

  datatype State = Connecting | Connected | Disconnecting | Disconnected

  /** What the write system call answers. */
  datatype Write = Written(n: nat) | WouldBlock | BrokenPipe | OtherError

  /** A functor in the queue of the loop. */
  datatype Task = SendInLoop(data: seq<Byte>) | ShutdownInLoop | WriteComplete | HighWater(size: nat)

  /** A send of another thread is two steps, its check of the state and its post; a shutdown three, its check, its
      change of the state and its post. */
  datatype Event =
    | Send(data: seq<Byte>, w: Write)
    | PassSend(data: seq<Byte>)
    | PostSend(data: seq<Byte>)
    | Shutdown
    | PassShutdown
    | SetDisconnecting
    | PostShutdown
    | RunTask(w: Write)
    | Writable(w: Write)
    | Closed
    | Destroyed

  ghost function Join(messages: seq<seq<Byte>>): seq<Byte> {
    if messages == [] then [] else Join(messages[..|messages| - 1]) + messages[|messages| - 1]
  }

  lemma JoinOne(messages: seq<seq<Byte>>, data: seq<Byte>)
    ensures Join(messages + [data]) == Join(messages) + data
  {
    assert (messages + [data])[..|messages|] == messages;
  }

  /** The messages of other threads that wait for the loop. */
  ghost function Waiting(tasks: seq<Task>): multiset<seq<Byte>> {
    if tasks == [] then multiset{}
    else (if tasks[0].SendInLoop? then multiset{tasks[0].data} else multiset{}) + Waiting(tasks[1..])
  }

  lemma {:induction false} WaitingOne(tasks: seq<Task>, t: Task)
    ensures Waiting(tasks + [t]) == Waiting(tasks) + (if t.SendInLoop? then multiset{t.data} else multiset{})
  {
    if tasks == [] {
      assert [t][1..] == [];
    } else {
      assert (tasks + [t])[0] == tasks[0] && (tasks + [t])[1..] == tasks[1..] + [t];
      WaitingOne(tasks[1..], t);
    }
  }

  /** Do these events leave a connected connection connected? */
  ghost predicate Open(events: seq<Event>) {
    forall e :: e in events ==> !e.Shutdown? && !e.SetDisconnecting? && !e.Closed? && !e.Destroyed?
  }

  /** The messages sent on the loop thread before the first shutdown or close. */
  ghost function Sends(events: seq<Event>): seq<seq<Byte>> {
    if events == [] then []
    else
      var before, e := events[..|events| - 1], events[|events| - 1];
      Sends(before) + (if e.Send? && Open(before) then [e.data] else [])
  }

  lemma SendsOne(events: seq<Event>, i: nat)
    requires i < |events|
    ensures Sends(events[..i + 1]) == Sends(events[..i]) + (if events[i].Send? && Open(events[..i]) then [events[i].data] else [])
    ensures Open(events[..i + 1]) <==> Open(events[..i]) && Open([events[i]])
  {
    assert events[..i + 1][..i] == events[..i];
    assert events[..i + 1] == events[..i] + [events[i]];
  }

  /** No other thread takes part and no write of a send finds a broken pipe. */
  ghost predicate Local(events: seq<Event>) {
    forall e :: e in events ==>
      && !e.PassSend? && !e.PostSend? && !e.PassShutdown? && !e.SetDisconnecting? && !e.PostShutdown?
      && (e.Send? ==> e.w != BrokenPipe)
  }

  lemma LocalOne(events: seq<Event>, i: nat)
    requires i < |events|
    ensures Local(events) ==> Local([events[i]])
  {
  }

  lemma LocalIs(e: Event)
    ensures Local([e]) <==>
      && !e.PassSend? && !e.PostSend? && !e.PassShutdown? && !e.SetDisconnecting? && !e.PostShutdown?
      && (e.Send? ==> e.w != BrokenPipe)
  {
    assert e in [e];
  }

  lemma OpenOne(e: Event)
    ensures Open([e]) <==> !e.Shutdown? && !e.SetDisconnecting? && !e.Closed? && !e.Destroyed?
  {
    assert e in [e];
  }

  lemma SendsNone()
    ensures Sends([]) == [] && Open([])
  {
  }

  /** Some thread has changed the state for a shutdown, and the loop has not run it: its task is in the queue, or
      its post is to come. */
  ghost predicate Asked(tasks: seq<Task>, posters: nat) {
    ShutdownInLoop in tasks || posters > 0
  }

  lemma AskedOne(tasks: seq<Task>, posters: nat, t: Task)
    ensures Asked(tasks + [t], posters) <==> Asked(tasks, posters) || t == ShutdownInLoop
    ensures Asked([t] + tasks, posters) <==> Asked(tasks, posters) || t == ShutdownInLoop
  {
  }

  lemma HeadAsked(tasks: seq<Task>, posters: nat)
    ensures tasks != [] && tasks[0] == ShutdownInLoop ==> Asked(tasks, posters)
  {
  }

  /** No task of another thread waits. */
  ghost predicate Quiet(tasks: seq<Task>) {
    forall t :: t in tasks ==> !t.SendInLoop? && !t.ShutdownInLoop?
  }

  // ---- what each event does, on values

  /** How a connection is set up: its high-water mark, and which callbacks it has. */
  datatype Settings = Settings(highWaterMark: nat, hasWriteComplete: bool, hasHighWater: bool)

  /** A connection, its tasks and the threads at work on it at one moment. */
  datatype Moment = Moment(state: State, output: seq<Byte>, writing: bool, writeShut: bool, pending: seq<Task>,
                           passed: multiset<seq<Byte>>, closers: nat, posters: nat, revived: bool, kernel: seq<Byte>,
                           sent: multiset<seq<Byte>>, accepted: seq<seq<Byte>>, dropped: multiset<seq<Byte>>)

  /** The kernel's answer to a write of len bytes; a write side once shut down takes nothing. */
  function Answer(writeShut: bool, w: Write, len: nat): Write {
    if writeShut then BrokenPipe else if w.Written? && w.n > len then Written(len) else w
  }

  /** Is there nothing to write before a new message? */
  predicate Idle(m: Moment) {
    m.state != Disconnected && m.output == []
  }

  /** Will a message run now reach the kernel or the buffer? */
  predicate Accepts(m: Moment, w: Write) {
    m.state != Disconnected && !(Idle(m) && Answer(m.writeShut, w, 0) == BrokenPipe)
  }

  /** How much of a message of len bytes run now goes to the kernel at once. */
  function AtOnce(m: Moment, w: Write, len: nat): (n: nat)
    ensures n <= len
  {
    if Idle(m) && Answer(m.writeShut, w, len).Written? then Answer(m.writeShut, w, len).n else 0
  }

  /** The callbacks a send queues: write-complete when all was written at once, high-water exactly when the
      backlog rises from below the mark to it or above. */
  function Callbacks(s: Settings, before: nat, written: bool, after: nat): seq<Task> {
    (if s.hasWriteComplete && written then [WriteComplete] else []) +
    (if s.hasHighWater && before < s.highWaterMark <= after then [HighWater(after)] else [])
  }

  /** A message is run by the loop: it is given up, or what the kernel does not take at once is buffered. */
  ghost function MessageRun(s: Settings, m: Moment, data: seq<Byte>, w: Write): Moment {
    if !Accepts(m, w) then m.(dropped := m.dropped + multiset{data}) else
      var n := AtOnce(m, w, |data|);
      var written := Idle(m) && Answer(m.writeShut, w, |data|) == Written(|data|);
      m.(accepted := m.accepted + [data], kernel := m.kernel + data[..n], output := m.output + data[n..],
         writing := m.writing || n < |data|,
         pending := m.pending + Callbacks(s, |m.output|, written, |m.output| + |data| - n))
  }

  ghost function ShutdownRun(m: Moment): Moment {
    m.(writeShut := m.writeShut || !m.writing)
  }

  ghost function TaskRun(s: Settings, m: Moment, w: Write): Moment
    requires m.pending != []
  {
    var rest := m.(pending := m.pending[1..]);
    match m.pending[0]
    case SendInLoop(data) => MessageRun(s, rest, data, w)
    case ShutdownInLoop => ShutdownRun(rest)
    case _ => rest
  }

  /** The socket is writable: a prefix of the backlog goes out, and with its end writing ends. */
  ghost function BacklogWritten(s: Settings, m: Moment, w: Write): Moment {
    var r := Answer(m.writeShut, w, |m.output|);
    if !m.writing || !r.Written? then m
    else if r.n < |m.output| || m.output == [] then
      m.(kernel := m.kernel + m.output[..r.n], output := m.output[r.n..])
    else
      m.(kernel := m.kernel + m.output, output := [], writing := false,
         pending := m.pending + (if s.hasWriteComplete then [WriteComplete] else []),
         writeShut := m.writeShut || m.state == Disconnecting)
  }

  /** What an event does; one that cannot happen does nothing. */
  ghost function Next(s: Settings, m: Moment, e: Event): Moment {
    match e
    case Send(data, w) =>
      if m.state == Connected then MessageRun(s, m.(sent := m.sent + multiset{data}), data, w) else m
    case PassSend(data) =>
      if m.state == Connected then m.(sent := m.sent + multiset{data}, passed := m.passed + multiset{data}) else m
    case PostSend(data) =>
      if data in m.passed
      then m.(passed := m.passed - multiset{data}, pending := m.pending + [SendInLoop(data)]) else m
    case Shutdown => if m.state == Connected then ShutdownRun(m.(state := Disconnecting)) else m
    case PassShutdown => if m.state == Connected then m.(closers := m.closers + 1) else m
    case SetDisconnecting =>
      if m.closers > 0
      then m.(closers := m.closers - 1, posters := m.posters + 1, revived := m.revived || m.state == Disconnected,
              state := Disconnecting) else m
    case PostShutdown =>
      if m.posters > 0 then m.(posters := m.posters - 1, pending := m.pending + [ShutdownInLoop]) else m
    case RunTask(w) => if m.pending != [] then TaskRun(s, m, w) else m
    case Writable(w) => BacklogWritten(s, m, w)
    case Closed =>
      if m.state == Connected || m.state == Disconnecting then m.(state := Disconnected, writing := false) else m
    case Destroyed => if m.state == Connected then m.(state := Disconnected, writing := false) else m
  }

  /** Nothing is lost, repeated or reordered between a send and the kernel; writable events are wanted exactly
      while there is a backlog; and once the request to shut down has been run, the write side is shut down
      exactly when the backlog is gone; the last two unless the connection was revived. */
  ghost predicate Flowing(m: Moment) {
    Flow(m.state, m.writing, m.writeShut, m.pending, m.posters, m.revived, m.output, m.kernel, m.accepted)
  }

  /** And every message sent is accepted, given up, or waiting for the loop. */
  ghost predicate Sound(m: Moment) {
    Flowing(m) && Accounts(m.sent, m.accepted, m.dropped, m.pending, m.passed, multiset{})
  }

  /** No other thread is at work on the connection. */
  ghost predicate Alone(m: Moment) {
    Quiet(m.pending) && m.passed == multiset{} && m.closers == 0 && m.posters == 0
  }

  /** The history of a run: the connection is sound at all moments, and each event has its effect on the moment
      before. */
  ghost predicate History(s: Settings, events: seq<Event>, trace: seq<Moment>) {
    && |trace| == |events| + 1
    && (forall i :: 0 <= i < |trace| ==> Sound(trace[i]))
    && (forall i :: 0 <= i < |events| ==> trace[i + 1] == Next(s, trace[i], events[i]))
  }

  lemma HistoryMore(s: Settings, events: seq<Event>, i: nat, trace: seq<Moment>, m: Moment)
    requires i < |events| && History(s, events[..i], trace) && m == Next(s, trace[i], events[i]) && Sound(m)
    ensures History(s, events[..i + 1], trace + [m])
  {
    hide Next, Sound;
  }

  // ---- what a run is like

  /** In every run, posted tasks and other threads included: a step shuts the write side over a backlog exactly when
      it runs a queued shutdown while writable events are not wanted though there is a backlog; and that is only so
      after a close. */
  lemma ShutOverExactly(s: Settings, events: seq<Event>, trace: seq<Moment>, i: nat)
    requires History(s, events, trace) && i < |events|
    ensures var m, m' := trace[i], trace[i + 1];
      && (!m.writeShut && m'.writeShut && m'.output != [] <==>
            events[i].RunTask? && m.pending != [] && m.pending[0] == ShutdownInLoop
            && m.output != [] && !m.writing && !m.writeShut)
      && (m.output != [] && !m.writing ==> m.state == Disconnected || m.revived)
  {
    hide Sound, Next;
    assert Sound(trace[i]) && trace[i + 1] == Next(s, trace[i], events[i]);
    ShutOver(s, trace[i], events[i]);
  }

  lemma ShutOver(s: Settings, m: Moment, e: Event)
    requires Sound(m)
    ensures !m.writeShut && Next(s, m, e).writeShut && Next(s, m, e).output != [] <==>
      e.RunTask? && m.pending != [] && m.pending[0] == ShutdownInLoop && m.output != [] && !m.writing && !m.writeShut
    ensures m.output != [] && !m.writing ==> m.state == Disconnected || m.revived
  {
    WritingFacts(m);
    hide Sound, Next;
    match e
    case Send(data, w) => SendShutsNot(s, m, data, w);
    case RunTask(w) => TaskShuts(s, m, w);
    case Writable(w) => WrittenShuts(s, m, w);
    case _ => OtherShuts(s, m, e);
  }

  lemma SendShutsNot(s: Settings, m: Moment, data: seq<Byte>, w: Write)
    ensures Next(s, m, Send(data, w)).writeShut == m.writeShut
  {
    hide MessageRun, TaskRun, BacklogWritten;
    MessageEffect(s, m.(sent := m.sent + multiset{data}), data, w);
    hide MessageRun, Callbacks;
  }

  lemma TaskShuts(s: Settings, m: Moment, w: Write)
    ensures var m', shuts := Next(s, m, RunTask(w)), m.pending != [] && m.pending[0] == ShutdownInLoop;
      && (m'.writeShut <==> m.writeShut || (shuts && !m.writing))
      && (shuts ==> m'.output == m.output)
  {
    if m.pending != [] && m.pending[0].SendInLoop? {
      MessageEffect(s, m.(pending := m.pending[1..]), m.pending[0].data, w);
    }
    hide MessageRun, Callbacks;
  }

  lemma WrittenShuts(s: Settings, m: Moment, w: Write)
    ensures var m' := Next(s, m, Writable(w)); !m.writeShut && m'.writeShut ==> m'.output == []
  {
    hide MessageRun, TaskRun;
  }

  lemma OtherShuts(s: Settings, m: Moment, e: Event)
    requires !e.Send? && !e.RunTask? && !e.Writable?
    ensures var m' := Next(s, m, e);
      m'.output == m.output && (!m.writeShut && m'.writeShut ==> m.state == Connected && !m.writing)
  {
    hide MessageRun, TaskRun, BacklogWritten;
  }

  lemma WritingFacts(m: Moment)
    requires Sound(m)
    ensures m.writing ==> m.state != Disconnected && m.output != []
    ensures m.output != [] && !m.writing ==> m.state == Disconnected || m.revived
    ensures !m.revived && m.state != Disconnected && m.output != [] ==> m.writing && !m.writeShut
    ensures m.state == Connected ==> !m.writeShut && !m.revived
  {
    hide Join, Accounts, Asked;
  }

  /** What a message changes: it never shuts the write side or touches the state. */
  lemma MessageEffect(s: Settings, m: Moment, data: seq<Byte>, w: Write)
    ensures var m', n := MessageRun(s, m, data, w), AtOnce(m, w, |data|);
      && m' == m.(dropped := m'.dropped, accepted := m'.accepted, kernel := m'.kernel, output := m'.output,
                  writing := m'.writing, pending := m'.pending)
      && (Accepts(m, w) ==> m'.accepted == m.accepted + [data] && m'.dropped == m.dropped && m'.output == m.output + data[n..])
      && (Accepts(m, w) ==> m'.pending == m.pending + Callbacks(s, |m.output|,
            Idle(m) && Answer(m.writeShut, w, |data|) == Written(|data|), |m'.output|))
      && (!Accepts(m, w) ==> m' == m.(dropped := m.dropped + multiset{data}))
  {
    hide Callbacks;
  }

  /** The tasks an event queues, after those of the queue that it leaves there. */
  ghost function Queued(m: Moment, e: Event, m': Moment): seq<Task> {
    var left := |m.pending| - (if e.RunTask? && m.pending != [] then 1 else 0);
    if left <= |m'.pending| then m'.pending[left..] else []
  }

  /** Of the tasks queued, HighWater(k) is one exactly when the backlog has risen from below the mark to k, at or
      above it, and then once. */
  ghost predicate Crosses(s: Settings, m: Moment, e: Event, m': Moment, k: nat) {
    multiset(Queued(m, e, m'))[HighWater(k)] ==
      if s.hasHighWater && |m.output| < s.highWaterMark <= |m'.output| && k == |m'.output| then 1 else 0
  }

  /** In every run, posted messages included: high-water is queued exactly when the backlog rises from below the mark
      to it or above, once, with the size it then has. */
  lemma HighWaterExactly(s: Settings, events: seq<Event>, trace: seq<Moment>, i: nat, k: nat)
    requires History(s, events, trace) && i < |events|
    ensures Crosses(s, trace[i], events[i], trace[i + 1], k)
  {
    hide Sound, Next;
    assert Sound(trace[i]) && trace[i + 1] == Next(s, trace[i], events[i]);
    Crossing(s, trace[i], events[i], k);
  }

  lemma Crossing(s: Settings, m: Moment, e: Event, k: nat)
    requires Sound(m)
    ensures Crosses(s, m, e, Next(s, m, e), k)
  {
    hide Sound, Next;
    match e
    case Send(data, w) => SendCrossing(s, m, data, w, k);
    case RunTask(w) => TaskCrossing(s, m, w, k);
    case Writable(w) => WrittenCrossing(s, m, w, k);
    case _ => OtherCrossing(s, m, e, k);
  }

  lemma SendCrossing(s: Settings, m: Moment, data: seq<Byte>, w: Write, k: nat)
    ensures Crosses(s, m, Send(data, w), Next(s, m, Send(data, w)), k)
  {
    hide MessageRun, Callbacks;
    if m.state == Connected {
      MessageCrossing(s, m.(sent := m.sent + multiset{data}), data, w, k);
    }
  }

  lemma TaskCrossing(s: Settings, m: Moment, w: Write, k: nat)
    ensures Crosses(s, m, RunTask(w), Next(s, m, RunTask(w)), k)
  {
    hide MessageRun, Callbacks;
    if m.pending != [] {
      var rest, m' := m.(pending := m.pending[1..]), TaskRun(s, m, w);
      if m.pending[0].SendInLoop? {
        MessageCrossing(s, rest, m.pending[0].data, w, k);
        assert m' == MessageRun(s, rest, m.pending[0].data, w);
      } else {
        assert m' == rest || m' == ShutdownRun(rest);
        assert m'.pending[|rest.pending|..] == [];
      }
      assert Next(s, m, RunTask(w)) == m';
      hide Next, TaskRun;
      assert Queued(m, RunTask(w), m') == m'.pending[|rest.pending|..];
    }
  }

  lemma WrittenQueues(s: Settings, m: Moment, w: Write)
    requires m.writing ==> m.output != []
    ensures var m' := BacklogWritten(s, m, w);
      |m'.output| <= |m.output| && (m'.pending == m.pending || m'.pending == m.pending + [WriteComplete])
  {
    WrittenCases(s, m, w);
    hide BacklogWritten;
  }

  lemma WrittenCrossing(s: Settings, m: Moment, w: Write, k: nat)
    requires Sound(m)
    ensures Crosses(s, m, Writable(w), Next(s, m, Writable(w)), k)
  {
    hide Sound, BacklogWritten;
    WritingFacts(m);
    WrittenQueues(s, m, w);
    var m' := BacklogWritten(s, m, w);
    assert Next(s, m, Writable(w)) == m';
    hide Next;
    assert Queued(m, Writable(w), m') == [] || Queued(m, Writable(w), m') == [WriteComplete];
  }

  lemma OtherCrossing(s: Settings, m: Moment, e: Event, k: nat)
    requires !e.Send? && !e.RunTask? && !e.Writable?
    ensures Crosses(s, m, e, Next(s, m, e), k)
  {
    hide MessageRun, TaskRun, BacklogWritten;
    var q := Queued(m, e, Next(s, m, e));
    assert q == [] || (e.PostSend? && q == [SendInLoop(e.data)]) || q == [ShutdownInLoop];
  }

  lemma MessageCrossing(s: Settings, m: Moment, data: seq<Byte>, w: Write, k: nat)
    ensures var m' := MessageRun(s, m, data, w);
      && |m.pending| <= |m'.pending|
      && multiset(m'.pending[|m.pending|..])[HighWater(k)] ==
        if s.hasHighWater && |m.output| < s.highWaterMark <= |m'.output| && k == |m'.output| then 1 else 0
  {
    var m' := MessageRun(s, m, data, w);
    if Accepts(m, w) {
      assert m'.pending[|m.pending|..] == Callbacks(s, |m.output|,
        Idle(m) && Answer(m.writeShut, w, |data|) == Written(|data|), |m'.output|);
    } else {
      assert m'.pending[|m.pending|..] == [];
    }
  }

  /** Write-complete is queued, once, exactly when the connection has that callback and either a message was taken
      whole at once or the backlog came to its end. */
  ghost predicate Completes(s: Settings, m: Moment, e: Event, t: Moment) {
    multiset(Queued(m, e, t))[WriteComplete] ==
      if s.hasWriteComplete && (WholeAtOnce(m, e) || (m.output != [] && t.output == [])) then 1 else 0
  }

  /** The message an event runs, if it runs one. */
  function MessageOf(m: Moment, e: Event): seq<seq<Byte>> {
    if e.Send? && m.state == Connected then [e.data]
    else if e.RunTask? && m.pending != [] && m.pending[0].SendInLoop? then [m.pending[0].data]
    else []
  }

  /** A message is run, nothing waits before it, and the kernel takes it whole. */
  predicate WholeAtOnce(m: Moment, e: Event) {
    && MessageOf(m, e) != [] && m.state != Disconnected && m.output == [] && !m.writeShut
    && (e.Send? || e.RunTask?) && e.w.Written? && e.w.n >= |MessageOf(m, e)[0]|
  }

  /** What happens to a message that is run: it is given up when the connection is closed or nothing waits and the pipe
      is broken, and otherwise accepted; the kernel takes its first k bytes and the rest is buffered. */
  ghost predicate MessageAs(m: Moment, data: seq<Byte>, w: Write, t: Moment) {
    var k := if m.output != [] || !w.Written? then 0 else if w.n < |data| then w.n else |data|;
    && t.state == m.state && t.writeShut == m.writeShut && t.revived == m.revived && t.sent == m.sent
    && t.passed == m.passed && t.closers == m.closers && t.posters == m.posters && m.pending <= t.pending
    && if m.state == Disconnected || (m.output == [] && (m.writeShut || w == BrokenPipe)) then
         && t.dropped == m.dropped + multiset{data} && t.accepted == m.accepted && t.kernel == m.kernel
         && t.output == m.output && t.writing == m.writing && t.pending == m.pending
       else
         && t.dropped == m.dropped && t.accepted == m.accepted + [data] && t.kernel == m.kernel + data[..k]
         && t.output == m.output + data[k..] && (t.writing <==> m.writing || k < |data|)
  }

  lemma MessageFields(s: Settings, m: Moment, data: seq<Byte>, w: Write)
    ensures MessageAs(m, data, w, MessageRun(s, m, data, w))
  {
    hide Callbacks;
  }

  /** What the kernel takes of the backlog when the socket is writable. */
  ghost predicate WrittenAs(m: Moment, w: Write, t: Moment) {
    var k := if !m.writing || m.writeShut || !w.Written? then 0 else if w.n < |m.output| then w.n else |m.output|;
    && t.kernel == m.kernel + m.output[..k] && t.output == m.output[k..] && (t.writing <==> m.writing && t.output != [])
    && (t.writeShut <==> m.writeShut || (m.state == Disconnecting && m.output != [] && t.output == []))
    && t == m.(kernel := t.kernel, output := t.output, writing := t.writing, writeShut := t.writeShut, pending := t.pending)
    && m.pending <= t.pending
  }

  lemma WrittenFields(s: Settings, m: Moment, w: Write)
    requires Sound(m)
    ensures WrittenAs(m, w, BacklogWritten(s, m, w))
  {
    WritingFacts(m);
    WrittenCases(s, m, w);
    hide Sound, BacklogWritten, WrittenAs;
    var t, r := BacklogWritten(s, m, w), Answer(m.writeShut, w, |m.output|);
    if m.writing && r.Written? && r.n > 0 {
      WrittenPart(m, w, if s.hasWriteComplete then [WriteComplete] else []);
    } else {
      Unwritten(m, w);
    }
  }

  lemma WrittenPart(m: Moment, w: Write, more: seq<Task>)
    requires m.writing && !m.writeShut && w.Written? && w.n > 0 && m.output != []
    ensures var n := if w.n > |m.output| then |m.output| else w.n;
      var m' := m.(kernel := m.kernel + m.output[..n], output := m.output[n..]);
      && (n < |m.output| ==> WrittenAs(m, w, m'))
      && (n == |m.output| ==>
            WrittenAs(m, w, m'.(writing := false, pending := m.pending + more, writeShut := m.writeShut || m.state == Disconnecting)))
  {
    assert m.output[..|m.output|] == m.output;
  }

  lemma Unwritten(m: Moment, w: Write)
    requires m.writing ==> m.output != []
    requires !m.writing || m.writeShut || !w.Written? || w.n == 0
    ensures WrittenAs(m, w, m)
  {
    assert m.output[..0] == [] && m.output[0..] == m.output && m.kernel + [] == m.kernel;
  }

  /** The steps of the other threads, and the changes of the state: the first check of a send or of a shutdown passes
      while the connection is connected, and only then; what has passed may be posted. */
  ghost predicate HappenedAs(m: Moment, e: Event, t: Moment) {
    match e
    case Send(data, w) =>
      if m.state == Connected then MessageAs(m.(sent := m.sent + multiset{data}), data, w, t) else t == m
    case RunTask(w) =>
      if m.pending == [] then t == m
      else if m.pending[0].SendInLoop? then MessageAs(m.(pending := m.pending[1..]), m.pending[0].data, w, t)
      else if m.pending[0].ShutdownInLoop? then
        t == m.(pending := m.pending[1..], writeShut := t.writeShut) && (t.writeShut <==> m.writeShut || !m.writing)
      else t == m.(pending := m.pending[1..])
    case Writable(w) => WrittenAs(m, w, t)
    case Shutdown =>
      if m.state == Connected then
        t == m.(state := Disconnecting, writeShut := t.writeShut) && (t.writeShut <==> m.writeShut || !m.writing)
      else t == m
    case Closed => t == if m.state == Connecting || m.state == Disconnected then m else m.(state := Disconnected, writing := false)
    case Destroyed => t == if m.state == Connected then m.(state := Disconnected, writing := false) else m
    case _ => OtherAs(m, e, t)
  }

  ghost predicate OtherAs(m: Moment, e: Event, t: Moment) {
    && t == m.(sent := t.sent, passed := t.passed, closers := t.closers, posters := t.posters, state := t.state,
               revived := t.revived, pending := t.pending)
    && t.sent == m.sent + (if e.PassSend? && m.state == Connected then multiset{e.data} else multiset{})
    && t.passed == (if e.PassSend? && m.state == Connected then m.passed + multiset{e.data}
                    else if e.PostSend? && e.data in m.passed then m.passed - multiset{e.data} else m.passed)
    && t.closers == (if e.PassShutdown? && m.state == Connected then m.closers + 1
                     else if e.SetDisconnecting? && m.closers > 0 then m.closers - 1 else m.closers)
    && t.posters == (if e.SetDisconnecting? && m.closers > 0 then m.posters + 1
                     else if e.PostShutdown? && m.posters > 0 then m.posters - 1 else m.posters)
    && t.state == (if e.SetDisconnecting? && m.closers > 0 then Disconnecting else m.state)
    && (t.revived <==> m.revived || (e.SetDisconnecting? && m.closers > 0 && m.state == Disconnected))
    && t.pending == m.pending + (if e.PostSend? && e.data in m.passed then [SendInLoop(e.data)]
                                 else if e.PostShutdown? && m.posters > 0 then [ShutdownInLoop] else [])
  }

  lemma PassSendFields(s: Settings, m: Moment, data: seq<Byte>)
    ensures OtherAs(m, PassSend(data), Next(s, m, PassSend(data)))
  {
    hide MessageRun, TaskRun, BacklogWritten, ShutdownRun;
    assert Next(s, m, PassSend(data)) == if m.state == Connected then m.(sent := m.sent + multiset{data}, passed := m.passed + multiset{data}) else m;
    hide Next;
    assert m.pending + [] == m.pending;
  }

  lemma PostSendFields(s: Settings, m: Moment, data: seq<Byte>)
    ensures OtherAs(m, PostSend(data), Next(s, m, PostSend(data)))
  {
    hide MessageRun, TaskRun, BacklogWritten, ShutdownRun;
    assert Next(s, m, PostSend(data)) == if data in m.passed then m.(passed := m.passed - multiset{data}, pending := m.pending + [SendInLoop(data)]) else m;
    hide Next;
    assert m.pending + [] == m.pending;
  }

  lemma PassShutdownFields(s: Settings, m: Moment)
    ensures OtherAs(m, PassShutdown, Next(s, m, PassShutdown))
  {
    hide MessageRun, TaskRun, BacklogWritten, ShutdownRun;
    assert Next(s, m, PassShutdown) == if m.state == Connected then m.(closers := m.closers + 1) else m;
    hide Next;
    assert m.pending + [] == m.pending;
  }

  lemma SetDisconnectingFields(s: Settings, m: Moment)
    ensures OtherAs(m, SetDisconnecting, Next(s, m, SetDisconnecting))
  {
    if m.closers > 0 {
      LateNext(s, m);
    }
    hide MessageRun, TaskRun, BacklogWritten, ShutdownRun;
    assert m.closers == 0 ==> Next(s, m, SetDisconnecting) == m;
    hide Next;
    assert m.pending + [] == m.pending;
  }

  lemma PostShutdownFields(s: Settings, m: Moment)
    ensures OtherAs(m, PostShutdown, Next(s, m, PostShutdown))
  {
    hide MessageRun, TaskRun, BacklogWritten, ShutdownRun;
    assert Next(s, m, PostShutdown) == if m.posters > 0 then m.(posters := m.posters - 1, pending := m.pending + [ShutdownInLoop]) else m;
    hide Next;
    assert m.pending + [] == m.pending;
  }

  lemma OtherFields(s: Settings, m: Moment, e: Event)
    requires e.PassSend? || e.PostSend? || e.PassShutdown? || e.SetDisconnecting? || e.PostShutdown?
    ensures OtherAs(m, e, Next(s, m, e))
  {
    hide Next, OtherAs;
    match e
    case PassSend(data) => PassSendFields(s, m, data);
    case PostSend(data) => PostSendFields(s, m, data);
    case PassShutdown => PassShutdownFields(s, m);
    case SetDisconnecting => SetDisconnectingFields(s, m);
    case PostShutdown => PostShutdownFields(s, m);
  }

  /** In every history each event does exactly this. */
  lemma HappenedExactly(s: Settings, events: seq<Event>, trace: seq<Moment>, i: nat)
    requires History(s, events, trace) && i < |events|
    ensures HappenedAs(trace[i], events[i], trace[i + 1]) && Completes(s, trace[i], events[i], trace[i + 1])
  {
    hide Sound, Next, HappenedAs, Completes;
    assert Sound(trace[i]) && trace[i + 1] == Next(s, trace[i], events[i]);
    EventFields(s, trace[i], events[i]);
    EventCompletes(s, trace[i], events[i]);
  }

  lemma EventFields(s: Settings, m: Moment, e: Event)
    requires Sound(m)
    ensures HappenedAs(m, e, Next(s, m, e))
  {
    hide Sound, MessageRun, BacklogWritten, MessageAs, WrittenAs, OtherAs;
    match e
    case Send(data, w) => MessageFields(s, m.(sent := m.sent + multiset{data}), data, w);
    case RunTask(w) =>
      if m.pending != [] && m.pending[0].SendInLoop? {
        MessageFields(s, m.(pending := m.pending[1..]), m.pending[0].data, w);
      }
    case Writable(w) => WrittenFields(s, m, w);
    case Shutdown =>
    case Closed =>
    case Destroyed =>
    case _ => OtherFields(s, m, e);
  }

  lemma EventCompletes(s: Settings, m: Moment, e: Event)
    requires Sound(m)
    ensures Completes(s, m, e, Next(s, m, e))
  {
    WritingFacts(m);
    hide Sound, Next, Completes;
    match e
    case Send(data, w) => SendCompletes(s, m, data, w);
    case RunTask(w) => TaskCompletes(s, m, w);
    case Writable(w) => WrittenCompletes(s, m, w);
    case _ => OtherCompletes(s, m, e);
  }

  lemma SendCompletes(s: Settings, m: Moment, data: seq<Byte>, w: Write)
    ensures Completes(s, m, Send(data, w), Next(s, m, Send(data, w)))
  {
    hide MessageRun, Callbacks;
    if m.state == Connected {
      MessageCompletes(s, m.(sent := m.sent + multiset{data}), data, w);
    }
  }

  lemma MessageCompletes(s: Settings, m: Moment, data: seq<Byte>, w: Write)
    ensures var t := MessageRun(s, m, data, w);
      && |m.pending| <= |t.pending| && (m.output != [] ==> t.output != [])
      && multiset(t.pending[|m.pending|..])[WriteComplete] ==
        if s.hasWriteComplete && m.state != Disconnected && m.output == [] && !m.writeShut && w.Written? && w.n >= |data| then 1 else 0
  {
    var t := MessageRun(s, m, data, w);
    if Accepts(m, w) {
      assert t.pending[|m.pending|..] == Callbacks(s, |m.output|,
        Idle(m) && Answer(m.writeShut, w, |data|) == Written(|data|), |t.output|);
    } else {
      assert t.pending[|m.pending|..] == [];
    }
  }

  lemma TaskCompletes(s: Settings, m: Moment, w: Write)
    ensures Completes(s, m, RunTask(w), Next(s, m, RunTask(w)))
  {
    hide MessageRun;
    if m.pending != [] {
      var rest, t := m.(pending := m.pending[1..]), TaskRun(s, m, w);
      if m.pending[0].SendInLoop? {
        MessageCompletes(s, rest, m.pending[0].data, w);
      } else {
        assert t.pending[|rest.pending|..] == [];
      }
      assert Next(s, m, RunTask(w)) == t;
      hide Next, TaskRun;
      assert Queued(m, RunTask(w), t) == t.pending[|rest.pending|..];
    }
  }

  lemma WrittenCompletes(s: Settings, m: Moment, w: Write)
    requires m.writing ==> m.output != []
    ensures Completes(s, m, Writable(w), Next(s, m, Writable(w)))
  {
    WrittenCases(s, m, w);
    hide BacklogWritten;
    var t := BacklogWritten(s, m, w);
    assert Next(s, m, Writable(w)) == t;
    hide Next;
    var q := Queued(m, Writable(w), t);
    assert q == [] || q == [WriteComplete];
    assert t.pending == m.pending ==> q == [];
  }

  lemma OtherCompletes(s: Settings, m: Moment, e: Event)
    requires !e.Send? && !e.RunTask? && !e.Writable?
    ensures Completes(s, m, e, Next(s, m, e))
  {
    hide MessageRun, TaskRun, BacklogWritten;
    var q := Queued(m, e, Next(s, m, e));
    assert q == [] || (e.PostSend? && q == [SendInLoop(e.data)]) || q == [ShutdownInLoop];
  }

  /** While only the loop thread takes part, an event accepts what it sends while connected, gives nothing up, and
      shuts the write side over no backlog. */
  lemma LocalNext(s: Settings, m: Moment, e: Event)
    requires Sound(m) && Alone(m) && Local([e])
    ensures var m' := Next(s, m, e);
      && Alone(m') && m'.dropped == m.dropped && m'.revived == m.revived
      && m'.accepted == m.accepted + (if e.Send? && m.state == Connected then [e.data] else [])
      && ((m.writeShut ==> m.output == []) && m'.writeShut ==> m'.output == [])
      && (m'.state == Connected <==> m.state == Connected && Open([e]))
  {
    LocalIs(e);
    OpenOne(e);
    hide Sound, Next, Local, Open;
    match e
    case Send(data, w) => LocalSend(s, m, data, w);
    case RunTask(w) => LocalTask(s, m, w);
    case Writable(w) => LocalWritten(s, m, w);
    case _ => LocalRest(s, m, e);
  }

  lemma LocalSend(s: Settings, m: Moment, data: seq<Byte>, w: Write)
    requires Sound(m) && Alone(m) && w != BrokenPipe
    ensures var m' := Next(s, m, Send(data, w));
      && Alone(m') && m'.dropped == m.dropped && m'.revived == m.revived && m'.writeShut == m.writeShut && m'.state == m.state
      && m'.accepted == m.accepted + (if m.state == Connected then [data] else [])
      && (m.writeShut ==> m'.output == m.output)
  {
    WritingFacts(m);
    MessageEffect(s, m.(sent := m.sent + multiset{data}), data, w);
    QuietMore(s, m.pending, |m.output|, Idle(m) && Answer(m.writeShut, w, |data|) == Written(|data|));
    hide Sound, MessageRun, Quiet, Callbacks;
    assert m.accepted + [] == m.accepted;
  }

  lemma LocalTask(s: Settings, m: Moment, w: Write)
    requires Sound(m) && Alone(m)
    ensures var m' := Next(s, m, RunTask(w)); Alone(m') && m' == m.(pending := m'.pending) && m.accepted == m.accepted + []
  {
    if m.pending != [] {
      QuietHead(m.pending);
    }
    hide Sound, MessageRun, Quiet;
  }

  lemma LocalWritten(s: Settings, m: Moment, w: Write)
    requires Sound(m) && Alone(m)
    ensures var m' := Next(s, m, Writable(w));
      && Alone(m') && m'.dropped == m.dropped && m'.revived == m.revived && m'.state == m.state
      && m'.accepted == m.accepted == m.accepted + []
      && ((m.writeShut ==> m.output == []) && m'.writeShut ==> m'.output == [])
  {
    WritingFacts(m);
    WrittenCases(s, m, w);
    QuietOne(m.pending);
    hide Sound, BacklogWritten, Quiet;
  }

  lemma LocalRest(s: Settings, m: Moment, e: Event)
    requires Sound(m) && Alone(m) && (e.Shutdown? || e.Closed? || e.Destroyed?)
    ensures var m' := Next(s, m, e);
      && Alone(m') && m'.dropped == m.dropped && m'.revived == m.revived && m'.state != Connected
      && m'.accepted == m.accepted == m.accepted + [] && m'.output == m.output
      && (m'.writeShut ==> m.writeShut || m.output == [])
  {
    WritingFacts(m);
    hide Sound, Quiet, MessageRun, TaskRun, BacklogWritten;
    RestEffect(s, m, e);
    hide Next;
  }

  /** A shutdown, a close or the end of a connection touches no task, message or byte. */
  lemma RestEffect(s: Settings, m: Moment, e: Event)
    requires e.Shutdown? || e.Closed? || e.Destroyed?
    ensures var m' := Next(s, m, e);
      && m' == m.(state := m'.state, writing := m'.writing, writeShut := m'.writeShut)
      && (m.state != Connected || m'.state != Connected)
      && (m'.writeShut ==> m.writeShut || (m.state == Connected && !m.writing))
  {
    hide MessageRun, TaskRun, BacklogWritten;
  }

  lemma QuietHead(tasks: seq<Task>)
    requires Quiet(tasks) && tasks != []
    ensures !tasks[0].SendInLoop? && !tasks[0].ShutdownInLoop? && Quiet(tasks[1..])
  {
  }

  lemma QuietOne(tasks: seq<Task>)
    requires Quiet(tasks)
    ensures Quiet(tasks + [WriteComplete]) && tasks + [] == tasks
  {
  }

  lemma QuietMore(s: Settings, tasks: seq<Task>, before: nat, written: bool)
    requires Quiet(tasks)
    ensures forall after: nat {:trigger Callbacks(s, before, written, after)} :: Quiet(tasks + Callbacks(s, before, written, after))
  {
  }

  class Connection {
    var state: State
    /** The content of the output buffer. */
    var output: seq<Byte>
    var writing: bool
    /** The write side of the socket has been shut down. */
    var writeShut: bool
    const settings: Settings
    var pending: seq<Task>

    /** The bytes the kernel has taken. */
    ghost var kernel: seq<Byte>
    /** The messages that got past the state check of send. */
    ghost var sent: multiset<seq<Byte>>
    /** Those of them the loop has written or buffered, in order, and those it has given up. */
    ghost var accepted: seq<seq<Byte>>
    ghost var dropped: multiset<seq<Byte>>

    /** Other threads between their steps: the messages past the check and not yet posted, the shutdowns past the
        check, and those that have changed the state and not yet posted. */
    var passed: multiset<seq<Byte>>
    var closers: nat
    var posters: nat
    /** A thread that had found the connection connected made it disconnecting after it was disconnected. */
    ghost var revived: bool

    ghost function Now(): Moment
      reads this
    {
      Moment(state, output, writing, writeShut, pending, passed, closers, posters, revived, kernel, sent, accepted, dropped)
    }

    /** Every message sent is accepted, given up, waiting for the loop, or being run now. */
    ghost predicate Accounted(running: multiset<seq<Byte>>)
      reads this
    {
      Accounts(sent, accepted, dropped, pending, passed, running)
    }

    ghost predicate Valid()
      reads this
    {
      Sound(Now())
    }

    constructor (settings: Settings)
      ensures Valid() && this.settings == settings
      ensures Now() == Moment(Connecting, [], false, false, [], multiset{}, 0, 0, false, [], multiset{}, [], multiset{})
    {
      this.settings := settings;
      state, writing, writeShut, pending := Connecting, false, false, [];
      output, kernel, sent, accepted, dropped := [], [], multiset{}, [], multiset{};
      passed, closers, posters, revived := multiset{}, 0, 0, false;
    }

    method ConnectEstablished()
      requires Valid() && state == Connecting
      modifies this`state
      ensures Valid() && Now() == old(Now()).(state := Connected)
    {
      state := Connected;
    }

    method QueueInLoop(t: Task, ghost running: multiset<seq<Byte>>)
      modifies this`pending
      ensures pending == old(pending) + [t]
      ensures !t.SendInLoop? && old(Accounted(running)) ==> Accounted(running)
    {
      hide Waiting;
      WaitingOne(pending, t);
      pending := pending + [t];
    }

    ghost method Drop(data: seq<Byte>)
      requires Accounted(multiset{data})
      modifies this`dropped
      ensures Accounted(multiset{}) && dropped == old(dropped) + multiset{data}
    {
      hide Waiting;
      dropped := dropped + multiset{data};
    }

    ghost method Accept(data: seq<Byte>)
      requires Accounted(multiset{data})
      modifies this`accepted
      ensures Accounted(multiset{}) && accepted == old(accepted) + [data]
    {
      hide Waiting;
      accepted := accepted + [data];
    }

    /** Writes what it can and buffers the rest. */
    method DoSendInLoop(data: seq<Byte>, w: Write)
      requires Flowing(Now()) && Accounted(multiset{data})
      modifies this`writing, this`pending, this`kernel, this`accepted, this`dropped, this`output
      ensures Valid() && Now() == MessageRun(settings, old(Now()), data, w)
    {
      hide Join, Waiting, Accounts, Flow, Asked, MessageRun, TakenOn;
      FlowFacts(state, writing, writeShut, pending, posters, revived, output, kernel, accepted);
      ghost var m := Now();
      MessageCases(settings, m, data, w);
      if state == Disconnected {
        Drop(data);
        return;
      }
      assert pending + [] == pending;
      var nwrote, remaining, error := 0, |data|, false;
      if !writing && |output| == 0 {
        match Answer(writeShut, w, |data|)
        case Written(n) =>
          nwrote := n;
          remaining := |data| - n;
          if remaining == 0 && settings.hasWriteComplete {
            FlowTask(state, writing, writeShut, pending, posters, revived, output, kernel, accepted, WriteComplete);
            QueueInLoop(WriteComplete, multiset{data});
          }
        case BrokenPipe =>
          error := true;
        case _ =>
      }
      if error {
        Drop(data);
        return;
      }
      TakeOn(data, nwrote);
    }

    /** The message is accepted: the kernel has taken a prefix, and the rest is buffered. */
    method TakeOn(data: seq<Byte>, nwrote: nat)
      requires Flowing(Now()) && Accounted(multiset{data}) && state != Disconnected
      requires nwrote <= |data| && (if output == [] then !writeShut else nwrote == 0)
      modifies this`writing, this`pending, this`kernel, this`accepted, this`output
      ensures Valid() && Now() == TakenOn(settings, old(Now()), data, nwrote)
    {
      hide Join, Waiting, Accounts, Callbacks, Flow, Owing, Asked;
      FlowSent(state, writing, writeShut, pending, posters, revived, output, kernel, accepted, data, nwrote);
      Accept(data);
      kernel := kernel + data[..nwrote];
      if nwrote < |data| {
        BufferRest(data[nwrote..]);
      }
    }

    /** Appends what the kernel did not take to the output buffer and asks for writable events. */
    method BufferRest(rest: seq<Byte>)
      requires rest != [] && Accounted(multiset{})
      requires Owing(state, writing, writeShut, pending, posters, revived, output, rest, kernel, accepted)
      modifies this`writing, this`pending, this`output
      ensures Valid() && output == old(output) + rest && writing
      ensures pending == old(pending) + Callbacks(settings, old(|output|), false, |output|)
    {
      var oldLen, remaining := |output|, |rest|;
      hide Join, Waiting, Accounts, Callbacks, Flow, Owing, Asked;
      CallbackCases(settings, oldLen, oldLen + remaining);
      OwingBuffered(state, writing, writeShut, pending, posters, revived, output, rest, kernel, accepted);
      if oldLen + remaining >= settings.highWaterMark && oldLen < settings.highWaterMark && settings.hasHighWater {
        FlowTask(state, true, writeShut, pending, posters, revived, output + rest, kernel, accepted,
                 HighWater(oldLen + remaining));
        QueueInLoop(HighWater(oldLen + remaining), multiset{});
      }
      output := output + rest;
      if !writing {
        writing := true;
      }
    }

    /** send on the loop thread. */
    method DoSend(data: seq<Byte>, w: Write)
      requires Valid()
      modifies this`writing, this`pending, this`kernel, this`sent, this`accepted, this`dropped, this`output
      ensures Valid() && Now() == Next(settings, old(Now()), Send(data, w))
      ensures state == Connected && w != BrokenPipe ==> accepted == old(accepted) + [data]
    {
      hide Join, Waiting, Flow, Accounts, Callbacks, Asked;
      if state == Connected {
        FlowConnected(state, writing, writeShut, pending, posters, revived, output, kernel, accepted);
        AccountsSend(sent, accepted, dropped, pending, passed, data);
        sent := sent + multiset{data};
        DoSendInLoop(data, w);
      }
    }

    /** send on another thread, its check of the state: the message is sent if the connection is connected. */
    method DoPassSend(data: seq<Byte>)
      requires Valid()
      modifies this`sent, this`passed
      ensures Valid() && Now() == Next(settings, old(Now()), PassSend(data))
    {
      hide Join, Waiting, Flow, Accounts, Asked;
      if state == Connected {
        AccountsSend(sent, accepted, dropped, pending, passed, data);
        sent := sent + multiset{data};
        passed := passed + multiset{data};
      }
    }

    /** And its post, at any later time: the loop runs it later still. */
    method DoPostSend(data: seq<Byte>)
      requires Valid() && data in passed
      modifies this`passed, this`pending
      ensures Valid() && Now() == Next(settings, old(Now()), PostSend(data))
    {
      hide Join, Waiting, Flow, Accounts, Asked;
      AccountsPost(sent, accepted, dropped, pending, passed, data);
      FlowTask(state, writing, writeShut, pending, posters, revived, output, kernel, accepted, SendInLoop(data));
      passed := passed - multiset{data};
      pending := pending + [SendInLoop(data)];
    }

    /** Shuts the write side down unless there is a backlog; handleWrite does it when the backlog is gone. */
    method DoShutdownInLoop()
      requires Accounted(multiset{}) && (state == Disconnecting || state == Disconnected)
      requires Steady(state, writing, writeShut, revived, output, kernel, accepted)
      modifies this`writeShut
      ensures Valid() && Now() == ShutdownRun(old(Now()))
    {
      hide Join, Waiting;
      if !writing {
        writeShut := true;
      }
    }

    /** shutdown on the loop thread: the write side is shut down at once exactly when there is no backlog. */
    method DoShutdown()
      requires Valid()
      modifies this`state, this`writeShut
      ensures Valid() && Now() == Next(settings, old(Now()), Shutdown)
      ensures writeShut <==> old(writeShut) || (old(state) == Connected && output == [])
    {
      hide Join, Waiting;
      if state == Connected {
        state := Disconnecting;
        DoShutdownInLoop();
      }
    }

    /** shutdown on another thread, its check of the state. */
    method DoPassShutdown()
      requires Valid()
      modifies this`closers
      ensures Valid() && Now() == Next(settings, old(Now()), PassShutdown)
    {
      hide Join, Waiting, MessageRun, TaskRun, BacklogWritten;
      if state == Connected {
        closers := closers + 1;
      }
    }

    /** Its change of the state: nothing says that the connection is still connected. */
    method DoSetDisconnecting()
      requires Valid() && closers > 0
      modifies this`state, this`closers, this`posters, this`revived
      ensures Valid() && Now() == Next(settings, old(Now()), SetDisconnecting)
    {
      hide Next, Sound;
      LateNext(settings, Now());
      LateShutdown(Now());
      if state == Disconnected {
        revived := true;
      }
      closers, posters := closers - 1, posters + 1;
      state := Disconnecting;
    }

    /** And its post. */
    method DoPostShutdown()
      requires Valid() && posters > 0
      modifies this`posters, this`pending
      ensures Valid() && Now() == Next(settings, old(Now()), PostShutdown)
    {
      hide Join, Waiting, Flow, Accounts, Asked;
      FlowPost(state, writing, writeShut, pending, posters, revived, output, kernel, accepted);
      QueueInLoop(ShutdownInLoop, multiset{});
      posters := posters - 1;
    }

    /** The loop runs the functor at the head of its queue; a callback's own calls are later events. */
    method DoRunTask(w: Write)
      requires Valid() && pending != []
      modifies this`writing, this`writeShut, this`pending, this`kernel, this`accepted, this`dropped, this`output
      ensures Valid() && Now() == TaskRun(settings, old(Now()), w)
    {
      hide Join, Waiting, Flow, Accounts, Steady, Asked, MessageRun;
      FlowSteady(state, writing, writeShut, pending, posters, revived, output, kernel, accepted);
      AccountsPop(sent, accepted, dropped, pending, passed);
      var t := pending[0];
      assert pending == [t] + pending[1..];
      if t != ShutdownInLoop {
        FlowTask(state, writing, writeShut, pending[1..], posters, revived, output, kernel, accepted, t);
      }
      HeadAsked(pending, posters);
      pending := pending[1..];
      match t
      case SendInLoop(data) => DoSendInLoop(data, w);
      case ShutdownInLoop => DoShutdownInLoop();
      case _ =>
    }

    /** The socket is writable: hands on what the kernel takes. */
    method HandleWrite(w: Write)
      requires Valid()
      modifies this`writing, this`writeShut, this`pending, this`kernel, this`output
      ensures Valid() && Now() == BacklogWritten(settings, old(Now()), w)
    {
      hide Join, Waiting, Flow, Accounts, Steady, Asked, BacklogWritten;
      FlowFacts(state, writing, writeShut, pending, posters, revived, output, kernel, accepted);
      WrittenCases(settings, Now(), w);
      if writing {
        var r := Answer(writeShut, w, |output|);
        if r.Written? && r.n > 0 {
          FlowWritten(state, writing, writeShut, pending, posters, revived, output, kernel, accepted, r.n);
          kernel, output := kernel + output[..r.n], output[r.n..];
          if |output| == 0 {
            writing := false;
            if settings.hasWriteComplete {
              FlowTask(state, false, writeShut, pending, posters, revived, output, kernel, accepted, WriteComplete);
              QueueInLoop(WriteComplete, multiset{});
            }
            if state == Disconnecting {
              DoShutdownInLoop();
            }
          }
        }
      }
    }

    method HandleClose()
      requires Valid() && (state == Connected || state == Disconnecting)
      modifies this`state, this`writing
      ensures Valid() && Now() == old(Now()).(state := Disconnected, writing := false)
    {
      hide Join, Waiting, MessageRun, TaskRun, BacklogWritten;
      state := Disconnected;
      writing := false;
    }

    method ConnectDestroyed()
      requires Valid()
      modifies this`state, this`writing
      ensures Valid() && Now() == Next(settings, old(Now()), Destroyed)
    {
      hide Join, Waiting, MessageRun, TaskRun, BacklogWritten;
      if state == Connected {
        state := Disconnected;
        writing := false;
      }
    }

    /** A step of the loop thread. */
    method LoopStep(e: Event)
      requires Valid() && !e.PassSend? && !e.PostSend? && !e.PassShutdown? && !e.SetDisconnecting? && !e.PostShutdown?
      modifies this
      ensures Valid() && Now() == Next(settings, old(Now()), e)
    {
      hide Sound, MessageRun, TaskRun, ShutdownRun, BacklogWritten;
      match e
      case Send(data, w) => DoSend(data, w);
      case Shutdown => DoShutdown();
      case RunTask(w) => if pending != [] { DoRunTask(w); }
      case Writable(w) => HandleWrite(w);
      case Closed => if state == Connected || state == Disconnecting { HandleClose(); }
      case Destroyed => ConnectDestroyed();
      case _ =>
    }

    /** A step of another thread; one that cannot be taken is skipped. */
    method OtherStep(e: Event)
      requires Valid() && (e.PassSend? || e.PostSend? || e.PassShutdown? || e.SetDisconnecting? || e.PostShutdown?)
      modifies this
      ensures Valid() && Now() == Next(settings, old(Now()), e) && kernel == old(kernel) && accepted == old(accepted)
    {
      hide Sound;
      match e
      case PassSend(data) => DoPassSend(data);
      case PostSend(data) => if data in passed { DoPostSend(data); }
      case PassShutdown => DoPassShutdown();
      case SetDisconnecting => if closers > 0 { DoSetDisconnecting(); }
      case PostShutdown => if posters > 0 { DoPostShutdown(); }
      case _ =>
    }

    /** Any step has exactly its effect and keeps the invariants; what the kernel has and what is accepted stays. */
    method Step(e: Event)
      requires Valid()
      modifies this
      ensures Valid() && Now() == Next(settings, old(Now()), e) && old(kernel) <= kernel && old(accepted) <= accepted
    {
      NextGrows(settings, Now(), e);
      hide Sound, Next;
      if e.PassSend? || e.PostSend? || e.PassShutdown? || e.SetDisconnecting? || e.PostShutdown? {
        OtherStep(e);
      } else {
        LoopStep(e);
      }
    }

    /** Any run of events has a history, which ends in the connection as it then is. While only the loop thread takes
        part, the accepted messages are exactly those sent before the first shutdown or close, in order, and the
        write side is shut down only when all of them have been handed over, also after a disconnect. */
    method Run(events: seq<Event>) returns (ghost trace: seq<Moment>)
      requires Valid()
      modifies this
      ensures Valid() && History(settings, events, trace) && trace[0] == old(Now()) && trace[|events|] == Now()
      ensures old(kernel) <= kernel && old(accepted) <= accepted && kernel + output == Join(accepted)
      ensures state == Disconnecting && !revived && writeShut ==> kernel == Join(accepted)
      ensures old(state) == Connected && Alone(old(Now())) && Local(events) ==>
        && accepted == old(accepted) + Sends(events) && dropped == old(dropped) && Alone(Now()) && revived == old(revived)
        && (writeShut ==> output == [] && kernel == Join(accepted))
    {
      hide Sound, Alone, Next, Sends, Open, Local, Join;
      SendsNone();
      ConnectedNotShut(Now());
      trace := [Now()];
      for i := 0 to |events|
        invariant Valid() && old(kernel) <= kernel && old(accepted) <= accepted
        invariant History(settings, events[..i], trace) && trace[0] == old(Now()) && trace[i] == Now()
        invariant old(state) == Connected && Alone(old(Now())) && Local(events) ==>
          && Alone(Now()) && dropped == old(dropped) && (state == Connected <==> Open(events[..i]))
          && accepted == old(accepted) + Sends(events[..i]) && revived == old(revived)
          && (writeShut ==> output == [])
      {
        SendsOne(events, i);
        LocalOne(events, i);
        ghost var m := Now();
        if Alone(m) && Local([events[i]]) {
          LocalNext(settings, m, events[i]);
        }
        Step(events[i]);
        HistoryMore(settings, events, i, trace, Now());
        trace := trace + [Now()];
      }
      assert events[..|events|] == events;
      WhatFlows(Now());
    }

    /** A message sent by another thread can be overtaken by a shutdown on the loop thread: it passed the state
        check, yet it is never written. */
    method Overtaken(data: seq<Byte>, w: Write)
      requires Valid() && state == Connected && output == [] && pending == []
      modifies this
      ensures Valid() && sent == old(sent) + multiset{data} && dropped == old(dropped) + multiset{data}
      ensures kernel == old(kernel) && accepted == old(accepted)
    {
      OvertakenSteps(settings, Now(), data, w);
      hide Sound, Next, TaskRun;
      DoPassSend(data);
      DoPostSend(data);
      DoShutdown();
      DoRunTask(w);
    }

    /** A shutdown of another thread, run after a close, shuts the write side over the backlog. */
    method ShutOverBacklog(w: Write)
      requires Valid() && state == Connected && output != [] && pending == []
      modifies this
      ensures Valid() && writeShut && output == old(output) && kernel == old(kernel)
    {
      ShutOverSteps(settings, Now(), w);
      hide Sound, Next, TaskRun;
      DoPassShutdown();
      DoSetDisconnecting();
      DoPostShutdown();
      HandleClose();
      DoRunTask(w);
    }

    /** A shutdown of another thread that is past its check when the connection is closed makes it disconnecting
        again, with a backlog nobody writes. */
    method RevivedByShutdown()
      requires Valid() && state == Connected && output != []
      modifies this
      ensures Valid() && state == Disconnecting && revived && !writing && output == old(output)
    {
      hide Sound;
      DoPassShutdown();
      HandleClose();
      DoSetDisconnecting();
    }
  }

  lemma OvertakenSteps(s: Settings, m: Moment, data: seq<Byte>, w: Write)
    requires Sound(m) && m.state == Connected && m.output == [] && m.pending == []
    ensures var m1 := Next(s, m, PassSend(data));
      var m3 := Next(s, Next(s, m1, PostSend(data)), Shutdown);
      && data in m1.passed && m3.pending != []
      && var m4 := TaskRun(s, m3, w);
         && m4.sent == m.sent + multiset{data} && m4.dropped == m.dropped + multiset{data}
         && m4.kernel == m.kernel && m4.accepted == m.accepted
  {
    NothingToWrite(m);
    hide Sound, MessageRun, BacklogWritten;
    var m3 := Next(s, Next(s, Next(s, m, PassSend(data)), PostSend(data)), Shutdown);
    assert m3.pending == [SendInLoop(data)];
    ShutDrops(s, m3.(pending := m3.pending[1..]), data, w);
  }

  lemma ShutOverSteps(s: Settings, m: Moment, w: Write)
    requires Sound(m) && m.state == Connected && m.output != [] && m.pending == []
    ensures var m1 := Next(s, m, PassShutdown);
      var m2 := Next(s, m1, SetDisconnecting);
      var m3 := Next(s, m2, PostShutdown);
      && m1.closers > 0 && m2.posters > 0 && m3.state == Disconnecting && m3.pending != []
      && var m5 := TaskRun(s, m3.(state := Disconnected, writing := false), w);
         m5.writeShut && m5.output == m.output && m5.kernel == m.kernel
  {
    hide Sound, MessageRun, BacklogWritten;
  }

  lemma LateNext(s: Settings, m: Moment)
    requires m.closers > 0
    ensures var m' := m.(closers := m.closers - 1, posters := m.posters + 1, state := Disconnecting);
      Next(s, m, SetDisconnecting) == if m.state == Disconnected then m'.(revived := true) else m'
  {
    hide MessageRun, TaskRun, BacklogWritten, ShutdownRun;
  }

  lemma LateShutdown(m: Moment)
    requires Sound(m) && m.closers > 0
    ensures var m' := m.(closers := m.closers - 1, posters := m.posters + 1, state := Disconnecting);
      Sound(if m.state == Disconnected then m'.(revived := true) else m')
  {
    hide Join, Waiting;
  }

  /** A message run after the write side was shut down is given up. */
  lemma ShutDrops(s: Settings, m: Moment, data: seq<Byte>, w: Write)
    requires m.output == [] && m.writeShut
    ensures MessageRun(s, m, data, w) == m.(dropped := m.dropped + multiset{data})
  {
  }

  lemma NothingToWrite(m: Moment)
    requires Sound(m) && m.output == []
    ensures !m.writing
  {
    FlowFacts(m.state, m.writing, m.writeShut, m.pending, m.posters, m.revived, m.output, m.kernel, m.accepted);
    hide Flow, Accounts;
  }

  lemma NextGrows(s: Settings, m: Moment, e: Event)
    ensures m.kernel <= Next(s, m, e).kernel && m.accepted <= Next(s, m, e).accepted
  {
    hide Callbacks;
  }

  lemma ConnectedNotShut(m: Moment)
    requires Sound(m)
    ensures m.state == Connected ==> !m.writeShut
  {
    hide Join, Steady, Accounts;
  }

  lemma WhatFlows(m: Moment)
    requires Sound(m)
    ensures m.kernel + m.output == Join(m.accepted)
    ensures m.state == Disconnecting && !m.revived && m.writeShut ==> m.kernel == Join(m.accepted)
    ensures m.output == [] ==> m.kernel == Join(m.accepted)
  {
    hide Join, Accounts;
    assert m.output == [] ==> m.kernel + m.output == m.kernel;
  }

  lemma MessageCases(s: Settings, m: Moment, data: seq<Byte>, w: Write)
    requires m.writing ==> m.output != []
    ensures var r, n, t := Answer(m.writeShut, w, |data|), AtOnce(m, w, |data|), MessageRun(s, m, data, w);
      && (m.state == Disconnected ==> t == m.(dropped := m.dropped + multiset{data}))
      && (m.state != Disconnected && m.output == [] && r == BrokenPipe ==> t == m.(dropped := m.dropped + multiset{data}))
      && (m.state != Disconnected && !(m.output == [] && r == BrokenPipe) ==>
           t == TakenOn(s, m.(pending := m.pending +
             if m.output == [] && r == Written(|data|) && s.hasWriteComplete then [WriteComplete] else []), data, n))
  {
    CallbackCases(s, |m.output|, |m.output|);
    hide Callbacks;
    assert m.output + [] == m.output && m.pending + [] == m.pending && data[|data|..] == [];
  }

  /** A message after the write of its first n bytes: the rest, if any, is buffered. */
  ghost function TakenOn(s: Settings, m: Moment, data: seq<Byte>, n: nat): Moment
    requires n <= |data|
  {
    var m' := m.(accepted := m.accepted + [data], kernel := m.kernel + data[..n]);
    if n == |data| then m' else
      m'.(output := m.output + data[n..], writing := true,
          pending := m.pending + Callbacks(s, |m.output|, false, |m.output + data[n..]|))
  }

  /** What is left of the backlog, and what its end brings. */
  lemma WrittenCases(s: Settings, m: Moment, w: Write)
    requires m.writing ==> m.output != []
    ensures var r, t := Answer(m.writeShut, w, |m.output|), BacklogWritten(s, m, w);
      if m.writing && r.Written? && r.n > 0 then
        var m' := m.(kernel := m.kernel + m.output[..r.n], output := m.output[r.n..]);
        (if r.n < |m.output| then t == m' else
          && m'.output == []
          && t == m'.(writing := false, pending := m.pending + (if s.hasWriteComplete then [WriteComplete] else []),
                      writeShut := m.writeShut || m.state == Disconnecting))
      else t == m
  {
    assert m.output[..|m.output|] == m.output && m.kernel + [] == m.kernel;
  }

  lemma CallbackCases(s: Settings, before: nat, after: nat)
    ensures Callbacks(s, before, false, before) == []
    ensures Callbacks(s, before, true, before) == if s.hasWriteComplete then [WriteComplete] else []
    ensures Callbacks(s, before, false, after) ==
      if s.hasHighWater && before < s.highWaterMark <= after then [HighWater(after)] else []
  {
  }

  /** How the state hangs together, as values. */
  ghost predicate Flow(state: State, writing: bool, writeShut: bool, tasks: seq<Task>, posters: nat, revived: bool,
                       backlog: seq<Byte>, kernel: seq<Byte>, accepted: seq<seq<Byte>>)
  {
    && Steady(state, writing, writeShut, revived, backlog, kernel, accepted)
    && (state == Connecting || state == Connected ==> !writeShut && !Asked(tasks, posters) && !revived)
    && (!revived && state == Disconnecting && !Asked(tasks, posters) ==> (writeShut <==> backlog == []))
  }

  /** The part that holds whatever shutdowns have been asked for. */
  ghost predicate Steady(state: State, writing: bool, writeShut: bool, revived: bool,
                         backlog: seq<Byte>, kernel: seq<Byte>, accepted: seq<seq<Byte>>)
  {
    && kernel + backlog == Join(accepted)
    && (writing ==> state != Disconnected && backlog != [])
    && (!revived && state != Disconnected && backlog != [] ==> writing)
    && (!revived && state == Disconnecting && writeShut ==> backlog == [])
  }

  ghost predicate Accounts(sent: multiset<seq<Byte>>, accepted: seq<seq<Byte>>, dropped: multiset<seq<Byte>>,
                           pending: seq<Task>, passed: multiset<seq<Byte>>, running: multiset<seq<Byte>>)
  {
    sent == multiset(accepted) + dropped + Waiting(pending) + passed + running
  }

  /** In the middle of a send: rest is accepted but not yet in the buffer. */
  ghost predicate Owing(state: State, writing: bool, writeShut: bool, tasks: seq<Task>, posters: nat, revived: bool,
                        backlog: seq<Byte>, rest: seq<Byte>, kernel: seq<Byte>, accepted: seq<seq<Byte>>)
  {
    && kernel + backlog + rest == Join(accepted)
    && state != Disconnected && (writing ==> backlog != [])
    && (!revived ==> !writeShut && (backlog != [] ==> writing))
    && (state == Connecting || state == Connected ==> !writeShut && !Asked(tasks, posters) && !revived)
    && (!revived && state == Disconnecting && !Asked(tasks, posters) ==> backlog != [])
  }

  lemma FlowFacts(state: State, writing: bool, writeShut: bool, tasks: seq<Task>, posters: nat, revived: bool,
                  backlog: seq<Byte>, kernel: seq<Byte>, accepted: seq<seq<Byte>>)
    requires Flow(state, writing, writeShut, tasks, posters, revived, backlog, kernel, accepted)
    ensures writing ==> state != Disconnected && backlog != []
    ensures !revived && state != Disconnected && backlog != [] ==> writing && !writeShut
  {
  }

  lemma FlowConnected(state: State, writing: bool, writeShut: bool, tasks: seq<Task>, posters: nat, revived: bool,
                      backlog: seq<Byte>, kernel: seq<Byte>, accepted: seq<seq<Byte>>)
    requires Flow(state, writing, writeShut, tasks, posters, revived, backlog, kernel, accepted) && state == Connected
    ensures !writeShut
  {
  }

  lemma FlowTask(state: State, writing: bool, writeShut: bool, tasks: seq<Task>, posters: nat, revived: bool,
                 backlog: seq<Byte>, kernel: seq<Byte>, accepted: seq<seq<Byte>>, t: Task)
    requires t != ShutdownInLoop
    ensures Flow(state, writing, writeShut, tasks + [t], posters, revived, backlog, kernel, accepted)
       <==> Flow(state, writing, writeShut, tasks, posters, revived, backlog, kernel, accepted)
    ensures Flow(state, writing, writeShut, [t] + tasks, posters, revived, backlog, kernel, accepted)
       <==> Flow(state, writing, writeShut, tasks, posters, revived, backlog, kernel, accepted)
  {
    AskedOne(tasks, posters, t);
    hide Asked, Steady;
  }

  lemma FlowPost(state: State, writing: bool, writeShut: bool, tasks: seq<Task>, posters: nat, revived: bool,
                 backlog: seq<Byte>, kernel: seq<Byte>, accepted: seq<seq<Byte>>)
    requires Flow(state, writing, writeShut, tasks, posters, revived, backlog, kernel, accepted) && posters > 0
    ensures Flow(state, writing, writeShut, tasks + [ShutdownInLoop], posters - 1, revived, backlog, kernel, accepted)
  {
    hide Steady;
  }

  lemma FlowSent(state: State, writing: bool, writeShut: bool, tasks: seq<Task>, posters: nat, revived: bool,
                 backlog: seq<Byte>, kernel: seq<Byte>, accepted: seq<seq<Byte>>, data: seq<Byte>, k: nat)
    requires Flow(state, writing, writeShut, tasks, posters, revived, backlog, kernel, accepted)
    requires state != Disconnected && k <= |data| && (if backlog == [] then !writeShut else k == 0)
    ensures Owing(state, writing, writeShut, tasks, posters, revived, backlog, data[k..], kernel + data[..k], accepted + [data])
    ensures k == |data| ==> Flow(state, writing, writeShut, tasks, posters, revived, backlog, kernel + data[..k], accepted + [data])
  {
    hide Join;
    JoinOne(accepted, data);
    if k == 0 {
      assert kernel + data[..k] == kernel && data[k..] == data;
      assert kernel + backlog + data == Join(accepted + [data]);
    } else {
      assert kernel + data[..k] + backlog + data[k..] == kernel + data;
    }
  }

  lemma OwingBuffered(state: State, writing: bool, writeShut: bool, tasks: seq<Task>, posters: nat, revived: bool,
                      backlog: seq<Byte>, rest: seq<Byte>, kernel: seq<Byte>, accepted: seq<seq<Byte>>)
    requires Owing(state, writing, writeShut, tasks, posters, revived, backlog, rest, kernel, accepted) && rest != []
    ensures Flow(state, true, writeShut, tasks, posters, revived, backlog + rest, kernel, accepted)
  {
    hide Join;
    assert kernel + backlog + rest == kernel + (backlog + rest);
  }

  lemma FlowSteady(state: State, writing: bool, writeShut: bool, tasks: seq<Task>, posters: nat, revived: bool,
                   backlog: seq<Byte>, kernel: seq<Byte>, accepted: seq<seq<Byte>>)
    requires Flow(state, writing, writeShut, tasks, posters, revived, backlog, kernel, accepted)
    ensures Steady(state, writing, writeShut, revived, backlog, kernel, accepted)
    ensures Asked(tasks, posters) ==> state == Disconnecting || state == Disconnected
  {
    hide Join, Steady;
  }

  lemma AccountsPop(sent: multiset<seq<Byte>>, accepted: seq<seq<Byte>>, dropped: multiset<seq<Byte>>, pending: seq<Task>,
                    passed: multiset<seq<Byte>>)
    requires pending != [] && Accounts(sent, accepted, dropped, pending, passed, multiset{})
    ensures Accounts(sent, accepted, dropped, pending[1..], passed,
                     if pending[0].SendInLoop? then multiset{pending[0].data} else multiset{})
  {
  }

  lemma AccountsSend(sent: multiset<seq<Byte>>, accepted: seq<seq<Byte>>, dropped: multiset<seq<Byte>>,
                     pending: seq<Task>, passed: multiset<seq<Byte>>, data: seq<Byte>)
    requires Accounts(sent, accepted, dropped, pending, passed, multiset{})
    ensures Accounts(sent + multiset{data}, accepted, dropped, pending, passed, multiset{data})
    ensures Accounts(sent + multiset{data}, accepted, dropped, pending, passed + multiset{data}, multiset{})
  {
    hide Waiting;
  }

  lemma AccountsPost(sent: multiset<seq<Byte>>, accepted: seq<seq<Byte>>, dropped: multiset<seq<Byte>>,
                     pending: seq<Task>, passed: multiset<seq<Byte>>, data: seq<Byte>)
    requires Accounts(sent, accepted, dropped, pending, passed, multiset{}) && data in passed
    ensures Accounts(sent, accepted, dropped, pending + [SendInLoop(data)], passed - multiset{data}, multiset{})
  {
    WaitingOne(pending, SendInLoop(data));
    hide Waiting;
  }

  lemma FlowWritten(state: State, writing: bool, writeShut: bool, tasks: seq<Task>, posters: nat, revived: bool,
                    backlog: seq<Byte>, kernel: seq<Byte>, accepted: seq<seq<Byte>>, n: nat)
    requires Flow(state, writing, writeShut, tasks, posters, revived, backlog, kernel, accepted)
    requires writing && n <= |backlog|
    ensures var k, b := kernel + backlog[..n], backlog[n..];
      && (b != [] ==> Flow(state, true, writeShut, tasks, posters, revived, b, k, accepted))
      && (b == [] ==> Steady(state, false, writeShut, revived, b, k, accepted))
      && (b == [] && state != Disconnecting ==> Flow(state, false, writeShut, tasks, posters, revived, b, k, accepted))
  {
    hide Join;
    assert kernel + backlog[..n] + backlog[n..] == kernel + backlog;
  }
}
