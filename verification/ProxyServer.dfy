/** The proxy: requests of clients become commands on connections to Redis servers, and each reply goes back to
    the client whose command occupies the connection it came on. */
module ProxyServer {
  import opened Bits
  import opened Hiredis

  type Reply = string

  datatype Event =
    | Connect(server: nat)
    | Connected(server: nat, conn: nat, ok: bool)
    | Disconnected(server: nat, conn: nat)
    | Request(client: Client, hash: nat, accepted: bool)
    | Answer(server: nat, conn: nat, reply: Reply)

  /** A server and one of its connections. */
  type Place = (int, int)

  /** Every command on its way is filed with its client under the connection it occupies. */
  ghost predicate Filed(flight: map<Place, Command>, clientConns: map<int, Client>) {
    forall p :: p in flight ==>
      && ValidPair(p.0, p.1)
      && GenUniqueConId(p.0, p.1) in clientConns && clientConns[GenUniqueConId(p.0, p.1)] == flight[p].client
  }

  /** No command is answered twice or sent twice, and every answer went to the client that asked. */
  ghost predicate Once(flight: map<Place, Command>, answered: seq<Command>, sent: seq<(Client, Reply)>, issued: nat) {
    && (forall p :: p in flight ==> flight[p].number < issued)
    && (forall p, q :: p in flight && q in flight && flight[p].number == flight[q].number ==> p == q)
    && (forall p, c :: p in flight && c in answered ==> flight[p].number != c.number)
    && (forall i, j :: 0 <= i < j < |answered| ==> answered[i].number != answered[j].number)
    && (forall c :: c in answered ==> c.number < issued)
    && |sent| == |answered| && (forall i :: 0 <= i < |sent| ==> sent[i].0 == answered[i].client)
  }

  ghost predicate Apart(servers: seq<Hiredis>) {
    && 0 < |servers| <= TWO_TO_THE_31
    && (forall i, j :: 0 <= i < j < |servers| ==> servers[i] != servers[j])
  }

  ghost predicate Healthy(servers: seq<Hiredis>)
    reads servers
  {
    forall i :: 0 <= i < |servers| ==> servers[i].Valid() && servers[i].serverId == i
  }

  ghost function Inflights(servers: seq<Hiredis>): (s: seq<map<int, seq<Command>>>)
    reads servers
    ensures |s| == |servers| && forall i :: 0 <= i < |s| ==> s[i] == servers[i].inflight
  {
    seq(|servers|, i requires 0 <= i < |servers| reads servers => servers[i].inflight)
  }

  /** Which connections of each server are down, free and occupied, and how many each may open. */
  ghost function Pools(servers: seq<Hiredis>): (s: seq<Pool>)
    reads servers
    ensures |s| == |servers| && forall i :: 0 <= i < |s| ==> s[i] == servers[i].Now()
  {
    seq(|servers|, i requires 0 <= i < |servers| reads servers => servers[i].Now())
  }

  ghost function Sizes(servers: seq<Hiredis>): (s: seq<nat>)
    ensures |s| == |servers| && forall i :: 0 <= i < |s| ==> s[i] == servers[i].nconns
  {
    seq(|servers|, i requires 0 <= i < |servers| => servers[i].nconns)
  }

  /** What the servers have been sent is what flight says. */
  ghost predicate Linked(inflights: seq<map<int, seq<Command>>>, flight: map<Place, Command>) {
    && (forall i :: 0 <= i < |inflights| ==> Carries(i, inflights[i], flight))
    && (forall p :: p in flight ==> 0 <= p.0 < |inflights|)
  }

  ghost predicate Carries(i: int, inflight: map<int, seq<Command>>, flight: map<Place, Command>) {
    && (forall c :: c in inflight && inflight[c] != [] ==> (i, c) in flight && inflight[c] == [flight[(i, c)]])
    && (forall c :: (i, c) in flight ==> c in inflight && inflight[c] != [])
  }

  // ---- why each step keeps the books

  lemma FiledNone(flight: map<Place, Command>, clientConns: map<int, Client>, s: int, client: Client)
    requires Filed(flight, clientConns)
    ensures GenUniqueConId(s, -1) == -1 && Filed(flight, clientConns[-1 := client])
  {
    NoneFreeId(s, 0, 0);
    hide GenUniqueConId;
    forall p | p in flight ensures GenUniqueConId(p.0, p.1) != -1 {
      NoneFreeId(s, p.0, p.1);
    }
  }

  lemma FiledCommand(flight: map<Place, Command>, clientConns: map<int, Client>, at: Place, command: Command)
    requires Filed(flight, clientConns) && ValidPair(at.0, at.1) && at !in flight
    ensures var filed := clientConns[GenUniqueConId(at.0, at.1) := command.client];
      Filed(flight, filed) && Filed(flight[at := command], filed)
  {
    hide GenUniqueConId;
    forall p | p in flight ensures GenUniqueConId(p.0, p.1) != GenUniqueConId(at.0, at.1) {
      UniqueConIdInjective(p.0, p.1, at.0, at.1);
    }
  }

  /** The command on a connection that had none. */
  lemma CarriesCommand(i: int, inflight: map<int, seq<Command>>, flight: map<Place, Command>, s: int, c: int, command: Command)
    requires Carries(i, inflight, flight) && (s == i ==> c !in inflight)
    ensures s == i ==> (s, c) !in flight
    ensures s != i ==> Carries(i, inflight, flight[(s, c) := command])
    ensures s == i ==> Carries(i, inflight[c := []], flight)
    ensures s == i ==> Carries(i, inflight[c := [command]], flight[(s, c) := command])
  {
  }

  lemma LinkedCommand(inflights: seq<map<int, seq<Command>>>, flight: map<Place, Command>, s: nat, c: int, command: Command)
    requires Linked(inflights, flight) && s < |inflights| && c !in inflights[s]
    ensures (s, c) !in flight && Linked(inflights[s := inflights[s][c := []]], flight)
    ensures Linked(inflights[s := inflights[s][c := [command]]], flight[(s, c) := command])
  {
    hide Carries;
    forall i | 0 <= i < |inflights| {
      CarriesCommand(i, inflights[i], flight, s, c, command);
    }
    assert Carries(s, inflights[s], flight);
    CarriesCommand(s, inflights[s], flight, s, c, command);
  }

  lemma CarriesGone(i: int, inflight: map<int, seq<Command>>, flight: map<Place, Command>, s: int, c: int)
    requires Carries(i, inflight, flight)
    ensures s != i ==> Carries(i, inflight, flight - {(s, c)})
    ensures s == i ==> Carries(i, inflight - {c}, flight - {(s, c)})
  {
  }

  /** The command on a connection is over, answered or lost. */
  lemma LinkedGone(inflights: seq<map<int, seq<Command>>>, flight: map<Place, Command>, s: nat, c: int)
    requires Linked(inflights, flight) && s < |inflights|
    ensures Linked(inflights[s := inflights[s] - {c}], flight - {(s, c)})
  {
    hide Carries;
    forall i | 0 <= i < |inflights| {
      CarriesGone(i, inflights[i], flight, s, c);
    }
    assert Carries(s, inflights[s], flight);
    CarriesGone(s, inflights[s], flight, s, c);
  }

  lemma FiledGone(flight: map<Place, Command>, clientConns: map<int, Client>, at: Place)
    requires Filed(flight, clientConns)
    ensures Filed(flight - {at}, clientConns)
  {
    hide GenUniqueConId;
  }

  lemma OnceLost(flight: map<Place, Command>, answered: seq<Command>, sent: seq<(Client, Reply)>, issued: nat, at: Place)
    requires Once(flight, answered, sent, issued)
    ensures Once(flight - {at}, answered, sent, issued)
  {
  }

  lemma OnceAnswered(flight: map<Place, Command>, answered: seq<Command>, sent: seq<(Client, Reply)>, issued: nat,
                     at: Place, reply: Reply)
    requires Once(flight, answered, sent, issued) && at in flight
    ensures Once(flight - {at}, answered + [flight[at]], sent + [(flight[at].client, reply)], issued)
  {
  }

  lemma FiledAt(flight: map<Place, Command>, clientConns: map<int, Client>, s: int, c: int)
    requires Filed(flight, clientConns) && (s, c) in flight
    ensures GenUniqueConId(s, c) in clientConns && clientConns[GenUniqueConId(s, c)] == flight[(s, c)].client
  {
    hide GenUniqueConId;
    assert (s, c).0 == s && (s, c).1 == c;
  }

  lemma LinkedAt(inflights: seq<map<int, seq<Command>>>, flight: map<Place, Command>, s: nat, c: int)
    requires Linked(inflights, flight) && (s, c) in flight
    ensures s < |inflights| && c in inflights[s] && inflights[s][c] == [flight[(s, c)]]
  {
    assert (s, c).0 == s;
    assert Carries(s, inflights[s], flight);
  }

  lemma OnceCommand(flight: map<Place, Command>, answered: seq<Command>, sent: seq<(Client, Reply)>, issued: nat,
                    at: Place, command: Command)
    requires Once(flight, answered, sent, issued) && at !in flight && command.number == issued
    ensures Once(flight[at := command], answered, sent, issued + 1)
  {
  }

  ghost function Clients(sent: seq<(Client, Reply)>): set<Client> {
    set r | r in sent :: r.0
  }

  /** The first reply to each client, which is the only one its connection takes: it is shut down after it. */
  ghost function FirstReplies(sent: seq<(Client, Reply)>): seq<(Client, Reply)> {
    if sent == [] then [] else
      var n := |sent| - 1;
      FirstReplies(sent[..n]) + if sent[n].0 in Clients(sent[..n]) then [] else [sent[n]]
  }

  /** The connections that were sent a reply are shut down, and each took its first reply and no other. */
  ghost predicate Served(sent: seq<(Client, Reply)>, delivered: seq<(Client, Reply)>, shut: set<Client>) {
    delivered == FirstReplies(sent) && shut == Clients(sent)
  }

  lemma ServedNext(sent: seq<(Client, Reply)>, delivered: seq<(Client, Reply)>, shut: set<Client>, r: (Client, Reply))
    requires Served(sent, delivered, shut)
    ensures Served(sent + [r], delivered + (if r.0 in shut then [] else [r]), shut + {r.0})
  {
    assert (sent + [r])[..|sent|] == sent;
    assert Clients(sent + [r]) == Clients(sent) + {r.0} by {
      assert r in sent + [r];
    }
  }

  /** Is r the first reply to its client? */
  ghost predicate IsFirst(sent: seq<(Client, Reply)>, r: (Client, Reply)) {
    exists k :: 0 <= k < |sent| && sent[k] == r && r.0 !in Clients(sent[..k])
  }

  lemma FirstLonger(s: seq<(Client, Reply)>, r: (Client, Reply))
    ensures Clients(s + [r]) == Clients(s) + {r.0}
    ensures r.0 !in Clients(s) ==> IsFirst(s + [r], r)
    ensures forall x :: IsFirst(s, x) ==> IsFirst(s + [r], x)
  {
    assert r in s + [r] && (s + [r])[|s|] == r && (s + [r])[..|s|] == s;
    forall x | IsFirst(s, x) ensures IsFirst(s + [r], x) {
      var k :| 0 <= k < |s| && s[k] == x && x.0 !in Clients(s[..k]);
      assert (s + [r])[k] == x && (s + [r])[..k] == s[..k];
    }
  }

  ghost predicate NoClientTwice(d: seq<(Client, Reply)>) {
    forall i, j :: 0 <= i < j < |d| ==> d[i].0 != d[j].0
  }

  lemma NobodyTwice(d: seq<(Client, Reply)>, r: (Client, Reply))
    requires NoClientTwice(d) && r.0 !in Clients(d)
    ensures NoClientTwice(d + [r])
  {
    forall i | 0 <= i < |d| ensures d[i].0 != r.0 {
      assert d[i] in d;
    }
    hide Clients;
  }

  /** Every client that was sent a reply gets one, the first, and one only. */
  ghost predicate FirstOnly(sent: seq<(Client, Reply)>, d: seq<(Client, Reply)>) {
    Clients(d) == Clients(sent) && NoClientTwice(d) && forall i :: 0 <= i < |d| ==> IsFirst(sent, d[i])
  }

  lemma FirstOnlyNext(s: seq<(Client, Reply)>, d: seq<(Client, Reply)>, r: (Client, Reply))
    requires FirstOnly(s, d)
    ensures FirstOnly(s + [r], d + if r.0 in Clients(s) then [] else [r])
  {
    FirstLonger(s, r);
    FirstLonger(d, r);
    hide Clients, IsFirst;
    if r.0 in Clients(s) {
      assert Clients(s) + {r.0} == Clients(s) && d + [] == d;
    } else {
      NobodyTwice(d, r);
    }
    hide NoClientTwice;
  }

  lemma {:induction false} FirstRepliesOnce(sent: seq<(Client, Reply)>)
    ensures FirstOnly(sent, FirstReplies(sent))
  {
    if sent != [] {
      var n := |sent| - 1;
      FirstRepliesOnce(sent[..n]);
      FirstOnlyNext(sent[..n], FirstReplies(sent[..n]), sent[n]);
      hide FirstOnly, Clients;
      assert sent == sent[..n] + [sent[n]];
    }
  }

  // ---- what each event does, on values

  datatype Books = Books(clientConns: map<int, Client>, sent: seq<(Client, Reply)>, delivered: seq<(Client, Reply)>,
                         shut: set<Client>, flight: map<Place, Command>, answered: seq<Command>, issued: nat)

  const BLANK := Books(map[], [], [], {}, map[], [], 0)

  /** A command goes out on connection conId of its server, or nowhere, and its client is filed. */
  ghost function Issue(b: Books, server: int, conId: int, client: Client, accepted: bool): Books {
    var filed := b.(clientConns := b.clientConns[GenUniqueConId(server, conId) := client]);
    if conId != -1 && accepted
    then filed.(flight := b.flight[(server, conId) := Command(b.issued, client)], issued := b.issued + 1)
    else filed
  }

  /** The parts of the invariant that are about the books. */
  ghost predicate Kept(inflights: seq<map<int, seq<Command>>>, b: Books) {
    Linked(inflights, b.flight) && Filed(b.flight, b.clientConns) && Once(b.flight, b.answered, b.sent, b.issued)
      && Served(b.sent, b.delivered, b.shut)
  }

  /** What the servers have in flight after a command on a connection, or on none. */
  ghost function WithCommand(inflights: seq<map<int, seq<Command>>>, s: nat, conId: int, commands: seq<Command>)
    : seq<map<int, seq<Command>>>
    requires s < |inflights|
  {
    if conId == -1 then inflights else inflights[s := inflights[s][conId := commands]]
  }

  lemma IssueKeeps(inflights: seq<map<int, seq<Command>>>, b: Books, s: nat, conId: int, client: Client, accepted: bool)
    requires Kept(inflights, b) && s < |inflights|
    requires conId != -1 ==> ValidPair(s, conId) && conId !in inflights[s]
    ensures conId != -1 ==> (s, conId) !in b.flight
    ensures Kept(WithCommand(inflights, s, conId, if accepted then [Command(b.issued, client)] else []),
                 Issue(b, s, conId, client, accepted))
  {
    var command := Command(b.issued, client);
    hide Linked, Filed, Once, Served, GenUniqueConId, ValidPair;
    if conId == -1 {
      FiledNone(b.flight, b.clientConns, s, client);
    } else {
      LinkedCommand(inflights, b.flight, s, conId, command);
      FiledCommand(b.flight, b.clientConns, (s, conId), command);
      OnceCommand(b.flight, b.answered, b.sent, b.issued, (s, conId), command);
    }
  }

  /** What the servers have in flight when the command on a connection is over. */
  ghost function WithoutCommand(inflights: seq<map<int, seq<Command>>>, s: nat, conn: int): seq<map<int, seq<Command>>>
    requires s < |inflights|
  {
    inflights[s := inflights[s] - {conn}]
  }

  lemma ReplyKeeps(inflights: seq<map<int, seq<Command>>>, b: Books, s: nat, conn: int, reply: Reply)
    requires Kept(inflights, b) && s < |inflights| && (s, conn) in b.flight
    ensures Kept(WithoutCommand(inflights, s, conn), Replied(b, (s, conn), reply))
    ensures GenUniqueConId(s, conn) in b.clientConns && b.clientConns[GenUniqueConId(s, conn)] == b.flight[(s, conn)].client
  {
    hide Linked, Filed, Once, Served, GenUniqueConId;
    LinkedGone(inflights, b.flight, s, conn);
    FiledAt(b.flight, b.clientConns, s, conn);
    FiledGone(b.flight, b.clientConns, (s, conn));
    OnceAnswered(b.flight, b.answered, b.sent, b.issued, (s, conn), reply);
    ServedNext(b.sent, b.delivered, b.shut, (b.flight[(s, conn)].client, reply));
  }

  lemma LossKeeps(inflights: seq<map<int, seq<Command>>>, b: Books, s: nat, conn: int)
    requires Kept(inflights, b) && s < |inflights|
    ensures Kept(WithoutCommand(inflights, s, conn), b.(flight := b.flight - {(s, conn)}))
  {
    hide Linked, Filed, Once, Served;
    LinkedGone(inflights, b.flight, s, conn);
    FiledGone(b.flight, b.clientConns, (s, conn));
    OnceLost(b.flight, b.answered, b.sent, b.issued, (s, conn));
  }

  lemma KeptParts(inflights: seq<map<int, seq<Command>>>, b: Books)
    requires Kept(inflights, b)
    ensures Linked(inflights, b.flight) && Once(b.flight, b.answered, b.sent, b.issued) && Served(b.sent, b.delivered, b.shut)
  {
    hide Linked, Filed, Once, Served;
  }

  /** The reply to the command on a connection. */
  function Replied(b: Books, at: Place, reply: Reply): Books
    requires at in b.flight
  {
    var client := b.flight[at].client;
    b.(sent := b.sent + [(client, reply)], delivered := b.delivered + (if client in b.shut then [] else [(client, reply)]),
       shut := b.shut + {client}, flight := b.flight - {at}, answered := b.answered + [b.flight[at]])
  }

  /** The books and the connections of all servers at one moment. */
  datatype Moment = Moment(books: Books, pools: seq<Pool>)

  /** What the network and hiredis may do: a server is connected to once; a connection comes up that is down,
      and goes down while it is occupied; and a reply comes for a command that was sent. */
  ghost predicate MayHappen(m: Moment, e: Event) {
    match e
    case Connect(s) => s < |m.pools| && m.pools[s] == Pool({}, {}, {})
    case Connected(s, c, _) => s < |m.pools| && c in m.pools[s].inactive
    case Disconnected(s, c) => s < |m.pools| && c in m.pools[s].busy
    case Request(_, _, _) => m.pools != []
    case Answer(s, c, _) => s < |m.pools| && (s, c) in m.books.flight
  }

  /** An event that may happen takes the proxy from m to m'. */
  ghost predicate Happened(sizes: seq<nat>, m: Moment, e: Event, m': Moment)
    requires |sizes| == |m.pools| && MayHappen(m, e)
  {
    match e
    case Connect(s) => m' == m.(pools := m.pools[s := Opened(sizes[s])])
    case Connected(s, c, ok) => m' == if ok then m.(pools := m.pools[s := Up(m.pools[s], c)]) else m
    case Disconnected(s, c) =>
      m' == Moment(m.books.(flight := m.books.flight - {(s, c)}), m.pools[s := Down(m.pools[s], c)])
    case Request(client, hash, accepted) =>
      var s := hash % |m.pools|;
      exists conId :: FirstFree(m.pools[s].free, conId)
        && m' == Moment(Issue(m.books, s, conId, client, accepted), PoolsWith(m.pools, s, conId))
    case Answer(s, c, reply) => m' == Moment(Replied(m.books, (s, c), reply), m.pools[s := Released(m.pools[s], c)])
  }

  /** The connections after a command on one of them, or on none. */
  function PoolsWith(pools: seq<Pool>, s: nat, conId: int): seq<Pool>
    requires s < |pools|
  {
    if conId == -1 then pools else pools[s := Taken(pools[s], conId)]
  }

  /** Every connection opened is down, free or occupied, and those with a command on its way are occupied; no command
      is answered twice; and of the replies to one client its connection took the first. */
  ghost predicate Sound(sizes: seq<nat>, m: Moment) {
    && |m.pools| == |sizes|
    && (forall s :: 0 <= s < |sizes| ==> Apportioned(m.pools[s], sizes[s]))
    && (forall p :: p in m.books.flight ==> 0 <= p.0 < |sizes| && p.1 in m.pools[p.0].busy)
    && Once(m.books.flight, m.books.answered, m.books.sent, m.books.issued)
    && Served(m.books.sent, m.books.delivered, m.books.shut)
  }

  /** The history of a run: at all moments all is sound, and each event that may happen has its effect on the moment
      before; the others have none. */
  ghost predicate History(sizes: seq<nat>, events: seq<Event>, trace: seq<Moment>) {
    && |trace| == |events| + 1
    && (forall i :: 0 <= i < |trace| ==> Sound(sizes, trace[i]))
    && (forall i :: 0 <= i < |events| ==> Effect(sizes, trace[i], events[i], trace[i + 1]))
  }

  ghost predicate Effect(sizes: seq<nat>, m: Moment, e: Event, m': Moment) {
    |sizes| == |m.pools| && if MayHappen(m, e) then Happened(sizes, m, e, m') else m' == m
  }

  lemma HistoryMore(sizes: seq<nat>, events: seq<Event>, i: nat, trace: seq<Moment>, m: Moment)
    requires i < |events| && History(sizes, events[..i], trace) && Effect(sizes, trace[i], events[i], m) && Sound(sizes, m)
    ensures History(sizes, events[..i + 1], trace + [m])
  {
    hide Effect, Sound;
  }

  // ---- what a run amounts to, from its events

  /** Does event i of a run make connection c of server s come up, go down, or be answered? */
  ghost predicate CameUp(events: seq<Event>, trace: seq<Moment>, i: nat, s: nat, c: nat)
    requires i < |events| && i < |trace|
  {
    events[i] == Connected(s, c, true) && MayHappen(trace[i], events[i])
  }

  ghost predicate WentDown(events: seq<Event>, trace: seq<Moment>, i: nat, s: nat, c: nat)
    requires i < |events| && i < |trace|
  {
    events[i] == Disconnected(s, c) && MayHappen(trace[i], events[i])
  }

  ghost predicate WasAnswered(events: seq<Event>, trace: seq<Moment>, i: nat, s: nat, c: nat)
    requires i < |events| && i < |trace|
  {
    events[i].Answer? && events[i].server == s && events[i].conn == c && MayHappen(trace[i], events[i])
  }

  /** Is event i a request that goes out on it: the key hashes to the server, and no free connection of the server has
      a smaller number? */
  ghost predicate WentOut(events: seq<Event>, trace: seq<Moment>, i: nat, s: nat, c: nat)
    requires i < |events| && i < |trace|
  {
    events[i].Request? && trace[i].pools != [] && events[i].hash % |trace[i].pools| == s
      && c in trace[i].pools[s].free && forall d :: d in trace[i].pools[s].free ==> c <= d
  }

  /** Of its comings and goings before moment i, the last one says that it is up. */
  ghost predicate UpBy(events: seq<Event>, trace: seq<Moment>, i: nat, s: nat, c: nat)
    requires i <= |events| < |trace| && s < |trace[0].pools|
  {
    if i == 0 then c in trace[0].pools[s].free || c in trace[0].pools[s].busy
    else CameUp(events, trace, i - 1, s, c) || (!WentDown(events, trace, i - 1, s, c) && UpBy(events, trace, i - 1, s, c))
  }

  /** A request went out on it, and since then it has neither been answered nor gone down. */
  ghost predicate BusyBy(events: seq<Event>, trace: seq<Moment>, i: nat, s: nat, c: nat)
    requires i <= |events| < |trace| && s < |trace[0].pools|
  {
    if i == 0 then c in trace[0].pools[s].busy
    else
      || WentOut(events, trace, i - 1, s, c)
      || (!WentDown(events, trace, i - 1, s, c) && !WasAnswered(events, trace, i - 1, s, c) && BusyBy(events, trace, i - 1, s, c))
  }

  /** Whose request went out on it last, was accepted, and is not answered or lost; nobody's, or one client's. */
  ghost function AskedBy(events: seq<Event>, trace: seq<Moment>, i: nat, s: nat, c: nat): seq<Client>
    requires i <= |events| < |trace|
  {
    if i == 0 then []
    else if WentOut(events, trace, i - 1, s, c) then (if events[i - 1].accepted then [events[i - 1].client] else [])
    else if WentDown(events, trace, i - 1, s, c) || WasAnswered(events, trace, i - 1, s, c) then []
    else AskedBy(events, trace, i - 1, s, c)
  }

  /** The server has been connected to, and has connections. */
  ghost predicate OpenBy(sizes: seq<nat>, events: seq<Event>, trace: seq<Moment>, i: nat, s: nat)
    requires i <= |events| < |trace| && s < |trace[0].pools| && s < |sizes|
  {
    if i == 0 then trace[0].pools[s] != Pool({}, {}, {})
    else (events[i - 1] == Connect(s) && sizes[s] > 0) || OpenBy(sizes, events, trace, i - 1, s)
  }

  /** What an event does to one connection. */
  ghost predicate OneChanges(m: Moment, e: Event, m': Moment, s: nat, c: nat)
    requires s < |m.pools| == |m'.pools|
  {
    var p, q, may := m.pools[s], m'.pools[s], MayHappen(m, e);
    var out := e.Request? && e.hash % |m.pools| == s && c in p.free && forall d :: d in p.free ==> c <= d;
    var down := may && e == Disconnected(s, c);
    var answered := may && e.Answer? && e.server == s && e.conn == c;
    && (c in q.free || c in q.busy <==> (may && e == Connected(s, c, true)) || (!down && (c in p.free || c in p.busy)))
    && (c in q.busy <==> out || (!down && !answered && c in p.busy))
    && ((s, c) in m'.books.flight <==> (out && e.accepted) || (!out && !down && !answered && (s, c) in m.books.flight))
    && ((s, c) in m'.books.flight ==> m'.books.flight[(s, c)].client == if out then e.client else m.books.flight[(s, c)].client)
    && m'.books.sent == m.books.sent + if may && e.Answer? then [(m.books.flight[(e.server, e.conn)].client, e.reply)] else []
  }

  lemma OneRequested(sizes: seq<nat>, m: Moment, e: Event, m': Moment, s: nat, c: nat)
    requires Sound(sizes, m) && e.Request? && MayHappen(m, e) && |sizes| == |m.pools| && Happened(sizes, m, e, m') && s < |sizes|
    ensures |m'.pools| == |m.pools| && OneChanges(m, e, m', s, c)
  {
    PoolsSound(sizes, m);
    hide Sound, GenUniqueConId, Apportioned;
    var t := e.hash % |m.pools|;
    var conId :| FirstFree(m.pools[t].free, conId)
      && m' == Moment(Issue(m.books, t, conId, e.client, e.accepted), PoolsWith(m.pools, t, conId));
    OpenedFree(m.pools[t], sizes[t], conId);
    IssuedFlight(m.books, t, conId, e.client, e.accepted, s, c);
    OutOn(m.pools, t, conId, s, c);
    hide Issue, PoolsWith, FirstFree, Happened;
  }

  /** A command on connection conId of server t, or on none, occupies that one only. */
  lemma OutOn(pools: seq<Pool>, t: nat, conId: int, s: nat, c: nat)
    requires t < |pools| && s < |pools| && (conId != -1 ==> conId in pools[t].free)
    ensures var p, q, out := pools[s], PoolsWith(pools, t, conId)[s], s == t && c == conId && conId != -1;
      && (c in q.free || c in q.busy <==> c in p.free || c in p.busy)
      && (c in q.busy <==> out || c in p.busy)
  {
  }

  lemma OpenedFree(p: Pool, n: nat, conId: int)
    requires Apportioned(p, n) && FirstFree(p.free, conId)
    ensures conId == -1 || (conId in p.free && conId !in p.busy && conId >= 0 && forall d :: d in p.free ==> conId <= d)
    ensures conId == -1 <==> p.free == {}
  {
    if p.free != {} {
      assert conId in p.inactive + p.free + p.busy;
    }
  }

  lemma IssuedFlight(b: Books, t: int, conId: int, client: Client, accepted: bool, s: int, c: int)
    ensures var b', out := Issue(b, t, conId, client, accepted), s == t && c == conId && conId != -1;
      && b'.sent == b.sent
      && ((s, c) in b'.flight <==> (out && accepted) || (s, c) in b.flight)
      && ((s, c) in b'.flight ==> b'.flight[(s, c)].client == if out && accepted then client else b.flight[(s, c)].client)
  {
    hide GenUniqueConId;
    assert (s, c) == (t, conId) <==> s == t && c == conId;
  }

  lemma OneAnswered(sizes: seq<nat>, m: Moment, e: Event, m': Moment, s: nat, c: nat)
    requires Sound(sizes, m) && e.Answer? && MayHappen(m, e) && |sizes| == |m.pools| && Happened(sizes, m, e, m') && s < |sizes|
    ensures |m'.pools| == |m.pools| && OneChanges(m, e, m', s, c)
  {
    PoolsSound(sizes, m);
    hide Sound, GenUniqueConId, Apportioned;
    assert (e.server, e.conn).0 == e.server && (e.server, e.conn).1 == e.conn;
    assert (s, c) == (e.server, e.conn) <==> s == e.server && c == e.conn;
  }

  lemma OneDown(sizes: seq<nat>, m: Moment, e: Event, m': Moment, s: nat, c: nat)
    requires Sound(sizes, m) && e.Disconnected? && MayHappen(m, e) && |sizes| == |m.pools| && Happened(sizes, m, e, m') && s < |sizes|
    ensures |m'.pools| == |m.pools| && OneChanges(m, e, m', s, c)
  {
    PoolsSound(sizes, m);
    hide Sound;
    assert (s, c) == (e.server, e.conn) <==> s == e.server && c == e.conn;
    assert m.books.sent + [] == m.books.sent;
  }

  lemma OneConnected(sizes: seq<nat>, m: Moment, e: Event, m': Moment, s: nat, c: nat)
    requires Sound(sizes, m) && (e.Connect? || e.Connected?) && MayHappen(m, e) && |sizes| == |m.pools|
    requires Happened(sizes, m, e, m') && s < |sizes|
    ensures |m'.pools| == |m.pools| && OneChanges(m, e, m', s, c)
  {
    PoolsSound(sizes, m);
    hide Sound;
    assert m.books.sent + [] == m.books.sent;
  }

  lemma OneEvent(sizes: seq<nat>, m: Moment, e: Event, m': Moment, s: nat, c: nat)
    requires Sound(sizes, m) && Effect(sizes, m, e, m') && s < |sizes|
    ensures |m'.pools| == |m.pools| == |sizes| && OneChanges(m, e, m', s, c)
  {
    PoolsSound(sizes, m);
    if MayHappen(m, e) {
      hide Sound, OneChanges, Happened;
      match e
      case Connect(_) => OneConnected(sizes, m, e, m', s, c);
      case Connected(_, _, _) => OneConnected(sizes, m, e, m', s, c);
      case Disconnected(_, _) => OneDown(sizes, m, e, m', s, c);
      case Request(_, _, _) => OneRequested(sizes, m, e, m', s, c);
      case Answer(_, _, _) => OneAnswered(sizes, m, e, m', s, c);
    } else {
      hide Sound;
      assert m.books.sent + [] == m.books.sent;
    }
  }

  /** Between sound moments the servers have their connections, and each command on its way has its own. */
  lemma PoolsSound(sizes: seq<nat>, m: Moment)
    requires Sound(sizes, m)
    ensures |m.pools| == |sizes| && forall s :: 0 <= s < |sizes| ==> Apportioned(m.pools[s], sizes[s])
    ensures forall s, c :: (s, c) in m.books.flight ==> 0 <= s < |sizes| && c in m.pools[s].busy && c !in m.pools[s].free
  {
    hide Once, Served;
    forall s, c | (s, c) in m.books.flight ensures 0 <= s < |sizes| && c in m.pools[s].busy && c !in m.pools[s].free {
      assert (s, c).0 == s && (s, c).1 == c;
    }
  }

  lemma HistoryAt(sizes: seq<nat>, events: seq<Event>, trace: seq<Moment>, i: nat)
    requires History(sizes, events, trace) && i < |events|
    ensures |trace| == |events| + 1 && Sound(sizes, trace[i]) && Sound(sizes, trace[i + 1])
    ensures Effect(sizes, trace[i], events[i], trace[i + 1])
  {
    hide Sound, Effect;
  }

  lemma SizesFit(sizes: seq<nat>, events: seq<Event>, trace: seq<Moment>, i: nat)
    requires History(sizes, events, trace) && i <= |events|
    ensures |trace| == |events| + 1 && |trace[i].pools| == |sizes| && Sound(sizes, trace[i])
  {
    PoolsSound(sizes, trace[i]);
    hide Sound, Effect;
  }

  /** Over every run, at every moment: a connection is up (free or occupied) exactly if the last of its comings and
      goings says so, and of those that are up it is occupied exactly if a request went out on it that has not been
      answered since. */
  lemma {:induction false} ConnectionsExactly(sizes: seq<nat>, events: seq<Event>, trace: seq<Moment>, i: nat, s: nat, c: nat)
    requires History(sizes, events, trace) && i <= |events| && s < |sizes|
    ensures |trace| == |events| + 1 && |trace[i].pools| == |trace[0].pools| == |sizes|
    ensures var p := trace[i].pools[s];
      && (c in p.free || c in p.busy <==> UpBy(events, trace, i, s, c))
      && (c in p.busy <==> BusyBy(events, trace, i, s, c))
      && (c in p.free <==> UpBy(events, trace, i, s, c) && !BusyBy(events, trace, i, s, c))
  {
    hide History, Sound, Effect, MayHappen;
    SizesFit(sizes, events, trace, i);
    SizesFit(sizes, events, trace, 0);
    NotBoth(sizes, trace[i], s, c);
    if i > 0 {
      ConnectionsExactly(sizes, events, trace, i - 1, s, c);
      HistoryAt(sizes, events, trace, i - 1);
      OneEvent(sizes, trace[i - 1], events[i - 1], trace[i], s, c);
    }
  }

  lemma NotBoth(sizes: seq<nat>, m: Moment, s: nat, c: int)
    requires Sound(sizes, m) && s < |sizes|
    ensures |m.pools| == |sizes| && !(c in m.pools[s].free && c in m.pools[s].busy)
  {
    PoolsSound(sizes, m);
    hide Sound;
  }

  /** And the command on its way on a connection is that of the client whose request went out on it last, if hiredis
      accepted it. */
  lemma {:induction false} FlightExactly(sizes: seq<nat>, events: seq<Event>, trace: seq<Moment>, i: nat, s: nat, c: nat)
    requires History(sizes, events, trace) && i <= |events| && s < |sizes| && trace[0].books.flight == map[]
    ensures |trace| == |events| + 1
    ensures var flight := trace[i].books.flight;
      AskedBy(events, trace, i, s, c) == if (s, c) in flight then [flight[(s, c)].client] else []
  {
    hide History, Sound, Effect, MayHappen;
    SizesFit(sizes, events, trace, i);
    if i > 0 {
      FlightExactly(sizes, events, trace, i - 1, s, c);
      SizesFit(sizes, events, trace, i - 1);
      HistoryAt(sizes, events, trace, i - 1);
      OneEvent(sizes, trace[i - 1], events[i - 1], trace[i], s, c);
    }
  }

  /** What event i sends. */
  ghost function RepliesBy(servers: nat, events: seq<Event>, trace: seq<Moment>, i: nat): seq<(Client, Reply)>
    requires i < |events| < |trace|
  {
    if events[i].Answer? && events[i].server < servers && AskedBy(events, trace, i, events[i].server, events[i].conn) != []
    then [(AskedBy(events, trace, i, events[i].server, events[i].conn)[0], events[i].reply)] else []
  }

  /** So over every run: a reply that comes for a command is sent to the client whose request went out on the
      connection, and nothing else is ever sent. */
  lemma SentExactly(sizes: seq<nat>, events: seq<Event>, trace: seq<Moment>, i: nat)
    requires History(sizes, events, trace) && i < |events| && trace[0].books.flight == map[]
    ensures |trace| == |events| + 1
    ensures trace[i + 1].books.sent == trace[i].books.sent + RepliesBy(|sizes|, events, trace, i)
  {
    SizesFit(sizes, events, trace, i);
    HistoryAt(sizes, events, trace, i);
    var e := events[i];
    assert trace[i].books.sent + [] == trace[i].books.sent;
    if e.Answer? && e.server < |sizes| {
      FlightExactly(sizes, events, trace, i, e.server, e.conn);
      hide History, Sound, Effect, AskedBy;
      OneEvent(sizes, trace[i], e, trace[i + 1], e.server, e.conn);
    } else if e.Answer? {
      hide History, Sound;
    } else if |sizes| > 0 {
      hide History, Sound, Effect;
      OneEvent(sizes, trace[i], e, trace[i + 1], 0, 0);
    } else {
      hide History, Sound;
    }
  }

  /** Over every run a request files its client under the number of its server in the upper 32 bits and the connection it
      goes out on in the lower, or under -1 when no connection is free; no other event files anybody. */
  lemma FiledExactly(sizes: seq<nat>, events: seq<Event>, trace: seq<Moment>, i: nat)
    requires History(sizes, events, trace) && i < |events| && |sizes| <= TWO_TO_THE_31
    requires forall s :: 0 <= s < |sizes| ==> sizes[s] <= TWO_TO_THE_31
    ensures |trace| == |events| + 1
    ensures if events[i].Request? && sizes != []
            then FiledUnder(events[i].client, trace[i], events[i].hash % |sizes|, trace[i + 1])
            else trace[i + 1].books.clientConns == trace[i].books.clientConns
  {
    SizesFit(sizes, events, trace, i);
    HistoryAt(sizes, events, trace, i);
    hide History, Sound, Effect, FiledUnder;
    if events[i].Request? && sizes != [] {
      FiledNext(sizes, trace[i], events[i], trace[i + 1], events[i].hash % |sizes|);
    } else {
      NotFiling(sizes, trace[i], events[i], trace[i + 1]);
    }
  }

  /** The client of a request for server t is filed, and nobody else is. */
  ghost predicate FiledUnder(client: Client, m: Moment, t: nat, m': Moment) {
    && t < |m.pools|
    && (m.pools[t].free == {} ==> m'.books.clientConns == m.books.clientConns[-1 := client])
    && forall c :: c in m.pools[t].free && (forall d :: d in m.pools[t].free ==> c <= d) ==>
      m'.books.clientConns == m.books.clientConns[t * 0x1_0000_0000 + c := client]
  }

  lemma FiledNext(sizes: seq<nat>, m: Moment, e: Event, m': Moment, t: nat)
    requires Sound(sizes, m) && Effect(sizes, m, e, m') && e.Request? && sizes != [] && t == e.hash % |sizes|
    requires |sizes| <= TWO_TO_THE_31 && forall s :: 0 <= s < |sizes| ==> sizes[s] <= TWO_TO_THE_31
    ensures FiledUnder(e.client, m, t, m')
  {
    hide Sound, Effect, GenUniqueConId;
    var conId := Filing(sizes, m, e, m', t);
    NoneFreeId(t, 0, 0);
    if conId != -1 {
      UniqueConIdValue(t, conId);
    }
  }

  lemma Filing(sizes: seq<nat>, m: Moment, e: Event, m': Moment, t: nat) returns (conId: int)
    requires Sound(sizes, m) && Effect(sizes, m, e, m') && e.Request? && |sizes| > 0 && t == e.hash % |sizes|
    ensures |m.pools| == |sizes| && t < |sizes| && (conId == -1 <==> m.pools[t].free == {})
    ensures conId == -1 || (0 <= conId < sizes[t] && conId in m.pools[t].free && forall d :: d in m.pools[t].free ==> conId <= d)
    ensures m'.books.clientConns == m.books.clientConns[GenUniqueConId(t, conId) := e.client]
  {
    PoolsSound(sizes, m);
    hide Sound, GenUniqueConId;
    conId :| FirstFree(m.pools[t].free, conId)
      && m' == Moment(Issue(m.books, t, conId, e.client, e.accepted), PoolsWith(m.pools, t, conId));
    OpenedFree(m.pools[t], sizes[t], conId);
    if conId != -1 {
      InRange(m.pools[t], sizes[t], conId);
    }
  }

  lemma NotFiling(sizes: seq<nat>, m: Moment, e: Event, m': Moment)
    requires Effect(sizes, m, e, m') && !(e.Request? && |sizes| > 0)
    ensures m'.books.clientConns == m.books.clientConns
  {
  }

  lemma InRange(p: Pool, n: nat, c: int)
    requires Apportioned(p, n) && c in p.free
    ensures 0 <= c < n
  {
    assert c in p.inactive + p.free + p.busy;
  }

  /** Over every run, at every moment: a server has its connections exactly if it had been connected to. */
  lemma {:induction false} OpenExactly(sizes: seq<nat>, events: seq<Event>, trace: seq<Moment>, i: nat, s: nat)
    requires History(sizes, events, trace) && i <= |events| && s < |sizes|
    ensures |trace| == |events| + 1 && |trace[i].pools| == |trace[0].pools| == |sizes|
    ensures OpenBy(sizes, events, trace, i, s) <==> trace[i].pools[s] != Pool({}, {}, {})
  {
    hide History, Sound, Effect;
    SizesFit(sizes, events, trace, i);
    SizesFit(sizes, events, trace, 0);
    if i > 0 {
      OpenExactly(sizes, events, trace, i - 1, s);
      HistoryAt(sizes, events, trace, i - 1);
      OpenNext(sizes, trace[i - 1], events[i - 1], trace[i], s);
    }
  }

  lemma OpenNext(sizes: seq<nat>, m: Moment, e: Event, m': Moment, s: nat)
    requires Sound(sizes, m) && Effect(sizes, m, e, m') && s < |sizes|
    ensures |m'.pools| == |m.pools| == |sizes|
    ensures m'.pools[s] != Pool({}, {}, {}) <==> (e == Connect(s) && sizes[s] > 0) || m.pools[s] != Pool({}, {}, {})
  {
    PoolsSound(sizes, m);
    hide Sound, GenUniqueConId, Issue;
    BelowSome(sizes[s]);
    if e.Request? && m.pools != [] {
      var t := e.hash % |m.pools|;
      var conId :| FirstFree(m.pools[t].free, conId)
        && m' == Moment(Issue(m.books, t, conId, e.client, e.accepted), PoolsWith(m.pools, t, conId));
      OpenedFree(m.pools[t], sizes[t], conId);
      assert conId != -1 ==> conId in Taken(m.pools[t], conId).busy;
    } else if MayHappen(m, e) {
      match e
      case Connected(t, c, _) => assert c in Up(m.pools[t], c).free;
      case Disconnected(t, c) => assert c in Down(m.pools[t], c).inactive;
      case Answer(t, c, _) => assert c in Released(m.pools[t], c).free;
      case _ =>
    }
  }

  lemma BelowSome(n: nat)
    ensures Below(n) == {} <==> n == 0
  {
    assert n > 0 ==> 0 in Below(n);
  }

  /** What may happen, from the events before: a server is connected to once; a connection of a server that has been
      comes up while it is down and goes down while it is occupied; a reply comes while a command is on its way; and a
      request may always come. */
  ghost predicate MayBy(sizes: seq<nat>, events: seq<Event>, trace: seq<Moment>, i: nat)
    requires i < |events| < |trace| && |trace[0].pools| == |sizes|
  {
    match events[i]
    case Connect(s) => s < |sizes| && !OpenBy(sizes, events, trace, i, s)
    case Connected(s, c, _) =>
      s < |sizes| && c < sizes[s] && OpenBy(sizes, events, trace, i, s) && !UpBy(events, trace, i, s, c)
    case Disconnected(s, c) => s < |sizes| && BusyBy(events, trace, i, s, c)
    case Request(_, _, _) => |sizes| > 0
    case Answer(s, c, _) => s < |sizes| && AskedBy(events, trace, i, s, c) != []
  }

  /** Over every run, what may happen is that. */
  lemma MayHappenExactly(sizes: seq<nat>, events: seq<Event>, trace: seq<Moment>, i: nat)
    requires History(sizes, events, trace) && i < |events| && trace[0].books.flight == map[]
    ensures |trace| == |events| + 1 && |trace[0].pools| == |sizes|
    ensures MayHappen(trace[i], events[i]) <==> MayBy(sizes, events, trace, i)
  {
    SizesFit(sizes, events, trace, i);
    SizesFit(sizes, events, trace, 0);
    PoolsSound(sizes, trace[i]);
    hide History, Sound;
    match events[i]
    case Connect(s) => if s < |sizes| { OpenExactly(sizes, events, trace, i, s); }
    case Connected(s, c, _) =>
      if s < |sizes| {
        OpenExactly(sizes, events, trace, i, s);
        ConnectionsExactly(sizes, events, trace, i, s, c);
        DownExactly(trace[i].pools[s], sizes[s], c);
      }
    case Disconnected(s, c) => if s < |sizes| { ConnectionsExactly(sizes, events, trace, i, s, c); }
    case Answer(s, c, _) => if s < |sizes| { FlightExactly(sizes, events, trace, i, s, c); }
    case _ =>
  }

  lemma DownExactly(p: Pool, n: nat, c: nat)
    requires Apportioned(p, n)
    ensures c in p.inactive <==> p != Pool({}, {}, {}) && c < n && c !in p.free && c !in p.busy
  {
    var all := p.inactive + p.free + p.busy;
    assert p.inactive <= all && p.free <= all && p.busy <= all;
    assert all == {} <==> p == Pool({}, {}, {});
    assert all != {} ==> (c in all <==> c < n);
  }

  class ProxyServer {
    const servers: seq<Hiredis>
    var clientConns: map<int, Client>
    /** The replies sent to clients, those their connections took, and the connections shut down. */
    var sent: seq<(Client, Reply)>
    var delivered: seq<(Client, Reply)>
    var shut: set<Client>

    /** Not in the proxy itself: the commands that occupy connections, those answered, and how many were sent
        to Redis. */
    var flight: map<Place, Command>
    var answered: seq<Command>
    var issued: nat

    ghost predicate Valid()
      reads this, servers
    {
      Apart(servers) && Healthy(servers) && Kept(Inflights(servers), Now())
    }

    ghost function Now(): Books
      reads this
    {
      Books(clientConns, sent, delivered, shut, flight, answered, issued)
    }

    ghost function Whole(): Moment
      reads this, servers
    {
      Moment(Now(), Pools(servers))
    }

    constructor (servers: seq<Hiredis>)
      requires 0 < |servers| <= TWO_TO_THE_31 && (forall i, j :: 0 <= i < j < |servers| ==> servers[i] != servers[j])
      requires forall i :: 0 <= i < |servers| ==>
        servers[i].Valid() && servers[i].serverId == i && servers[i].inflight == map[]
      ensures Valid() && this.servers == servers && Now() == BLANK
    {
      this.servers := servers;
      clientConns, sent, delivered, shut := map[], [], [], {};
      flight, answered, issued := map[], [], 0;
    }

    /** setInLoop and queryInLoop: a command goes to the server its key hashes to, and the client is filed under
        the connection the command occupies; with no free connection, under the identifier of none. */
    method RequestInLoop(client: Client, hash: nat, accepted: bool) returns (conId: int)
      requires Valid()
      modifies this`clientConns, this`flight, this`issued, servers
      ensures Valid()
      ensures |servers| > 0 && FirstFree(old(servers[hash % |servers|].activeFreeConns.Keys), conId)
      ensures Now() == Issue(old(Now()), hash % |servers|, conId, client, accepted)
      ensures Pools(servers) == PoolsWith(old(Pools(servers)), hash % |servers|, conId)
      ensures conId != -1 ==> (hash % |servers|, conId) !in old(flight)
    {
      hide Apart, Healthy, Kept, Partitioned, Issue;
      SomeServer();
      conId := RequestTo(hash % |servers|, client, accepted);
    }

    lemma SomeServer()
      requires Apart(servers)
      ensures |servers| > 0
    {
    }

    /** The same for the server chosen. */
    method RequestTo(server: nat, client: Client, accepted: bool) returns (conId: int)
      requires Valid() && server < |servers|
      modifies this`clientConns, this`flight, this`issued, servers
      ensures Valid()
      ensures FirstFree(old(servers[server].activeFreeConns.Keys), conId)
      ensures Now() == Issue(old(Now()), server, conId, client, accepted)
      ensures Pools(servers) == PoolsWith(old(Pools(servers)), server, conId)
      ensures conId != -1 ==> (server, conId) !in old(flight)
    {
      hide Apart, Healthy, Kept, Partitioned, Issue, ValidPair;
      ghost var before, b := Inflights(servers), Now();
      conId := Send(server, Command(issued, client), accepted);
      IssueKeeps(before, b, server, conId, client, accepted);
      ghost var after, pools := Inflights(servers), Pools(servers);
      File(server, conId, client, accepted);
      assert Inflights(servers) == after && Pools(servers) == pools;
    }

    /** The books after a command on a connection, or on none. */
    method File(server: nat, conId: int, client: Client, accepted: bool)
      modifies this`clientConns, this`flight, this`issued
      ensures Now() == Issue(old(Now()), server, conId, client, accepted)
    {
      hide GenUniqueConId;
      if conId != -1 && accepted {
        flight, issued := flight[(server, conId) := Command(issued, client)], issued + 1;
      }
      clientConns := clientConns[GenUniqueConId(server, conId) := client];
    }

    /** The command occupies a free connection of the server, and only it. */
    method Send(server: nat, command: Command, accepted: bool) returns (conId: int)
      requires Apart(servers) && Healthy(servers) && server < |servers|
      modifies servers
      ensures Healthy(servers)
      ensures FirstFree(old(servers[server].activeFreeConns.Keys), conId)
      ensures Pools(servers) == PoolsWith(old(Pools(servers)), server, conId)
      ensures conId != -1 ==> ValidPair(server, conId) && conId !in old(Inflights(servers))[server]
      ensures Inflights(servers) == WithCommand(old(Inflights(servers)), server, conId, if accepted then [command] else [])
    {
      hide Partitioned;
      ghost var before, pools := Inflights(servers), Pools(servers);
      conId := servers[server].SendCommand(command, accepted);
      assert Inflights(servers) == before[server := servers[server].inflight];
      assert Pools(servers) == pools[server := servers[server].Now()];
    }

    /** A reply arrives on a connection: it goes to the client filed under the connection, which is the one whose
        command occupies it, and then the connection is free. */
    method OnReply(server: nat, conn: nat, reply: Reply)
      requires Valid() && (server, conn) in flight
      modifies this`sent, this`delivered, this`shut, this`flight, this`answered, servers
      ensures Valid() && Now() == Replied(old(Now()), (server, conn), reply) && server < |servers|
      ensures Pools(servers) == old(Pools(servers))[server := Released(old(Pools(servers))[server], conn)]
    {
      hide Apart, Healthy, Kept, Partitioned, GenUniqueConId, ValidPair, Served, Once, Linked;
      Occupied(server, conn);
      ghost var before, b, pools := Inflights(servers), Now(), Pools(servers);
      ReplyKeeps(before, b, server, conn, reply);
      KeptParts(before, b);
      CommandCallback(GenUniqueConId(servers[server].serverId, conn), reply);
      answered, flight := answered + [flight[(server, conn)]], flight - {(server, conn)};
      assert Now() == Replied(b, (server, conn), reply);
      assert Inflights(servers) == before && Pools(servers) == pools;
      Release(server, conn);
    }

    lemma OccupiedAt(server: int, conn: int)
      requires Valid() && (server, conn) in flight
      ensures 0 <= server < |servers| && conn in servers[server].activeBusyConn && servers[server].serverId == server
    {
      hide Kept, Partitioned, Once, Served;
      assert (server, conn).0 == server;
      KeptParts(Inflights(servers), Now());
      LinkedAt(Inflights(servers), flight, server, conn);
      servers[server].InflightBusy(conn);
    }

    lemma Occupied(server: nat, conn: nat)
      requires Valid() && (server, conn) in flight
      ensures server < |servers| && conn in servers[server].activeBusyConn && servers[server].serverId == server
    {
      OccupiedAt(server, conn);
    }

    /** The connection is free again, and only it. */
    method Release(server: nat, conn: nat)
      requires Apart(servers) && Healthy(servers) && server < |servers| && conn in servers[server].activeBusyConn
      modifies servers
      ensures Healthy(servers)
      ensures Inflights(servers) == WithoutCommand(old(Inflights(servers)), server, conn)
      ensures Pools(servers) == old(Pools(servers))[server := Released(old(Pools(servers))[server], conn)]
    {
      hide Partitioned;
      ghost var before, pools := Inflights(servers), Pools(servers);
      servers[server].CommandDone(ServerConn(conn));
      assert Inflights(servers) == before[server := servers[server].inflight];
      assert Pools(servers) == pools[server := servers[server].Now()];
    }

    /** The client filed under the identifier is sent the reply, which its connection takes unless it has been shut
        down, and is then shut down. */
    method CommandCallback(uniqueConId: int, reply: Reply)
      requires Served(sent, delivered, shut)
      modifies this`sent, this`delivered, this`shut
      ensures Served(sent, delivered, shut)
      ensures sent == old(sent) + (if uniqueConId in clientConns then [(clientConns[uniqueConId], reply)] else [])
      ensures delivered == old(delivered) +
        (if uniqueConId in clientConns && clientConns[uniqueConId] !in old(shut) then [(clientConns[uniqueConId], reply)] else [])
      ensures shut == old(shut) + (if uniqueConId in clientConns then {clientConns[uniqueConId]} else {})
    {
      if uniqueConId in clientConns {
        var client := clientConns[uniqueConId];
        ServedNext(sent, delivered, shut, (client, reply));
        sent := sent + [(client, reply)];
        if client !in shut {
          delivered := delivered + [(client, reply)];
        }
        shut := shut + {client};
      }
    }

    /** An occupied connection goes down; the command on it is lost, and no other. */
    method OnDisconnect(server: nat, conn: nat)
      requires Valid() && server < |servers| && conn in servers[server].activeBusyConn
      modifies this`flight, servers
      ensures Valid() && Now() == old(Now()).(flight := old(flight) - {(server, conn)})
      ensures Pools(servers) == old(Pools(servers))[server := Down(old(Pools(servers))[server], conn)]
    {
      hide Apart, Healthy, Kept, Partitioned;
      ghost var before, b, pools := Inflights(servers), Now(), Pools(servers);
      LossKeeps(before, b, server, conn);
      flight := flight - {(server, conn)};
      assert Inflights(servers) == before && Pools(servers) == pools;
      Lose(server, conn);
    }

    /** The connection is down, and only it. */
    method Lose(server: nat, conn: nat)
      requires Apart(servers) && Healthy(servers) && server < |servers| && conn in servers[server].activeBusyConn
      modifies servers
      ensures Healthy(servers)
      ensures Inflights(servers) == WithoutCommand(old(Inflights(servers)), server, conn)
      ensures Pools(servers) == old(Pools(servers))[server := Down(old(Pools(servers))[server], conn)]
    {
      hide Partitioned;
      ghost var before, pools := Inflights(servers), Pools(servers);
      servers[server].UserDisconnectCallback(ServerConn(conn));
      assert Inflights(servers) == before[server := servers[server].inflight];
      assert Pools(servers) == pools[server := servers[server].Now()];
    }

    /** The connections to a server are opened. */
    method OnConnect(server: nat)
      requires Valid() && server < |servers| && servers[server].ids == {}
      modifies servers
      ensures Valid() && servers[server].ids == servers[server].inactiveConns.Keys
      ensures Now() == old(Now()) && Pools(servers) == old(Pools(servers))[server := Opened(servers[server].nconns)]
    {
      hide Kept, Partitioned;
      ghost var before, pools := Inflights(servers), Pools(servers);
      servers[server].Connect();
      assert Healthy(servers) && Inflights(servers) == before;
      assert Pools(servers) == pools[server := servers[server].Now()];
    }

    /** Redis accepts a connection, or not. */
    method OnConnected(server: nat, conn: nat, ok: bool)
      requires Valid() && server < |servers| && conn in servers[server].inactiveConns
      modifies servers
      ensures Valid() && Now() == old(Now())
      ensures ok ==> conn in servers[server].activeFreeConns
      ensures Pools(servers) == if ok then old(Pools(servers))[server := Up(old(Pools(servers))[server], conn)] else old(Pools(servers))
    {
      hide Kept, Partitioned;
      ghost var before, pools := Inflights(servers), Pools(servers);
      servers[server].UserConnectCallback(ServerConn(conn), ok);
      assert Healthy(servers) && Inflights(servers) == before;
      assert Pools(servers) == pools[server := servers[server].Now()];
    }

    method Step(e: Event)
      requires Valid() && Possible(e)
      modifies this, servers
      ensures Valid() && MayHappen(old(Whole()), e) && Happened(Sizes(servers), old(Whole()), e, Whole())
    {
      PossibleMay(e);
      ghost var m := Whole();
      hide Apart, Issue, Healthy, Kept, Partitioned, FirstFree, Replied, PoolsWith, Opened, Up, Down, Released;
      match e
      case Connect(s) => OnConnect(s);
      case Connected(s, c, ok) => OnConnected(s, c, ok);
      case Disconnected(s, c) => OnDisconnect(s, c);
      case Request(client, hash, accepted) =>
        var conId := RequestInLoop(client, hash, accepted);
        assert FirstFree(m.pools[hash % |servers|].free, conId);
      case Answer(s, c, reply) => OnReply(s, c, reply);
    }

    lemma PossibleMay(e: Event)
      requires Valid()
      ensures Possible(e) <==> MayHappen(Whole(), e)
      ensures e.Answer? && Possible(e) ==> e.server < |servers|
    {
      hide Filed, Once, Served, Linked, Partitioned, GenUniqueConId;
      if e.Connect? && e.server < |servers| {
        servers[e.server].PoolNow();
      }
      if e.Answer? && (e.server, e.conn) in flight {
        Occupied(e.server, e.conn);
      }
    }

    lemma SoundNow()
      requires Valid()
      ensures Sound(Sizes(servers), Whole())
    {
      hide Filed, Once, Served, Partitioned, GenUniqueConId;
      forall s | 0 <= s < |servers| ensures Apportioned(servers[s].Now(), servers[s].nconns) {
        servers[s].PoolNow();
      }
      forall p | p in flight ensures 0 <= p.0 < |servers| && p.1 in Pools(servers)[p.0].busy {
        assert p == (p.0, p.1);
        OccupiedAt(p.0, p.1);
      }
    }

    /** Whether the event may happen now. */
    predicate Possible(e: Event)
      reads this, servers
    {
      match e
      case Connect(s) => s < |servers| && servers[s].ids == {}
      case Connected(s, c, _) => s < |servers| && c in servers[s].inactiveConns
      case Disconnected(s, c) => s < |servers| && c in servers[s].activeBusyConn
      case Request(_, _, _) => true
      case Answer(s, c, _) => (s, c) in flight
    }
  }

  /** Any run of events has a history, which ends in the proxy as it then is: whatever happens on the connections,
      every reply goes to the client whose command occupies the connection, no command is answered twice, and of the
      replies to one client the connection takes the first. */
  method Run(servers: seq<Hiredis>, events: seq<Event>) returns (proxy: ProxyServer, ghost trace: seq<Moment>)
    requires Apart(servers) && Healthy(servers) && forall i :: 0 <= i < |servers| ==> servers[i].inflight == map[]
    modifies servers
    ensures proxy.Valid() && fresh(proxy) && proxy.servers == servers
    ensures History(Sizes(servers), events, trace)
    ensures trace[0] == Moment(BLANK, old(Pools(servers))) && trace[|events|] == proxy.Whole()
    ensures |proxy.sent| == |proxy.answered| && forall i :: 0 <= i < |proxy.sent| ==> proxy.sent[i].0 == proxy.answered[i].client
    ensures forall i, j :: 0 <= i < j < |proxy.sent| ==> proxy.answered[i].number != proxy.answered[j].number
    ensures proxy.delivered == FirstReplies(proxy.sent) && proxy.shut == Clients(proxy.sent)
  {
    proxy := new ProxyServer(servers);
    trace := [proxy.Whole()];
    hide Apart, Healthy, Filed, Linked, Partitioned, GenUniqueConId, Happened, MayHappen, Sound;
    proxy.SoundNow();
    for k := 0 to |events|
      invariant proxy.Valid() && fresh(proxy) && proxy.servers == servers
      invariant History(Sizes(servers), events[..k], trace)
      invariant trace[0] == Moment(BLANK, old(Pools(servers))) && trace[k] == proxy.Whole()
    {
      proxy.PossibleMay(events[k]);
      if proxy.Possible(events[k]) {
        proxy.Step(events[k]);
      }
      proxy.SoundNow();
      HistoryMore(Sizes(servers), events, k, trace, proxy.Whole());
      trace := trace + [proxy.Whole()];
    }
    assert events[..|events|] == events;
  }
}
