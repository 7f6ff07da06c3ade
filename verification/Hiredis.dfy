/** The connections of the proxy to one Redis server: which are down, free or occupied by a command, and the
    identifier that names a connection across all servers. */
module Hiredis {
  import opened Bits

  // ---- the unique identifier of a connection

  /** serverId << 32 | conId, on 64-bit two's complement words. */
  function GenUniqueConId(serverId: int, conId: int): int {
    var word := BitOr(serverId * TWO_TO_THE_32 % TWO_TO_THE_64, conId % TWO_TO_THE_64, 64);
    if word >= TWO_TO_THE_64 / 2 then word - TWO_TO_THE_64 else word
  }

  /** A server and a connection number, both not negative 32-bit integers. */
  ghost predicate ValidPair(serverId: int, conId: int) {
    0 <= serverId < TWO_TO_THE_31 && 0 <= conId < TWO_TO_THE_31
  }

  lemma UniqueConIdValue(serverId: int, conId: int)
    requires ValidPair(serverId, conId)
    ensures GenUniqueConId(serverId, conId) == serverId * TWO_TO_THE_32 + conId
  {
    Powers();
    hide Pow2, BitOr;
    BitOrApart(serverId, conId, 32, 64);
    var high := serverId * TWO_TO_THE_32;
    assert 0 <= high < TWO_TO_THE_64 && high % TWO_TO_THE_64 == high && conId % TWO_TO_THE_64 == conId;
    assert high + conId < TWO_TO_THE_64 / 2;
  }

  /** Different connections have different identifiers, and none has that of no connection. */
  lemma UniqueConIdInjective(s: int, c: int, s': int, c': int)
    requires ValidPair(s, c) && ValidPair(s', c')
    ensures GenUniqueConId(s, c) == GenUniqueConId(s', c') <==> s == s' && c == c'
  {
    UniqueConIdValue(s, c);
    UniqueConIdValue(s', c');
    hide GenUniqueConId;
  }

  /** With no free connection the identifier is the same for every server, and that of no connection. */
  lemma NoneFreeId(s: int, s': int, c': int)
    requires ValidPair(s', c')
    ensures GenUniqueConId(s, -1) == -1 && GenUniqueConId(s', c') != -1
  {
    Powers();
    BitOrOnes(s * TWO_TO_THE_32 % TWO_TO_THE_64, 64);
    UniqueConIdValue(s', c');
  }

  // ---- the connections to one server

  /** Stands for the TCP connection of a client. */
  type Client = nat

  /** A command sent to Redis: its number among all commands, and the client it came from. */
  datatype Command = Command(number: nat, client: Client)

  datatype ServerConn = ServerConn(connId: int)

  type Conns = map<int, ServerConn>

  /** Every connection is in exactly one of the three maps, under its own number. Those with a command whose
      reply is to come are occupied, with one command each. */
  ghost predicate Partitioned(inactive: Conns, free: Conns, busy: Conns, inflight: map<int, seq<Command>>, ids: set<int>) {
    && inactive.Keys !! free.Keys !! busy.Keys
    && inactive.Keys + free.Keys + busy.Keys == ids
    && (forall c :: c in inactive ==> inactive[c].connId == c)
    && (forall c :: c in free ==> free[c].connId == c)
    && (forall c :: c in busy ==> busy[c].connId == c)
    && inflight.Keys == busy.Keys
    && (forall c :: c in inflight ==> |inflight[c]| <= 1)
  }

  /** Which connections of a server are down, free and occupied. */
  datatype Pool = Pool(inactive: set<int>, free: set<int>, busy: set<int>)

  function Below(n: nat): (s: set<int>)
    ensures forall c :: c in s <==> 0 <= c < n
  {
    if n == 0 then {} else Below(n - 1) + {n - 1}
  }

  /** Connections 0 to n - 1, all down. */
  function Opened(n: nat): Pool {
    Pool(Below(n), {}, {})
  }

  function Up(p: Pool, c: int): Pool {
    Pool(p.inactive - {c}, p.free + {c}, p.busy)
  }

  function Down(p: Pool, c: int): Pool {
    Pool(p.inactive + {c}, p.free, p.busy - {c})
  }

  function Taken(p: Pool, c: int): Pool {
    Pool(p.inactive, p.free - {c}, p.busy + {c})
  }

  function Released(p: Pool, c: int): Pool {
    Pool(p.inactive, p.free + {c}, p.busy - {c})
  }

  /** The connection a command goes to: the first free one, or -1 when none is free. */
  predicate FirstFree(free: set<int>, c: int) {
    if free == {} then c == -1 else c in free && forall d :: d in free ==> c <= d
  }

  /** Every connection opened is in exactly one of the sets. */
  ghost predicate Apportioned(p: Pool, n: nat) {
    && p.inactive !! p.free !! p.busy
    && (p.inactive + p.free + p.busy == {} || forall c :: c in p.inactive + p.free + p.busy <==> 0 <= c < n)
  }

  /** The first key in the order of the map. */
  method Begin(m: Conns) returns (first: int)
    requires m.Keys != {}
    ensures first in m && forall c :: c in m ==> first <= c
  {
    Nonempty(m.Keys);
    first :| first in m.Keys;
    var rest := m.Keys - {first};
    while rest != {}
      invariant rest <= m.Keys && first in m
      invariant forall c :: c in m && c !in rest ==> first <= c
      decreases rest
    {
      Nonempty(rest);
      var c: int :| c in rest;
      rest := rest - {c};
      if c < first { first := c; }
    }
    assert forall c :: c in m ==> c !in rest;
  }

  lemma Nonempty(s: set<int>)
    requires s != {}
    ensures exists c :: c in s
  {
    assert (forall c :: c !in s) ==> s == {};
  }

  class Hiredis {
    const serverId: int
    const nconns: nat
    var inactiveConns: Conns
    var activeFreeConns: Conns
    var activeBusyConn: Conns

    /** The commands Redis has been sent on a connection and has not answered, in order. */
    var inflight: map<int, seq<Command>>
    /** The connections opened so far. */
    var ids: set<int>

    ghost function Now(): Pool
      reads this
    {
      Pool(inactiveConns.Keys, activeFreeConns.Keys, activeBusyConn.Keys)
    }

    ghost predicate Valid()
      reads this
    {
      && ValidPair(serverId, 0) && nconns <= TWO_TO_THE_31
      && Partitioned(inactiveConns, activeFreeConns, activeBusyConn, inflight, ids)
      && (ids == {} || forall c :: c in ids <==> 0 <= c < nconns)
    }

    constructor (serverId: int, nconns: nat)
      requires ValidPair(serverId, 0) && nconns <= TWO_TO_THE_31
      ensures Valid() && this.serverId == serverId && this.nconns == nconns && ids == {} && Now() == Pool({}, {}, {})
    {
      this.serverId, this.nconns := serverId, nconns;
      inactiveConns, activeFreeConns, activeBusyConn := map[], map[], map[];
      inflight, ids := map[], {};
    }

    /** Opens the connections 0 to nconns - 1; each is down until Redis answers. */
    method Connect()
      requires Valid() && ids == {}
      modifies this`inactiveConns, this`ids
      ensures Valid() && ids == inactiveConns.Keys && Now() == Opened(nconns)
    {
      for i := 0 to nconns
        invariant Partitioned(inactiveConns, activeFreeConns, activeBusyConn, inflight, ids)
        invariant ids == inactiveConns.Keys && forall c :: c in ids <==> 0 <= c < i
      {
        inactiveConns := inactiveConns[i := ServerConn(i)];
        ids := ids + {i};
      }
    }

    lemma PoolNow()
      requires Valid()
      ensures Apportioned(Now(), nconns) && (ids == {} <==> Now() == Pool({}, {}, {}))
    {
    }

    lemma InflightBusy(c: int)
      requires Valid() && c in inflight
      ensures c in activeBusyConn
    {
      assert c in inflight.Keys;
    }

    function Connected(): bool
      reads this
    {
      activeBusyConn.Keys != {} || activeFreeConns.Keys != {}
    }

    method UserConnectCallback(scon: ServerConn, ok: bool)
      requires Valid() && (ok ==> scon.connId in inactiveConns)
      modifies this`inactiveConns, this`activeFreeConns
      ensures Valid() && Now() == if ok then Up(old(Now()), scon.connId) else old(Now())
      ensures ok ==> scon.connId in activeFreeConns && scon.connId !in inactiveConns
    {
      if ok {
        var c := scon.connId;
        activeFreeConns := activeFreeConns[c := inactiveConns[c]];
        inactiveConns := inactiveConns - {c};
      }
    }

    /** An occupied connection goes down; the command on it gets no reply. */
    method UserDisconnectCallback(scon: ServerConn)
      requires Valid() && scon.connId in activeBusyConn
      modifies this`inactiveConns, this`activeBusyConn, this`inflight
      ensures Valid() && Now() == Down(old(Now()), scon.connId)
      ensures inflight == old(inflight) - {scon.connId}
    {
      var c := scon.connId;
      inactiveConns := inactiveConns[c := activeBusyConn[c]];
      activeBusyConn := activeBusyConn - {c};
      inflight := inflight - {c};
    }

    /** Sends a command on the first free connection and says which, or -1; hiredis may refuse the command. */
    method SendCommand(command: Command, accepted: bool) returns (connId: int)
      requires Valid()
      modifies this`activeFreeConns, this`activeBusyConn, this`inflight
      ensures Valid()
      ensures FirstFree(old(activeFreeConns.Keys), connId) && (connId == -1 <==> old(activeFreeConns.Keys) == {})
      ensures connId == -1 ==> inflight == old(inflight) && Now() == old(Now())
      ensures connId != -1 ==>
        && 0 <= connId < nconns && connId in old(activeFreeConns) && connId !in old(inflight)
        && Now() == Taken(old(Now()), connId)
        && inflight == old(inflight)[connId := if accepted then [command] else []]
    {
      if !Connected() { return -1; }
      connId := -1;
      if activeFreeConns.Keys != {} {
        var it := Begin(activeFreeConns);
        var scon := activeFreeConns[it];
        connId := scon.connId;
        activeFreeConns := activeFreeConns - {it};
        activeBusyConn := activeBusyConn[scon.connId := scon];
        inflight := inflight[connId := if accepted then [command] else []];
      }
    }

    /** After the reply of the command on it has been handed on, a connection is free again. */
    method CommandDone(scon: ServerConn)
      requires Valid() && scon.connId in activeBusyConn
      modifies this`activeFreeConns, this`activeBusyConn, this`inflight
      ensures Valid() && Now() == Released(old(Now()), scon.connId)
      ensures inflight == old(inflight) - {scon.connId}
    {
      var c := scon.connId;
      activeFreeConns := activeFreeConns[c := activeBusyConn[c]];
      activeBusyConn := activeBusyConn - {c};
      inflight := inflight - {c};
    }
  }
}
