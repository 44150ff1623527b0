/** The connection manager: who is online under which name, the bounded
    history of broadcast envelopes, and what each connection has been sent. */
module Registry {
  import opened Messages
  import opened Backlog

  /** An opaque handle for one transport connection. */
  type ConnId = nat

  /** The history keeps the last ten broadcast envelopes. */
  const HistoryCapacity: nat := 10

  type History = h: seq<Envelope> | |h| <= HistoryCapacity

  /** `active` maps each online name to its connection; `outbox` records,
      per connection, every envelope sent to it so far, oldest first. */
  datatype Manager = Manager(
    active: map<string, ConnId>,
    history: History,
    outbox: map<ConnId, seq<Envelope>>)

  /** What connection `c` has been sent; nothing for a connection never written to. */
  function Outbox(m: Manager, c: ConnId): seq<Envelope>
  {
    if c in m.outbox then m.outbox[c] else []
  }

  /** A connection is online when some active name is bound to it. */
  predicate Online(m: Manager, c: ConnId)
  {
    c in m.active.Values
  }

  /** The manager as the process starts it: nobody online, no history. */
  function Init(): (m: Manager)
    ensures m.active == map[] && m.history == []
    ensures forall c :: Outbox(m, c) == [] && !Online(m, c)
  {
    Manager(map[], [], map[])
  }

  /** Binds `name` to `conn`, overwriting any previous binding of `name`
      without complaint; uniqueness is the caller's business. */
  function Connect(m: Manager, conn: ConnId, name: string): (r: Manager)
    ensures name in r.active && r.active[name] == conn
    ensures forall n :: n != name ==> (n in r.active <==> n in m.active)
    ensures forall n :: n != name && n in m.active ==> r.active[n] == m.active[n]
    ensures r.history == m.history && r.outbox == m.outbox
  {
    m.(active := m.active[name := conn])
  }

  /** Unbinds `name` if it is online; otherwise nothing changes. */
  function Disconnect(m: Manager, name: string): (r: Manager)
    ensures name !in r.active
    ensures forall n :: n != name ==> (n in r.active <==> n in m.active)
    ensures forall n :: n != name && n in m.active ==> r.active[n] == m.active[n]
    ensures r.history == m.history && r.outbox == m.outbox
    ensures name !in m.active ==> r == m
  {
    if name in m.active then m.(active := m.active - {name}) else m
  }

  /** Disconnecting twice is disconnecting once. */
  lemma DisconnectIdempotent(m: Manager, name: string)
    ensures Disconnect(Disconnect(m, name), name) == Disconnect(m, name)
  {
  }

  /** Point-to-point delivery of one envelope to one connection. */
  function SendPersonal(m: Manager, e: Envelope, conn: ConnId): (r: Manager)
    ensures Outbox(r, conn) == Outbox(m, conn) + [e]
    ensures forall d :: d != conn ==> Outbox(r, d) == Outbox(m, d)
    ensures r.active == m.active && r.history == m.history
  {
    m.(outbox := m.outbox[conn := Outbox(m, conn) + [e]])
  }

  /** Sends `msgs` to `conn` one by one, in order, as the history replay does. */
  function ReplayTo(m: Manager, conn: ConnId, msgs: seq<Envelope>): (r: Manager)
    ensures Outbox(r, conn) == Outbox(m, conn) + msgs
    ensures forall d :: d != conn ==> Outbox(r, d) == Outbox(m, d)
    ensures r.active == m.active && r.history == m.history
    decreases |msgs|
  {
    if msgs == [] then m
    else
      assert msgs == [msgs[0]] + msgs[1..];
      ReplayTo(SendPersonal(m, msgs[0], conn), conn, msgs[1..])
  }

  /** Records `e` in the history, then delivers it to every online connection. */
  function Broadcast(m: Manager, e: Envelope): (r: Manager)
    ensures r.active == m.active
    ensures r.history == Last(m.history + [e], HistoryCapacity)
    ensures forall c :: Online(m, c) ==> Outbox(r, c) == Outbox(m, c) + [e]
    ensures forall c :: !Online(m, c) ==> Outbox(r, c) == Outbox(m, c)
  {
    var delivered := map c | c in m.outbox.Keys + m.active.Values ::
      if c in m.active.Values then Outbox(m, c) + [e] else Outbox(m, c);
    Manager(m.active, Push(m.history, e, HistoryCapacity), delivered)
  }

  /** Broadcasts `es` one after another, in order. */
  function BroadcastAll(m: Manager, es: seq<Envelope>): (r: Manager)
    decreases |es|
  {
    if es == [] then m else BroadcastAll(Broadcast(m, es[0]), es[1..])
  }

  /** After any sequence of broadcasts the history is the last ten envelopes
      of the old history followed by everything broadcast, oldest first. */
  lemma {:induction false} BroadcastAllHistory(m: Manager, es: seq<Envelope>)
    ensures BroadcastAll(m, es).history == Last(m.history + es, HistoryCapacity)
    ensures BroadcastAll(m, es).active == m.active
    decreases |es|
  {
    if es == [] {
      assert m.history + es == m.history;
    } else {
      var m1 := Broadcast(m, es[0]);
      BroadcastAllHistory(m1, es[1..]);
      LastAppend(m.history + [es[0]], es[1..], HistoryCapacity);
      assert m.history + [es[0]] + es[1..] == m.history + es;
    }
  }

  /** Every connection online during a run of broadcasts receives all of
      them, once each and in broadcast order; an offline one receives none. */
  lemma {:induction false} BroadcastAllDelivery(m: Manager, es: seq<Envelope>, c: ConnId)
    ensures Online(m, c) ==> Outbox(BroadcastAll(m, es), c) == Outbox(m, c) + es
    ensures !Online(m, c) ==> Outbox(BroadcastAll(m, es), c) == Outbox(m, c)
    decreases |es|
  {
    if es != [] {
      var m1 := Broadcast(m, es[0]);
      BroadcastAllDelivery(m1, es[1..], c);
      if Online(m, c) {
        AppendCons(Outbox(m, c), es);
      }
    }
  }

  lemma AppendCons(o: seq<Envelope>, es: seq<Envelope>)
    requires es != []
    ensures o + [es[0]] + es[1..] == o + es
  {
    assert es == [es[0]] + es[1..];
  }
}
