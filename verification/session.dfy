/** The per-connection session protocol run by the websocket endpoint:
    admission, history replay and join announcement, the chat loop, and
    departure, as atomic transitions over the shared manager. */
module Session {
  import opened Messages
  import opened Backlog
  import opened Registry

  /** Where one connection's handler stands. A refused handler has closed its
      connection with a code and a reason; a live one is in its receive loop
      under the name it was admitted with; a departed one has left. */
  datatype Handler =
    | Refused(code: int, reason: string)
    | Live(name: string)
    | Departed(name: string)

  /** The shared manager together with the state of every connection's handler. */
  datatype World = World(mgr: Manager, handlers: map<ConnId, Handler>)

  /** What the transport can report: a new connection claiming a name, a text
      received on a connection, or a connection's closure. */
  datatype Event =
    | Join(name: string, conn: ConnId, ts: Timestamp)
    | Send(conn: ConnId, text: string, ts: Timestamp)
    | Leave(conn: ConnId, ts: Timestamp)

  function Start(): World
  {
    World(Init(), map[])
  }

  predicate IsLive(w: World, c: ConnId)
  {
    c in w.handlers && w.handlers[c].Live?
  }

  /** Each new connection is a fresh handle; only a live handler receives
      texts or observes closure. */
  predicate Enabled(w: World, e: Event)
  {
    match e
    case Join(_, conn, _) => conn !in w.handlers
    case Send(conn, _, _) => IsLive(w, conn)
    case Leave(conn, _) => IsLive(w, conn)
  }

  /** Online names and live handlers correspond one to one, and nothing has
      been written to a connection that has not yet had a handler. */
  ghost predicate Inv(w: World)
  {
    && (forall n :: n in w.mgr.active ==>
          w.mgr.active[n] in w.handlers && w.handlers[w.mgr.active[n]] == Live(n))
    && (forall c :: IsLive(w, c) ==>
          w.handlers[c].name in w.mgr.active && w.mgr.active[w.handlers[c].name] == c)
    && (forall c :: c !in w.handlers ==> Outbox(w.mgr, c) == [])
  }

  /** Admission, then on success the join sequence: bind the name, replay the
      history to the newcomer alone, then broadcast the join announcement. */
  function JoinStep(w: World, name: string, conn: ConnId, ts: Timestamp): (r: World)
    requires conn !in w.handlers
    ensures r.handlers.Keys == w.handlers.Keys + {conn}
    ensures forall d :: d in w.handlers ==> r.handlers[d] == w.handlers[d]
    ensures name in w.mgr.active ==> r.mgr == w.mgr
    ensures name in w.mgr.active ==>
      r.handlers[conn] == Refused(PolicyViolation, TakenReason(name))
    ensures name !in w.mgr.active ==> r.handlers[conn] == Live(name)
    ensures name !in w.mgr.active ==> r.mgr.active == w.mgr.active[name := conn]
    ensures name !in w.mgr.active ==>
      r.mgr.history == Last(w.mgr.history + [JoinNotice(name, ts)], HistoryCapacity)
    ensures name !in w.mgr.active ==>
      Outbox(r.mgr, conn) == Outbox(w.mgr, conn) + w.mgr.history + [JoinNotice(name, ts)]
    ensures name !in w.mgr.active ==>
      forall d :: d != conn && Online(w.mgr, d) ==>
        Outbox(r.mgr, d) == Outbox(w.mgr, d) + [JoinNotice(name, ts)]
    ensures name !in w.mgr.active ==>
      forall d :: d != conn && !Online(w.mgr, d) ==> Outbox(r.mgr, d) == Outbox(w.mgr, d)
  {
    if name in w.mgr.active then
      w.(handlers := w.handlers[conn := Refused(PolicyViolation, TakenReason(name))])
    else
      var bound := Connect(w.mgr, conn, name);
      var replayed := ReplayTo(bound, conn, bound.history);
      var announced := Broadcast(replayed, JoinNotice(name, ts));
      assert forall d :: d != conn ==> (Online(replayed, d) <==> Online(w.mgr, d)) by {
        forall d | d != conn
          ensures Online(replayed, d) <==> Online(w.mgr, d)
        {
          if Online(w.mgr, d) {
            var n :| n in w.mgr.active && w.mgr.active[n] == d;
            assert replayed.active[n] == d;
          }
        }
      }
      assert Online(replayed, conn);
      World(announced, w.handlers[conn := Live(name)])
  }

  /** One turn of the chat loop: the received text becomes a chat envelope
      signed with the handler's own name, and is broadcast. */
  function SendStep(w: World, conn: ConnId, text: string, ts: Timestamp): (r: World)
    requires IsLive(w, conn)
    ensures r.handlers == w.handlers && r.mgr.active == w.mgr.active
    ensures r.mgr.history ==
      Last(w.mgr.history + [ChatMessage(w.handlers[conn].name, text, ts)], HistoryCapacity)
    ensures |r.mgr.history| > 0 &&
      r.mgr.history[|r.mgr.history| - 1] == ChatMessage(w.handlers[conn].name, text, ts)
    ensures forall c :: Online(w.mgr, c) ==>
      Outbox(r.mgr, c) == Outbox(w.mgr, c) + [ChatMessage(w.handlers[conn].name, text, ts)]
    ensures forall c :: !Online(w.mgr, c) ==> Outbox(r.mgr, c) == Outbox(w.mgr, c)
  {
    var username := w.handlers[conn].name;
    w.(mgr := Broadcast(w.mgr, ChatMessage(username, text, ts)))
  }

  /** Departure: unbind the name first, then broadcast the leave announcement
      to whoever is still online. */
  function LeaveStep(w: World, conn: ConnId, ts: Timestamp): (r: World)
    requires IsLive(w, conn)
    ensures r.mgr.active == w.mgr.active - {w.handlers[conn].name}
    ensures r.handlers == w.handlers[conn := Departed(w.handlers[conn].name)]
    ensures r.mgr.history ==
      Last(w.mgr.history + [LeaveNotice(w.handlers[conn].name, ts)], HistoryCapacity)
    ensures forall c :: Online(r.mgr, c) ==>
      Outbox(r.mgr, c) == Outbox(w.mgr, c) + [LeaveNotice(w.handlers[conn].name, ts)]
    ensures forall c :: !Online(r.mgr, c) ==> Outbox(r.mgr, c) == Outbox(w.mgr, c)
  {
    var username := w.handlers[conn].name;
    var unbound := Disconnect(w.mgr, username);
    World(Broadcast(unbound, LeaveNotice(username, ts)), w.handlers[conn := Departed(username)])
  }

  /** One event handled by the endpoint: its effect on the history is to push
      exactly what it announces, it gives a handler to the event's connection
      and leaves every other handler alone. */
  function Step(w: World, e: Event): (r: World)
    requires Enabled(w, e)
    ensures r.mgr.history == Last(w.mgr.history + Announced(w, e), HistoryCapacity)
    ensures r.handlers.Keys == w.handlers.Keys + {e.conn}
    ensures forall d :: d in w.handlers && d != e.conn ==> r.handlers[d] == w.handlers[d]
    ensures e.Send? ==> r.handlers[e.conn] == w.handlers[e.conn]
    ensures e.Leave? ==> r.handlers[e.conn] == Departed(w.handlers[e.conn].name)
  {
    assert e.Join? && e.name in w.mgr.active ==>
      w.mgr.history + Announced(w, e) == w.mgr.history;
    match e
    case Join(name, conn, ts) => JoinStep(w, name, conn, ts)
    case Send(conn, text, ts) => SendStep(w, conn, text, ts)
    case Leave(conn, ts) => LeaveStep(w, conn, ts)
  }

  /** The envelopes an event broadcasts: none for a refused admission. */
  function Announced(w: World, e: Event): seq<Envelope>
    requires Enabled(w, e)
  {
    match e
    case Join(name, conn, ts) => if name in w.mgr.active then [] else [JoinNotice(name, ts)]
    case Send(conn, text, ts) => [ChatMessage(w.handlers[conn].name, text, ts)]
    case Leave(conn, ts) => [LeaveNotice(w.handlers[conn].name, ts)]
  }

  /** Under the invariant a connection is online exactly when its handler is live. */
  lemma OnlineIffLive(w: World, c: ConnId)
    requires Inv(w)
    ensures Online(w.mgr, c) <==> IsLive(w, c)
  {
    if Online(w.mgr, c) {
      var n :| n in w.mgr.active && w.mgr.active[n] == c;
    }
    if IsLive(w, c) {
      assert w.mgr.active[w.handlers[c].name] == c;
    }
  }

  /** Names are unique among live handlers, and no connection holds two names. */
  lemma Uniqueness(w: World)
    requires Inv(w)
    ensures forall c1, c2 ::
      (IsLive(w, c1) && IsLive(w, c2) && w.handlers[c1].name == w.handlers[c2].name) ==> c1 == c2
    ensures forall a, b ::
      (a in w.mgr.active && b in w.mgr.active && w.mgr.active[a] == w.mgr.active[b]) ==> a == b
  {
  }

  lemma StartInv()
    ensures Inv(Start())
  {
  }

  lemma JoinPreservesInv(w: World, name: string, conn: ConnId, ts: Timestamp)
    requires Inv(w) && conn !in w.handlers
    ensures Inv(JoinStep(w, name, conn, ts))
  {
    var r := JoinStep(w, name, conn, ts);
    if name in w.mgr.active {
      assert r.mgr == w.mgr;
      forall n | n in r.mgr.active
        ensures r.mgr.active[n] in r.handlers && r.handlers[r.mgr.active[n]] == Live(n)
      {
        assert w.mgr.active[n] in w.handlers;
      }
      forall c | IsLive(r, c)
        ensures r.handlers[c].name in r.mgr.active && r.mgr.active[r.handlers[c].name] == c
      {
        assert c != conn && IsLive(w, c);
      }
    } else {
      forall n | n in r.mgr.active
        ensures r.mgr.active[n] in r.handlers && r.handlers[r.mgr.active[n]] == Live(n)
      {
        if n != name {
          assert w.mgr.active[n] in w.handlers;
        }
      }
      forall c | IsLive(r, c)
        ensures r.handlers[c].name in r.mgr.active && r.mgr.active[r.handlers[c].name] == c
      {
        if c != conn {
          assert IsLive(w, c);
          assert w.handlers[c].name != name;
        }
      }
      forall d | d !in r.handlers
        ensures Outbox(r.mgr, d) == []
      {
        assert d != conn && !IsLive(w, d);
        OnlineIffLive(w, d);
      }
    }
  }

  lemma SendPreservesInv(w: World, conn: ConnId, text: string, ts: Timestamp)
    requires Inv(w) && IsLive(w, conn)
    ensures Inv(SendStep(w, conn, text, ts))
  {
    var r := SendStep(w, conn, text, ts);
    forall d | d !in r.handlers
      ensures Outbox(r.mgr, d) == []
    {
      OnlineIffLive(w, d);
    }
  }

  lemma LeavePreservesInv(w: World, conn: ConnId, ts: Timestamp)
    requires Inv(w) && IsLive(w, conn)
    ensures Inv(LeaveStep(w, conn, ts))
  {
    var r := LeaveStep(w, conn, ts);
    var name := w.handlers[conn].name;
    forall d | d !in r.handlers
      ensures Outbox(r.mgr, d) == []
    {
      OnlineIffLive(w, d);
    }
    forall n | n in r.mgr.active
      ensures r.mgr.active[n] in r.handlers && r.handlers[r.mgr.active[n]] == Live(n)
    {
      assert n != name;
      assert w.mgr.active[n] != conn;
    }
    forall c | IsLive(r, c)
      ensures r.handlers[c].name in r.mgr.active && r.mgr.active[r.handlers[c].name] == c
    {
      assert c != conn;
      assert w.handlers[c].name != name;
    }
  }

  /** Every transition keeps the invariant. */
  lemma StepPreservesInv(w: World, e: Event)
    requires Inv(w) && Enabled(w, e)
    ensures Inv(Step(w, e))
  {
    match e
    case Join(name, conn, ts) => JoinPreservesInv(w, name, conn, ts);
    case Send(conn, text, ts) => SendPreservesInv(w, conn, text, ts);
    case Leave(conn, ts) => LeavePreservesInv(w, conn, ts);
  }

  /** The history after a transition keeps the last ten of the old history
      followed by what the transition broadcast. */
  lemma StepHistory(w: World, e: Event)
    requires Enabled(w, e)
    ensures Step(w, e).mgr.history == Last(w.mgr.history + Announced(w, e), HistoryCapacity)
  {
    if e.Join? && e.name in w.mgr.active {
      assert w.mgr.history + Announced(w, e) == w.mgr.history;
    }
  }

  /** What each connection is sent by one transition: an admitted newcomer
      the history snapshot and then the announcements; a live connection,
      unless it is the one departing, the announcements; anyone else nothing. */
  lemma StepDelivery(w: World, e: Event, c: ConnId)
    requires Inv(w) && Enabled(w, e)
    ensures Outbox(Step(w, e).mgr, c) ==
      if e.Join? && c == e.conn then
        (if Announced(w, e) == [] then [] else w.mgr.history + Announced(w, e))
      else if IsLive(w, c) && !(e.Leave? && e.conn == c) then
        Outbox(w.mgr, c) + Announced(w, e)
      else
        Outbox(w.mgr, c)
  {
    match e
    case Join(name, conn, ts) => JoinDelivery(w, name, conn, ts, c);
    case Send(conn, text, ts) => OnlineIffLive(w, c);
    case Leave(conn, ts) => LeaveDelivery(w, conn, ts, c);
  }

  lemma JoinDelivery(w: World, name: string, conn: ConnId, ts: Timestamp, c: ConnId)
    requires Inv(w) && conn !in w.handlers
    ensures Outbox(JoinStep(w, name, conn, ts).mgr, c) ==
      if c == conn then
        (if name in w.mgr.active then [] else w.mgr.history + [JoinNotice(name, ts)])
      else if IsLive(w, c) && name !in w.mgr.active then
        Outbox(w.mgr, c) + [JoinNotice(name, ts)]
      else
        Outbox(w.mgr, c)
  {
    OnlineIffLive(w, c);
    assert Outbox(w.mgr, conn) == [];
  }

  lemma LeaveDelivery(w: World, conn: ConnId, ts: Timestamp, c: ConnId)
    requires Inv(w) && IsLive(w, conn)
    ensures Outbox(LeaveStep(w, conn, ts).mgr, c) ==
      if IsLive(w, c) && c != conn then
        Outbox(w.mgr, c) + [LeaveNotice(w.handlers[conn].name, ts)]
      else
        Outbox(w.mgr, c)
  {
    OnlineIffLive(w, c);
    var r := LeaveStep(w, conn, ts);
    if IsLive(w, c) && c != conn {
      var n := w.handlers[c].name;
      assert n != w.handlers[conn].name;
      assert r.mgr.active[n] == c;
    }
  }

  /** A live connection other than the departing one stays live and is sent
      exactly what the transition broadcasts. */
  lemma StepDeliveryLive(w: World, e: Event, c: ConnId)
    requires Inv(w) && Enabled(w, e) && IsLive(w, c) && !(e.Leave? && e.conn == c)
    ensures IsLive(Step(w, e), c)
    ensures Outbox(Step(w, e).mgr, c) == Outbox(w.mgr, c) + Announced(w, e)
  {
    StepDelivery(w, e, c);
  }

  /** A refused admission closes the newcomer with Policy Violation and a
      reason naming the claimed name, and leaves no trace: the manager is
      untouched, nothing is announced, and the holder of the name stays live. */
  lemma RefusalLeavesNoTrace(w: World, name: string, conn: ConnId, ts: Timestamp)
    requires Inv(w) && conn !in w.handlers && name in w.mgr.active
    ensures JoinStep(w, name, conn, ts).mgr == w.mgr
    ensures Announced(w, Join(name, conn, ts)) == []
    ensures JoinStep(w, name, conn, ts).handlers[conn].Refused?
    ensures JoinStep(w, name, conn, ts).handlers[conn].code == 1008
    ensures JoinStep(w, name, conn, ts).handlers[conn].reason[10..10 + |name|] == name
    ensures IsLive(JoinStep(w, name, conn, ts), w.mgr.active[name])
    ensures JoinStep(w, name, conn, ts).handlers[w.mgr.active[name]] == Live(name)
  {
    var reason := TakenReason(name);
  }

  /** A successful join binds the name to the newcomer, which is sent the
      history as it stood, oldest first, and then its own join announcement;
      the replay itself adds nothing to the history. */
  lemma JoinTimeline(w: World, name: string, conn: ConnId, ts: Timestamp)
    requires Inv(w) && conn !in w.handlers && name !in w.mgr.active
    ensures JoinStep(w, name, conn, ts).mgr.active[name] == conn
    ensures Outbox(JoinStep(w, name, conn, ts).mgr, conn) == w.mgr.history + [JoinNotice(name, ts)]
    ensures JoinStep(w, name, conn, ts).mgr.history ==
      Last(w.mgr.history + [JoinNotice(name, ts)], HistoryCapacity)
    ensures forall c ::
      (IsLive(JoinStep(w, name, conn, ts), c) && JoinStep(w, name, conn, ts).handlers[c].name == name)
        ==> c == conn
  {
    var r := JoinStep(w, name, conn, ts);
    assert Outbox(w.mgr, conn) == [];
    JoinPreservesInv(w, name, conn, ts);
    Uniqueness(r);
  }

  /** Sender integrity: the chat envelope a live connection produces carries
      the received text and, as its sender, exactly the name that connection
      holds; it is the newest entry of the history. */
  lemma SenderIntegrity(w: World, conn: ConnId, text: string, ts: Timestamp)
    requires Inv(w) && IsLive(w, conn)
    ensures |Announced(w, Send(conn, text, ts))| == 1
    ensures Announced(w, Send(conn, text, ts))[0].ChatMessage?
    ensures Announced(w, Send(conn, text, ts))[0].content == text
    ensures Announced(w, Send(conn, text, ts))[0].sender in w.mgr.active
    ensures w.mgr.active[Announced(w, Send(conn, text, ts))[0].sender] == conn
    ensures var h := SendStep(w, conn, text, ts).mgr.history;
      |h| > 0 && h[|h| - 1] == Announced(w, Send(conn, text, ts))[0]
  {
  }

  /** The departing connection is unbound before the leave announcement goes
      out, so it is not sent its own leave notice while every other live
      connection is. */
  lemma LeaverMissesOwnNotice(w: World, conn: ConnId, ts: Timestamp)
    requires Inv(w) && IsLive(w, conn)
    ensures Outbox(LeaveStep(w, conn, ts).mgr, conn) == Outbox(w.mgr, conn)
    ensures forall c :: IsLive(w, c) && c != conn ==>
      Outbox(LeaveStep(w, conn, ts).mgr, c) ==
        Outbox(w.mgr, c) + [LeaveNotice(w.handlers[conn].name, ts)]
  {
    forall c | true
      ensures Outbox(LeaveStep(w, conn, ts).mgr, c) ==
        if IsLive(w, c) && c != conn then
          Outbox(w.mgr, c) + [LeaveNotice(w.handlers[conn].name, ts)]
        else Outbox(w.mgr, c)
    {
      StepDelivery(w, Leave(conn, ts), c);
    }
  }

  /** Leaving frees the name at once: a later connection claiming it is admitted. */
  lemma RejoinAfterLeave(w: World, conn: ConnId, ts: Timestamp, conn2: ConnId, ts2: Timestamp)
    requires Inv(w) && IsLive(w, conn) && conn2 !in w.handlers
    ensures var name := w.handlers[conn].name;
      var back := JoinStep(LeaveStep(w, conn, ts), name, conn2, ts2);
      back.handlers[conn2] == Live(name) && back.mgr.active[name] == conn2
  {
  }
}
