/** Runs of the relay: any sequence of possible events from a given world,
    and what such a run broadcasts and delivers. */
module Traces {
  import opened Messages
  import opened Backlog
  import opened Registry
  import opened Session

  /** Every event of `es` is possible when it happens. */
  predicate Feasible(w: World, es: seq<Event>)
    decreases |es|
  {
    es == [] || (Enabled(w, es[0]) && Feasible(Step(w, es[0]), es[1..]))
  }

  function Run(w: World, es: seq<Event>): World
    requires Feasible(w, es)
    decreases |es|
  {
    if es == [] then w else Run(Step(w, es[0]), es[1..])
  }

  /** Everything broadcast during a run, in broadcast order. */
  function Log(w: World, es: seq<Event>): seq<Envelope>
    requires Feasible(w, es)
    decreases |es|
  {
    if es == [] then [] else Announced(w, es[0]) + Log(Step(w, es[0]), es[1..])
  }

  /** No event of `es` is the closure of connection `c`. */
  predicate NeverLeaves(es: seq<Event>, c: ConnId)
  {
    forall i :: 0 <= i < |es| && es[i].Leave? ==> es[i].conn != c
  }

  lemma RunCons(w: World, es: seq<Event>)
    requires es != [] && Feasible(w, es)
    ensures Enabled(w, es[0]) && Feasible(Step(w, es[0]), es[1..])
    ensures Run(w, es) == Run(Step(w, es[0]), es[1..])
    ensures Log(w, es) == Announced(w, es[0]) + Log(Step(w, es[0]), es[1..])
  {
  }

  lemma ConcatAssoc(a: seq<Envelope>, b: seq<Envelope>, c: seq<Envelope>)
    ensures a + b + c == a + (b + c)
  {
  }

  lemma NeverLeavesTail(es: seq<Event>, c: ConnId)
    requires es != [] && NeverLeaves(es, c)
    ensures es[0].Leave? ==> es[0].conn != c
    ensures NeverLeaves(es[1..], c)
  {
    assert forall i :: 0 <= i < |es[1..]| ==> es[1..][i] == es[i + 1];
  }

  lemma {:induction false} RunPreservesInv(w: World, es: seq<Event>)
    requires Inv(w) && Feasible(w, es)
    ensures Inv(Run(w, es))
    decreases |es|
  {
    if es != [] {
      StepPreservesInv(w, es[0]);
      RunPreservesInv(Step(w, es[0]), es[1..]);
    }
  }

  /** After any run the history is the last ten of the old history followed
      by everything the run broadcast, oldest first. */
  lemma {:induction false} RunHistory(w: World, es: seq<Event>)
    requires Feasible(w, es)
    ensures Run(w, es).mgr.history == Last(w.mgr.history + Log(w, es), HistoryCapacity)
    decreases |es|
  {
    if es == [] {
      assert w.mgr.history + Log(w, es) == w.mgr.history;
    } else {
      var w1 := Step(w, es[0]);
      StepHistory(w, es[0]);
      RunHistory(w1, es[1..]);
      LastCompose(w.mgr.history, Announced(w, es[0]), Log(w1, es[1..]), HistoryCapacity);
    }
  }

  /** From a fresh start, the history holds the last min(N, 10) of the N
      envelopes broadcast so far, in broadcast order, and the invariant holds. */
  lemma HistoryFromStart(es: seq<Event>)
    requires Feasible(Start(), es)
    ensures Run(Start(), es).mgr.history == Last(Log(Start(), es), HistoryCapacity)
    ensures |Run(Start(), es).mgr.history| ==
      if |Log(Start(), es)| <= HistoryCapacity then |Log(Start(), es)| else HistoryCapacity
    ensures Inv(Run(Start(), es))
  {
    RunHistory(Start(), es);
    assert Start().mgr.history + Log(Start(), es) == Log(Start(), es);
    StartInv();
    RunPreservesInv(Start(), es);
  }

  /** A connection that stays live through a run is sent everything the run
      broadcasts, each envelope once and in broadcast order. */
  lemma {:induction false} RunDeliveryLive(w: World, es: seq<Event>, c: ConnId)
    requires Inv(w) && Feasible(w, es) && IsLive(w, c) && NeverLeaves(es, c)
    ensures IsLive(Run(w, es), c)
    ensures Outbox(Run(w, es).mgr, c) == Outbox(w.mgr, c) + Log(w, es)
    decreases |es|
  {
    if es != [] {
      RunCons(w, es);
      var w1 := Step(w, es[0]);
      NeverLeavesTail(es, c);
      StepDeliveryLive(w, es[0], c);
      StepPreservesInv(w, es[0]);
      RunDeliveryLive(w1, es[1..], c);
      ConcatAssoc(Outbox(w.mgr, c), Announced(w, es[0]), Log(w1, es[1..]));
    }
  }

  /** A newcomer that stays connected is sent, in order: the history as it
      stood when it was admitted, its own join announcement, and then every
      later broadcast; never any earlier broadcast except through the replay. */
  lemma NewcomerTimeline(w: World, name: string, conn: ConnId, ts: Timestamp, es: seq<Event>)
    requires Inv(w) && conn !in w.handlers && name !in w.mgr.active
    requires Feasible(JoinStep(w, name, conn, ts), es) && NeverLeaves(es, conn)
    ensures Outbox(Run(JoinStep(w, name, conn, ts), es).mgr, conn) ==
      w.mgr.history + [JoinNotice(name, ts)] + Log(JoinStep(w, name, conn, ts), es)
  {
    var w1 := JoinStep(w, name, conn, ts);
    JoinTimeline(w, name, conn, ts);
    JoinPreservesInv(w, name, conn, ts);
    RunDeliveryLive(w1, es, conn);
  }
}
