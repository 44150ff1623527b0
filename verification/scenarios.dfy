/** Three concrete runs: two users greeting each other, a duplicate name
    refused, and a late joiner replayed the last ten broadcasts. */
module Scenarios {
  import opened Messages
  import opened Backlog
  import opened Registry
  import opened Session
  import opened Traces

  /** After "alice" then "bob" join an empty relay, both are online and each
      has been sent both join announcements, in order. */
  lemma AliceThenBob()
    ensures var w2 := JoinStep(JoinStep(Start(), "alice", 1, "t1"), "bob", 2, "t2");
      && Online(w2.mgr, 1) && Online(w2.mgr, 2) && IsLive(w2, 1)
      && w2.handlers[1] == Live("alice")
      && Outbox(w2.mgr, 1) == [JoinNotice("alice", "t1"), JoinNotice("bob", "t2")]
      && Outbox(w2.mgr, 2) == [JoinNotice("alice", "t1"), JoinNotice("bob", "t2")]
  {
    var w0 := Start();
    StartInv();
    JoinTimeline(w0, "alice", 1, "t1");
    var w1 := JoinStep(w0, "alice", 1, "t1");
    JoinPreservesInv(w0, "alice", 1, "t1");
    assert w1.mgr.active == map["alice" := 1];
    assert w1.mgr.history == [JoinNotice("alice", "t1")];
    assert Online(w1.mgr, 1);
    JoinTimeline(w1, "bob", 2, "t2");
    var w2 := JoinStep(w1, "bob", 2, "t2");
    assert w2.mgr.active["bob"] == 2 && w2.mgr.active["alice"] == 1;
  }

  /** "alice" then "bob" join an empty relay and alice says "hi": each of them
      is sent both join announcements and then alice's line, once. */
  lemma AliceGreetsBob()
    ensures var w1 := JoinStep(Start(), "alice", 1, "t1");
      var w2 := JoinStep(w1, "bob", 2, "t2");
      var w3 := SendStep(w2, 1, "hi", "t3");
      && Outbox(w3.mgr, 2) == [JoinNotice("alice", "t1"), JoinNotice("bob", "t2"), ChatMessage("alice", "hi", "t3")]
      && Outbox(w3.mgr, 1) == [JoinNotice("alice", "t1"), JoinNotice("bob", "t2"), ChatMessage("alice", "hi", "t3")]
  {
    AliceThenBob();
  }

  /** A second connection claiming "alice" while alice is online is closed
      with Policy Violation, and "alice" stays bound to the first connection. */
  lemma SecondAliceRefused()
    ensures var w1 := JoinStep(Start(), "alice", 1, "t1");
      var w2 := JoinStep(w1, "alice", 2, "t2");
      && w2.handlers[2].Refused? && w2.handlers[2].code == PolicyViolation
      && w2.mgr.active == map["alice" := 1]
      && w2.mgr == w1.mgr
  {
    var w1 := JoinStep(Start(), "alice", 1, "t1");
    assert w1.mgr.active == map["alice" := 1];
  }

  /** A newcomer arriving after N >= 10 broadcasts is replayed exactly the
      last ten of them, oldest first, before its own join announcement. */
  lemma LateJoinerSeesLastTen(es: seq<Event>, name: string, conn: ConnId, ts: Timestamp)
    requires Feasible(Start(), es) && |Log(Start(), es)| >= HistoryCapacity
    requires conn !in Run(Start(), es).handlers && name !in Run(Start(), es).mgr.active
    ensures var log := Log(Start(), es);
      Outbox(JoinStep(Run(Start(), es), name, conn, ts).mgr, conn) ==
        log[|log| - HistoryCapacity..] + [JoinNotice(name, ts)]
  {
    var w := Run(Start(), es);
    var log := Log(Start(), es);
    HistoryFromStart(es);
    assert w.mgr.history == log[|log| - HistoryCapacity..];
    JoinTimeline(w, name, conn, ts);
  }
}
