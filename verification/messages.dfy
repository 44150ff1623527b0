/** The envelopes the relay stores and delivers, and the fixed texts of its
    system announcements and of its admission refusal. */
module Messages {

  /** The ISO-8601 UTC text of the moment an envelope was built; the clock is
      outside the model, so a timestamp is an opaque input. */
  type Timestamp = string

  /** A broadcast unit: a system announcement, or a chat line that carries
      the name of the participant it came from. */
  datatype Envelope =
    | SystemMessage(content: string, timestamp: Timestamp)
    | ChatMessage(sender: string, content: string, timestamp: Timestamp)

  /** Close code for a refused admission: Policy Violation, section 7.4.1 of RFC 6455. */
  const PolicyViolation: int := 1008

  function JoinedText(name: string): string
  {
    "'" + name + "' joined the chat"
  }

  function LeftText(name: string): string
  {
    "'" + name + "' left the chat"
  }

  /** `content` is the arrival announcement of `name`. */
  predicate AnnouncesJoin(content: string, name: string)
  {
    content == JoinedText(name)
  }

  /** `content` is the departure announcement of `name`. */
  predicate AnnouncesLeave(content: string, name: string)
  {
    content == LeftText(name)
  }

  /** Close reason sent to a connection whose claimed name is taken. */
  function TakenReason(name: string): (reason: string)
    ensures |reason| == |name| + 29
    ensures reason[10..10 + |name|] == name
  {
    "Username '" + name + "' is already taken."
  }

  /** The system announcement broadcast when `name` joins. */
  function JoinNotice(name: string, ts: Timestamp): (e: Envelope)
    ensures e.SystemMessage? && e.timestamp == ts
    ensures AnnouncesJoin(e.content, name) && !AnnouncesLeave(e.content, name)
  {
    JoinedNeverLeft(name, name);
    SystemMessage(JoinedText(name), ts)
  }

  /** The system announcement broadcast when `name` leaves. */
  function LeaveNotice(name: string, ts: Timestamp): (e: Envelope)
    ensures e.SystemMessage? && e.timestamp == ts
    ensures AnnouncesLeave(e.content, name) && !AnnouncesJoin(e.content, name)
  {
    JoinedNeverLeft(name, name);
    SystemMessage(LeftText(name), ts)
  }

  /** A join notice announces the arrival of its participant and of no one
      else, and the departure of no one. */
  lemma JoinNoticeNamesOne(name: string, ts: Timestamp, n: string)
    ensures AnnouncesJoin(JoinNotice(name, ts).content, n) <==> n == name
    ensures !AnnouncesLeave(JoinNotice(name, ts).content, n)
  {
    if AnnouncesJoin(JoinNotice(name, ts).content, n) {
      JoinedTextInjective(n, name);
    }
    JoinedNeverLeft(name, n);
  }

  /** A leave notice announces the departure of its participant and of no one
      else, and the arrival of no one. */
  lemma LeaveNoticeNamesOne(name: string, ts: Timestamp, n: string)
    ensures AnnouncesLeave(LeaveNotice(name, ts).content, n) <==> n == name
    ensures !AnnouncesJoin(LeaveNotice(name, ts).content, n)
  {
    if AnnouncesLeave(LeaveNotice(name, ts).content, n) {
      LeftTextInjective(n, name);
    }
    JoinedNeverLeft(n, name);
  }

  /** A join announcement names exactly one participant. */
  lemma JoinedTextInjective(a: string, b: string)
    requires JoinedText(a) == JoinedText(b)
    ensures a == b
  {
    assert |a| == |b|;
    assert a == JoinedText(a)[1..1 + |a|];
    assert b == JoinedText(b)[1..1 + |b|];
  }

  /** A leave announcement names exactly one participant. */
  lemma LeftTextInjective(a: string, b: string)
    requires LeftText(a) == LeftText(b)
    ensures a == b
  {
    assert |a| == |b|;
    assert a == LeftText(a)[1..1 + |a|];
    assert b == LeftText(b)[1..1 + |b|];
  }

  /** No join announcement can be mistaken for a leave announcement. */
  lemma JoinedNeverLeft(a: string, b: string)
    ensures JoinedText(a) != LeftText(b)
  {
    if |JoinedText(a)| == |LeftText(b)| {
      assert JoinedText(a)[|a| + 3] == 'j';
      assert LeftText(b)[|a| + 3] == '\'';
    }
  }
}
