# Chat relay session registry — a Dafny model

This project models the stateful core of a small WebSocket chat relay: the
`ConnectionManager` and the per-connection session flow of the websocket
endpoint in `main.py`. The model is one sequential state machine over
immutable values.

- `Messages`: the envelopes the relay stores and delivers, plus the fixed
  texts of the join and leave announcements and of the refusal reason.
  An envelope is a `SystemMessage(content, timestamp)` or a
  `ChatMessage(sender, content, timestamp)`.
- `Backlog`: the history buffer, a `deque(maxlen=10)`. `Push` is its
  `append`. `Last` is the reference definition ("the last n elements").
- `Registry`: the manager itself. `Manager` holds:
  - `active`: name ↦ connection;
  - `history`: at most ten envelopes, enforced by a subset type;
  - `outbox`: for each connection, everything it has been sent, oldest first.

  Its operations are `Connect`, `Disconnect`, `SendPersonal`, the history
  replay loop `ReplayTo` and `Broadcast`.
- `Session`: the endpoint's control flow. Each connection's handler is
  `Refused(code, reason)`, `Live(name)` or `Departed(name)`. The transport
  reports three kinds of event:
  - `Join(name, conn, ts)`: admission, then either refusal with close code
    1008 (Policy Violation, section 7.4.1 of RFC 6455) or the join
    sequence — bind, replay history point to point, broadcast the join
    announcement;
  - `Send(conn, text, ts)`: one turn of the receive loop;
  - `Leave(conn, ts)`: the disconnect handler — unbind, then broadcast the
    leave announcement.

  `Send` and `Leave` name the connection and not the user. The sender of a
  chat envelope is the name the handler was admitted under, exactly as the
  endpoint's local `username` is. So sender integrity is proved, not
  assumed. `Inv` says that online names and live handlers correspond one to
  one, and that no connection has been written to before it had a handler.
- `Traces`: runs of events (`Feasible`, `Run`, `Log` = everything broadcast,
  in order) and the properties that span a run.
- `Scenarios`: three concrete runs: two users greeting each other, a
  duplicate name refused, a late joiner replayed the last ten broadcasts.

Timestamps (`Timestamp`, the ISO-8601 text) and connection handles (`ConnId`)
are opaque inputs. Nothing reads a clock or does I/O.

In three places the model follows the code where a reader might expect otherwise:
- The announcements quote the name: `'alice' joined the chat`.
- The history stores every broadcast, including system announcements.
- Admission is a check at main.py:54 followed later by an insert at
  main.py:21, not one atomic step. With one event at a time this changes
  nothing.

## Model

| member | source | states |
|---|---|---|
| Messages.TakenReason | main.py:56 | the close reason contains the claimed name verbatim, at a fixed offset |
| Messages.JoinedTextInjective | main.py:72 | a join announcement identifies exactly one participant |
| Messages.LeftTextInjective | main.py:100 | a leave announcement identifies exactly one participant |
| Messages.JoinedNeverLeft | main.py:72-100 | no join announcement equals any leave announcement |
| Backlog.Push | main.py:13 | appending to the bounded deque keeps exactly the last ten of old-history-plus-new, ends with the new element, never exceeds the bound |
| Registry.Init | main.py:9-13 | a fresh manager has nobody online, an empty history and every outbox empty |
| Registry.Connect | main.py:15-21 | the name is bound to the new connection, overwriting silently; every other binding, the history and all outboxes are unchanged |
| Registry.Disconnect | main.py:23-26 | the name is no longer bound; other bindings, history and outboxes are unchanged; an absent name leaves the manager identical |
| Registry.DisconnectIdempotent | main.py:23-26 | disconnecting a name twice equals disconnecting it once |
| Registry.SendPersonal | main.py:28-30 | exactly one envelope is appended to that one connection's outbox and to no other |
| Registry.ReplayTo | main.py:65-66 | the replayed envelopes are appended in order to the newcomer's outbox only; bindings and history are unchanged |
| Registry.Broadcast | main.py:32-37 | the envelope enters the bounded history, is appended once to every online connection's outbox, and offline outboxes are unchanged |
| Registry.BroadcastAllHistory | main.py:32-34 | after any sequence of broadcasts the history is the last ten of old history followed by the broadcasts, in order |
| Registry.BroadcastAllDelivery | main.py:36-37 | an online connection receives every broadcast of a sequence, once each in broadcast order; an offline one receives none |
| Messages.JoinNotice | main.py:70-74 | the join_message is a system message stamped with the given timestamp; its content announces that name's arrival and is not that name's leave text |
| Messages.JoinNoticeNamesOne | main.py:70-74 | the join_message announces the arrival of the joining name and of no other name, and the departure of nobody |
| Messages.LeaveNotice | main.py:98-102 | the goodbye_message is a system message stamped with the given timestamp; its content announces that name's departure and is not that name's join text |
| Messages.LeaveNoticeNamesOne | main.py:98-102 | the goodbye_message announces the departure of the leaving name and of no other name, and the arrival of nobody |
| Session.Step | main.py:51-103 | each event pushes exactly what it announces onto the history, gives the event's connection its handler state (departed after a leave, unchanged after a chat turn) and leaves every other handler alone |
| Session.JoinStep | main.py:54-75 | a taken name closes the newcomer with 1008 and changes nothing else; otherwise the name is bound, the newcomer gets the history snapshot then the join notice, others online get the notice, and the history gains only the notice |
| Session.SendStep | main.py:80-91 | the received text becomes a chat envelope whose sender is the handler's admitted name; it is the newest history entry and reaches every online connection |
| Session.LeaveStep | main.py:93-103 | only the departing name is unbound, first; the leave notice enters the history and reaches exactly the connections still online afterwards |
| Session.Uniqueness | main.py:54-60 | under the invariant no two live handlers share a name and no connection holds two names |
| Session.JoinPreservesInv | main.py:54-75 | admission, refused or not, keeps the name/handler correspondence |
| Session.SendPreservesInv | main.py:79-91 | a chat turn keeps the name/handler correspondence |
| Session.LeavePreservesInv | main.py:93-103 | departure keeps the name/handler correspondence |
| Session.StepPreservesInv | main.py:51-103 | every possible event keeps the invariant |
| Session.StepHistory | main.py:34 | an event's effect on the history is to push exactly what it announces, nothing for a refusal |
| Session.StepDelivery | main.py:60-103 | per connection: an admitted newcomer gets snapshot plus announcements, a live non-departing one gets the announcements, anyone else nothing |
| Session.JoinDelivery | main.py:60-75 | per connection after an admission: a refused newcomer gets nothing, an admitted one the history snapshot then its notice, a live other connection the notice, anyone else nothing |
| Session.LeaveDelivery | main.py:93-103 | per connection after a departure: every other live connection gets the leave notice once; the leaver and everyone offline get nothing |
| Session.StepDeliveryLive | main.py:36-37 | a live connection that is not departing stays live and gets exactly the event's announcements |
| Session.RefusalLeavesNoTrace | main.py:54-57 | a refused duplicate gets code 1008 and a reason naming it; the manager is identical, nothing is announced, the holder stays live under the name |
| Session.JoinTimeline | main.py:60-75 | after admission the newcomer's outbox is the pre-join history followed by its join notice, the replay adds nothing to history, and the name belongs to that connection alone |
| Session.SenderIntegrity | main.py:84-91 | the one envelope a chat turn broadcasts is a chat message with the received text whose sender is bound to exactly that connection, recorded as the newest history entry |
| Session.LeaverMissesOwnNotice | main.py:93-103 | the departing connection is not sent its own leave notice; every other live connection is |
| Session.RejoinAfterLeave | main.py:93-95 | after a departure a fresh connection claiming the same name is admitted and bound |
| Traces.RunPreservesInv | main.py:51-103 | every feasible run keeps the invariant |
| Traces.RunHistory | main.py:32-34 | after any run the history is the last ten of old history followed by everything the run broadcast |
| Traces.HistoryFromStart | main.py:13 | from a fresh start the history is the last min(N, 10) of the N envelopes broadcast, oldest first |
| Traces.RunDeliveryLive | main.py:32-37 | a connection live throughout a run receives the run's whole broadcast log, in order, once each |
| Traces.NewcomerTimeline | main.py:63-91 | a newcomer that stays connected receives the pre-join history, its join notice, then every later broadcast, and nothing else |
| Scenarios.AliceGreetsBob | main.py:79-91 | alice and bob join and alice sends "hi": both are sent both join notices and then alice's line, once |
| Scenarios.SecondAliceRefused | main.py:54-57 | a second "alice" is refused with 1008 and the manager keeps one alice on the first connection |
| Scenarios.LateJoinerSeesLastTen | main.py:63-66 | after N ≥ 10 broadcasts a newcomer is replayed exactly the last ten, oldest first, before its join notice |

## Left out

- The WebSocket transport (`accept`, `send_text`, `receive_text`, `close`,
  `WebSocketDisconnect`): it is a foreign library. Its calls become events
  and outbox appends. A close is recorded as the `Refused` handler state.
- FastAPI application and routing (main.py:42, main.py:50): this is
  framework plumbing.
- `datetime.now` and `isoformat`: the timestamp is an opaque input.
- `json.dumps`: envelopes stay a datatype, because the serialiser is not
  part of this model.
- `print` logging (main.py:61, 64, 81, 96): it has no effect on state.
- Concurrency. Each event is one atomic step, so the following are not
  modelled:
  - the await between the membership test at main.py:54 and the insert at main.py:21,
    where two sessions with the same name could both pass that test;
  - a dictionary changing while a broadcast is looping over it;
  - a broadcast from another session during the awaited replay at
    main.py:65-66. The newcomer is already bound at main.py:21, so that
    broadcast reaches it ahead of its snapshot, which breaks the order
    `Session.JoinTimeline` and `Traces.NewcomerTimeline` prove. It also
    mutates the deque being iterated, so line 65 raises outside the `try`:
    the name stays bound and no leave notice is ever sent.
- Transport failures other than a clean closure inside the receive loop.
  Examples are a send failing during a broadcast, or a disconnect during the
  history replay, which happens before the `try` block.
- Registry.Broadcast: delivers once per distinct connection in
  `active.Values`, while the source sends once per dictionary entry. The two
  differ only if one connection is bound under two names. `Session.Uniqueness`
  proves that never happens in any reachable world.
- Session.JoinStep: requires a connection handle not seen before, because the
  transport hands every endpoint call a new socket.
