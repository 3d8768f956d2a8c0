# SMPP message centre: verified model

A Dafny model of the parts of the message centre that hold state: the per-client SMPP v3.4 session, its PDU codec, the
streaming framer, the connection registry and routing table, the write queue and the IP whitelist. `dafny verify
dfyconfig.toml` checks the whole project.

## How it is organised

- `Pdu`, `PduBuffers`: the wire format of sections 3.2, 4.4.1 and 4.6.1 of SMPP v3.4, as functions on bytes, and the
  loops that fill and scan buffers, proved against those functions. `SubmitLayout`: the layout itself, as the standard
  gives it, which parser and builder are proved to agree with.
- `Framing`, `Framer`: how a byte stream is cut into PDUs, and the server's incremental framer.
- `Limiter`, `MessageIds`: the token bucket and the message ids. `Wrappers`: a missing value.
- `Session`: one session as a transition system. `SmppSession` is the object whose methods make its moves. The modules
  `SessionOrder`, `SessionKeepalive`, `SessionDrain`, `SessionFraming`, `SessionReplies`, `SessionAnswers`,
  `SessionSubmits`, `SessionService`, `SessionMeter` and `SessionSequences` prove theorems about every run of it, each as
  an invariant of every step; `Queue` counts in its handler queue.
- `Registry`, `Routing`: the server's tables and the objects around them.
- `Conservation`, `Listing`: all sessions, the table and the D-Bus calls between them as one system; what is delivered,
  and what the table says of the sessions.
- `WriteQueue`, `Whitelist`: the write side of the server's connection handler, and address filtering.

## What the session model assumes

- One io thread (`SmppClientHandler/src/main.cpp:61`) runs completed handlers one at a time, first in first out. Each
  handler is one atomic step, except that a bind is split at its blocking call of `Authenticate`: time, arriving bytes,
  expiring timers and D-Bus calls go on in between.
- `Disconnect` is posted to that thread. `DeliverSm` runs on the D-Bus thread in two steps, the state check and the
  send, and any number of them may overlap.
- A closed descriptor gives no new successful read, but a read already completed may still be handled. The descriptor
  is closed exactly when the state is unbound.
- A timer that has expired is queued as fired; cancelling it then has no effect. A timer cancelled before that is queued
  as cancelled.
- The clock never runs backwards. Doubles are modelled as reals. Counters are 32-bit and wrap.
- `Authenticate` is an oracle: an answer with a code, or a failed call. The calls of `RouteMessage` and
  `UpdateSessionDetails` are recorded when made; what becomes of them is part of `Conservation`.
- The session's uuid is a non-empty command-line argument (`SmppClientHandler/src/main.cpp:29`), so it holds no NUL byte.

## What the system model assumes

- The table changes only when the server registers a session and when a session's own `UpdateSessionDetails` reaches it,
  which may be late, more than once or never. A routed message may fail before it is taken. A caller that gives up
  waiting changes nothing: the message is still taken at most once.
- D-Bus carries the arguments unchanged. They are D-Bus strings (`SMPPServer/files/dbus/IServer.xml:48-54`), so a NUL
  byte or invalid UTF-8 in an address or message would not survive the bus; what `Conservation` says of contents is for
  those that do.
- Session uuids are unique: a session is launched under a uuid that no other session has had.

## Where the code and its purpose part

- Redelivery: a 65-byte address is read without its terminator, which shifts everything after it (`RedeliveryExact`).
- The registry's counter drifts, and a socket is lost, exactly when a connection is accepted under a uuid still held
  (`RegistryAgrees`, `NoneReplacedExactly`).
- A receiver whose uuid is empty is taken for no receiver (`ChoosesExactly`); no launched session has one
  (`UnroutedExactly`).
- The UNBIND response is lost when a write is already queued (`UnbindResponseExactly`).
- A CIDR line whose prefix is no number stops the load and leaves what came before it in force; all lines count exactly
  when there is no such line (`AllowedExactly`, `LoadConfig`).
- The keepalive number wraps to 0 once in 0xF0000001 requests (`EnquireSeqValue`), which section 5.1.4 of SMPP v3.4 has no
  place for.
- `BIND_RECEIVER` is 3 in the client handler, where section 5.1.2.1 of SMPP v3.4 has 1; the model keeps 3.

## Model

| member | source | states |
|---|---|---|
| `Conservation.DeliveredWasSubmitted` | SmppClientHandler/src/smpp_session.cpp:191-284 | Over every history of all sessions, the server and the D-Bus calls between them: the DELIVER_SM PDUs a session sends are exactly its deliveries, and each stems from a SUBMIT_SM that a session answered ESME_ROK and carries its addresses and message; parsed again it gives them back if and only if `Survives` holds of them (no 65-byte address with something behind it) |
| `Conservation.DeliveredAtMostOnce` | SMPPServer/src/smpp_server_service.cpp:103-136 | Two DELIVER_SM PDUs, in one session or in two, never stem from the same accepted SUBMIT_SM |
| `Conservation.TakenExactly` | SmppClientHandler/src/smpp_session.cpp:268-284 | In every history a message has been taken by a session if and only if that session has its delivery under way or done, and it has it only once: a message taken is neither dropped nor delivered again |
| `Conservation.CallsAreAccepted` | SmppClientHandler/src/smpp_session.cpp:204-219 | Every message offered for delivery belongs to an accepted SUBMIT_SM, so a rejected one is never offered, and fits a deliver_sm PDU |
| `Listing.ListedWereBound` | SMPPServer/src/smpp_server_service.cpp:46-58 | In every history a session listed as BOUND_RX has had exactly one approved bind, a BIND_RECEIVER, and one listed as BOUND_TRX a BIND_TRANSCEIVER; it is still bound so, under the listed system id, unless it has ended, however late or often the server was told |
| `Listing.UnroutedExactly` | SMPPServer/src/smpp_server_service.cpp:103-122 | In every history the server gives up on a message if and only if no session is listed as BOUND_RX or BOUND_TRX: no session's uuid is empty, so the empty-uuid case of `ChoosesExactly` does not arise |
| `Listing.ToldIsListed` | SMPPServer/src/smpp_server_service.cpp:46-58 | The converse: once a registered session's notice has reached the server, it is listed as BOUND_TX, BOUND_RX or BOUND_TRX if and only if its approved bind was of that kind |
| `Listing.ToldIsServed` | SMPPServer/src/smpp_server_service.cpp:103-136 | So after the notice of a session bound as receiver or transceiver every message served is offered to somebody |
| `Listing.RefusedExactly` | SmppClientHandler/src/smpp_session.cpp:268-284 | In every history a message offered to a session can be put to it, and is refused if and only if that session has reached unbound; otherwise it is taken |
| `Limiter.AdmitsExactly` | SmppClientHandler/src/smpp_session.cpp:300-318 | With a positive rate, a call is admitted if and only if admitting it keeps every window of calls ending with it within rate + rate * (window length) |
| `Limiter.WindowsRespected` | SmppClientHandler/src/smpp_session.cpp:300-318 | Every window of admitted calls is within rate + rate * (window length) |
| `Limiter.BucketOptimal` | SmppClientHandler/src/smpp_session.cpp:300-318 | At every point of every run, no way of deciding calls that keeps all windows within the bound has admitted more of them than the bucket |
| `Limiter.RateBound` | SmppClientHandler/src/smpp_session.cpp:300-318 | Between any two instants at most rate + rate * elapsed calls are admitted |
| `SessionKeepalive.OneWaitOutstanding` | SmppClientHandler/src/smpp_session.cpp:322-360 | With the keepalive on, a live session has exactly one of the interval wait and the reply wait outstanding (running or fired), `elPending` tells which, and it is set exactly when an ENQUIRE_LINK is unanswered |
| `SessionKeepalive.NeverGivesUpEarly` | SmppClientHandler/src/smpp_session.cpp:330-368 | In every run an ENQUIRE_LINK is sent only with the keepalive on, when none is unanswered and a whole interval after the last answer or the start, and the keepalive ends a session only when one has been unanswered for the whole timeout |
| `SessionKeepalive.GivesUpExactly` | SmppClientHandler/src/smpp_session.cpp:352-368 | A fired reply timer ends the session if and only if no matching reply was handled before its handler ran, however long that handler was queued |
| `SessionOrder.StatesFollow` | SmppClientHandler/src/smpp_session.cpp:129-250 | In every interleaving with the D-Bus thread the state moves only from open to one bound state to unbound, and unbound is final, although handle_bind writes the state without checking it again |
| `SessionOrder.BoundByApproval` | SmppClientHandler/src/smpp_session.cpp:143-172 | A session that is not over is bound exactly when one bind has been approved by Authenticate, and then as transmitter, receiver or transceiver as that bind asked; no second one is ever approved |
| `SessionOrder.ExitOnce` | SmppClientHandler/src/smpp_session.cpp:239-250 | SessionExited is emitted exactly once in a run that reaches unbound and never in one that does not |
| `SessionOrder.DeliveriesInState` | SmppClientHandler/src/smpp_session.cpp:268-284 | Each DELIVER_SM is sent in the receiving state that was checked for it, or after the session ended |
| `SessionDrain.StepDrains` | SmppClientHandler/src/smpp_session.cpp:63-104 | Once unbound, each of the session's own steps lowers a measure over queued handlers and outstanding operations; time and arriving bytes do not raise it |
| `SessionDrain.Drains` | SmppClientHandler/src/smpp_session.cpp:239-250 | From any point where the session is over, and without further D-Bus calls, it takes at most that measure's number of own steps |
| `SessionDrain.Drained` | SmppClientHandler/src/smpp_session.cpp:330-368 | When the measure is zero no own step is possible |
| `SessionDrain.NeverStuck` | SmppClientHandler/src/smpp_session.cpp:63-104 | While the measure is positive some own step is possible, at once or when its timer is due |
| `SessionDrain.CanFinish` | SmppClientHandler/src/smpp_session.cpp:239-250 | Every run in which the session is over can be continued, by time and its own steps alone, until nothing is queued or outstanding |
| `SessionFraming.FramingLossless` | SmppClientHandler/src/smpp_session.cpp:63-104 | In every run the dispatched PDUs are the first PDUs of the input's cut; a live session has exactly one read under way, and while one is under way the dispatched PDUs re-encoded and joined, followed by the bytes not yet framed, are the input |
| `SessionFraming.ChunkIndependent` | SmppClientHandler/src/smpp_session.cpp:63-104 | Two runs on the same input bytes, in whatever pieces, ended or not, have dispatched the same PDUs but for how far each has got |
| `SessionFraming.CaughtUp` | SmppClientHandler/src/smpp_session.cpp:63-104 | A live session that is not waiting for its own handlers has dispatched exactly the PDUs of its input |
| `SessionFraming.FramerAgrees` | SMPPServer/src/smpp_pdu_framer.cpp:32-81 | The streaming framer, fed the same bytes in any chunks, has released (or holds, when header-only) exactly the PDUs the session dispatched |
| `SessionFraming.SentCutsBack` | SmppClientHandler/include/smpp_pdu.hpp:121-176 | The concatenation of everything a session sends is cut back into exactly the PDUs sent |
| `SessionReplies.EveryRequestAnswered` | SmppClientHandler/src/smpp_session.cpp:106-220 | In every run the responses sent are, in order, what the dispatched PDUs are owed: the request's id with bit 31 set and its own sequence number, GENERIC_NACK for unknown ids, nothing for responses; only a bind that waits for Authenticate is outstanding |
| `SessionAnswers.ResponsesRight` | SmppClientHandler/src/smpp_session.cpp:129-209 | In every run each response has the status and body that its request, the session state, the Authenticate result and the limiter's verdict call for; Authenticate is asked, answered or not, only while open and about the first two strings of the bind it decides |
| `SessionAnswers.ServerToldOfBinds` | SmppClientHandler/src/smpp_session.cpp:161-176 | UpdateSessionDetails is called for every approved bind and nothing else, with the bind's system id and the state its kind asks for; a bound session is known by its own system id and state |
| `SessionAnswers.NoticeHolds` | SmppClientHandler/src/smpp_session.cpp:161-176 | A session that has called UpdateSessionDetails has done so once, for its one approved bind, and has the state and system id it reported unless it is unbound |
| `SessionAnswers.CredentialsRead` | SmppClientHandler/src/smpp_session.cpp:140-142 | The credentials of a bind body are its first two terminated strings, whatever follows |
| `SessionSubmits.SubmitsAccounted` | SmppClientHandler/src/smpp_session.cpp:191-228 | In every run the ESME_ROK submit responses, the RouteMessage calls and the message ids are equal in number and correspond one by one in order; each call carries what its request asked for and the id read from its response body |
| `SessionSubmits.RoutedIdsDistinct` | SmppClientHandler/src/smpp_session.cpp:222-228 | No two of a session's first 2^32 messages are routed under the same id |
| `SessionSubmits.AcceptedWhileBound` | SmppClientHandler/src/smpp_session.cpp:196-203 | Acceptance, routing and limiter calls happen only in BOUND_TX or BOUND_TRX, and an acceptance answers a SUBMIT_SM with its own sequence number and nothing but the message id |
| `SessionSubmits.AcceptedAreSubmits` | SmppClientHandler/src/smpp_session.cpp:191-209 | Every request counted as accepted is a SUBMIT_SM |
| `SessionMeter.RoutedWithinRate` | SmppClientHandler/src/smpp_session.cpp:200-219 | In every run, between any two instants, a limited session routes at most rate + rate * elapsed messages |
| `SessionMeter.RoutingOptimal` | SmppClientHandler/src/smpp_session.cpp:200-203 | In every run the limiter's verdicts are the bucket's, and no schedule within the bound would have admitted more of the same submissions than the session has routed |
| `SessionSequences.SequencesDistinct` | SmppClientHandler/src/smpp_session.cpp:295-339 | With at most 2^28 keepalive requests and 0x60000000 deliveries, overlapping or not, all server-started sequence numbers are distinct and in 1..0x7FFFFFFF |
| `SessionSequences.EnquireSeqValue` | SmppClientHandler/src/smpp_session.cpp:330-339 | The keepalive numbers count up from 0x10000000 to 0xFFFFFFFF, then comes one 0, and they start over, for ever |
| `SessionSequences.BoundsTight` | SmppClientHandler/include/smpp_session.hpp:99-105 | Both bounds are tight: the next keepalive number is the first delivery's, and the next delivery number leaves the range |
| `SessionSequences.SentIdsFit` | SmppClientHandler/src/smpp_session.cpp:230-284 | In every run a sent PDU has id DELIVER_SM if and only if it is a delivery and ENQUIRE_LINK if and only if it is a keepalive request; both have status ESME_ROK, and the latter no body |
| `MessageIds.UnhexHex` | SmppClientHandler/src/smpp_session.cpp:225-227 | Fixed-width hex printing is invertible on every number that fits |
| `MessageIds.IdText` | SmppClientHandler/src/smpp_session.cpp:222-228 | The k-th id starts with the first eight characters of the uuid, or all of it when shorter, and ends with eight lower-case hex digits whose value is k + 1 modulo 2^32 |
| `MessageIds.IdsDistinct` | SmppClientHandler/src/smpp_session.cpp:222-228 | Two message ids of a session are equal if and only if their numbers are congruent modulo 2^32 |
| `MessageIds.IdReadBack` | SmppClientHandler/src/smpp_session.cpp:205-209 | read_cstr on the SUBMIT_SM_RESP body gives back exactly the id that is routed |
| `SessionService.SubmitsServed` | SmppClientHandler/src/smpp_session.cpp:191-220 | In every run the submissions put to the limiter are, in order, exactly those dispatched after a bind as transmitter or transceiver was approved and before the end, and those it lets through are the ones answered ESME_ROK |
| `SessionService.UnlimitedServed` | SmppClientHandler/src/smpp_session.cpp:200-203 | In every run with rate 0 every such submission is answered ESME_ROK and routed, and none is throttled |
| `SessionService.DeliveryTakenExactly` | SmppClientHandler/src/smpp_session.cpp:268-278 | In every run DeliverSm is taken if and only if the one approved bind was as receiver or transceiver and the session is not over |
| `SessionService.EndsExactly` | SmppClientHandler/src/smpp_session.cpp:58-184 | In every run a step ends a live session if and only if it is a refused or failed authentication, an UNBIND, a header that is too short, a failed read, an enquiry still unanswered when its timer has fired, or a posted Disconnect |
| `SessionService.DisconnectNotLost` | SmppClientHandler/src/smpp_session.cpp:58-61 | A Disconnect once asked for is in the queue until the session is over, whatever happens in between |
| `SessionService.EverythingInTurn` | SmppClientHandler/src/smpp_session.cpp:150-220 | In every run a request is answered before the connection is closed unless it was handled after that; a message is routed, and a bind reported, right after its ESME_ROK response |
| `SmppSessionObject.SmppSession.constructor` | SmppClientHandler/src/smpp_session.cpp:13-49 | A created and started session is in the initial state of the transition system |
| `SmppSessionObject.SmppSession.SendPdu` | SmppClientHandler/src/smpp_session.cpp:230-237 | The bytes handed to the socket are the wire form of the PDU recorded as sent |
| `SmppSessionObject.SmppSession.SendResponse` | SmppClientHandler/src/smpp_session.cpp:230-237 | As `SendPdu`, for a response built in place |
| `SmppSessionObject.SmppSession.ReadHeader` | SmppClientHandler/src/smpp_session.cpp:63-67 | Starts the header read |
| `SmppSessionObject.SmppSession.DoDisconnect` | SmppClientHandler/src/smpp_session.cpp:239-250 | Makes the move `Disconnect`: nothing when already unbound, else unbound and one exit signal |
| `SmppSessionObject.SmppSession.ScheduleEnquireLink` | SmppClientHandler/src/smpp_session.cpp:322-328 | Makes the move of the same name, cancelling a wait still outstanding |
| `SmppSessionObject.SmppSession.ArmEnquireLinkTimeout` | SmppClientHandler/src/smpp_session.cpp:344-350 | Makes the move `ArmReplyWait` |
| `SmppSessionObject.SmppSession.OnEnquireLinkTimer` | SmppClientHandler/src/smpp_session.cpp:330-342 | Makes the move `OnInterval` |
| `SmppSessionObject.SmppSession.OnEnquireLinkTimeout` | SmppClientHandler/src/smpp_session.cpp:362-368 | Makes the move `OnReplyTimeout` |
| `SmppSessionObject.SmppSession.HandleEnquireLinkResp` | SmppClientHandler/src/smpp_session.cpp:352-360 | Makes the move of the same name |
| `SmppSessionObject.SmppSession.ThrottleCheck` | SmppClientHandler/src/smpp_session.cpp:300-318 | The bucket and the verdict are those of `Limiter.Check` |
| `SmppSessionObject.SmppSession.NextMessageId` | SmppClientHandler/src/smpp_session.cpp:222-228 | Advances the 32-bit counter and prints prefix and number |
| `SmppSessionObject.SmppSession.AcceptSubmitSm` | SmppClientHandler/src/smpp_session.cpp:204-219 | Makes the move `Accept`: parse, number, answer, route |
| `SmppSessionObject.SmppSession.HandleSubmitSm` | SmppClientHandler/src/smpp_session.cpp:191-220 | Makes the move of the same name |
| `SmppSessionObject.SmppSession.HandleBind` | SmppClientHandler/src/smpp_session.cpp:129-149 | Makes the move of the same name, up to the call of Authenticate |
| `SmppSessionObject.SmppSession.FinishBind` | SmppClientHandler/src/smpp_session.cpp:150-178 | Makes the move of the same name, from its return |
| `SmppSessionObject.SmppSession.HandleUnbind` | SmppClientHandler/src/smpp_session.cpp:180-184 | Makes the move of the same name |
| `SmppSessionObject.SmppSession.Dispatch` | SmppClientHandler/src/smpp_session.cpp:106-127 | Makes the move of the same name |
| `SmppSessionObject.SmppSession.OnBody` | SmppClientHandler/src/smpp_session.cpp:98-104 | Makes the move `Received` |
| `SmppSessionObject.SmppSession.ReadBody` | SmppClientHandler/src/smpp_session.cpp:83-96 | Dispatches a header-only PDU at once, else starts the body read |
| `SmppSessionObject.SmppSession.OnHeader` | SmppClientHandler/src/smpp_session.cpp:69-81 | Makes the move of the same name |
| `SmppSessionObject.SmppSession.RunNext` | SmppClientHandler/src/smpp_session.cpp:63-104 | Running the next completed handler is the transition `RunNext` |
| `SmppSessionObject.SmppSession.AuthenticateReturned` | SmppClientHandler/src/smpp_session.cpp:150-178 | Resuming after Authenticate is the transition `AuthReturns` |
| `SmppSessionObject.SmppSession.PostDisconnect` | SmppClientHandler/src/smpp_session.cpp:58-61 | Disconnect only posts: the transition `PostDisconnect` |
| `SmppSessionObject.SmppSession.DeliverSmCheck` | SmppClientHandler/src/smpp_session.cpp:268-278 | The first half of DeliverSm is the transition `DeliverCheck`; it succeeds exactly in a receiving state |
| `SmppSessionObject.SmppSession.NextDeliverSeq` | SmppClientHandler/src/smpp_session.cpp:295-298 | Returns the counter and advances it with 32-bit wrap-around |
| `SmppSessionObject.SmppSession.DeliverSmSend` | SmppClientHandler/src/smpp_session.cpp:279-284 | The second half is the transition `DeliverSend` and returns the number sent |
| `Pdu.WordRoundTrip` | SmppClientHandler/include/smpp_pdu.hpp:44-56 | write_u32 and read_u32 are inverse both ways |
| `Pdu.DecodeEncodedHeader` | SmppClientHandler/include/smpp_pdu.hpp:58-61 | Decoding an encoded header gives it back whatever follows |
| `Pdu.EncodeDecodedHeader` | SmppClientHandler/include/smpp_pdu.hpp:58-61 | Encoding a decoded header gives the sixteen bytes back |
| `Pdu.WireInjective` | SmppClientHandler/include/smpp_pdu.hpp:121-137 | Two PDUs with the same bytes are the same PDU |
| `Pdu.ScanMeaning` | SmppClientHandler/include/smpp_pdu.hpp:64-73 | A string scan stops at the first NUL and at nothing else short of 65 characters or the end |
| `Pdu.TakeTerminated` | SmppClientHandler/include/smpp_pdu.hpp:64-73 | A terminated NUL-free string of at most 64 bytes is read back together with the rest of the buffer |
| `Pdu.TakeOverlong` | SmppClientHandler/include/smpp_pdu.hpp:64-73 | A 65-byte string is read back but whatever follows it, a terminator or not, is left unread |
| `Pdu.ParsedSizes` | SmppClientHandler/include/smpp_pdu.hpp:90-118 | Every parse gives NUL-free addresses of at most 65 bytes and a message of at most 255 |
| `Pdu.TruncationMonotone` | SmppClientHandler/include/smpp_pdu.hpp:64-118 | For every k the parse of the first k bytes has each string a prefix of, and each byte equal to or zero in place of, what the whole body gives |
| `Pdu.DeliverRoundTrip` | SmppClientHandler/include/smpp_pdu.hpp:90-176 | For NUL-free addresses of at most 64 bytes, any ton/npi and any message, parse_submit_sm inverts make_deliver_sm up to the message's length modulo 256, whatever follows the body |
| `Pdu.RedeliveryExact` | SmppClientHandler/include/smpp_pdu.hpp:64-176 | What a submit_sm parse gave survives being delivered and parsed again if and only if `Survives` holds |
| `Pdu.OverlongSourceExample` | SmppClientHandler/include/smpp_pdu.hpp:64-176 | A concrete submit_sm body whose 65-byte source address loses the destination when it is delivered |
| `SubmitLayout.BigEndianOrder` | SmppClientHandler/include/smpp_pdu.hpp:44-56 | Words sort byte by byte as their numbers do |
| `SubmitLayout.WireLayout` | SmppClientHandler/include/smpp_pdu.hpp:121-137 | Length, id, status, sequence number and body stand on the wire at bytes 0, 4, 8, 12 and 16 |
| `SubmitLayout.SubmitRoundTrip` | SmppClientHandler/include/smpp_pdu.hpp:90-118 | parse_submit_sm inverts the layout of section 4.4.1 for every message with NUL-free strings of at most 64 bytes, any option bytes and at most 255 message bytes, whatever follows the body |
| `SubmitLayout.CutMessage` | SmppClientHandler/include/smpp_pdu.hpp:111-116 | A body cut short within the message loses exactly the rest of the message |
| `SubmitLayout.TakeUnterminated` | SmppClientHandler/include/smpp_pdu.hpp:64-73 | A string that ends with the body instead of a terminator is read whole |
| `SubmitLayout.DeliverIsLayout` | SmppClientHandler/include/smpp_pdu.hpp:141-176 | make_deliver_sm writes that same layout, with no service type and no options |
| `SubmitLayout.DataCodingExample` | SmppClientHandler/include/smpp_pdu.hpp:102-116 | A concrete UCS-2 submit_sm gives data_coding 8 and its two message bytes |
| `PduBuffers.WriteU32` | SmppClientHandler/include/smpp_pdu.hpp:50-56 | Replaces exactly four bytes of the buffer by the big-endian word |
| `PduBuffers.ReadCstr` | SmppClientHandler/include/smpp_pdu.hpp:64-73 | The loop returns the string and offset of `TakeCstr`, and nothing for an offset past the end |
| `PduBuffers.ReadSubmitSm` | SmppClientHandler/include/smpp_pdu.hpp:90-118 | The offset-advancing parser equals `ParseSubmitSm` on every body, with its offset never past the end |
| `PduBuffers.Assemble` | SmppClientHandler/include/smpp_pdu.hpp:168-175 | Header words and body are laid out as the wire form of the PDU |
| `PduBuffers.MakeResponse` | SmppClientHandler/include/smpp_pdu.hpp:121-137 | Returns the wire form of `Response` |
| `PduBuffers.MakeDeliverSm` | SmppClientHandler/include/smpp_pdu.hpp:141-176 | Returns the wire form of `Deliver` |
| `Framing.JoinCut` | SmppClientHandler/src/smpp_session.cpp:63-104 | Cutting a stream as the reader does and joining the PDUs and the remainder gives the stream |
| `Framing.CutJoin` | SmppClientHandler/src/smpp_session.cpp:63-104 | A concatenation of well-formed PDUs, whatever follows, is cut back into exactly those PDUs |
| `Framing.CutExtend` | SmppClientHandler/src/smpp_session.cpp:63-104 | More input keeps the PDUs already cut and goes on from the remainder |
| `Framing.CutUnique` | SmppClientHandler/src/smpp_session.cpp:63-104 | PDUs and a remainder make up a stream, with no whole PDU left in the remainder, if and only if they are the reader's cut of it |
| `Framer.Needed` | SMPPServer/src/smpp_pdu_framer.cpp:67-81 | In every state that satisfies the size invariant the difference of sizes is not negative |
| `Framer.Feed` | SMPPServer/src/smpp_pdu_framer.cpp:32-65 | One call keeps the size invariant, takes exactly the bytes needed and reports true exactly when the PDU becomes complete |
| `Framer.FramerCutsStream` | SMPPServer/src/smpp_pdu_framer.cpp:32-81 | For every chunking, with leftovers offered again and a reset after each PDU, the PDUs released and the one held are the PDUs of the stream, and what is left is its remainder |
| `Framer.ChunkingIrrelevant` | SMPPServer/src/smpp_pdu_framer.cpp:32-81 | Two chunkings of one stream release the same PDUs but for a held header-only one |
| `Framer.HeldReleased` | SMPPServer/src/smpp_pdu_framer.cpp:41-58 | A held header-only PDU is released by the next non-empty feed, which takes none of its bytes |
| `Framer.FeedStays` | SMPPServer/src/smpp_pdu_framer.cpp:32-58 | An empty feed, and any feed before the reset of a complete PDU, changes nothing and reports nothing |
| `Framer.SmppPduFramer.constructor` | SMPPServer/include/smpp_pdu_framer.hpp:38-44 | Starts fresh |
| `Framer.SmppPduFramer.Reset` | SMPPServer/src/smpp_pdu_framer.cpp:12-20 | Starts fresh again |
| `Framer.SmppPduFramer.BytesNeeded` | SMPPServer/src/smpp_pdu_framer.cpp:67-81 | Never underflows and equals `Needed` |
| `Framer.SmppPduFramer.ParseHeader` | SMPPServer/src/smpp_pdu_framer.cpp:22-30 | Sets the four header fields from a full header, and nothing otherwise |
| `Framer.SmppPduFramer.FeedBytes` | SMPPServer/src/smpp_pdu_framer.cpp:32-65 | New fields and verdict are those of `Feed`; the size invariant is kept |
| `Registry.DropAgrees` | SMPPServer/src/connection_registry.cpp:17-37 | Claiming or removing keeps the per-IP counts equal to the sessions, and the guard against zero never bites |
| `Registry.AddAgreesExactly` | SMPPServer/src/connection_registry.cpp:7-15 | Adding keeps that agreement if and only if the connection is rejected or its uuid is new |
| `Registry.ReusedUuidExample` | SMPPServer/src/connection_registry.cpp:7-15 | A concrete reused uuid counts two where there is one |
| `Registry.RegistryAgrees` | SMPPServer/src/connection_registry.cpp:7-50 | After any operations the per-IP counts equal the sessions if and only if no connection was accepted under a uuid still held; in any case an IP has at most its count of sessions, and its count is at most the largest limit ever in force |
| `Registry.SocketsConserved` | SMPPServer/src/connection_registry.cpp:7-37 | After any operations every socket added is held, was claimed under its own uuid, was removed or was replaced, and only one of these |
| `Registry.NoneReplacedExactly` | SMPPServer/src/connection_registry.cpp:12-12 | No socket is replaced if and only if no connection was accepted under a uuid still held |
| `Registry.HandedOutOnce` | SMPPServer/src/connection_registry.cpp:17-27 | After any operations a socket has been handed out at most as often as it was added, and one added once and handed out is not held any more |
| `Registry.CacheRefines` | SMPPServer/src/connection_registry.cpp:7-50 | As long as no connection is accepted under a uuid still held, the registry holds, accepts and hands out exactly what one without a cache would: a connection is accepted if and only if its IP has fewer sessions than the limit, and a claim gives the socket of a held uuid |
| `RegistryObject.ConnectionRegistry.constructor` | SMPPServer/src/connection_registry.cpp:3-5 | Starts empty |
| `RegistryObject.ConnectionRegistry.Add` | SMPPServer/src/connection_registry.cpp:7-15 | New fields and verdict are those of `Registry.Add` |
| `RegistryObject.ConnectionRegistry.ClaimFd` | SMPPServer/src/connection_registry.cpp:17-27 | Those of `Claim` |
| `RegistryObject.ConnectionRegistry.Remove` | SMPPServer/src/connection_registry.cpp:29-37 | Those of `Registry.Remove` |
| `RegistryObject.ConnectionRegistry.Count` | SMPPServer/src/connection_registry.cpp:39-44 | The cached count, zero for an unknown IP |
| `RegistryObject.ConnectionRegistry.SetMaxPerIp` | SMPPServer/src/connection_registry.cpp:46-50 | Changes the limit only |
| `Routing.LessExactly` | SMPPServer/src/smpp_server_service.cpp:109-114 | The uuid order is that of the first differing byte, with a proper prefix first |
| `Routing.PutInOrder` | SMPPServer/src/smpp_server_service.cpp:23-26 | Assignment at a uuid keeps the table in uuid order |
| `Routing.PutEntries` | SMPPServer/src/smpp_server_service.cpp:23-26 | Assignment replaces the entry of its uuid and no other |
| `Routing.UpdateInOrder` | SMPPServer/src/smpp_server_service.cpp:46-58 | An update keeps the table in uuid order |
| `Routing.UpdateExactly` | SMPPServer/src/smpp_server_service.cpp:46-58 | An update changes the system id and state of its own session, never its IP, and no other entry |
| `Routing.ChosenIsFirst` | SMPPServer/src/smpp_server_service.cpp:108-118 | A chosen target is listed as BOUND_RX or BOUND_TRX and no session so listed has a smaller uuid |
| `Routing.ChoosesExactly` | SMPPServer/src/smpp_server_service.cpp:108-122 | A message is sent to somebody if and only if some session is listed as BOUND_RX or BOUND_TRX and none of those has the empty uuid |
| `Routing.EmptyUuidExample` | SMPPServer/src/smpp_server_service.cpp:109-122 | A concrete receiver with the empty uuid hides another |
| `Routing.TargetsExactly` | SMPPServer/src/smpp_server_service.cpp:82-90 | DisconnectAll collects every session of the IP once and no other |
| `ServerObject.SmppServerService.RegisterSession` | SMPPServer/src/smpp_server_service.cpp:15-29 | A session enters the table, and SessionStarted is signalled, exactly when the registry takes its socket |
| `ServerObject.SmppServerService.GetSocket` | SMPPServer/src/smpp_server_service.cpp:37-44 | Hands out the socket of `Claim`, or fails for an unknown uuid |
| `ServerObject.SmppServerService.UpdateSessionDetails` | SMPPServer/src/smpp_server_service.cpp:46-58 | Updates system id and state of a known session only, keeping the order |
| `ServerObject.SmppServerService.FindReceiver` | SMPPServer/src/smpp_server_service.cpp:108-122 | The loop returns the first session listed as BOUND_RX or BOUND_TRX, taking an empty uuid for none found |
| `ServerObject.SmppServerService.DisconnectTargets` | SMPPServer/src/smpp_server_service.cpp:82-90 | The loop collects `Targets` |
| `WriteQueue.OutputInOrder` | SMPPServer/src/smpp_client_handler.cpp:159-211 | In every interleaving of enqueues, completions and closes: at most one write is outstanding and it is the queue front; while the socket is open a write is outstanding, and the flag set, exactly when the queue is non-empty; what was written followed by what is queued is everything enqueued, in order |
| `WriteQueue.OutputIsPrefix` | SMPPServer/src/smpp_client_handler.cpp:183-202 | Completed output is a prefix of the PDUs in enqueue order |
| `WriteQueue.ClosedExactly` | SMPPServer/src/smpp_client_handler.cpp:119-211 | In every interleaving the socket is closed if and only if a read or write failed or a write completed after the UNBIND of a bound client; a refused UNBIND closes nothing |
| `WriteQueue.UnbindResponseExactly` | SMPPServer/src/smpp_client_handler.cpp:119-202 | The UNBIND response of a bound session can still be written if and only if the socket is open and nothing was queued before it, because the flag acts on whichever write completes next |
| `WriteQueue.UnbindResponseLostExample` | SMPPServer/src/smpp_client_handler.cpp:119-202 | A concrete run in which it never is |
| `WriteQueue.UnbindClosesBehind` | SMPPServer/src/smpp_client_handler.cpp:190-195 | When it is, the connection closes behind it with nothing else sent |
| `WriteQueue.ClientWriter.constructor` | SMPPServer/include/smpp_client_handler.hpp:59-61 | Starts idle and open |
| `WriteQueue.ClientWriter.EnqueuePdu` | SMPPServer/src/smpp_client_handler.cpp:159-166 | Makes the move `Enqueue` |
| `WriteQueue.ClientWriter.StartWrite` | SMPPServer/src/smpp_client_handler.cpp:168-181 | Makes the move `DoWrite` |
| `WriteQueue.ClientWriter.WriteCompleted` | SMPPServer/src/smpp_client_handler.cpp:183-202 | Makes the move `OnWrite` |
| `WriteQueue.ClientWriter.CloseSocket` | SMPPServer/src/smpp_client_handler.cpp:204-211 | Closes the socket only |
| `WriteQueue.ClientWriter.HandleUnbind` | SMPPServer/src/smpp_client_handler.cpp:119-131 | Unbound: queues the refusal only. Bound: sets the flag, queues the response and is bound no more |
| `Whitelist.TrimMeaning` | SMPPServer/src/ip_validator.cpp:14-20 | Trimming takes spaces off both ends and leaves none there |
| `Whitelist.MaskValue` | SMPPServer/src/ip_validator.cpp:69-69 | The 32-bit mask of a prefix length is 2^32 - 2^(32-p), for every p in 0..32 |
| `Whitelist.MatchesBlock` | SMPPServer/src/ip_validator.cpp:69-84 | Mask comparison is membership in the 2^(32-p)-aligned block of n, whatever host bits n carries |
| `Whitelist.AllowedExactly` | SMPPServer/src/ip_validator.cpp:40-101 | An address is allowed if and only if some line of the file, read between its spaces, is that address or a range n/q whose block it lies in, and no line up to it is a range whose prefix is no number; all lines take effect if and only if there is no such line |
| `Whitelist.TrimUnique` | SMPPServer/src/ip_validator.cpp:14-20 | Whatever way a line splits into spaces, text and spaces, trimming gives that text |
| `Whitelist.RangeLine` | SMPPServer/src/ip_validator.cpp:55-70 | A file with the one line n/q, with any spaces around it, allows exactly the addresses of the block of n when n is an address and q a number in 0..32; with another number or network it allows nothing, and with no number the load stops |
| `Whitelist.PlainLine` | SMPPServer/src/ip_validator.cpp:52-73 | A file with one line without a slash allows exactly its trimmed text; a blank line or a comment, with a slash or not, allows nothing |
| `Whitelist.OrderIrrelevant` | SMPPServer/src/ip_validator.cpp:50-75 | Without a line that stops the load the order and repetition of lines do not matter |
| `Whitelist.MalformedHidesRest` | SMPPServer/src/ip_validator.cpp:59-59 | A line whose prefix is no number hides every line behind it and none before it |
| `Whitelist.IpValidator.LoadConfig` | SMPPServer/src/ip_validator.cpp:40-79 | The loop loads exactly the effective lines: afterwards an address is allowed if and only if the file admits it, and the load succeeds if and only if no line stops it; an unreadable file leaves the list empty |
| `Whitelist.IpValidator.MatchesCidr` | SMPPServer/src/ip_validator.cpp:81-87 | The loop finds whether some range matches |
| `Whitelist.IpValidator.IsAllowed` | SMPPServer/src/ip_validator.cpp:89-101 | Equals `Allowed` |

## Left out

- PduBuffers.MakeDeliverSm: does not model arguments that come to 4 GiB, where the 32-bit size wraps and the source copies past the end of its own buffer; `Conservation.CallsAreAccepted` shows that no routed message comes near it.
- PduBuffers.MakeResponse: does not model a 4 GiB text either, for the same reason; no response text of the session is longer than 16 bytes.
- SmppSessionObject.SmppSession.DeliverSmCheck: takes a message that fits a 32-bit PDU size (the type `Delivery`), for the same reason; a D-Bus message is at most 128 MiB.
- Overlapping writes of one session: `send_pdu` starts each write at once, and how the kernel interleaves partial writes is not modelled; the trace has PDUs in the order they were handed over.
- A write that fails half way: which of its bytes went out is not modelled.
- Floating-point rounding in the token bucket, and memory limits on huge `command_length` values.
- `GetSessionInfo`, the bind time, log lines and the wording of disconnect reasons.
- Deliveries that some other D-Bus client asks for without `RouteMessage`: `Conservation` has the routed ones only.
- `unregister_session`, which has no caller, and `GetAllSessions`, which copies the table out.
- The server's own read driver, which drops the bytes the framer did not take, so that no stream property holds for it.
- The server's bind, unbind and enquire_link responses, which come from a library that is not part of this model.
- The older client-handler state machines, which are outside the build.
- Uniqueness of message ids across sessions: the prefix is eight digits of a time stamp.
- `inet_pton` and `std::stoi`: given partial functions on strings; the credentials store: the oracle behind `Authenticate`.
- TCP accept, process launching, generated D-Bus adaptors and proxies, configuration files and packaging.
