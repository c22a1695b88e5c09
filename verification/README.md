# APNS push channel and feedback client, modelled in Dafny

This project models the push channel of `pushpy`, a Twisted client for the legacy Apple push gateway. It covers `APNSClientFactory`, its single reused `APNSProtocol` and `APNSService.handle_error`, and also the parser of the feedback service (`APNFeedbackClientFactory.process_list` with the protocol that buffers its input).

The model has seven modules:

- `Bytes` holds octets and the big-endian field readers and writers behind the `struct` codes used.
- `Codec` holds the notification frame `!ciLH32sH%ds` and the six-byte error response `!bbi`.
- `History` holds the message-id counter with its wrap-around, and the bounded record of sent frames (`deque(maxlen=1000)`).
- `Backlog` holds the queue of messages that arrive while disconnected.
- `Resend` holds the rule that picks the frames to write again after the gateway reports a failing id. The rule is written exactly as coded. The module proves that it resends exactly the frames sent after the failing one, with or without a counter wrap inside the history, provided the failing id is still in the history and the history is no longer than `max - min`. When the failing id has already been evicted from a wrapped history, the rule resends only the older run of ids up to `max`, or nothing, and never the newer run `min .. counter-1` (`Resend.EvictedFailingIdLooped`).
- `Channel` holds the state machine. Every Twisted callback is a pure function, or a method where the source loops: it maps the merged factory/protocol state to the next state plus the frames written, the exception raised, the log notice or the report handed to the application.
- `Base64` and `Feedback` hold the feedback stream parser and the standard base64 encoding (section 4 of RFC 4648) that it applies to each token.

How time and outside calls are represented:

- Time is one integer parameter `now`, in microseconds. Both clocks of the source read it: `datetime.now()` uses it as it is, and `int(time.time())` truncates it to seconds (`Channel.UnixSeconds`).
- `base64.decodestring` is the configuration's `decodeToken`, which returns None where it would raise.
- The id range is a parameter (`History.IdRange`, any `min < max`). The source's constants 1000 and 2147483647 are `History.DEFAULT_RANGE`.

Two behaviours of the code worth knowing:

- Inside `process_queue` only `Queue.Empty` is caught: an `APNSException` or IndexError raised by `send_message` leaves the loop and reaches whoever called it.
- A connected send that writes its frame then raises `IndexError`: the log line formats `{1}` with a single argument. So every successful connected send ends in an exception after its frame is filed, written and counted, and `process_queue` writes at most one queued message per call (`Channel.Send`, `Channel.ProcessQueue`). `Channel.SendCorrected`, `Channel.ProcessQueueCorrected` and `Channel.ConnectionMadeCorrected` are the variants with the log line fixed, which drain the backlog up to the first message that cannot be sent. See Findings.
- The immediate-disconnect test `(now - connect_time).seconds <= 1` counts a connection that lasted under two seconds (at most one whole second) as immediate, and ignores whole days. `Channel.ConnectionLost` follows the coded test; `Channel.ConnectionLostCorrected` is the variant that looks at the total duration. See Findings.

## Model

| member | source | states |
|---|---|---|
| Bytes.S16 | pushpy/apns_feedback.py:89 | the `h` reading of two bytes is negative exactly when the unsigned reading is at least 0x8000, and agrees with it modulo 2^16 |
| Bytes.S32 | pushpy/apns.py:129 | the `i`/`l` reading of four bytes is a signed 32-bit value congruent to the unsigned reading modulo 2^32 |
| Bytes.BE16 | pushpy/apns.py:20 | the `H` field of an unsigned 16-bit value is two bytes that read back as that value |
| Bytes.BE32 | pushpy/apns.py:20 | the `L` field of an unsigned 32-bit value is four bytes that read back as that value |
| Bytes.BE32Signed | pushpy/apns.py:20 | the `i` field of a signed 32-bit value is four bytes whose signed reading is that value |
| Bytes.BE16OfU16 | pushpy/apns.py:20 | every two-byte field is the `H` encoding of its own reading |
| Bytes.BE32OfU32 | pushpy/apns.py:20 | every four-byte field is the `L` encoding of its own reading |
| Bytes.BE32SignedOfS32 | pushpy/apns.py:129 | every four-byte field is the `i` encoding of its signed reading |
| Codec.TokenField | pushpy/apns.py:20 | the `32s` slot is exactly 32 bytes: the token's bytes where it has them, zero bytes after that |
| Codec.Parse | pushpy/apns.py:20 | a frame that parses is exactly 45 bytes longer than its payload, and every field it yields fits its `struct` code |
| Codec.Pack | pushpy/apns.py:264-274 | packing succeeds exactly when the id fits `i`, the expiry fits `L`, and both lengths fit `H`; the frame is 45 bytes plus the payload and starts with the command byte 1 |
| Codec.PackParses | pushpy/apns.py:20-21 | a packed frame parses back into the id, the expiry, the token's length, the padded token slot and the payload it was packed from |
| Codec.PackLayout | pushpy/apns.py:20-21 | the packed frame, field by field: command 1, id, expiry, token length, 32-byte token slot, payload length, payload, at their fixed offsets |
| Codec.SizeGate | pushpy/apns.py:276-277 | a frame is within the 256-byte limit exactly when its payload is at most 211 bytes |
| Codec.ParseAssemble | pushpy/apns.py:20 | parsing inverts building a frame from fields that fit |
| Codec.AssembleParse | pushpy/apns.py:20 | building from the parsed fields gives back the frame, so frames and their fields determine each other |
| Codec.TokenRecoverable | pushpy/apns.py:267-270 | a token of at most 32 bytes is the slot's prefix with zero padding behind it; a longer token keeps only its first 32 bytes |
| Codec.DecodeErrorResponse | pushpy/apns.py:129 | `!bbi` succeeds exactly on six bytes and yields a signed command, status and 32-bit id |
| Codec.DecodeEncodeErrorResponse | pushpy/apns.py:129 | decoding an error response the gateway wrote gives back its fields |
| Codec.EncodeDecodeErrorResponse | pushpy/apns.py:129 | every six-byte response is the encoding of what it decodes to |
| History.Next | pushpy/apns.py:281-284 | the counter stays in `[min, max]`: it goes up by one, and back to `min` once `max` has been issued |
| History.BackNext | pushpy/apns.py:278-284 | counting back from the advanced counter takes one step more than counting back from the old one |
| History.Advance | pushpy/apns.py:281-284 | any number of sends keeps the counter in `[min, max]` |
| History.AdvanceBack | pushpy/apns.py:281-284 | counting back `k` ids from the counter reached after `k` sends gives the counter the sends started from |
| History.BackClosedForm | pushpy/apns.py:316-328 | the id issued `k` sends ago is `c - k` until the count reaches `min`, and after that it continues down from `max` |
| History.Remember | pushpy/apns.py:278-279 | appending to the 1000-entry history keeps the newest 1000 records of the old history plus the new one, in order |
| History.RememberAllKeepsNewest | pushpy/apns.py:278-279 | after any run of appends the history holds exactly the newest 1000 records of the old history followed by the new ones, in order |
| History.RememberLeadsUpTo | pushpy/apns.py:278-284 | after recording the current id and advancing the counter, the history's ids are still the consecutive ids (modulo the wrap) just before the counter |
| History.IdsDistinct | pushpy/apns.py:299-306 | while the history is no longer than `max - min`, no id occurs in it twice |
| History.FirstIndexOf | pushpy/apns.py:418-423 | the lookup finds the oldest record carrying the id, or reports that no record carries it |
| Backlog.Enqueue | pushpy/apns.py:218-250 | a full queue (`0 < maxsize == qsize`) loses its oldest entry and gains the new one at the back; otherwise the new one is appended; a positive capacity is never exceeded |
| Backlog.EnqueueAllKeepsNewest | pushpy/apns.py:218-250 | after any run of enqueues the queue holds exactly the newest `cap` messages of everything that went in, in arrival order |
| Resend.ResendFrames | pushpy/apns.py:297-355 | nothing is resent when the history is longer than `max - min`, and at most one frame per record otherwise; the per-entry rule behind it is `Resend.ShouldResend`, the branches at apns.py:338-349 coded verbatim over `Resend.Looped` and `Resend.MaxIdToResend` (apns.py:322-333), applied record by record in history order by `Resend.Select` |
| Resend.MaxIdToResend | pushpy/apns.py:322-333 | on a wrapped history that the resend attempts, `max_id_to_resend` lies between the counter and `max` (below `max`); without a wrap it is `max` |
| Resend.Select | pushpy/apns.py:335-353 | the loop over the history writes only frames of records the per-entry rule accepts, at most one per record |
| Resend.SelectSuffix | pushpy/apns.py:335-353 | when the per-entry decision holds exactly from position `k` on, the frames written are the history's frames from `k` on, in history order |
| Resend.SelectPrefix | pushpy/apns.py:335-353 | when the per-entry decision holds exactly before position `k`, the frames written are the history's frames up to `k`, in history order |
| Resend.ContiguousWhenNotLooped | pushpy/apns.py:316-328 | without a wrap the history's ids are the consecutive run ending just below the counter |
| Resend.TwoRunsWhenLooped | pushpy/apns.py:316-326 | with a wrap the history is an older run ending at `max`, starting just above `max_id_to_resend`, followed by the run `min .. counter-1` |
| Resend.NotLoopedResendsAbove | pushpy/apns.py:327-351 | without a wrap exactly the entries with ids above the failing id are resent, and they are the tail of the history |
| Resend.DecisionIsAfterFailing | pushpy/apns.py:335-350 | for the failing id at history position `j`, the coded decision is true for an entry exactly when it comes after `j`, in both the wrapped and the unwrapped case |
| Resend.ResendsExactlyLaterFrames | pushpy/apns.py:297-355 | the frames resent for a failing id in the history are exactly the frames sent after it, in the order they were first sent |
| Resend.EvictedFailingIdLooped | pushpy/apns.py:316-353 | on a wrapped history whose failing id lies between the counter and `max_id_to_resend` (issued before the oldest record), the id is not in the history, and the rule resends the older run up to `max` when the id is above the counter and nothing when it equals the counter; the newer run `min .. counter-1` is never resent |
| Resend.EvictedScenario | pushpy/apns.py:316-350 | ids 1000..3000, 1000 records, counter at 1050: `max_id_to_resend` is 2050, and a failure of 2050 resends exactly the records 2051..3000, none of 1000..1049 |
| Resend.WrappedScenario | pushpy/apns.py:316-350 | ids 1000..2000, 500 records, counter at 1050: `max_id_to_resend` is 1550, and a failure of 1990 resends exactly 1991..2000 and 1000..1049 |
| Channel.Init | pushpy/apns.py:160-170 | a new factory is disconnected, with an empty history and backlog, the counter at `min`, no pending error, no current message and no retries; the protocol it creates has no connect time, has not alerted and starts its idle timer now; the channel's invariant holds |
| Channel.Send | pushpy/apns.py:252-295 | the send as written has the state change and the writes of the corrected send, but never returns normally while connected: it raises IndexError exactly when the message is sendable, which is exactly when one frame was written; every other error is the corrected send's APNSException |
| Channel.SendCorrected | pushpy/apns.py:252-291 | a token that does not decode leaves the state unchanged; on every error nothing is written and the history, the counter and the backlog stay unchanged; the send succeeds exactly when the token decodes, the fields fit and, when connected, the frame is within 256 bytes; while disconnected the message is queued; while connected one frame is written, recorded under the current id, and the counter advances |
| Channel.WrittenSendRaises | pushpy/apns.py:276-293 | a connected send of a sendable message writes one frame and advances the counter, yet raises IndexError where the corrected send returns normally |
| Channel.SendWritesFrame | pushpy/apns.py:264-280 | the frame written by a connected send (the same frame in both variants) carries the counter as id, the expiry one hour after `now`, the decoded token's length and slot, and the payload |
| Channel.SendCarriesPayload | pushpy/apns.py:278-280 | a successful connected send writes one frame, and its payload slot holds the payload given |
| Channel.PayloadOfParsed | pushpy/apns.py:20 | on a well-formed frame, the bytes after the header are the payload field |
| Channel.RememberKeepsFrames | pushpy/apns.py:278-279 | recording a frame that parses, fits the limit and carries its id keeps that true of every record |
| Channel.SendPreservesValid | pushpy/apns.py:252-295 | every send (both variants leave the same state) keeps the invariant: the counter stays in range, the history stays bounded, leads up to the counter and holds frames carrying their ids, and the backlog stays within capacity |
| Channel.FiledAt | pushpy/apns.py:278-284 | the `k`-th record of a run of sends files the `k`-th frame under the `k`-th counter value with the `k`-th message's token |
| Channel.FramesSendable | pushpy/apns.py:184-187 | every queued message a drain wrote was sendable under the counter value it was sent with |
| Channel.FramesForAt | pushpy/apns.py:184-187 | the `k`-th frame of a drain reads back as the `k`-th counter value, the expiry one hour after `now`, the `k`-th queued message's decoded token (length and slot) and its payload |
| Channel.DrainedStep | pushpy/apns.py:184-187 | one more successful send of the next queued message extends the drained frames, the counter and the history by that message's frame |
| Channel.ProcessQueue | pushpy/apns.py:172-189 | as written: an empty queue changes nothing; otherwise the first entry is dequeued and the call ends in an exception, the entries behind it staying queued; one frame is written exactly when that entry is sendable, and then the error is IndexError, the frame carries the counter, the expiry, the entry's token and payload, the history records it, the counter advances, the frame becomes the current message and the idle timer restarts; otherwise nothing is written and the counter, history and idle timer stay; the invariant holds afterwards |
| Channel.ProcessQueueCorrected | pushpy/apns.py:172-189 | over the corrected send the drain writes one frame per queued entry in FIFO order; frame `k` carries the `k`-th counter value, the expiry, the entry's token and its payload; the counter advances once per frame, and the history gains a record per frame under those values (newest 1000 kept); it empties the queue, or stops at an entry that is not sendable under its counter value, which is already dequeued, and leaves the entries behind it queued; the idle timer restarts when at least one frame was written and stays otherwise; the invariant holds afterwards |
| Channel.Reconnect | pushpy/apns.py:79-103 | a new connection marks the channel connected, resets both clocks, writes exactly the pending resend frames, clears `message_error`, drops the stashed frame (never writing it again, since MESSAGE_RETRY_COUNT is 0) and resets the retry count when it had one |
| Channel.ConnectionMade | pushpy/apns.py:79-105 | as written: on a new connection the resent frames come first, then at most the first backlog entry's frame, written exactly when that entry is sendable and then carrying the counter, the entry's token and payload, recorded in the history and kept as the current message; the idle timer restarts at the connection; with a non-empty backlog the callback ends in an exception (IndexError exactly when the frame was written) and the rest of the backlog stays queued |
| Channel.ConnectionMadeCorrected | pushpy/apns.py:79-105 | over the corrected send: the resent frames first, then one frame per backlog entry in queue order, each carrying the next counter value, the entry's token and payload and recorded in the history; the idle timer restarts at the connection; the backlog is emptied unless an entry is not sendable, where the drain stops |
| Channel.TimedeltaSeconds | pushpy/apns.py:111 | `.seconds` lies in `[0, 86400)` and, for a duration under a day, is its whole number of seconds |
| Channel.ImmediateAgreesWithinADay | pushpy/apns.py:111 | for connections shorter than a day, the coded test and the intended test agree |
| Channel.ImmediateAsWrittenIgnoresDays | pushpy/apns.py:111 | a connection of one day and half a second passes the coded test but not the intended one |
| Channel.AlertStep | pushpy/apns.py:111-120 | the flag ends up equal to "this loss was immediate"; an Alert is logged exactly on an immediate loss while not alerted; Resolved exactly on a longer loss while alerted |
| Channel.Lose | pushpy/apns.py:107-123 | given the immediacy of a loss, it disconnects, counts one more retry, sets the flag to the immediacy with the matching Alert or Resolved notice, stashes the frame built last if there is one, and leaves the history, the counter, the backlog and the pending failure alone |
| Channel.ConnectionLost | pushpy/apns.py:107-123 | a loss disconnects, counts one more retry, sets the flag from the coded test `.seconds <= 1` with the matching Alert or Resolved notice, stashes the frame built last if there is one, and leaves the history, the counter, the backlog and the pending failure alone |
| Channel.ConnectionLostCorrected | pushpy/apns.py:111-123 | the same with the immediacy decided by the total duration being under two seconds (at most one whole second) |
| Channel.ConnectionLostAgreesWithinADay | pushpy/apns.py:111 | for a connection shorter than a day the coded and the corrected callbacks give the same state and notice |
| Channel.DayLongConnectionAlerts | pushpy/apns.py:111-114 | after a connection of a day and half a second the coded callback logs an Alert and raises the flag, the corrected one stays quiet |
| Channel.AlertsBalance | pushpy/apns.py:111-120 | over any run of losses, Alerts minus Resolved notices equals the change of the flag, so Alert and Resolved alternate |
| Channel.OneAlertPerOutage | pushpy/apns.py:111-117 | a run of immediate losses logs exactly one Alert, on its first loss, unless already alerted, and no Resolved |
| Channel.IdleCheck | pushpy/apns.py:61-77 | the check aborts exactly when nothing has been written for 1800 seconds, and then forgets the frame built last; nothing else changes |
| Channel.RecentWriteKeepsConnection | pushpy/apns.py:69 | within 1800 seconds of a send that wrote its frame the idle check never aborts |
| Channel.UnixSeconds | pushpy/apns.py:264 | `int(time.time())` is the whole number of seconds, truncated toward zero |
| Channel.ExpiryAt | pushpy/apns.py:264 | the expiry is one hour after the whole second `now` falls in |
| Channel.PendingResend | pushpy/apns.py:90-91 | a new connection resends nothing without a pending failure, nothing when the history is longer than `max - min`, and at most one frame per record |
| Channel.ImmediateAsWritten | pushpy/apns.py:111 | the coded test holds exactly when the duration, with whole days taken out, is under two seconds |
| Channel.IdleAbortStashesNothing | pushpy/apns.py:71-73 | when the idle check has aborted, the loss that follows stashes no frame |
| Channel.HandleError | pushpy/apns.py:412-427 | a report is produced exactly when an application callback exists; it carries the status, and a token exactly when some record has the failing id, that token being taken from the oldest record carrying the id |
| Channel.DataReceived | pushpy/apns.py:125-143 | anything but six bytes is a `struct.error`; id 0 changes nothing and reports nothing; any other id becomes the pending failure and is reported once with its status |
| Channel.DataReceivedPreservesValid | pushpy/apns.py:125-143 | bytes from the gateway keep the invariant |
| Channel.ReportNamesTheFailingDevice | pushpy/apns.py:412-427 | while ids are unique, the reported token is the token of the one notification sent under the failing id, and the `0` placeholder is reported exactly when no record carries the id |
| Channel.ErrorThenReconnectResendsLater | pushpy/apns.py:90-91 | an error response naming history entry `j`, then a lost connection, leaves a pending resend of exactly the frames sent after `j`, in order; the next connection writes those first |
| Base64.Digit | pushpy/apns_feedback.py:96 | every sextet has a digit of the alphabet, and that digit decodes to it |
| Base64.Encode | pushpy/apns_feedback.py:96 | the encoding is four characters per started group of three bytes |
| Base64.DecodeEncode | pushpy/apns_feedback.py:96 | decoding gives back the encoded bytes |
| Base64.EncodeInjective | pushpy/apns_feedback.py:96 | distinct tokens are reported as distinct strings |
| Feedback.ParseRecords | pushpy/apns_feedback.py:85-102 | every record read consumes at least six bytes, so a buffer yields at most a sixth of its length in records |
| Feedback.ParseOneRecord | pushpy/apns_feedback.py:89-98 | one well-formed record at the front is reported as (time, base64 token), and parsing continues with the bytes behind it |
| Feedback.ParseSerialized | pushpy/apns_feedback.py:85-98 | well-formed records followed by anything are reported in stream order, followed by what the rest yields |
| Feedback.ParseWellFormed | pushpy/apns_feedback.py:85-98 | a stream of well-formed records, each token shorter than 32768 bytes, yields exactly their (time, base64 token) entries in order |
| Feedback.ShortHeaderStops | pushpy/apns_feedback.py:89-102 | fewer than six bytes yield no record and no error |
| Feedback.ShortTokenStops | pushpy/apns_feedback.py:94-102 | a header whose token is cut short ends the list |
| Feedback.NegativeLengthStops | pushpy/apns_feedback.py:89-102 | a length field of 0x8000 or more reads as negative and ends the list, whatever follows |
| Feedback.KeepsRecordsBeforeDamage | pushpy/apns_feedback.py:85-102 | records before a damaged tail are all reported, and nothing after them |
| Feedback.EmptyTokenProgresses | pushpy/apns_feedback.py:90-98 | a zero-length token is reported as an empty string, and parsing moves on past its six-byte header |
| Feedback.Callbacks | pushpy/apns_feedback.py:29-48 | a feedback connection fires at most one callback per event, and at least one when its events end with the close |
| Feedback.OneCallbackPerConnection | pushpy/apns_feedback.py:41-48 | the callback fires exactly once per closed connection, never on data alone |
| Feedback.ChunkingIsInvisible | pushpy/apns_feedback.py:29-48 | however the bytes of a connection are split into chunks, its one callback gets the parse of all of them together |
| Feedback.EmptyConnectionReportsEmptyList | pushpy/apns_feedback.py:85-107 | a connection that delivers nothing still fires the callback once, with an empty list |

## Findings

| source | as written | input that shows it | evidently intended | confidence | as-written member | corrected member |
|---|---|---|---|---|---|---|
| pushpy/apns.py:292-293 | `("Message pushed to device with " "APNS token: {1}").format(device_token)` asks for argument 1 of a one-argument `format` | any connected send of a decodable token with a payload of at most 211 bytes: the frame is filed, written and counted, then IndexError is raised; with two such messages queued, `connectionMade` writes only the first and leaves the second queued | the log line names `{0}`, the send returns normally and `process_queue` drains the whole backlog | high, not executed | Channel.Send (with Channel.WrittenSendRaises, Channel.ProcessQueue and Channel.ConnectionMade) | Channel.SendCorrected (with Channel.ProcessQueueCorrected and Channel.ConnectionMadeCorrected) |
| pushpy/apns.py:111 | `(now - connect_time).seconds <= 1` looks only at the seconds component of the timedelta and drops whole days | a connection that lasted 86400.5 seconds has `.seconds == 0`, so it is treated as an immediate disconnect: an Alert is raised, or an outstanding alert is not resolved | the total time connected is at most one whole second | medium, not executed | Channel.ConnectionLost (with Channel.ImmediateAsWrittenIgnoresDays and Channel.DayLongConnectionAlerts) | Channel.ConnectionLostCorrected (with Channel.ImmediateAgreesWithinADay and Channel.ConnectionLostAgreesWithinADay) |

## Left out

- Twisted plumbing is not modelled: the reactor, `callLater` timers (`set_timeout_trigger`, TIMEOUT_CHECK_FREQUENCY, `shutdown`), `connectSSL`, host and port selection, and the `ReconnectingClientFactory` delays and backoff (`resetDelay`, `clientConnectionFailed`, `startedConnecting`, FEEDBACK_INTERVAL). The model takes the callbacks as events in the order Twisted delivers them.
- Channel.IdleCheck returns an `abort` flag in place of `transport.abortConnection()`. The loss that follows is a separate Channel.ConnectionLost event.
- What Twisted does with an exception that escapes a callback is not modelled: the `struct.error` in `dataReceived`, and an APNSException or IndexError out of `process_queue` inside `connectionMade` or out of `send_message` to the application. The model reports the exception (`Malformed`, `Sent.error`) and the state at the point it was raised.
- The two clocks of the source are one `now`: `datetime.now()` is naive local time and `time.time()` counts from the epoch, so a UTC offset between them and daylight-saving jumps in `connect_time` and `last_message_sent` are not represented.
- Logging is not modelled, except that the log line of a connected send raises IndexError (`Channel.Send`). The connectivity messages of `connectionLost` are kept as the `Notice` value.
- `base64.decodestring` is a configuration parameter, not a definition. pushpy/common.py (the SSL context) is not part of this model.
- `Queue.Queue` is modelled single-threaded. The `Queue.Full` and `Queue.Empty` branches of `enque_message` and `process_queue` cannot be reached there, and `qsize()` is exact.
- The `ValueError` branch of `dataReceived` is not modelled: `int` of an unpacked integer cannot raise.
- Before the first connection, the protocol has no `factory` attribute. An idle check that would abort at that point raises AttributeError, which the model does not represent: its state merges factory and protocol.
- Channel.ConnectionLost requires a live connection, as Twisted only reports a loss after `connectionMade`.
- Channel.ProcessQueueCorrected and Channel.ConnectionMadeCorrected do not state which frame is the current `message` after the drain: the last frame written on success, but the rejected oversize frame when the drain stops at TooLarge.
- Base64.Encode states the length of the encoding, not that every character is in the alphabet. The round trip Base64.DecodeEncode covers the content.
- pushpy/gcm.py, pushpy/blackberry.py and apns_demo.py (HTTP wrappers and a demo script) are not part of this model.
