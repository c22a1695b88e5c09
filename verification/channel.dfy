/** The push channel's state machine: `APNSClientFactory` and the one
    `APNSProtocol` instance it reuses for every connection, together with the
    error handler `APNSService.handle_error` (pushpy/apns.py).

    Every callback the event loop would invoke is a pure function from the
    current state to the next one, returning the frames written to the
    transport and the callbacks fired. Clock reads are the parameter `now`,
    in microseconds since the epoch; `base64.decodestring` is the
    configuration's `decodeToken`. */
module Channel {
  import opened Bytes
  import opened Codec
  import opened History
  import opened Backlog
  import opened Resend

  /** APNS_RECONNECT_FREQUENCY: seconds without a write before the idle check
      forces a reconnect. */
  const APNS_RECONNECT_FREQUENCY: int := 1800
  /** Seconds added to the send time to form the expiry field. */
  const EXPIRY_TTL: int := 3600
  /** MESSAGE_RETRY_COUNT: how often a stashed frame may be written again. */
  const MESSAGE_RETRY_COUNT: int := 0
  const MICROS_PER_SECOND: int := 1_000_000
  const SECONDS_PER_DAY: int := 86400

  datatype Config = Config(
    ids: IdRange,                           // MIN_MESSAGE_ID, MAX_MESSAGE_ID
    backlogCapacity: int,                   // backlog_queue_size
    decodeToken: string -> Option<Bytes>,   // base64.decodestring; None where it raises
    reportErrors: bool)                     // an error_callback was supplied to APNSService

  predicate ValidConfig(cfg: Config)
  {
    ValidRange(cfg.ids)
  }

  datatype State = State(
    connected: bool,            // factory._connected
    counter: int,               // factory.sequence_number
    history: seq<Entry>,        // factory.sent_messages
    backlog: seq<Pending>,      // factory.message_queue
    messageError: Option<int>,  // factory.message_error
    retryAttempts: int,         // factory.retry_attempts
    message: Option<Bytes>,     // factory.message, the frame built last
    stashed: Option<Bytes>,     // protocol.message, kept across a lost connection
    alerted: bool,              // protocol.alerted
    connectTime: Option<int>,   // protocol.connect_time
    lastSent: int)              // protocol.last_message_sent

  /** A fresh factory and protocol. */
  function Init(cfg: Config, now: int): (s: State)
    requires ValidConfig(cfg)
    ensures Valid(cfg, s)
    ensures !s.connected && s.history == [] && s.backlog == [] && s.counter == cfg.ids.min
    ensures s.messageError == None && s.retryAttempts == 0 && s.message == None
    ensures s.connectTime == None && !s.alerted && s.lastSent == now
  {
    State(false, cfg.ids.min, [], [], None, 0, None, None, false, None, now)
  }

  /** The history records frames the gateway accepted for transmission: each
      parses, is within the size limit, and carries the id it is filed under. */
  predicate FramesCarryIds(h: seq<Entry>)
  {
    forall i :: 0 <= i < |h| ==>
      && |h[i].frame| <= MAX_MESSAGE_SIZE_BYTES
      && Parse(h[i].frame).Some?
      && Parse(h[i].frame).value.id == h[i].id
  }

  /** What holds of every state the channel reaches from `Init`. */
  predicate Valid(cfg: Config, s: State)
  {
    && ValidConfig(cfg)
    && InRange(cfg.ids, s.counter)
    && |s.history| <= HISTORY_LIMIT
    && IdsLeadUpTo(cfg.ids, s.history, s.counter)
    && FramesCarryIds(s.history)
    && WithinCapacity(cfg.backlogCapacity, s.backlog)
    && s.retryAttempts >= 0
    && (s.connected ==> s.connectTime.Some?)
  }

  /** `int(time.time())`: whole seconds, truncated toward zero. */
  function UnixSeconds(now: int): (r: int)
    ensures now >= 0 ==> r * MICROS_PER_SECOND <= now < (r + 1) * MICROS_PER_SECOND
    ensures now < 0 ==> (r - 1) * MICROS_PER_SECOND < now <= r * MICROS_PER_SECOND
  {
    if now >= 0 then now / MICROS_PER_SECOND else -((-now) / MICROS_PER_SECOND)
  }

  /** The expiry written into a frame built at `now`: one hour after the
      whole second `now` falls in. */
  function ExpiryAt(now: int): (e: int)
    ensures now >= 0 ==> (e - EXPIRY_TTL) * MICROS_PER_SECOND <= now < (e - EXPIRY_TTL + 1) * MICROS_PER_SECOND
  {
    UnixSeconds(now) + EXPIRY_TTL
  }

  /** The exceptions `sendMessage` raises: the three APNSException cases,
      and the IndexError of the log line after a connected write. */
  datatype SendError =
    | TokenDecodeError   // base64 decoding of the token failed
    | PackError          // struct.pack refused a field
    | TooLarge           // frame longer than MAX_MESSAGE_SIZE_BYTES while connected
    | LogFormatError     // "...{1}".format(device_token) names a missing argument

  /** A queued message `p` can be written while the counter reads `c`: its
      token decodes, every field fits its `struct` code, and the frame is
      within the gateway's size limit. */
  predicate Sendable(cfg: Config, c: int, p: Pending, now: int)
  {
    && cfg.decodeToken(p.token).Some?
    && IsInt32(c) && IsUint32(ExpiryAt(now))
    && IsUint16(|cfg.decodeToken(p.token).value|) && IsUint16(|p.payload|)
    && HEADER_SIZE + |p.payload| <= MAX_MESSAGE_SIZE_BYTES
  }

  /** New state, frames written to the transport, and the exception raised. */
  datatype Sent = Sent(state: State, writes: seq<Bytes>, error: Option<SendError>)

  /** `APNSClientFactory.sendMessage` (pushpy/apns.py:252-295) with the log
      line's placeholder corrected, so that a connected write returns
      normally. */
  function SendCorrected(cfg: Config, s: State, token: string, payload: Bytes, now: int): (r: Sent)
    requires ValidConfig(cfg)
    ensures cfg.decodeToken(token).None? ==> r == Sent(s, [], Some(TokenDecodeError))
    ensures r.error != Some(LogFormatError)
    ensures s.connected ==> (r.error.None? <==> Sendable(cfg, s.counter, Pending(token, payload), now))
    ensures r.error.Some? ==> r.writes == [] && r.state.history == s.history
                              && r.state.counter == s.counter && r.state.backlog == s.backlog
    ensures r.error.None? <==>
              && cfg.decodeToken(token).Some?
              && IsInt32(s.counter) && IsUint32(ExpiryAt(now))
              && IsUint16(|cfg.decodeToken(token).value|) && IsUint16(|payload|)
              && (s.connected ==> HEADER_SIZE + |payload| <= MAX_MESSAGE_SIZE_BYTES)
    ensures r.error == Some(TooLarge) ==> s.connected && HEADER_SIZE + |payload| > MAX_MESSAGE_SIZE_BYTES
    ensures r.state.connected == s.connected && r.state.retryAttempts == s.retryAttempts
    ensures r.state.stashed == s.stashed && r.state.messageError == s.messageError
    ensures r.state.connectTime == s.connectTime && r.state.alerted == s.alerted
    ensures r.error == Some(TokenDecodeError) || r.error == Some(PackError) ==> r.state == s
    ensures r.error == Some(TooLarge) ==> r.state == s.(message := r.state.message)
                                          && r.state.message.Some? && |r.state.message.value| > MAX_MESSAGE_SIZE_BYTES
    ensures r.state.lastSent == if r.error.None? && s.connected then now else s.lastSent
    ensures r.error.None? && !s.connected ==>
              && r.state.message.Some? && |r.state.message.value| == HEADER_SIZE + |payload|
              && r.writes == []
              && r.state.backlog == Enqueue(cfg.backlogCapacity, s.backlog, Pending(token, payload))
              && r.state.history == s.history && r.state.counter == s.counter
    ensures r.error.None? && s.connected ==>
              && |r.writes| == 1
              && |r.writes[0]| <= MAX_MESSAGE_SIZE_BYTES
              && r.state.message == Some(r.writes[0])
              && r.state.history == Remember(s.history, Entry(s.counter, token, r.writes[0]))
              && r.state.counter == Next(cfg.ids, s.counter)
              && r.state.backlog == s.backlog
  {
    match cfg.decodeToken(token)
    case None => Sent(s, [], Some(TokenDecodeError))
    case Some(raw) =>
      match Pack(s.counter, ExpiryAt(now), raw, payload)
      case None => Sent(s, [], Some(PackError))
      case Some(frame) =>
        var built := s.(message := Some(frame));
        if s.connected then
          if |frame| <= MAX_MESSAGE_SIZE_BYTES then
            Sent(built.(history := Remember(s.history, Entry(s.counter, token, frame)),
                        counter := Next(cfg.ids, s.counter),
                        lastSent := now),
                 [frame], None)
          else Sent(built, [], Some(TooLarge))
        else
          Sent(built.(backlog := Enqueue(cfg.backlogCapacity, s.backlog, Pending(token, payload))), [], None)
  }

  /** `APNSClientFactory.sendMessage` as written (pushpy/apns.py:252-295). A
      connected send that passes the size gate has filed its frame, written
      it and advanced the counter when the log line's format string asks for
      the argument `{1}` of a one-argument `format`: it raises IndexError.
      So a connected send never returns normally. */
  function Send(cfg: Config, s: State, token: string, payload: Bytes, now: int): (r: Sent)
    requires ValidConfig(cfg)
    ensures r.state == SendCorrected(cfg, s, token, payload, now).state
    ensures r.writes == SendCorrected(cfg, s, token, payload, now).writes
    ensures s.connected ==> r.error.Some?
    ensures r.error == Some(LogFormatError) <==> s.connected && Sendable(cfg, s.counter, Pending(token, payload), now)
    ensures r.error == Some(LogFormatError) <==> s.connected && |r.writes| == 1
    ensures r.error != Some(LogFormatError) ==> r.error == SendCorrected(cfg, s, token, payload, now).error
  {
    var sent := SendCorrected(cfg, s, token, payload, now);
    if s.connected && sent.error.None? then sent.(error := Some(LogFormatError)) else sent
  }

  /** The discrepancy in one call: a connected send of a sendable message
      writes and files its frame exactly as the corrected send does, yet
      reports IndexError where the corrected send returns normally. */
  lemma WrittenSendRaises(cfg: Config, s: State, token: string, payload: Bytes, now: int)
    requires ValidConfig(cfg) && s.connected && Sendable(cfg, s.counter, Pending(token, payload), now)
    ensures SendCorrected(cfg, s, token, payload, now).error.None?
    ensures Send(cfg, s, token, payload, now).error == Some(LogFormatError)
    ensures |Send(cfg, s, token, payload, now).writes| == 1
    ensures Send(cfg, s, token, payload, now).state.counter == Next(cfg.ids, s.counter)
  {
  }

  /** The frame a successful connected send writes parses back into the
      counter as id, the expiry one hour after `now`, the decoded token's
      length and padded slot, and the payload. */
  lemma SendWritesFrame(cfg: Config, s: State, token: string, payload: Bytes, now: int)
    requires ValidConfig(cfg) && s.connected
    requires SendCorrected(cfg, s, token, payload, now).error.None?
    ensures var raw := cfg.decodeToken(token).value;
            && Pack(s.counter, ExpiryAt(now), raw, payload) == Some(SendCorrected(cfg, s, token, payload, now).writes[0])
            && Parse(SendCorrected(cfg, s, token, payload, now).writes[0])
                 == Some(Notification(s.counter, ExpiryAt(now), |raw|, TokenField(raw), payload))
  {
    PackParses(s.counter, ExpiryAt(now), cfg.decodeToken(token).value, payload);
  }

  /** The payload slot of a frame: everything after the fixed header. */
  function PayloadOf(frame: Bytes): Option<Bytes>
  {
    if |frame| >= HEADER_SIZE then Some(frame[HEADER_SIZE..]) else None
  }

  /** On a well-formed frame the payload slot is the payload field. */
  lemma PayloadOfParsed(frame: Bytes)
    requires Parse(frame).Some?
    ensures PayloadOf(frame) == Some(Parse(frame).value.payload)
  {
  }

  /** A successful connected send writes exactly one frame, carrying the
      payload it was given. */
  lemma SendCarriesPayload(cfg: Config, s: State, token: string, payload: Bytes, now: int)
    requires ValidConfig(cfg) && s.connected
    requires SendCorrected(cfg, s, token, payload, now).error.None?
    ensures |SendCorrected(cfg, s, token, payload, now).writes| == 1
    ensures PayloadOf(SendCorrected(cfg, s, token, payload, now).writes[0]) == Some(payload)
  {
    SendWritesFrame(cfg, s, token, payload, now);
    PayloadOfParsed(SendCorrected(cfg, s, token, payload, now).writes[0]);
  }

  lemma RememberKeepsFrames(h: seq<Entry>, e: Entry)
    requires FramesCarryIds(h)
    requires |e.frame| <= MAX_MESSAGE_SIZE_BYTES && Parse(e.frame).Some? && Parse(e.frame).value.id == e.id
    ensures FramesCarryIds(Remember(h, e))
  {
    var h' := Remember(h, e);
    var d := |h| + 1 - |h'|;
    forall i | 0 <= i < |h'|
      ensures |h'[i].frame| <= MAX_MESSAGE_SIZE_BYTES && Parse(h'[i].frame).Some? && Parse(h'[i].frame).value.id == h'[i].id
    {
      assert h'[i] == (h + [e])[i + d];
    }
  }

  /** Every send keeps the channel's invariant: the counter stays in range,
      the history stays bounded and keeps leading up to the counter, and the
      backlog stays within its capacity. */
  lemma SendPreservesValid(cfg: Config, s: State, token: string, payload: Bytes, now: int)
    requires Valid(cfg, s)
    ensures Valid(cfg, SendCorrected(cfg, s, token, payload, now).state)
  {
    var r := SendCorrected(cfg, s, token, payload, now);
    if r.error.None? && s.connected {
      SendWritesFrame(cfg, s, token, payload, now);
      RememberLeadsUpTo(cfg.ids, s.history, s.counter, Entry(s.counter, token, r.writes[0]));
      RememberKeepsFrames(s.history, Entry(s.counter, token, r.writes[0]));
    }
  }

  /** The frame a successful connected send of `p` writes while the counter
      reads `c`: `p` is sendable under `c`, and the frame reads back as `c`
      for the id, the expiry one hour after
      `now`, the decoded token (its length and its 32-byte slot) and the
      payload. By `Codec.AssembleParse` a frame that parses is the assembly of
      its fields, so this fixes every byte of the frame. */
  predicate WritesFrame(cfg: Config, c: int, p: Pending, now: int, w: Bytes)
  {
    && Sendable(cfg, c, p, now)
    && var raw := cfg.decodeToken(p.token).value;
       Parse(w) == Some(Notification(c, ExpiryAt(now), |raw|, TokenField(raw), p.payload))
  }

  /** The history records of frames `ws` written for the queued messages
      `ps`, one per frame, filed under successive counter values from `c`
      (`FiledAt` states it record by record). */
  function Filed(cfg: Config, c: int, ps: seq<Pending>, ws: seq<Bytes>): (es: seq<Entry>)
    requires ValidConfig(cfg) && |ws| <= |ps|
    ensures |es| == |ws|
    decreases |ws|
  {
    if ws == [] then []
    else
      var n := |ws| - 1;
      Filed(cfg, c, ps, ws[..n]) + [Entry(Advance(cfg.ids, c, n), ps[n].token, ws[n])]
  }

  lemma {:induction false} FiledAt(cfg: Config, c: int, ps: seq<Pending>, ws: seq<Bytes>)
    requires ValidConfig(cfg) && |ws| <= |ps|
    ensures forall k :: 0 <= k < |ws| ==> Filed(cfg, c, ps, ws)[k] == Entry(Advance(cfg.ids, c, k), ps[k].token, ws[k])
    decreases |ws|
  {
    if ws != [] {
      var n := |ws| - 1;
      FiledAt(cfg, c, ps, ws[..n]);
      assert forall k :: 0 <= k < n ==> ws[..n][k] == ws[k];
    }
  }

  /** Every frame of `writes` is the one its queued message produces: frame
      `k` comes from the `k`-th message of `ps` under the `k`-th counter
      value from `c` (`FramesForAt` states it index by index). */
  predicate FramesFor(cfg: Config, c: int, ps: seq<Pending>, now: int, writes: seq<Bytes>)
    requires ValidConfig(cfg)
    decreases |writes|
  {
    && |writes| <= |ps|
    && (writes != [] ==>
          var n := |writes| - 1;
          && FramesFor(cfg, c, ps, now, writes[..n])
          && WritesFrame(cfg, Advance(cfg.ids, c, n), ps[n], now, writes[n]))
  }

  lemma {:induction false} FramesForAt(cfg: Config, c: int, ps: seq<Pending>, now: int, writes: seq<Bytes>)
    requires ValidConfig(cfg) && FramesFor(cfg, c, ps, now, writes)
    ensures |writes| <= |ps|
    ensures forall k :: 0 <= k < |writes| ==> WritesFrame(cfg, Advance(cfg.ids, c, k), ps[k], now, writes[k])
    decreases |writes|
  {
    if writes != [] {
      var n := |writes| - 1;
      FramesForAt(cfg, c, ps, now, writes[..n]);
      assert forall k :: 0 <= k < n ==> writes[..n][k] == writes[k];
    }
  }

  /** Every message a drain wrote was sendable under its counter value. */
  lemma FramesSendable(cfg: Config, c: int, ps: seq<Pending>, now: int, writes: seq<Bytes>)
    requires ValidConfig(cfg) && FramesFor(cfg, c, ps, now, writes)
    ensures |writes| <= |ps|
    ensures forall k :: 0 <= k < |writes| ==> Sendable(cfg, Advance(cfg.ids, c, k), ps[k], now)
  {
    FramesForAt(cfg, c, ps, now, writes);
  }

  lemma FramesForStep(cfg: Config, c: int, ps: seq<Pending>, now: int, writes: seq<Bytes>, w: Bytes)
    requires ValidConfig(cfg) && FramesFor(cfg, c, ps, now, writes) && |writes| < |ps|
    requires WritesFrame(cfg, Advance(cfg.ids, c, |writes|), ps[|writes|], now, w)
    ensures FramesFor(cfg, c, ps, now, writes + [w])
  {
    assert (writes + [w])[..|writes|] == writes;
  }

  /** The history after `|writes|` sends of the queued messages `ps`: the
      filed records remembered in order. */
  predicate HistoryFor(cfg: Config, h: seq<Entry>, c: int, ps: seq<Pending>, writes: seq<Bytes>, h': seq<Entry>)
    requires ValidConfig(cfg)
  {
    |writes| <= |ps| && h' == RememberAll(h, Filed(cfg, c, ps, writes))
  }

  lemma HistoryForStep(cfg: Config, h: seq<Entry>, c: int, ps: seq<Pending>, writes: seq<Bytes>, h': seq<Entry>, w: Bytes)
    requires ValidConfig(cfg) && HistoryFor(cfg, h, c, ps, writes, h') && |writes| < |ps|
    ensures HistoryFor(cfg, h, c, ps, writes + [w],
                       Remember(h', Entry(Advance(cfg.ids, c, |writes|), ps[|writes|].token, w)))
  {
    var fs := Filed(cfg, c, ps, writes);
    var e := Entry(Advance(cfg.ids, c, |writes|), ps[|writes|].token, w);
    assert (writes + [w])[..|writes|] == writes;
    assert Filed(cfg, c, ps, writes + [w]) == fs + [e];
    assert (fs + [e])[..|fs|] == fs;
    assert RememberAll(h, fs + [e]) == Remember(RememberAll(h, fs), e);
  }

  /** What a drain from `s` has done after writing `writes` and reaching
      `st`: for every frame so far its payload, its full content, its
      counter value and its history record. */
  predicate Drained(cfg: Config, s: State, now: int, st: State, writes: seq<Bytes>)
    requires ValidConfig(cfg)
  {
    && |writes| <= |s.backlog|
    && (forall k :: 0 <= k < |writes| ==> PayloadOf(writes[k]) == Some(s.backlog[k].payload))
    && FramesFor(cfg, s.counter, s.backlog, now, writes)
    && st.counter == Advance(cfg.ids, s.counter, |writes|)
    && HistoryFor(cfg, s.history, s.counter, s.backlog, writes, st.history)
  }

  /** What a drain from `s` keeps true: the channel invariant, the fields a
      send does not touch, and `Drained`. */
  predicate Progress(cfg: Config, s: State, now: int, st: State, writes: seq<Bytes>)
    requires ValidConfig(cfg)
  {
    Settled(cfg, s, st) && Drained(cfg, s, now, st, writes) && Timed(s, now, st, writes)
  }

  /** The idle timer restarts with each frame written. */
  predicate Timed(s: State, now: int, st: State, writes: seq<Bytes>)
  {
    st.lastSent == if writes == [] then s.lastSent else now
  }

  /** The channel invariant and the fields a send does not touch. */
  predicate Settled(cfg: Config, s: State, st: State)
  {
    && Valid(cfg, st) && st.connected
    && st.messageError == s.messageError && st.stashed == s.stashed
    && st.retryAttempts == s.retryAttempts && st.connectTime == s.connectTime
    && st.alerted == s.alerted
  }

  /** Before the first send nothing is drained. */
  lemma DrainStarts(cfg: Config, s: State, now: int)
    requires Valid(cfg, s) && s.connected
    ensures Progress(cfg, s, now, s, [])
  {
    assert Filed(cfg, s.counter, s.backlog, []) == [];
  }

  /** A successful send of the next queued message extends `Drained` by
      its frame. */
  lemma DrainedStep(cfg: Config, s: State, now: int, st: State, writes: seq<Bytes>, st': State, w: Bytes)
    requires ValidConfig(cfg) && Drained(cfg, s, now, st, writes) && |writes| < |s.backlog|
    requires PayloadOf(w) == Some(s.backlog[|writes|].payload)
    requires WritesFrame(cfg, st.counter, s.backlog[|writes|], now, w)
    requires st'.counter == Next(cfg.ids, st.counter)
    requires st'.history == Remember(st.history, Entry(st.counter, s.backlog[|writes|].token, w))
    ensures Drained(cfg, s, now, st', writes + [w])
  {
    FramesForStep(cfg, s.counter, s.backlog, now, writes, w);
    HistoryForStep(cfg, s.history, s.counter, s.backlog, writes, st.history, w);
    forall k | 0 <= k < |writes| + 1
      ensures PayloadOf((writes + [w])[k]) == Some(s.backlog[k].payload)
    {
      if k < |writes| {
        assert (writes + [w])[k] == writes[k];
      }
    }
  }

  /** Sending the next queued message keeps `Progress`: a success adds its
      frame, a failure adds nothing; either way the message is off the
      queue. */
  lemma ProgressStep(cfg: Config, s: State, now: int, st: State, writes: seq<Bytes>)
    requires ValidConfig(cfg) && Progress(cfg, s, now, st, writes)
    requires |writes| < |s.backlog| && st.backlog == s.backlog[|writes|..]
    ensures var p := s.backlog[|writes|];
            var sent := SendCorrected(cfg, st.(backlog := st.backlog[1..]), p.token, p.payload, now);
            && sent.state.backlog == s.backlog[|writes| + 1..]
            && (sent.error.None? <==> Sendable(cfg, st.counter, p, now))
            && (sent.error.None? ==> |sent.writes| == 1 && Progress(cfg, s, now, sent.state, writes + sent.writes))
            && (sent.error.Some? ==> sent.writes == [] && Progress(cfg, s, now, sent.state, writes))
  {
    var p := s.backlog[|writes|];
    var s0 := st.(backlog := st.backlog[1..]);
    var sent := SendCorrected(cfg, s0, p.token, p.payload, now);
    SendPreservesValid(cfg, s0, p.token, p.payload, now);
    if sent.error.None? {
      SendCarriesPayload(cfg, s0, p.token, p.payload, now);
      SendWritesFrame(cfg, s0, p.token, p.payload, now);
      DrainedStep(cfg, s, now, st, writes, sent.state, sent.writes[0]);
      assert sent.writes == [sent.writes[0]];
    }
  }

  method SendNext(cfg: Config, s: State, now: int, st: State, writes: seq<Bytes>) returns (sent: Sent)
    requires ValidConfig(cfg) && Progress(cfg, s, now, st, writes)
    requires |writes| < |s.backlog| && st.backlog == s.backlog[|writes|..]
    ensures sent.state.backlog == s.backlog[|writes| + 1..]
    ensures sent.error.None? <==> Sendable(cfg, st.counter, s.backlog[|writes|], now)
    ensures sent.error.None? ==> |sent.writes| == 1 && Progress(cfg, s, now, sent.state, writes + sent.writes)
    ensures sent.error.Some? ==> sent.writes == [] && Progress(cfg, s, now, sent.state, writes)
  {
    var p := st.backlog[0];
    sent := SendCorrected(cfg, st.(backlog := st.backlog[1..]), p.token, p.payload, now);
    ProgressStep(cfg, s, now, st, writes);
  }

  /** The loop of `process_queue` over the corrected send: it sends the
      queued entries in turn and stops at the first one that fails, which
      is already off the queue. */
  method Drain(cfg: Config, s: State, now: int) returns (r: Sent)
    requires Valid(cfg, s) && s.connected
    ensures Progress(cfg, s, now, r.state, r.writes)
    ensures r.error.None? ==> r.state.backlog == [] && |r.writes| == |s.backlog|
    ensures r.error.Some? ==> |r.writes| < |s.backlog| && r.state.backlog == s.backlog[|r.writes| + 1..]
    ensures r.error.Some? ==> !Sendable(cfg, r.state.counter, s.backlog[|r.writes|], now)
  {
    var st := s;
    var writes: seq<Bytes> := [];
    DrainStarts(cfg, s, now);
    while |writes| < |s.backlog|
      invariant Progress(cfg, s, now, st, writes)
      invariant st.backlog == s.backlog[|writes|..]
      decreases |s.backlog| - |writes|
    {
      var sent := SendNext(cfg, s, now, st, writes);
      if sent.error.Some? {
        return Sent(sent.state, writes, sent.error);
      }
      writes := writes + sent.writes;
      st := sent.state;
    }
    return Sent(st, writes, None);
  }

  /** `process_queue` (pushpy/apns.py:172-189) over the corrected send: one
      pass over the entries queued when it starts, sending each in turn. An
      APNSException from a send is not caught there, so the pass stops at
      the first entry that is not sendable, which has already been taken off
      the queue; the entries behind it stay queued. Each frame written is the
      one its queued message produces under the next counter value, and is
      recorded in the history under that value; the idle timer restarts with
      the first frame. */
  method ProcessQueueCorrected(cfg: Config, s: State, now: int) returns (r: Sent)
    requires Valid(cfg, s) && s.connected
    ensures Valid(cfg, r.state) && r.state.connected
    ensures r.state.messageError == s.messageError && r.state.stashed == s.stashed
    ensures r.state.retryAttempts == s.retryAttempts && r.state.connectTime == s.connectTime
    ensures r.state.alerted == s.alerted
    ensures |r.writes| <= |s.backlog|
    ensures r.error.None? ==> r.state.backlog == [] && |r.writes| == |s.backlog|
    ensures r.error.Some? ==> |r.writes| < |s.backlog| && r.state.backlog == s.backlog[|r.writes| + 1..]
    ensures forall i :: 0 <= i < |r.writes| ==> PayloadOf(r.writes[i]) == Some(s.backlog[i].payload)
    ensures FramesFor(cfg, s.counter, s.backlog, now, r.writes)
    ensures r.state.counter == Advance(cfg.ids, s.counter, |r.writes|)
    ensures HistoryFor(cfg, s.history, s.counter, s.backlog, r.writes, r.state.history)
    ensures r.state.lastSent == if r.writes == [] then s.lastSent else now
    ensures r.error.Some? ==> !Sendable(cfg, Advance(cfg.ids, s.counter, |r.writes|), s.backlog[|r.writes|], now)
  {
    r := Drain(cfg, s, now);
  }

  /** `process_queue` as written (pushpy/apns.py:172-189), which catches
      nothing but `Queue.Empty`. The first queued entry is taken off the
      queue and sent; the send either fails with APNSException or writes its
      frame and then raises IndexError (`Send`), and either exception ends
      the pass. So one call writes at most one queued message, and the
      entries behind the first stay queued. */
  method ProcessQueue(cfg: Config, s: State, now: int) returns (r: Sent)
    requires Valid(cfg, s) && s.connected
    ensures Valid(cfg, r.state) && r.state.connected
    ensures r.state.messageError == s.messageError && r.state.stashed == s.stashed
    ensures r.state.retryAttempts == s.retryAttempts && r.state.connectTime == s.connectTime
    ensures r.state.alerted == s.alerted
    ensures s.backlog == [] ==> r == Sent(s, [], None)
    ensures s.backlog != [] ==> r.error.Some? && r.state.backlog == s.backlog[1..]
    ensures |r.writes| <= 1
    ensures |r.writes| == 1 <==> s.backlog != [] && Sendable(cfg, s.counter, s.backlog[0], now)
    ensures r.error == Some(LogFormatError) <==> |r.writes| == 1
    ensures |r.writes| == 1 ==>
              && WritesFrame(cfg, s.counter, s.backlog[0], now, r.writes[0])
              && r.state.counter == Next(cfg.ids, s.counter)
              && r.state.history == Remember(s.history, Entry(s.counter, s.backlog[0].token, r.writes[0]))
    ensures r.writes == [] ==> r.state.counter == s.counter && r.state.history == s.history
    ensures r.state.lastSent == if r.writes == [] then s.lastSent else now
    ensures |r.writes| == 1 ==> r.state.message == Some(r.writes[0])
  {
    if s.backlog == [] {
      return Sent(s, [], None);
    }
    var p := s.backlog[0];
    var rest := s.(backlog := s.backlog[1..]);
    r := Send(cfg, rest, p.token, p.payload, now);
    SendPreservesValid(cfg, rest, p.token, p.payload, now);
    if |r.writes| == 1 {
      SendWritesFrame(cfg, rest, p.token, p.payload, now);
    }
  }

  /** The frames `connectionMade` resends for the pending failure, if any:
      none without one, none when the history is longer than `max - min`,
      and at most one per history record. */
  function PendingResend(cfg: Config, s: State): (fs: seq<Bytes>)
    ensures s.messageError.None? ==> fs == []
    ensures |s.history| > cfg.ids.max - cfg.ids.min ==> fs == []
    ensures |fs| <= |s.history|
  {
    match s.messageError
    case Some(f) => ResendFrames(cfg.ids, s.history, s.counter, f)
    case None => []
  }

  /** `buildProtocol` and `APNSProtocol.connectionMade` up to the backlog
      (pushpy/apns.py:79-103, 193-211): mark connected, reset both clocks,
      resend after a reported failure, and drop the stashed frame. With
      MESSAGE_RETRY_COUNT at zero the stashed frame is never written again;
      dropping it resets the retry count. */
  method Reconnect(cfg: Config, s: State, now: int) returns (r: Sent)
    requires Valid(cfg, s)
    ensures Valid(cfg, r.state) && r.state.connected && r.error.None?
    ensures r.state.messageError.None? && r.state.stashed.None?
    ensures r.state.connectTime == Some(now) && r.state.lastSent == now && r.state.alerted == s.alerted
    ensures r.state.retryAttempts == if s.stashed.Some? then 0 else s.retryAttempts
    ensures r.writes == PendingResend(cfg, s)
    ensures r.state.history == s.history && r.state.counter == s.counter && r.state.backlog == s.backlog
  {
    var s1 := s.(connected := true, connectTime := Some(now), lastSent := now);
    var resent := PendingResend(cfg, s1);
    var s2 := s1.(messageError := None);
    match s2.stashed
    case None =>
      r := Sent(s2, resent, None);
    case Some(m) =>
      if s2.retryAttempts < MESSAGE_RETRY_COUNT {
        r := Sent(s2.(stashed := None), resent + [m], None);
      } else {
        r := Sent(s2.(stashed := None, retryAttempts := 0), resent, None);
      }
  }

  /** The two parts of a concatenation. */
  lemma Parts<T>(P: seq<T>, D: seq<T>, w: seq<T>)
    requires w == P + D
    ensures w[..|P|] == P && w[|P|..] == D && |w| - |P| == |D|
  {
  }

  /** Frames written after the resent ones `P`, by a drain from a state
      that agrees with `s` on the backlog, carry the backlog's payloads in
      order. */
  lemma ShiftPayloads(s: State, P: seq<Bytes>, D: seq<Bytes>, w: seq<Bytes>)
    requires |D| <= |s.backlog| && w == P + D
    requires forall i :: 0 <= i < |D| ==> PayloadOf(D[i]) == Some(s.backlog[i].payload)
    ensures forall i :: |P| <= i < |w| ==> PayloadOf(w[i]) == Some(s.backlog[i - |P|].payload)
  {
    forall i | |P| <= i < |w|
      ensures PayloadOf(w[i]) == Some(s.backlog[i - |P|].payload)
    {
      assert w[i] == D[i - |P|];
    }
  }

  /** The whole of `connectionMade` on a fresh connection over the corrected
      send: the resent frames first, then the backlog's messages in the
      order they were queued, up to the first that is not sendable. */
  method ConnectionMadeCorrected(cfg: Config, s: State, now: int) returns (r: Sent)
    requires Valid(cfg, s)
    ensures Valid(cfg, r.state) && r.state.connected
    ensures r.state.lastSent == now
    ensures r.state.messageError.None? && r.state.stashed.None?
    ensures r.state.connectTime == Some(now) && r.state.alerted == s.alerted
    ensures r.state.retryAttempts == if s.stashed.Some? then 0 else s.retryAttempts
    ensures |PendingResend(cfg, s)| <= |r.writes| <= |PendingResend(cfg, s)| + |s.backlog|
    ensures r.writes[..|PendingResend(cfg, s)|] == PendingResend(cfg, s)
    ensures forall i :: |PendingResend(cfg, s)| <= i < |r.writes| ==>
              PayloadOf(r.writes[i]) == Some(s.backlog[i - |PendingResend(cfg, s)|].payload)
    ensures FramesFor(cfg, s.counter, s.backlog, now, r.writes[|PendingResend(cfg, s)|..])
    ensures r.state.counter == Advance(cfg.ids, s.counter, |r.writes| - |PendingResend(cfg, s)|)
    ensures HistoryFor(cfg, s.history, s.counter, s.backlog, r.writes[|PendingResend(cfg, s)|..], r.state.history)
    ensures r.error.None? ==> r.state.backlog == [] && |r.writes| == |PendingResend(cfg, s)| + |s.backlog|
    ensures r.error.Some? ==> |r.writes| < |PendingResend(cfg, s)| + |s.backlog|
                              && r.state.backlog == s.backlog[|r.writes| - |PendingResend(cfg, s)| + 1..]
                              && !Sendable(cfg, r.state.counter, s.backlog[|r.writes| - |PendingResend(cfg, s)|], now)
  {
    var first := Reconnect(cfg, s, now);
    var drained := ProcessQueueCorrected(cfg, first.state, now);
    r := Sent(drained.state, first.writes + drained.writes, drained.error);
    Parts(first.writes, drained.writes, r.writes);
    ShiftPayloads(s, first.writes, drained.writes, r.writes);
  }

  /** The whole of `connectionMade` as written (pushpy/apns.py:79-105): the
      resent frames first, then at most the first queued message, whose send
      ends the callback with an exception whether it is written or not. */
  method ConnectionMade(cfg: Config, s: State, now: int) returns (r: Sent)
    requires Valid(cfg, s)
    ensures Valid(cfg, r.state) && r.state.connected
    ensures r.state.lastSent == now
    ensures |r.writes| > |PendingResend(cfg, s)| ==> r.state.message == Some(r.writes[|PendingResend(cfg, s)|])
    ensures r.state.messageError.None? && r.state.stashed.None?
    ensures r.state.connectTime == Some(now) && r.state.alerted == s.alerted
    ensures r.state.retryAttempts == if s.stashed.Some? then 0 else s.retryAttempts
    ensures |PendingResend(cfg, s)| <= |r.writes| <= |PendingResend(cfg, s)| + 1
    ensures r.writes[..|PendingResend(cfg, s)|] == PendingResend(cfg, s)
    ensures s.backlog == [] ==> r.error.None? && r.state.backlog == []
    ensures s.backlog != [] ==> r.error.Some? && r.state.backlog == s.backlog[1..]
    ensures |r.writes| > |PendingResend(cfg, s)| <==> s.backlog != [] && Sendable(cfg, s.counter, s.backlog[0], now)
    ensures r.error == Some(LogFormatError) <==> |r.writes| > |PendingResend(cfg, s)|
    ensures |r.writes| > |PendingResend(cfg, s)| ==>
              && WritesFrame(cfg, s.counter, s.backlog[0], now, r.writes[|PendingResend(cfg, s)|])
              && r.state.counter == Next(cfg.ids, s.counter)
              && r.state.history == Remember(s.history, Entry(s.counter, s.backlog[0].token, r.writes[|PendingResend(cfg, s)|]))
    ensures |r.writes| == |PendingResend(cfg, s)| ==> r.state.counter == s.counter && r.state.history == s.history
  {
    var first := Reconnect(cfg, s, now);
    var drained := ProcessQueue(cfg, first.state, now);
    r := Sent(drained.state, first.writes + drained.writes, drained.error);
    Parts(first.writes, drained.writes, r.writes);
    if drained.writes != [] {
      assert r.writes[|first.writes|] == drained.writes[0];
    }
  }

  /** `timedelta.seconds`: the seconds component of a duration, which Python
      normalises to `[0, 86400)` after taking whole days out (floor division
      for a negative duration). */
  function TimedeltaSeconds(micros: int): (r: int)
    ensures 0 <= r < SECONDS_PER_DAY
    ensures 0 <= micros < SECONDS_PER_DAY * MICROS_PER_SECOND ==> r * MICROS_PER_SECOND <= micros < (r + 1) * MICROS_PER_SECOND
  {
    (micros / MICROS_PER_SECOND) % SECONDS_PER_DAY
  }

  /** The immediate-disconnect test as `connectionLost` writes it:
      `(now - connect_time).seconds <= 1`. It holds exactly when the
      duration, with whole days taken out, is under two seconds. */
  predicate ImmediateAsWritten(connectTime: int, now: int)
    ensures ImmediateAsWritten(connectTime, now) <==>
              (now - connectTime) % (SECONDS_PER_DAY * MICROS_PER_SECOND) < 2 * MICROS_PER_SECOND
  {
    DayRemainder(now - connectTime);
    TimedeltaSeconds(now - connectTime) <= 1
  }

  /** The microseconds past the last whole day are the `.seconds` component
      in whole seconds plus the microseconds past the last whole second. */
  lemma DayRemainder(m: int)
    ensures TimedeltaSeconds(m) * MICROS_PER_SECOND + m % MICROS_PER_SECOND
            == m % (SECONDS_PER_DAY * MICROS_PER_SECOND)
  {
    var q := m / MICROS_PER_SECOND;
    var a := m % MICROS_PER_SECOND;
    var t := q / SECONDS_PER_DAY;
    var sec := q % SECONDS_PER_DAY;
    assert m == t * (SECONDS_PER_DAY * MICROS_PER_SECOND) + (sec * MICROS_PER_SECOND + a);
    assert 0 <= sec * MICROS_PER_SECOND + a < SECONDS_PER_DAY * MICROS_PER_SECOND;
  }

  /** The test as intended: the connection lasted less than two seconds
      (at most one whole second). */
  predicate Immediate(connectTime: int, now: int)
  {
    0 <= now - connectTime < 2 * MICROS_PER_SECOND
  }

  /** For any connection shorter than a day the two tests agree. */
  lemma ImmediateAgreesWithinADay(connectTime: int, now: int)
    requires 0 <= now - connectTime < SECONDS_PER_DAY * MICROS_PER_SECOND
    ensures ImmediateAsWritten(connectTime, now) <==> Immediate(connectTime, now)
  {
  }

  /** A connection that lasted a day and half a second passes the written
      test: `.seconds` ignores the day. */
  lemma ImmediateAsWrittenIgnoresDays()
    ensures var now := SECONDS_PER_DAY * MICROS_PER_SECOND + 500_000;
            ImmediateAsWritten(0, now) && !Immediate(0, now)
  {
  }

  /** What `connectionLost` logs about connectivity. */
  datatype Notice =
    | Alert            // "Detected immediate disconnect. Alert"
    | AlreadyAlerted   // "Immediate disconnect detected. Already alerted"
    | Resolved         // "APNS Connectivity issue resolved"
    | Quiet            // nothing beyond "APNS Connection lost"

  datatype AlertOutcome = AlertOutcome(notice: Notice, alerted: bool)

  /** The alert flag's update on a lost connection (pushpy/apns.py:111-120):
      raised with an Alert on the first immediate loss, cleared with a
      Resolved notice on the first loss that is not immediate. */
  function AlertStep(alerted: bool, immediate: bool): (r: AlertOutcome)
    ensures r.alerted == immediate
    ensures r.notice == Alert <==> immediate && !alerted
    ensures r.notice == Resolved <==> !immediate && alerted
  {
    if immediate then
      if !alerted then AlertOutcome(Alert, true) else AlertOutcome(AlreadyAlerted, true)
    else
      if alerted then AlertOutcome(Resolved, false) else AlertOutcome(Quiet, false)
  }

  datatype Lost = Lost(state: State, notice: Notice)

  /** The state update shared by every lost connection, given whether the
      loss counts as immediate: update the alert flag, count a retry, mark
      disconnected, and stash the frame built last so that the next
      connection sees it. */
  function Lose(cfg: Config, s: State, immediate: bool): (r: Lost)
    requires Valid(cfg, s) && s.connected
    ensures Valid(cfg, r.state) && !r.state.connected
    ensures r.state.retryAttempts == s.retryAttempts + 1
    ensures r.state.alerted == immediate
    ensures r.notice == Alert <==> immediate && !s.alerted
    ensures r.notice == Resolved <==> !immediate && s.alerted
    ensures r.state.stashed == if s.message.Some? then s.message else s.stashed
    ensures r.state.history == s.history && r.state.counter == s.counter && r.state.backlog == s.backlog
    ensures r.state.messageError == s.messageError && r.state.message == s.message
  {
    var step := AlertStep(s.alerted, immediate);
    var s1 := s.(alerted := step.alerted, retryAttempts := s.retryAttempts + 1, connected := false);
    var s2 := if s1.message.Some? then s1.(stashed := s1.message) else s1;
    Lost(s2, step.notice)
  }

  /** `APNSProtocol.connectionLost` followed by
      `APNSClientFactory.clientConnectionLost` (pushpy/apns.py:107-123,
      357-380), with the immediate-disconnect test as written. */
  function ConnectionLost(cfg: Config, s: State, now: int): (r: Lost)
    requires Valid(cfg, s) && s.connected
    ensures Valid(cfg, r.state) && !r.state.connected
    ensures r.state.retryAttempts == s.retryAttempts + 1
    ensures r.state.alerted == ImmediateAsWritten(s.connectTime.value, now)
    ensures r.notice == Alert <==> ImmediateAsWritten(s.connectTime.value, now) && !s.alerted
    ensures r.notice == Resolved <==> !ImmediateAsWritten(s.connectTime.value, now) && s.alerted
    ensures r.state.stashed == if s.message.Some? then s.message else s.stashed
    ensures r.state.history == s.history && r.state.counter == s.counter && r.state.backlog == s.backlog
    ensures r.state.messageError == s.messageError && r.state.message == s.message
  {
    Lose(cfg, s, ImmediateAsWritten(s.connectTime.value, now))
  }

  /** The same callbacks with the immediate-disconnect test as intended:
      only a connection that lasted at most one whole second counts. */
  function ConnectionLostCorrected(cfg: Config, s: State, now: int): (r: Lost)
    requires Valid(cfg, s) && s.connected
    ensures Valid(cfg, r.state) && !r.state.connected
    ensures r.state.retryAttempts == s.retryAttempts + 1
    ensures r.state.alerted == Immediate(s.connectTime.value, now)
    ensures r.notice == Alert <==> Immediate(s.connectTime.value, now) && !s.alerted
    ensures r.notice == Resolved <==> !Immediate(s.connectTime.value, now) && s.alerted
    ensures r.state.stashed == if s.message.Some? then s.message else s.stashed
    ensures r.state.history == s.history && r.state.counter == s.counter && r.state.backlog == s.backlog
    ensures r.state.messageError == s.messageError && r.state.message == s.message
  {
    Lose(cfg, s, Immediate(s.connectTime.value, now))
  }

  /** For a connection shorter than a day the coded and the corrected
      callbacks do the same thing. */
  lemma ConnectionLostAgreesWithinADay(cfg: Config, s: State, now: int)
    requires Valid(cfg, s) && s.connected
    requires 0 <= now - s.connectTime.value < SECONDS_PER_DAY * MICROS_PER_SECOND
    ensures ConnectionLost(cfg, s, now) == ConnectionLostCorrected(cfg, s, now)
  {
    ImmediateAgreesWithinADay(s.connectTime.value, now);
  }

  /** A connection that stayed up for a day and half a second is reported as
      an immediate disconnect by the coded callback (an Alert, the flag
      raised), while the corrected one stays quiet. */
  lemma DayLongConnectionAlerts(cfg: Config, s: State)
    requires Valid(cfg, s) && s.connected && !s.alerted && s.connectTime == Some(0)
    ensures var now := SECONDS_PER_DAY * MICROS_PER_SECOND + 500_000;
            && ConnectionLost(cfg, s, now).notice == Alert && ConnectionLost(cfg, s, now).state.alerted
            && ConnectionLostCorrected(cfg, s, now).notice == Quiet && !ConnectionLostCorrected(cfg, s, now).state.alerted
  {
    ImmediateAsWrittenIgnoresDays();
  }

  /** The notices of a run of losses, given whether each was immediate. */
  function Notices(alerted: bool, immediate: seq<bool>): seq<Notice>
    decreases |immediate|
  {
    if immediate == [] then []
    else
      var step := AlertStep(alerted, immediate[0]);
      [step.notice] + Notices(step.alerted, immediate[1..])
  }

  function Count(ns: seq<Notice>, n: Notice): nat
    decreases |ns|
  {
    if ns == [] then 0 else (if ns[0] == n then 1 else 0) + Count(ns[1..], n)
  }

  /** Alerts and resolutions balance: over any run of losses their counts
      differ by the change of the flag, so after every Alert the next of the
      two is a Resolved and one outage is alerted once. */
  lemma {:induction false} AlertsBalance(alerted: bool, immediate: seq<bool>)
    ensures var ns := Notices(alerted, immediate);
            var last := if immediate == [] then alerted else immediate[|immediate| - 1];
            Count(ns, Alert) - Count(ns, Resolved) == (if last then 1 else 0) - (if alerted then 1 else 0)
    decreases |immediate|
  {
    if immediate != [] {
      AlertsBalance(immediate[0], immediate[1..]);
      if |immediate| > 1 {
        assert immediate[1..][|immediate| - 2] == immediate[|immediate| - 1];
      }
    }
  }

  /** A run of immediate losses raises exactly one Alert, on its first loss,
      unless the flag was already up; it never reports a resolution. */
  lemma {:induction false} OneAlertPerOutage(alerted: bool, immediate: seq<bool>)
    requires forall i :: 0 <= i < |immediate| ==> immediate[i]
    ensures Count(Notices(alerted, immediate), Alert) == if alerted || immediate == [] then 0 else 1
    ensures Count(Notices(alerted, immediate), Resolved) == 0
    decreases |immediate|
  {
    if immediate != [] {
      OneAlertPerOutage(true, immediate[1..]);
    }
  }

  datatype Idle = Idle(state: State, abort: bool)

  /** `APNSProtocol.reconnect`, the periodic idle check (pushpy/apns.py:61-77):
      when nothing has been written for APNS_RECONNECT_FREQUENCY seconds,
      forget the frame built last and abort the connection. */
  function IdleCheck(s: State, now: int): (r: Idle)
    ensures r.abort <==> now - s.lastSent >= APNS_RECONNECT_FREQUENCY * MICROS_PER_SECOND
    ensures r.abort ==> r.state.message.None?
    ensures r.state == s.(message := r.state.message)
    ensures !r.abort ==> r.state == s
  {
    if s.lastSent <= now - APNS_RECONNECT_FREQUENCY * MICROS_PER_SECOND then Idle(s.(message := None), true)
    else Idle(s, false)
  }

  /** A check made within half an hour of a send that wrote its frame, with
      nothing else in between, leaves the connection alone. */
  lemma RecentWriteKeepsConnection(cfg: Config, s: State, token: string, payload: Bytes, sent: int, now: int)
    requires ValidConfig(cfg) && s.connected
    requires Send(cfg, s, token, payload, sent).writes != []
    requires now < sent + APNS_RECONNECT_FREQUENCY * MICROS_PER_SECOND
    ensures !IdleCheck(Send(cfg, s, token, payload, sent).state, now).abort
  {
  }

  /** The connection an idle check aborts stashes nothing when it is lost:
      the frame built last is too old to send again. */
  lemma IdleAbortStashesNothing(cfg: Config, s: State, now: int, later: int)
    requires Valid(cfg, s) && s.connected
    requires IdleCheck(s, now).abort
    ensures ConnectionLost(cfg, IdleCheck(s, now).state, later).state.stashed == s.stashed
  {
  }

  /** What `APNSService.handle_error` passes to the application's callback:
      the status code and the token of the failing notification, None
      standing for the `0` it passes when the id is not in the history. */
  datatype Report = Report(status: int, token: Option<string>)

  /** `APNSService.handle_error` (pushpy/apns.py:412-427): nothing without an
      application callback; otherwise the status with the token filed under
      the failing id, taken from the oldest record carrying it. */
  function HandleError(cfg: Config, h: seq<Entry>, status: int, id: int): (r: Option<Report>)
    ensures r.Some? <==> cfg.reportErrors
    ensures r.Some? ==> r.value.status == status
    ensures r.Some? && r.value.token.None? ==> forall i :: 0 <= i < |h| ==> h[i].id != id
    ensures r.Some? && r.value.token.Some? ==>
              exists i :: && 0 <= i < |h| && h[i].id == id && h[i].token == r.value.token.value
                          && forall k :: 0 <= k < i ==> h[k].id != id
  {
    if !cfg.reportErrors then None
    else match FirstIndexOf(h, id)
         case Some(i) => Some(Report(status, Some(h[i].token)))
         case None => Some(Report(status, None))
  }

  /** How the channel reacted to bytes from the gateway. */
  datatype Reaction =
    | Malformed                         // not six bytes: `struct.unpack` raised
    | IgnoredZeroId(status: int)        // id 0: no resend is scheduled
    | Failure(status: int, id: int)     // resend scheduled after `id`

  datatype Received = Received(state: State, reaction: Reaction, report: Option<Report>)

  /** `APNSProtocol.dataReceived` (pushpy/apns.py:125-143): the gateway only
      writes when a notification failed; a nonzero id is remembered for the
      resend on the next connection and reported. */
  function DataReceived(cfg: Config, s: State, data: Bytes): (r: Received)
    requires ValidConfig(cfg)
    ensures r.reaction == Malformed <==> |data| != 6
    ensures r.reaction.Failure? <==> |data| == 6 && DecodeErrorResponse(data).value.id != 0
    ensures r.reaction.Failure? ==>
              && r.reaction.status == DecodeErrorResponse(data).value.status
              && r.reaction.id == DecodeErrorResponse(data).value.id
              && r.state == s.(messageError := Some(r.reaction.id))
              && r.report == HandleError(cfg, s.history, r.reaction.status, r.reaction.id)
    ensures !r.reaction.Failure? ==> r.state == s && r.report.None?
  {
    match DecodeErrorResponse(data)
    case None => Received(s, Malformed, None)
    case Some(e) =>
      if e.id == 0 then Received(s, IgnoredZeroId(e.status), None)
      else Received(s.(messageError := Some(e.id)), Failure(e.status, e.id),
                    HandleError(cfg, s.history, e.status, e.id))
  }

  /** Bytes from the gateway keep the channel's invariant. */
  lemma DataReceivedPreservesValid(cfg: Config, s: State, data: Bytes)
    requires Valid(cfg, s)
    ensures Valid(cfg, DataReceived(cfg, s, data).state)
  {
  }

  /** While the history is no longer than the id space, the token reported
      for a failing id is the token of the one notification sent under that
      id, and none is reported exactly when no notification carries it. */
  lemma ReportNamesTheFailingDevice(cfg: Config, h: seq<Entry>, counter: int, status: int, id: int)
    requires ValidConfig(cfg) && cfg.reportErrors
    requires InRange(cfg.ids, counter) && IdsLeadUpTo(cfg.ids, h, counter)
    requires Attempted(cfg.ids, |h|)
    ensures var r := HandleError(cfg, h, status, id);
            && (r.value.token.None? <==> forall i :: 0 <= i < |h| ==> h[i].id != id)
            && forall i :: 0 <= i < |h| && h[i].id == id ==> r.value.token == Some(h[i].token)
  {
    forall i | 0 <= i < |h| && h[i].id == id
      ensures HandleError(cfg, h, status, id).value.token == Some(h[i].token)
    {
      var k := FirstIndexOf(h, id).value;
      if k < i {
        IdsDistinct(cfg.ids, h, counter, k, i);
      }
    }
  }

  /** The error-recovery path end to end: the gateway reports the
      notification at position `j` of the history, the connection drops,
      and the next connection starts by writing exactly the frames sent
      after that notification, in the order they were first sent. */
  lemma ErrorThenReconnectResendsLater(cfg: Config, s: State, j: int, status: int, now: int)
    requires Valid(cfg, s) && s.connected
    requires Attempted(cfg.ids, |s.history|)
    requires 0 <= j < |s.history| && s.history[j].id != 0 && IsInt32(s.history[j].id)
    requires -0x80 <= status < 0x80
    ensures var data := EncodeErrorResponse(ErrorResponse(COMMAND, status, s.history[j].id));
            var failed := DataReceived(cfg, s, data).state;
            var lost := ConnectionLost(cfg, failed, now).state;
            PendingResend(cfg, lost) == Frames(s.history[j + 1..])
  {
    var e := ErrorResponse(COMMAND, status, s.history[j].id);
    DecodeEncodeErrorResponse(e);
    ResendsExactlyLaterFrames(cfg.ids, s.history, s.counter, j);
  }
}
