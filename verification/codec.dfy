/** The two binary frames of the push gateway: the notification frame the
    client writes (`struct` layout `!ciLH32sH%ds`, pushpy/apns.py:20) and the
    six-byte error response the gateway writes back (`!bbi`,
    pushpy/apns.py:129). The client only ever builds the first and parses the
    second; the opposite directions are written here as their partners. */
module Codec {
  import opened Bytes

  /** COMMAND_TYPE, the `c` slot. */
  const COMMAND: Byte := 1
  /** The `32s` slot: the device token always occupies 32 bytes. */
  const TOKEN_FIELD_SIZE: int := 32
  /** Bytes in front of the payload: 1 + 4 + 4 + 2 + 32 + 2. */
  const HEADER_SIZE: int := 45
  /** MAX_MESSAGE_SIZE_BYTES: the largest frame the channel transmits. */
  const MAX_MESSAGE_SIZE_BYTES: int := 256

  /** `struct.pack` with `32s`: the token, truncated to 32 bytes or padded with
      zero bytes up to 32. */
  function TokenField(raw: Bytes): (f: Bytes)
    ensures |f| == TOKEN_FIELD_SIZE
    ensures forall i :: 0 <= i < TOKEN_FIELD_SIZE ==> f[i] == (if i < |raw| then raw[i] else 0)
  {
    if |raw| >= TOKEN_FIELD_SIZE then raw[..TOKEN_FIELD_SIZE]
    else raw + seq(TOKEN_FIELD_SIZE - |raw|, _ => 0)
  }

  /** The fields of a notification frame as they sit on the wire. The token
      length field holds the real length of the decoded token even though
      the token slot is fixed at 32 bytes. */
  datatype Notification = Notification(
    id: int,            // `i`: the message's sequence number, signed
    expiry: int,        // `L`: epoch seconds after which the gateway drops it
    tokenLength: int,   // `H`: length of the decoded device token
    tokenField: Bytes,  // `32s`
    payload: Bytes)     // `H%ds`: length-prefixed payload

  /** Every field fits its `struct` code. */
  predicate Packable(n: Notification)
  {
    && IsInt32(n.id)
    && IsUint32(n.expiry)
    && IsUint16(n.tokenLength)
    && |n.tokenField| == TOKEN_FIELD_SIZE
    && IsUint16(|n.payload|)
  }

  /** The bytes of a frame, field after field in network order. */
  function Assemble(n: Notification): (frame: Bytes)
    requires Packable(n)
    ensures |frame| == HEADER_SIZE + |n.payload|
  {
    [COMMAND] + BE32Signed(n.id) + BE32(n.expiry) + BE16(n.tokenLength)
      + n.tokenField + BE16(|n.payload|) + n.payload
  }

  /** Reads a frame back into its fields; None unless it starts with the
      command byte and its payload length field matches the bytes that
      follow it. */
  function Parse(frame: Bytes): (r: Option<Notification>)
    ensures r.Some? ==> |frame| == HEADER_SIZE + |r.value.payload| && Packable(r.value)
  {
    if |frame| < HEADER_SIZE || frame[0] != COMMAND || U16(frame[43..45]) != |frame| - HEADER_SIZE then None
    else Some(Notification(S32(frame[1..5]), U32(frame[5..9]), U16(frame[9..11]), frame[11..43], frame[45..]))
  }

  /** Frame encoding as `sendMessage` performs it (pushpy/apns.py:266-274):
      None stands for the `struct.error` raised when the id, the expiry or
      either length does not fit its field. */
  function Pack(id: int, expiry: int, token: Bytes, payload: Bytes): (r: Option<Bytes>)
    ensures r.Some? <==> IsInt32(id) && IsUint32(expiry) && IsUint16(|token|) && IsUint16(|payload|)
    ensures r.Some? ==> |r.value| == HEADER_SIZE + |payload|
    ensures r.Some? ==> r.value[0] == COMMAND
  {
    var n := Notification(id, expiry, |token|, TokenField(token), payload);
    if Packable(n) then Some(Assemble(n)) else None
  }

  /** A packed frame parses back into the fields it was packed from. */
  lemma PackParses(id: int, expiry: int, token: Bytes, payload: Bytes)
    requires Pack(id, expiry, token, payload).Some?
    ensures Parse(Pack(id, expiry, token, payload).value) == Some(Notification(id, expiry, |token|, TokenField(token), payload))
  {
    ParseAssemble(Notification(id, expiry, |token|, TokenField(token), payload));
  }

  /** The frame field by field: the command byte, the id and the expiry in
      four bytes each, the token length in two, the 32-byte token slot, the
      payload length in two, and the payload. */
  lemma PackLayout(id: int, expiry: int, token: Bytes, payload: Bytes)
    requires Pack(id, expiry, token, payload).Some?
    ensures var f := Pack(id, expiry, token, payload).value;
            && f[0] == COMMAND
            && S32(f[1..5]) == id
            && U32(f[5..9]) == expiry
            && U16(f[9..11]) == |token|
            && f[11..43] == TokenField(token)
            && U16(f[43..45]) == |payload|
            && f[45..] == payload
  {
    PackParses(id, expiry, token, payload);
  }

  /** A frame passes the size gate exactly when its payload is at most 211
      bytes. */
  lemma SizeGate(id: int, expiry: int, token: Bytes, payload: Bytes)
    requires Pack(id, expiry, token, payload).Some?
    ensures |Pack(id, expiry, token, payload).value| <= MAX_MESSAGE_SIZE_BYTES
            <==> |payload| <= MAX_MESSAGE_SIZE_BYTES - HEADER_SIZE
  {
  }

  /** Parsing inverts assembling ... */
  lemma ParseAssemble(n: Notification)
    requires Packable(n)
    ensures Parse(Assemble(n)) == Some(n)
  {
    var f := Assemble(n);
    assert f[1..5] == BE32Signed(n.id);
    assert f[5..9] == BE32(n.expiry);
    assert f[9..11] == BE16(n.tokenLength);
    assert f[11..43] == n.tokenField;
    assert f[43..45] == BE16(|n.payload|);
    assert f[45..] == n.payload;
  }

  /** ... and assembling inverts parsing, so a frame and its fields determine
      each other. */
  lemma AssembleParse(frame: Bytes)
    requires Parse(frame).Some?
    ensures Assemble(Parse(frame).value) == frame
  {
    var n := Parse(frame).value;
    BE32SignedOfS32(frame[1..5]);
    BE32OfU32(frame[5..9]);
    BE16OfU16(frame[9..11]);
    BE16OfU16(frame[43..45]);
    assert frame == [frame[0]] + frame[1..5] + frame[5..9] + frame[9..11] + frame[11..43] + frame[43..45] + frame[45..];
  }

  /** A token of at most 32 bytes survives the fixed-width slot: it is the
      prefix the length field names, followed by zero padding. A longer one
      loses everything past byte 32 while the length field still names its
      full length. */
  lemma TokenRecoverable(token: Bytes)
    ensures |token| <= TOKEN_FIELD_SIZE ==>
              TokenField(token)[..|token|] == token
              && forall i :: |token| <= i < TOKEN_FIELD_SIZE ==> TokenField(token)[i] == 0
    ensures |token| > TOKEN_FIELD_SIZE ==> TokenField(token) == token[..TOKEN_FIELD_SIZE]
  {
  }

  /** The gateway's error response: command echo, status code, and the id of
      the offending notification, all signed (`!bbi`). */
  datatype ErrorResponse = ErrorResponse(command: int, status: int, id: int)

  /** `struct.unpack("!bbi", data)`: exactly six bytes, else `struct.error`. */
  function DecodeErrorResponse(data: Bytes): (r: Option<ErrorResponse>)
    ensures r.Some? <==> |data| == 6
    ensures r.Some? ==> -0x80 <= r.value.command < 0x80 && -0x80 <= r.value.status < 0x80 && IsInt32(r.value.id)
  {
    if |data| != 6 then None
    else Some(ErrorResponse(S8(data[0]), S8(data[1]), S32(data[2..6])))
  }

  /** The gateway's side of the same frame. */
  function EncodeErrorResponse(e: ErrorResponse): (data: Bytes)
    requires -0x80 <= e.command < 0x80 && -0x80 <= e.status < 0x80 && IsInt32(e.id)
    ensures |data| == 6
  {
    [e.command % TWO_8, e.status % TWO_8] + BE32Signed(e.id)
  }

  lemma DecodeEncodeErrorResponse(e: ErrorResponse)
    requires -0x80 <= e.command < 0x80 && -0x80 <= e.status < 0x80 && IsInt32(e.id)
    ensures DecodeErrorResponse(EncodeErrorResponse(e)) == Some(e)
  {
    var d := EncodeErrorResponse(e);
    assert d[2..6] == BE32Signed(e.id);
  }

  lemma EncodeDecodeErrorResponse(data: Bytes)
    requires |data| == 6
    ensures EncodeErrorResponse(DecodeErrorResponse(data).value) == data
  {
    BE32SignedOfS32(data[2..6]);
    assert data == [data[0], data[1]] + data[2..6];
  }
}
