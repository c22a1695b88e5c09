/** The feedback service client (pushpy/apns_feedback.py): the gateway
    streams records of devices that no longer accept notifications and
    closes the connection; the client parses the whole buffer once and hands
    the list to the application. */
module Feedback {
  import opened Bytes
  import Base64

  /** `header_size`: a four-byte time and a two-byte token length (`!lh`). */
  const RECORD_HEADER_SIZE: int := 6

  /** One entry of the list handed to the callback: the time the gateway
      recorded and the token, in base64. */
  datatype Record = Record(time: int, token: string)

  /** `process_list` (pushpy/apns_feedback.py:77-107). Reads records from the
      front until the input is used up. Both header fields are signed: a
      token length of 0x8000 or more reads as negative, which `struct`
      refuses as a format. A short header, a negative length or a short token
      raises `struct.error`, which ends the loop quietly with the records
      read so far. */
  function ParseRecords(data: Bytes): (rs: seq<Record>)
    ensures 6 * |rs| <= |data|
    decreases |data|
  {
    if |data| < RECORD_HEADER_SIZE then []
    else
      var time := S32(data[..4]);
      var length := S16(data[4..6]);
      var rest := data[RECORD_HEADER_SIZE..];
      if length < 0 || |rest| < length then []
      else [Record(time, Base64.Encode(rest[..length]))] + ParseRecords(rest[length..])
  }

  /** A record as the gateway writes it: a signed 32-bit time and a token
      whose length fits the signed 16-bit field. */
  datatype Raw = Raw(time: int, token: Bytes)

  predicate Writable(r: Raw)
  {
    IsInt32(r.time) && |r.token| < 0x8000
  }

  predicate AllWritable(rs: seq<Raw>)
    decreases |rs|
  {
    rs == [] || (Writable(rs[0]) && AllWritable(rs[1..]))
  }

  /** The bytes of one record as the gateway writes it. */
  function Encoded(r: Raw): (data: Bytes)
    requires Writable(r)
    ensures |data| == RECORD_HEADER_SIZE + |r.token|
  {
    BE32Signed(r.time) + BE16(|r.token|) + r.token
  }

  /** The gateway's side of the stream. */
  function Serialize(rs: seq<Raw>): (data: Bytes)
    requires AllWritable(rs)
    decreases |rs|
  {
    if rs == [] then [] else Encoded(rs[0]) + Serialize(rs[1..])
  }

  /** The entry a raw record should produce. */
  function Reported(rs: seq<Raw>): (out: seq<Record>)
    ensures |out| == |rs|
    ensures forall i :: 0 <= i < |rs| ==> out[i] == Record(rs[i].time, Base64.Encode(rs[i].token))
  {
    seq(|rs|, i requires 0 <= i < |rs| => Record(rs[i].time, Base64.Encode(rs[i].token)))
  }

  /** One well-formed record in front of any input is read as its entry,
      and parsing carries on with the input behind it. */
  lemma ParseOneRecord(r: Raw, rest: Bytes)
    requires Writable(r)
    ensures ParseRecords(Encoded(r) + rest) == [Record(r.time, Base64.Encode(r.token))] + ParseRecords(rest)
  {
    var data := Encoded(r) + rest;
    assert data[..4] == BE32Signed(r.time);
    assert data[4..6] == BE16(|r.token|);
    assert S16(BE16(|r.token|)) == |r.token|;
    var after := data[RECORD_HEADER_SIZE..];
    assert after == r.token + rest;
    assert after[..|r.token|] == r.token;
    assert after[|r.token|..] == rest;
  }

  lemma ConsAssociates<T>(x: T, a: seq<T>, b: seq<T>)
    ensures [x] + (a + b) == ([x] + a) + b
  {
  }

  lemma SerializeCons(rs: seq<Raw>, rest: Bytes)
    requires rs != [] && AllWritable(rs)
    ensures Serialize(rs) + rest == Encoded(rs[0]) + (Serialize(rs[1..]) + rest)
  {
  }

  lemma ReportedCons(rs: seq<Raw>)
    requires rs != []
    ensures Reported(rs) == [Record(rs[0].time, Base64.Encode(rs[0].token))] + Reported(rs[1..])
  {
  }

  /** The first record of a well-formed stream is read as its entry, and
      parsing carries on with the records behind it. */
  lemma ParseSerializedStep(rs: seq<Raw>, rest: Bytes)
    requires rs != [] && AllWritable(rs)
    ensures ParseRecords(Serialize(rs) + rest)
            == [Record(rs[0].time, Base64.Encode(rs[0].token))] + ParseRecords(Serialize(rs[1..]) + rest)
  {
    SerializeCons(rs, rest);
    ParseOneRecord(rs[0], Serialize(rs[1..]) + rest);
  }

  /** Well-formed records followed by anything parse to their entries, in
      stream order, followed by whatever the rest parses to. */
  lemma {:induction false} ParseSerialized(rs: seq<Raw>, rest: Bytes)
    requires AllWritable(rs)
    ensures ParseRecords(Serialize(rs) + rest) == Reported(rs) + ParseRecords(rest)
    decreases |rs|
  {
    if rs == [] {
      assert Serialize(rs) + rest == rest;
      assert Reported(rs) + ParseRecords(rest) == ParseRecords(rest);
    } else {
      ParseSerialized(rs[1..], rest);
      ParseSerializedStep(rs, rest);
      ReportedCons(rs);
      ConsAssociates(Record(rs[0].time, Base64.Encode(rs[0].token)), Reported(rs[1..]), ParseRecords(rest));
    }
  }

  /** A complete stream of well-formed records parses to exactly their
      entries, in the order they were sent. */
  lemma ParseWellFormed(rs: seq<Raw>)
    requires AllWritable(rs)
    ensures ParseRecords(Serialize(rs)) == Reported(rs)
  {
    ParseSerialized(rs, []);
    assert Serialize(rs) + [] == Serialize(rs);
  }

  /** A trailing fragment shorter than a header is dropped without error. */
  lemma ShortHeaderStops(data: Bytes)
    requires |data| < RECORD_HEADER_SIZE
    ensures ParseRecords(data) == []
  {
  }

  /** A header whose token is cut short ends the list. */
  lemma ShortTokenStops(data: Bytes)
    requires |data| >= RECORD_HEADER_SIZE
    requires 0 <= S16(data[4..6]) && |data| < RECORD_HEADER_SIZE + S16(data[4..6])
    ensures ParseRecords(data) == []
  {
  }

  /** A length field with the top bit set is negative under `h` and ends
      the list, however many bytes follow. */
  lemma NegativeLengthStops(data: Bytes)
    requires |data| >= RECORD_HEADER_SIZE && U16(data[4..6]) >= 0x8000
    ensures ParseRecords(data) == []
  {
  }

  /** Truncated input: the records before a damaged tail are still
      reported, and nothing after them. */
  lemma KeepsRecordsBeforeDamage(rs: seq<Raw>, tail: Bytes)
    requires AllWritable(rs)
    requires |tail| < RECORD_HEADER_SIZE
             || S16(tail[4..6]) < 0
             || |tail| < RECORD_HEADER_SIZE + S16(tail[4..6])
    ensures ParseRecords(Serialize(rs) + tail) == Reported(rs)
  {
    ParseSerialized(rs, tail);
    assert ParseRecords(tail) == [];
  }

  /** An empty token still makes progress: the record is reported with an
      empty token and six bytes are consumed. */
  lemma EmptyTokenProgresses(time: int, rest: Bytes)
    requires IsInt32(time)
    ensures ParseRecords(BE32Signed(time) + BE16(0) + rest) == [Record(time, "")] + ParseRecords(rest)
  {
    ParseOneRecord(Raw(time, []), rest);
    assert Encoded(Raw(time, [])) == BE32Signed(time) + BE16(0);
  }

  /** What the feedback connection sees: bytes arriving, and the gateway
      closing the connection. */
  datatype Event = Data(bytes: Bytes) | Closed

  /** `APNProcessFeedback.rawDataReceived` and `connectionLost`
      (pushpy/apns_feedback.py:29-48, 61-75): every chunk goes into the
      buffer; on close the whole buffer is parsed and the callback fires
      once; the next connection starts from an empty buffer. The result is
      the sequence of lists handed to the callback. */
  function Callbacks(buffer: Bytes, events: seq<Event>): (calls: seq<seq<Record>>)
    ensures |calls| <= |events|
    ensures events != [] && events[|events| - 1].Closed? ==> calls != []
    decreases |events|
  {
    if events == [] then []
    else match events[0]
         case Data(b) => Callbacks(buffer + b, events[1..])
         case Closed => [ParseRecords(buffer)] + Callbacks([], events[1..])
  }

  function ClosedCount(events: seq<Event>): nat
    decreases |events|
  {
    if events == [] then 0 else (if events[0].Closed? then 1 else 0) + ClosedCount(events[1..])
  }

  /** The callback fires once per connection, never on data alone. */
  lemma {:induction false} OneCallbackPerConnection(buffer: Bytes, events: seq<Event>)
    ensures |Callbacks(buffer, events)| == ClosedCount(events)
    decreases |events|
  {
    if events != [] {
      match events[0]
      case Data(b) => OneCallbackPerConnection(buffer + b, events[1..]);
      case Closed => OneCallbackPerConnection([], events[1..]);
    }
  }

  /** The bytes of a run of chunks, in arrival order. */
  function Joined(chunks: seq<Bytes>): Bytes
    decreases |chunks|
  {
    if chunks == [] then [] else chunks[0] + Joined(chunks[1..])
  }

  function AsData(chunks: seq<Bytes>): (events: seq<Event>)
    ensures |events| == |chunks|
    ensures forall i :: 0 <= i < |chunks| ==> events[i] == Data(chunks[i])
  {
    seq(|chunks|, i requires 0 <= i < |chunks| => Data(chunks[i]))
  }

  /** However the gateway's bytes are split into chunks, the one callback of
      the connection gets the parse of all of them together, so a record
      split across two chunks is read whole. */
  lemma {:induction false} ChunkingIsInvisible(buffer: Bytes, chunks: seq<Bytes>)
    ensures Callbacks(buffer, AsData(chunks) + [Closed]) == [ParseRecords(buffer + Joined(chunks))]
    decreases |chunks|
  {
    if chunks == [] {
      assert AsData(chunks) + [Closed] == [Closed];
      assert buffer + Joined(chunks) == buffer;
    } else {
      assert (AsData(chunks) + [Closed])[1..] == AsData(chunks[1..]) + [Closed];
      ChunkingIsInvisible(buffer + chunks[0], chunks[1..]);
      assert buffer + chunks[0] + Joined(chunks[1..]) == buffer + Joined(chunks);
    }
  }

  /** A connection that delivers nothing still fires the callback, once,
      with an empty list. */
  lemma EmptyConnectionReportsEmptyList()
    ensures Callbacks([], [Closed]) == [[]]
  {
  }
}
