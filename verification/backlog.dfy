/** The backlog of messages that arrive while no connection is available
    (`enque_message`, pushpy/apns.py:218-250). A `Queue.Queue(maxsize=cap)`
    is a plain sequence here, front = oldest; a capacity of zero or less is
    Python's unbounded queue. */
module Backlog {
  import opened Bytes

  /** A queued `(device_token, payload)` pair, token still in base64. */
  datatype Pending = Pending(token: string, payload: Bytes)

  /** `Queue.full()`: `0 < maxsize == qsize()`. */
  predicate Full(cap: int, q: seq<Pending>)
  {
    0 < cap && |q| == cap
  }

  /** The backlog never holds more than a positive capacity. */
  predicate WithinCapacity(cap: int, q: seq<Pending>)
  {
    cap > 0 ==> |q| <= cap
  }

  /** Adds a message at the back; on a full queue the oldest message is
      taken off first to make room. */
  function Enqueue(cap: int, q: seq<Pending>, p: Pending): (q': seq<Pending>)
    ensures |q'| == if Full(cap, q) then |q| else |q| + 1
    ensures q' == (q + [p])[|q| + 1 - |q'|..]
    ensures WithinCapacity(cap, q) ==> WithinCapacity(cap, q')
  {
    if Full(cap, q) then
      assert q[1..] + [p] == (q + [p])[1..];
      q[1..] + [p]
    else
      assert q + [p] == (q + [p])[0..];
      q + [p]
  }

  /** Repeated enqueueing while disconnected. */
  function EnqueueAll(cap: int, q: seq<Pending>, ps: seq<Pending>): seq<Pending>
    decreases |ps|
  {
    if ps == [] then q else EnqueueAll(cap, Enqueue(cap, q, ps[0]), ps[1..])
  }

  function Min(a: int, b: int): int
  {
    if a <= b then a else b
  }

  /** One enqueue drops exactly what the front of the combined input loses:
      the queue after it, followed by the rest, is a suffix of the old queue
      followed by everything still to come. */
  lemma EnqueueStep(cap: int, q: seq<Pending>, ps: seq<Pending>)
    requires cap > 0 && |q| <= cap && ps != []
    ensures var q1 := Enqueue(cap, q, ps[0]);
            q1 + ps[1..] == (q + ps)[|q| + 1 - |q1|..]
  {
    var q1 := Enqueue(cap, q, ps[0]);
    var drop := |q| + 1 - |q1|;
    assert q + ps == (q + [ps[0]]) + ps[1..];
    assert q1 == (q + [ps[0]])[drop..];
  }

  /** The newest `m` of a sequence are the newest `m` of any suffix that
      still holds at least `m`. */
  lemma NewestOfSuffix(all: seq<Pending>, drop: int, m: int)
    requires 0 <= drop <= |all| && 0 <= m <= |all| - drop
    ensures all[drop..][|all| - drop - m..] == all[|all| - m..]
  {
  }

  /** The induction step: whatever keeps the newest of what is left after
      the first enqueue keeps the newest of the whole input. */
  lemma KeepsNewestStep(cap: int, q: seq<Pending>, ps: seq<Pending>, rest: seq<Pending>)
    requires cap > 0 && |q| <= cap && ps != []
    requires var all1 := Enqueue(cap, q, ps[0]) + ps[1..];
             rest == all1[|all1| - Min(cap, |all1|)..]
    ensures var all := q + ps;
            rest == all[|all| - Min(cap, |all|)..]
  {
    var all := q + ps;
    var q1 := Enqueue(cap, q, ps[0]);
    EnqueueStep(cap, q, ps);
    var drop := |q| + 1 - |q1|;
    var all1 := q1 + ps[1..];
    assert all1 == all[drop..];
    var m := Min(cap, |all|);
    assert Min(cap, |all1|) == m;
    NewestOfSuffix(all, drop, m);
  }

  /** After any run of enqueues into a bounded queue, it holds exactly the
      newest `cap` messages of everything that went in (or all of them if
      fewer), in arrival order: only the oldest are ever evicted. */
  lemma {:induction false} EnqueueAllKeepsNewest(cap: int, q: seq<Pending>, ps: seq<Pending>)
    requires cap > 0 && |q| <= cap
    ensures var all := q + ps;
            EnqueueAll(cap, q, ps) == all[|all| - Min(cap, |all|)..]
    decreases |ps|
  {
    if ps != [] {
      var q1 := Enqueue(cap, q, ps[0]);
      EnqueueAllKeepsNewest(cap, q1, ps[1..]);
      KeepsNewestStep(cap, q, ps, EnqueueAll(cap, q1, ps[1..]));
    }
  }

}
