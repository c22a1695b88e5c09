/** Which sent frames are written again after the gateway reported a failing
    id (`process_failed_sent_messages`, pushpy/apns.py:297-355).

    The rule is written exactly as the code has it, including the asymmetric
    comparisons of the wrapped case. The lemmas then show what it achieves on
    any history the channel can actually build (one whose ids lead up to the
    counter, see `History.IdsLeadUpTo`): when the failing id is in the
    history, exactly the frames sent after it are resent, in send order, on
    both sides of a counter wrap. */
module Resend {
  import opened Bytes
  import opened History

  /** Resending is attempted only while the history is no longer than
      `max - min`; a longer history could hold one id twice. */
  predicate Attempted(r: IdRange, n: int)
  {
    n <= r.max - r.min
  }

  /** `n` history entries with the counter at `c`: the counter has wrapped
      since the oldest entry was sent. */
  predicate Looped(r: IdRange, n: int, c: int)
  {
    n > c - r.min
  }

  /** `max_id_to_resend`: on a wrapped history the resend attempts, it lies
      between the counter and `max`; without a wrap it is `max`. */
  function MaxIdToResend(r: IdRange, n: int, c: int): (top: int)
    ensures InRange(r, c) && Attempted(r, n) && Looped(r, n, c) ==> c <= top < r.max
    ensures !Looped(r, n, c) ==> top == r.max
  {
    if Looped(r, n, c) then r.max - (n - (c - r.min)) else r.max
  }

  /** The per-entry decision for an entry carrying `id`, failing id `f`. */
  predicate ShouldResend(r: IdRange, n: int, c: int, f: int, id: int)
  {
    var top := MaxIdToResend(r, n, c);
    if Looped(r, n, c) then
      if id > f then id < top || f > c
      else id < top && f > top
    else id > f
  }

  /** The frames of a run of history entries. */
  function Frames(h: seq<Entry>): (fs: seq<Bytes>)
    ensures |fs| == |h|
    ensures forall i :: 0 <= i < |h| ==> fs[i] == h[i].frame
  {
    seq(|h|, i requires 0 <= i < |h| => h[i].frame)
  }

  /** The frames of the entries that pass the decision, in history order.
      `n` is the length of the whole history the decision is made against. */
  function Select(r: IdRange, n: int, c: int, f: int, h: seq<Entry>): (fs: seq<Bytes>)
    ensures |fs| <= |h|
    ensures forall x :: x in fs ==> exists i :: 0 <= i < |h| && h[i].frame == x && ShouldResend(r, n, c, f, h[i].id)
    decreases |h|
  {
    if h == [] then []
    else (if ShouldResend(r, n, c, f, h[0].id) then [h[0].frame] else []) + Select(r, n, c, f, h[1..])
  }

  /** Everything the resend step writes for history `h`, counter `c`, failing
      id `f`; nothing when the guard refuses. */
  function ResendFrames(r: IdRange, h: seq<Entry>, c: int, f: int): (fs: seq<Bytes>)
    ensures !Attempted(r, |h|) ==> fs == []
    ensures |fs| <= |h|
  {
    if Attempted(r, |h|) then Select(r, |h|, c, f, h) else []
  }

  /** When the decision holds exactly from position `k` on, the selection is
      the suffix of the history from `k`. */
  lemma {:induction false} SelectSuffix(r: IdRange, n: int, c: int, f: int, h: seq<Entry>, k: int)
    requires 0 <= k <= |h|
    requires forall i :: 0 <= i < |h| ==> (ShouldResend(r, n, c, f, h[i].id) <==> i >= k)
    ensures Select(r, n, c, f, h) == Frames(h[k..])
    decreases |h|
  {
    if h != [] {
      if k == 0 {
        SelectSuffix(r, n, c, f, h[1..], 0);
        assert Frames(h) == [h[0].frame] + Frames(h[1..]);
      } else {
        SelectSuffix(r, n, c, f, h[1..], k - 1);
        assert h[1..][k - 1..] == h[k..];
      }
    }
  }

  /** When the decision holds exactly before position `k`, the selection is
      the prefix of the history up to `k`. */
  lemma {:induction false} SelectPrefix(r: IdRange, n: int, c: int, f: int, h: seq<Entry>, k: int)
    requires 0 <= k <= |h|
    requires forall i :: 0 <= i < |h| ==> (ShouldResend(r, n, c, f, h[i].id) <==> i < k)
    ensures Select(r, n, c, f, h) == Frames(h[..k])
    decreases |h|
  {
    if h != [] {
      if k == 0 {
        SelectPrefix(r, n, c, f, h[1..], 0);
      } else {
        SelectPrefix(r, n, c, f, h[1..], k - 1);
        assert h[1..][..k - 1] == h[1..k];
        assert Frames(h[..k]) == [h[0].frame] + Frames(h[1..k]);
      }
    }
  }

  /** Without a wrap the history's ids are the contiguous run `c-|h| .. c-1`. */
  lemma ContiguousWhenNotLooped(r: IdRange, h: seq<Entry>, c: int)
    requires ValidRange(r) && InRange(r, c)
    requires IdsLeadUpTo(r, h, c)
    requires !Looped(r, |h|, c)
    ensures forall i :: 0 <= i < |h| ==> h[i].id == c - |h| + i
  {
    forall i | 0 <= i < |h|
      ensures h[i].id == c - |h| + i
    {
      BackClosedForm(r, c, |h| - i);
    }
  }

  /** With a wrap the history is an older run ending at `max`, directly above
      `MaxIdToResend`, followed by a newer run `min .. c-1`. */
  lemma TwoRunsWhenLooped(r: IdRange, h: seq<Entry>, c: int)
    requires ValidRange(r) && InRange(r, c)
    requires IdsLeadUpTo(r, h, c)
    requires Attempted(r, |h|) && Looped(r, |h|, c)
    ensures var older := |h| - (c - r.min);
            forall i :: 0 <= i < |h| ==>
              h[i].id == if i < older then MaxIdToResend(r, |h|, c) + 1 + i
                         else r.min + (i - older)
  {
    forall i | 0 <= i < |h|
    {
      BackClosedForm(r, c, |h| - i);
    }
  }

  /** Without a wrap the coded rule resends exactly the ids above `f`, and
      these form the tail of the history after the last id not above `f`. */
  lemma NotLoopedResendsAbove(r: IdRange, h: seq<Entry>, c: int, f: int)
    requires ValidRange(r) && InRange(r, c)
    requires IdsLeadUpTo(r, h, c)
    requires Attempted(r, |h|) && !Looped(r, |h|, c)
    ensures var first := c - |h|;
            var k := if f < first then 0 else if f >= c then |h| else f - first + 1;
            ResendFrames(r, h, c, f) == Frames(h[k..])
            && forall i :: 0 <= i < |h| ==> (h[i].id > f <==> i >= k)
  {
    ContiguousWhenNotLooped(r, h, c);
    var first := c - |h|;
    var k := if f < first then 0 else if f >= c then |h| else f - first + 1;
    SelectSuffix(r, |h|, c, f, h, k);
  }

  /** The decision on each entry, when the failing id is the one at position
      `j`: resend exactly the entries after `j`. */
  lemma DecisionIsAfterFailing(r: IdRange, h: seq<Entry>, c: int, j: int)
    requires ValidRange(r) && InRange(r, c)
    requires IdsLeadUpTo(r, h, c)
    requires Attempted(r, |h|)
    requires 0 <= j < |h|
    ensures forall i :: 0 <= i < |h| ==> (ShouldResend(r, |h|, c, h[j].id, h[i].id) <==> i > j)
  {
    if Looped(r, |h|, c) {
      TwoRunsWhenLooped(r, h, c);
    } else {
      ContiguousWhenNotLooped(r, h, c);
    }
  }

  /** The documented intent, "resend the messages sent after the failing
      one", holds for the coded rule on every history the channel builds,
      with or without a counter wrap inside the history: the frames written
      are those of the entries after the failing one, in send order. */
  lemma ResendsExactlyLaterFrames(r: IdRange, h: seq<Entry>, c: int, j: int)
    requires ValidRange(r) && InRange(r, c)
    requires IdsLeadUpTo(r, h, c)
    requires Attempted(r, |h|)
    requires 0 <= j < |h|
    ensures ResendFrames(r, h, c, h[j].id) == Frames(h[j + 1..])
  {
    DecisionIsAfterFailing(r, h, c, j);
    SelectSuffix(r, |h|, c, h[j].id, h, j + 1);
  }

  /** A failing id that has already left a wrapped history: it lies in
      `[c, MaxIdToResend]`, the ids issued before the oldest record. Every
      record was sent after it, but the coded rule resends only the older
      run (the records up to `max`), or nothing when the failing id equals
      the counter; the newer run `min .. c-1` is never resent. */
  lemma EvictedFailingIdLooped(r: IdRange, h: seq<Entry>, c: int, f: int)
    requires ValidRange(r) && InRange(r, c)
    requires IdsLeadUpTo(r, h, c)
    requires Attempted(r, |h|) && Looped(r, |h|, c)
    requires c <= f <= MaxIdToResend(r, |h|, c)
    ensures forall i :: 0 <= i < |h| ==> h[i].id != f
    ensures ResendFrames(r, h, c, f) == Frames(h[..if f > c then |h| - (c - r.min) else 0])
  {
    TwoRunsWhenLooped(r, h, c);
    var k := if f > c then |h| - (c - r.min) else 0;
    SelectPrefix(r, |h|, c, f, h, k);
  }

  /** The evicted case on a full history: ids 1000..3000, 1000 records
      (2051..3000, then 1000..1049), counter at 1050. A failure of 2050, the
      id sent just before the oldest record, resends 2051..3000 but not
      1000..1049, although those were sent after it too. */
  lemma EvictedScenario(id: int)
    requires 2051 <= id <= 3000 || 1000 <= id <= 1049
    ensures var r := IdRange(1000, 3000);
            Looped(r, 1000, 1050) && MaxIdToResend(r, 1000, 1050) == 2050
            && (ShouldResend(r, 1000, 1050, 2050, id) <==> 2051 <= id <= 3000)
  {
  }

  /** The wrap-around scenario with ids 1000..2000, 500 entries and the
      counter at 1050: the entries are 1551..2000 then 1000..1049, and a
      failure of 1990 resends 1991..2000 and 1000..1049 and nothing else. */
  lemma WrappedScenario(id: int)
    requires 1551 <= id <= 2000 || 1000 <= id <= 1049
    ensures var r := IdRange(1000, 2000);
            Looped(r, 500, 1050) && MaxIdToResend(r, 500, 1050) == 1550
            && (ShouldResend(r, 500, 1050, 1990, id) <==> (1991 <= id <= 2000 || 1000 <= id <= 1049))
  {
  }
}
