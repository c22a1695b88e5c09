/** The message-id counter and the bounded record of sent frames
    (pushpy/apns.py:25-26, 168-169, 278-284).

    Ids run from MIN_MESSAGE_ID up to MAX_MESSAGE_ID and wrap back to the
    minimum. The bounds are a parameter here (any `min < max`) so that small
    wrap-around cases are instances of the same definitions. */
module History {
  import opened Bytes

  const MIN_MESSAGE_ID: int := 1000
  const MAX_MESSAGE_ID: int := 2147483647
  /** `collections.deque(maxlen=1000)`. */
  const HISTORY_LIMIT: nat := 1000

  /** The id space `[min, max]`. */
  datatype IdRange = IdRange(min: int, max: int)

  predicate ValidRange(r: IdRange)
  {
    r.min < r.max
  }

  const DEFAULT_RANGE: IdRange := IdRange(MIN_MESSAGE_ID, MAX_MESSAGE_ID)

  predicate InRange(r: IdRange, id: int)
  {
    r.min <= id <= r.max
  }

  /** The counter step after a successful send: to the minimum once the
      maximum (or anything above it) has been issued, else up by one. */
  function Next(r: IdRange, c: int): (n: int)
    requires ValidRange(r)
    ensures InRange(r, c) ==> InRange(r, n)
    ensures c >= r.max ==> n == r.min
    ensures c < r.max ==> n == c + 1
  {
    if c >= r.max then r.min else c + 1
  }

  /** The id issued just before `c`. */
  function Prev(r: IdRange, c: int): int
  {
    if c == r.min then r.max else c - 1
  }

  /** The id issued `k` sends before the counter read `c`. */
  function Back(r: IdRange, c: int, k: nat): int
  {
    if k == 0 then c else Prev(r, Back(r, c, k - 1))
  }

  lemma PrevNext(r: IdRange, c: int)
    requires ValidRange(r) && InRange(r, c)
    ensures Prev(r, Next(r, c)) == c
  {
  }

  /** Counting back from the next counter value takes one extra step. */
  lemma {:induction false} BackNext(r: IdRange, c: int, k: nat)
    requires ValidRange(r) && InRange(r, c)
    ensures Back(r, Next(r, c), k + 1) == Back(r, c, k)
  {
    if k == 0 {
      PrevNext(r, c);
    } else {
      BackNext(r, c, k - 1);
    }
  }

  /** Closed form of `Back` over one full turn of the id space: first down
      to `min`, then down from `max`. */
  lemma {:induction false} BackClosedForm(r: IdRange, c: int, k: nat)
    requires ValidRange(r) && InRange(r, c)
    requires k <= (c - r.min) + (r.max - r.min + 1)
    ensures k <= c - r.min ==> Back(r, c, k) == c - k
    ensures k > c - r.min ==> Back(r, c, k) == r.max + 1 - (k - (c - r.min))
  {
    if k > 0 {
      BackClosedForm(r, c, k - 1);
    }
  }

  /** The counter after `k` successful sends starting from `c`. */
  function Advance(r: IdRange, c: int, k: nat): (n: int)
    requires ValidRange(r)
    ensures InRange(r, c) ==> InRange(r, n)
  {
    if k == 0 then c else Next(r, Advance(r, c, k - 1))
  }

  /** Counting back `k` ids from the counter reached after `k` sends gives
      the counter the sends started from. */
  lemma {:induction false} AdvanceBack(r: IdRange, c: int, k: nat)
    requires ValidRange(r) && InRange(r, c)
    ensures Back(r, Advance(r, c, k), k) == c
  {
    if k > 0 {
      AdvanceBack(r, c, k - 1);
      BackNext(r, Advance(r, c, k - 1), k - 1);
    }
  }

  /** One `{id: [token, frame]}` record of the sent history. */
  datatype Entry = Entry(id: int, token: string, frame: Bytes)

  /** `deque.append` on a deque of maximum length HISTORY_LIMIT: the record
      goes at the back and, when the deque is full, the oldest one is
      dropped. */
  function Remember(h: seq<Entry>, e: Entry): (h': seq<Entry>)
    ensures |h'| == if |h| < HISTORY_LIMIT then |h| + 1 else |h|
    ensures |h| <= HISTORY_LIMIT ==> |h'| <= HISTORY_LIMIT
    ensures h' == (h + [e])[|h| + 1 - |h'|..]
  {
    if |h| >= HISTORY_LIMIT then h[1..] + [e] else h + [e]
  }

  /** Records appended one after another, oldest first. */
  function RememberAll(h: seq<Entry>, es: seq<Entry>): seq<Entry>
    decreases |es|
  {
    if es == [] then h else Remember(RememberAll(h, es[..|es| - 1]), es[|es| - 1])
  }

  /** How many of `n` records the history holds on to. */
  function Kept(n: nat): nat
  {
    if n <= HISTORY_LIMIT then n else HISTORY_LIMIT
  }

  lemma SliceSnoc<T>(s: seq<T>, e: T, a: int)
    requires 0 <= a <= |s|
    ensures s[a..] + [e] == (s + [e])[a..]
  {
  }

  lemma SliceSlice<T>(s: seq<T>, a: int, d: int)
    requires 0 <= a && 0 <= d && a + d <= |s|
    ensures s[a..][d..] == s[a + d..]
  {
  }

  /** One append to a history that is a suffix of `all` keeps it the
      suffix of `all + [e]` of the length the limit allows. */
  lemma RememberSuffix(all: seq<Entry>, e: Entry, a: int)
    requires 0 <= a <= |all| && |all| - a == Kept(|all|)
    ensures var all1 := all + [e];
            Remember(all[a..], e) == all1[|all1| - Kept(|all1|)..]
  {
    var x := all[a..];
    SliceSnoc(all, e, a);
    if |x| >= HISTORY_LIMIT {
      assert Remember(x, e) == (x + [e])[1..];
      SliceSlice(all + [e], a, 1);
    }
  }

  /** After any run of appends the history holds exactly the newest
      HISTORY_LIMIT records of the old history followed by the new ones. */
  lemma {:induction false} RememberAllKeepsNewest(h: seq<Entry>, es: seq<Entry>)
    requires |h| <= HISTORY_LIMIT
    ensures var all := h + es;
            RememberAll(h, es) == all[|all| - Kept(|all|)..]
    decreases |es|
  {
    if es == [] {
      assert h + es == h;
    } else {
      var es' := es[..|es| - 1];
      var e := es[|es| - 1];
      var all' := h + es';
      assert h + es == all' + [e] by {
        assert es == es' + [e];
      }
      RememberAllKeepsNewest(h, es');
      RememberSuffix(all', e, |all'| - Kept(|all'|));
    }
  }

  /** The history's ids are the ids issued, one after another, just before
      the counter reached `c`: the newest entry has the id before `c`, the
      one before it the id before that, and so on around the wrap. */
  predicate IdsLeadUpTo(r: IdRange, h: seq<Entry>, c: int)
  {
    forall i :: 0 <= i < |h| ==> h[i].id == Back(r, c, |h| - i)
  }

  /** A successful send records the current counter value and then advances
      the counter; the history again leads up to the counter. */
  lemma RememberLeadsUpTo(r: IdRange, h: seq<Entry>, c: int, e: Entry)
    requires ValidRange(r) && InRange(r, c)
    requires IdsLeadUpTo(r, h, c)
    requires e.id == c
    ensures IdsLeadUpTo(r, Remember(h, e), Next(r, c))
  {
    var h' := Remember(h, e);
    var c' := Next(r, c);
    var drop := |h| + 1 - |h'|;
    forall i | 0 <= i < |h'|
      ensures h'[i].id == Back(r, c', |h'| - i)
    {
      var j := i + drop;
      assert h'[i] == (h + [e])[j];
      if j == |h| {
        PrevNext(r, c);
      } else {
        BackNext(r, c, |h| - j);
      }
    }
  }

  /** While the history is no longer than the id space, the ids it holds are
      pairwise distinct, so an id names at most one record. */
  lemma IdsDistinct(r: IdRange, h: seq<Entry>, c: int, i: int, j: int)
    requires ValidRange(r) && InRange(r, c)
    requires IdsLeadUpTo(r, h, c)
    requires |h| <= r.max - r.min
    requires 0 <= i < j < |h|
    ensures h[i].id != h[j].id
  {
    BackClosedForm(r, c, |h| - i);
    BackClosedForm(r, c, |h| - j);
  }

  /** Index of the oldest record carrying `id`. */
  function FirstIndexOf(h: seq<Entry>, id: int): (r: Option<nat>)
    ensures r.Some? ==> r.value < |h| && h[r.value].id == id
                        && forall k :: 0 <= k < r.value ==> h[k].id != id
    ensures r.None? ==> forall k :: 0 <= k < |h| ==> h[k].id != id
  {
    if |h| == 0 then None
    else if h[0].id == id then Some(0)
    else match FirstIndexOf(h[1..], id)
         case Some(k) => Some(k + 1)
         case None => None
  }
}
