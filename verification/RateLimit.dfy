/** The in-memory fixed-window limiter: its code, a specification over the request history alone, and
    the bound it puts on any interval of time. */
module RateLimit {
  import opened Domain

  const GC_INTERVAL := 5 * 60 * 1000

  /** One call of allow: the bucket key and the time, in milliseconds. */
  datatype Request = Request(key: string, at: int)

  datatype Entry = Entry(count: int, resetAt: int)

  predicate Ordered(h: seq<Request>) {
    forall i, j :: 0 <= i < j < |h| ==> h[i].at <= h[j].at
  }

  // ------------------------------------------- the specification over the history

  /** The last of the first n requests with the key, or -1. */
  function LastOf(h: seq<Request>, key: string, n: nat): (l: int)
    requires n <= |h|
    ensures -1 <= l < n
    ensures l >= 0 ==> h[l].key == key
    ensures forall i :: l < i < n ==> h[i].key != key
  {
    if n == 0 then -1 else if h[n - 1].key == key then n - 1 else LastOf(h, key, n - 1)
  }

  /** The request that opened the window in which request i falls. */
  function Opener(h: seq<Request>, i: nat, window: int): (o: nat)
    requires i < |h|
    ensures o <= i && h[o].key == h[i].key
  {
    var p := LastOf(h, h[i].key, i);
    if p < 0 || h[i].at > h[Opener(h, p, window)].at + window then i else Opener(h, p, window)
  }

  /** How many requests with its key precede request i in its window. */
  function Rank(h: seq<Request>, i: nat, window: int): nat
    requires i < |h|
  {
    var p := LastOf(h, h[i].key, i);
    if p < 0 || Opener(h, i, window) == i then 0 else Rank(h, p, window) + 1
  }

  /** The decision on request i: it opens a window, or fewer than `limit` requests precede it there. */
  predicate Allowed(h: seq<Request>, i: nat, limit: int, window: int)
    requires i < |h|
  {
    Opener(h, i, window) == i || Rank(h, i, window) < limit
  }

  function Min(a: int, b: int): int {
    if a < b then a else b
  }

  /** The most one window allows: the code lets its first request through even when limit is below 1. */
  function Cap(limit: int): int {
    if limit < 1 then 1 else limit
  }

  // ------------------------------------------------------------------ the limiter

  function Collected(entries: map<string, Entry>, now: int): map<string, Entry> {
    map key | key in entries && now <= entries[key].resetAt :: entries[key]
  }

  predicate Decide(entries: map<string, Entry>, r: Request, limit: int) {
    r.key !in entries || r.at > entries[r.key].resetAt || entries[r.key].count < limit
  }

  function Charged(entries: map<string, Entry>, r: Request, limit: int, window: int): map<string, Entry> {
    if r.key !in entries || r.at > entries[r.key].resetAt then entries[r.key := Entry(1, r.at + window)]
    else if entries[r.key].count >= limit then entries
    else entries[r.key := entries[r.key].(count := entries[r.key].count + 1)]
  }

  /** The entries after the first n requests, when expired entries are collected before those requests
      that `collect` picks. */
  function EntriesAfter(h: seq<Request>, n: nat, collect: nat -> bool, limit: int, window: int): map<string, Entry>
    requires n <= |h|
    decreases n, 0
  {
    if n == 0 then map[]
    else Charged(EntriesBefore(h, n - 1, collect, limit, window), h[n - 1], limit, window)
  }

  function EntriesBefore(h: seq<Request>, i: nat, collect: nat -> bool, limit: int, window: int): map<string, Entry>
    requires i < |h|
    decreases i, 1
  {
    var entries := EntriesAfter(h, i, collect, limit, window);
    if collect(i) then Collected(entries, h[i].at) else entries
  }

  /** The entry of a key is what the history says, unless its window has passed. */
  predicate KeyRepresented(entries: map<string, Entry>, h: seq<Request>, n: nat, now: int, key: string, limit: int,
                           window: int)
    requires n <= |h|
  {
    var l := LastOf(h, key, n);
    if l < 0 then key !in entries
    else
      var o := Opener(h, l, window);
      if key in entries then entries[key] == Entry(Min(Rank(h, l, window) + 1, Cap(limit)), h[o].at + window)
      else now > h[o].at + window
  }

  ghost predicate Represented(entries: map<string, Entry>, h: seq<Request>, n: nat, now: int, limit: int, window: int)
    requires n <= |h|
  {
    forall key :: KeyRepresented(entries, h, n, now, key, limit, window)
  }

  lemma CollectKeepsRepresented(entries: map<string, Entry>, h: seq<Request>, n: nat, now: int, limit: int, window: int)
    requires n <= |h| && Represented(entries, h, n, now, limit, window)
    ensures Represented(Collected(entries, now), h, n, now, limit, window)
  {
    forall key ensures KeyRepresented(Collected(entries, now), h, n, now, key, limit, window) {
      assert KeyRepresented(entries, h, n, now, key, limit, window);
    }
  }

  lemma LaterIsRepresented(entries: map<string, Entry>, h: seq<Request>, n: nat, now: int, later: int, limit: int,
                           window: int)
    requires n <= |h| && now <= later && Represented(entries, h, n, now, limit, window)
    ensures Represented(entries, h, n, later, limit, window)
  {
    forall key ensures KeyRepresented(entries, h, n, later, key, limit, window) {
      assert KeyRepresented(entries, h, n, now, key, limit, window);
    }
  }

  /** Deciding from the entries is deciding from the history. */
  lemma DecisionIsSpec(entries: map<string, Entry>, h: seq<Request>, i: nat, limit: int, window: int)
    requires i < |h| && Represented(entries, h, i, h[i].at, limit, window)
    ensures Decide(entries, h[i], limit) <==> Allowed(h, i, limit, window)
  {
    assert KeyRepresented(entries, h, i, h[i].at, h[i].key, limit, window);
  }

  lemma ChargeKeepsKey(entries: map<string, Entry>, h: seq<Request>, i: nat, key: string, limit: int, window: int)
    requires i < |h| && Represented(entries, h, i, h[i].at, limit, window)
    ensures KeyRepresented(Charged(entries, h[i], limit, window), h, i + 1, h[i].at, key, limit, window)
  {
    assert KeyRepresented(entries, h, i, h[i].at, key, limit, window);
  }

  lemma ChargeKeepsRepresented(entries: map<string, Entry>, h: seq<Request>, i: nat, limit: int, window: int)
    requires i < |h| && Represented(entries, h, i, h[i].at, limit, window)
    ensures Represented(Charged(entries, h[i], limit, window), h, i + 1, h[i].at, limit, window)
  {
    var charged, n, now := Charged(entries, h[i], limit, window), i + 1, h[i].at;
    forall key ensures KeyRepresented(charged, h, n, now, key, limit, window) {
      ChargeKeepsKey(entries, h, i, key, limit, window);
    }
  }

  lemma {:induction false} EntriesRepresented(h: seq<Request>, n: nat, collect: nat -> bool, limit: int, window: int)
    requires Ordered(h) && n <= |h|
    ensures Represented(EntriesAfter(h, n, collect, limit, window), h, n, if n == 0 then 0
                        else h[n - 1].at, limit, window)
    decreases n, 0
  {
    if n > 0 {
      BeforeRepresented(h, n - 1, collect, limit, window);
      ChargeKeepsRepresented(EntriesBefore(h, n - 1, collect, limit, window), h, n - 1, limit, window);
    }
  }

  lemma {:induction false} BeforeRepresented(h: seq<Request>, i: nat, collect: nat -> bool, limit: int, window: int)
    requires Ordered(h) && i < |h|
    ensures Represented(EntriesBefore(h, i, collect, limit, window), h, i, h[i].at, limit, window)
    decreases i, 1
  {
    var entries := EntriesAfter(h, i, collect, limit, window);
    EntriesRepresented(h, i, collect, limit, window);
    if i > 0 { LaterIsRepresented(entries, h, i, h[i - 1].at, h[i].at, limit, window); }
    else { assert entries == map[]; assert forall key :: KeyRepresented(entries, h, 0, h[0].at, key, limit, window); }
    CollectKeepsRepresented(entries, h, i, h[i].at, limit, window);
  }

  /** Whenever it collects, the limiter decides as the history alone prescribes; so it decides exactly
      as one that never collects. */
  lemma CollectionIsInvisible(h: seq<Request>, i: nat, collect: nat -> bool, limit: int, window: int)
    requires Ordered(h) && i < |h|
    ensures Decide(EntriesBefore(h, i, collect, limit, window), h[i], limit) <==> Allowed(h, i, limit, window)
    ensures Decide(EntriesBefore(h, i, collect, limit, window), h[i], limit)
       <==> Decide(EntriesBefore(h, i, _ => false, limit, window), h[i], limit)
  {
    BeforeRepresented(h, i, collect, limit, window);
    DecisionIsSpec(EntriesBefore(h, i, collect, limit, window), h, i, limit, window);
    BeforeRepresented(h, i, _ => false, limit, window);
    DecisionIsSpec(EntriesBefore(h, i, _ => false, limit, window), h, i, limit, window);
  }

  // --------------------------------------------------------------- what a denial means

  /** How many requests with the key were allowed among h[from..till]. */
  function AllowedAmong(h: seq<Request>, key: string, from: nat, till: nat, limit: int, window: int): nat
    requires from <= till <= |h|
    decreases till
  {
    if from == till then 0
    else AllowedAmong(h, key, from, till - 1, limit, window)
         + if h[till - 1].key == key && Allowed(h, till - 1, limit, window) then 1 else 0
  }

  lemma {:induction false} NoneInBetween(h: seq<Request>, key: string, from: nat, mid: nat, till: nat, limit: int,
                                         window: int)
    requires from <= mid <= till <= |h| && forall i :: mid <= i < till ==> h[i].key != key
    ensures AllowedAmong(h, key, from, till, limit, window) == AllowedAmong(h, key, from, mid, limit, window)
    decreases till
  {
    if mid < till { NoneInBetween(h, key, from, mid, till - 1, limit, window); }
  }

  /** Of the requests of a window, the first ones are allowed, up to the cap. */
  lemma {:induction false} AllowedInWindow(h: seq<Request>, i: nat, limit: int, window: int)
    requires i < |h|
    ensures AllowedAmong(h, h[i].key, Opener(h, i, window), i + 1, limit, window)
            == Min(Rank(h, i, window) + 1, Cap(limit))
  {
    var key, o, p := h[i].key, Opener(h, i, window), LastOf(h, h[i].key, i);
    if o == i {
      assert AllowedAmong(h, key, i, i, limit, window) == 0;
    } else {
      AllowedInWindow(h, p, limit, window);
      NoneInBetween(h, key, o, p + 1, i, limit, window);
    }
  }

  /** A denial implies that exactly `limit` requests with the key were allowed in its current window. */
  lemma DenialMeansFull(h: seq<Request>, i: nat, limit: int, window: int)
    requires i < |h| && limit >= 1 && !Allowed(h, i, limit, window)
    ensures var o := Opener(h, i, window);
            o < i && h[i].at <= h[o].at + window && AllowedAmong(h, h[i].key, o, i, limit, window) == limit
  {
    var key, o, p := h[i].key, Opener(h, i, window), LastOf(h, h[i].key, i);
    AllowedInWindow(h, p, limit, window);
    NoneInBetween(h, key, o, p + 1, i, limit, window);
  }

  // -------------------------------------------------------------- the bound in time

  predicate Hit(r: Request, key: string, a: int, b: int) {
    r.key == key && a <= r.at <= b
  }

  /** How many of the first n requests with the key in the closed interval [a, b] were allowed. */
  function AllowedDuring(h: seq<Request>, key: string, a: int, b: int, n: nat, limit: int, window: int): nat
    requires n <= |h|
  {
    if n == 0 then 0
    else AllowedDuring(h, key, a, b, n - 1, limit, window)
         + if Hit(h[n - 1], key, a, b) && Allowed(h, n - 1, limit, window) then 1 else 0
  }

  /** How many windows those requests fall in. */
  function WindowsDuring(h: seq<Request>, key: string, a: int, b: int, n: nat, window: int): nat
    requires n <= |h|
  {
    if n == 0 then 0
    else
      var before := WindowsDuring(h, key, a, b, n - 1, window);
      var p := LastOf(h, key, n - 1);
      if Hit(h[n - 1], key, a, b) && (p < 0 || h[p].at < a || Opener(h, n - 1, window) == n - 1) then before + 1
      else before
  }

  /** 1 if the first of those requests falls in a window that another request had opened, else 0. */
  function Early(h: seq<Request>, key: string, a: int, b: int, n: nat, window: int): (e: nat)
    requires n <= |h|
    ensures e <= 1
  {
    if n == 0 then 0
    else if Hit(h[n - 1], key, a, b)
        && WindowsDuring(h, key, a, b, n - 1, window) == 0 then (if Opener(h, n - 1, window) == n - 1 then 0 else 1)
    else Early(h, key, a, b, n - 1, window)
  }

  /** Before the interval there is nothing to count. */
  lemma {:induction false} NothingBefore(h: seq<Request>, key: string, a: int, b: int, n: nat, limit: int, window: int)
    requires n <= |h| && forall i :: 0 <= i < n ==> !Hit(h[i], key, a, b)
    ensures AllowedDuring(h, key, a, b, n, limit, window) == 0 && WindowsDuring(h, key, a, b, n, window) == 0
    ensures Early(h, key, a, b, n, window) == 0
  {
    if n > 0 { NothingBefore(h, key, a, b, n - 1, limit, window); }
  }

  lemma {:induction false} NothingMore(h: seq<Request>, key: string, a: int, b: int, m: nat, n: nat, limit: int,
                                       window: int)
    requires m <= n <= |h| && forall i :: m <= i < n ==> !Hit(h[i], key, a, b)
    ensures AllowedDuring(h, key, a, b, n, limit, window) == AllowedDuring(h, key, a, b, m, limit, window)
    ensures WindowsDuring(h, key, a, b, n, window) == WindowsDuring(h, key, a, b, m, window)
    ensures Early(h, key, a, b, n, window) == Early(h, key, a, b, m, window)
    decreases n
  {
    if m < n { NothingMore(h, key, a, b, m, n - 1, limit, window); }
  }

  /** What the windows met so far allow: each is full at most, the first one lacks its opener if that came
      before the interval, and each opened later than the end of the one before. `w` windows, the last
      one opened at `o` and met `rank` requests before; `n` requests allowed. */
  predicate WithinWindows(n: int, w: int, e: int, o: int, rank: int, a: int, cap: int, window: int) {
    && w >= 1
    && n + e <= cap * (w - 1) + Min(rank + 1, cap)
    && (e == 0 || w >= 2 ==> o >= a + e + (w - 1 - e) * (window + 1))
  }

  predicate CountedAt(h: seq<Request>, key: string, a: int, b: int, n: nat, i: nat, limit: int, window: int)
    requires n <= |h| && i < |h|
  {
    WithinWindows(AllowedDuring(h, key, a, b, n, limit, window), WindowsDuring(h, key, a, b, n, window),
                  Early(h, key, a, b, n, window),
                  h[Opener(h, i, window)].at, Rank(h, i, window), a, Cap(limit), window)
  }

  lemma {:induction false} CountAtHit(h: seq<Request>, key: string, a: int, b: int, i: nat, limit: int, window: int)
    requires Ordered(h) && i < |h| && Hit(h[i], key, a, b) && window >= 0
    ensures CountedAt(h, key, a, b, i + 1, i, limit, window)
  {
    var p := LastOf(h, key, i);
    if p < 0 || h[p].at < a {
      FirstHit(h, key, a, b, i, limit, window);
    } else {
      hide CountedAt, AllowedDuring, WindowsDuring, Early;
      CountAtHit(h, key, a, b, p, limit, window);
      NothingMore(h, key, a, b, p + 1, i, limit, window);
      SameCount(h, key, a, b, p + 1, i, p, limit, window);
      NextHit(h, key, a, b, i, p, limit, window);
    }
  }

  lemma SameCount(h: seq<Request>, key: string, a: int, b: int, m: nat, n: nat, i: nat, limit: int, window: int)
    requires m <= |h| && n <= |h| && i < |h| && CountedAt(h, key, a, b, m, i, limit, window)
    requires AllowedDuring(h, key, a, b, n, limit, window) == AllowedDuring(h, key, a, b, m, limit, window)
    requires WindowsDuring(h, key, a, b, n, window) == WindowsDuring(h, key, a, b, m, window)
    requires Early(h, key, a, b, n, window) == Early(h, key, a, b, m, window)
    ensures CountedAt(h, key, a, b, n, i, limit, window)
  {
  }

  lemma FirstHit(h: seq<Request>, key: string, a: int, b: int, i: nat, limit: int, window: int)
    requires Ordered(h) && i < |h| && Hit(h[i], key, a, b) && window >= 0
    requires LastOf(h, key, i) < 0 || h[LastOf(h, key, i)].at < a
    ensures CountedAt(h, key, a, b, i + 1, i, limit, window)
  {
    var p := LastOf(h, key, i);
    assert forall j :: 0 <= j < i && h[j].key == key ==> j <= p;
    NothingBefore(h, key, a, b, i, limit, window);
    if Opener(h, i, window) != i { assert Rank(h, i, window) >= 1; }
  }

  lemma NextHit(h: seq<Request>, key: string, a: int, b: int, i: nat, p: nat, limit: int, window: int)
    requires Ordered(h) && p < i < |h| && Hit(h[i], key, a, b) && window >= 0
    requires p == LastOf(h, key, i) && h[p].at >= a && CountedAt(h, key, a, b, i, p, limit, window)
    ensures CountedAt(h, key, a, b, i + 1, i, limit, window)
  {
    var w, e, n := WindowsDuring(h, key, a, b, i, window), Early(h, key, a, b, i, window),
        AllowedDuring(h, key, a, b, i, limit, window);
    var o := h[Opener(h, p, window)].at;
    assert Early(h, key, a, b, i + 1, window) == e;
    assert WithinWindows(n, w, e, o, Rank(h, p, window), a, Cap(limit), window);
    if Opener(h, i, window) == i {
      OpenerCovers(h, p, window);
      NewWindow(n, w, e, o, Rank(h, p, window), a, Cap(limit), window, h[i].at);
    } else {
      OneMore(n, w, e, o, Rank(h, p, window), a, limit, window);
    }
  }

  lemma NewWindow(n: int, w: int, e: int, o: int, rank: int, a: int, cap: int, window: int, at: int)
    requires WithinWindows(n, w, e, o, rank, a, cap, window) && 0 <= e <= 1 && cap >= 1 && at > o + window && at > a
    ensures WithinWindows(n + 1, w + 1, e, at, 0, a, cap, window)
  {
    OneWindowMore(cap, w, window);
    assert (w - e) * (window + 1) == (w - 1 - e) * (window + 1) + window + 1;
  }

  lemma OneMore(n: int, w: int, e: int, o: int, rank: int, a: int, limit: int, window: int)
    requires WithinWindows(n, w, e, o, rank, a, Cap(limit), window)
    ensures WithinWindows(n + if rank + 1 < limit then 1 else 0, w, e, o, rank + 1, a, Cap(limit), window)
  {
  }

  lemma OneWindowMore(cap: int, w: int, window: int)
    ensures cap * w == cap * (w - 1) + cap
  {
  }

  lemma OpenerCovers(h: seq<Request>, i: nat, window: int)
    requires i < |h| && window >= 0
    ensures h[i].at <= h[Opener(h, i, window)].at + window
  {
  }

  /** Rounded up. */
  function CeilDiv(a: nat, b: nat): nat
    requires b > 0
  {
    (a + b - 1) / b
  }

  /** The most that an interval of the given length can allow. A window ends strictly after `window`, so windows
      open at least window + 1 apart. A window that opened before the interval adds all but its opener. */
  function MostAllowed(length: nat, limit: int, window: nat): int {
    var period := window + 1;
    if length % period == 0 then Cap(limit) * (length / period + 1) else Cap(limit) * (length / period + 2) - 1
  }

  lemma Scaled(x: int, y: int, k: nat)
    requires x <= y
    ensures x * k <= y * k
  {
  }

  lemma AtMost(x: int, length: nat, period: nat)
    requires period > 0 && x * period <= length
    ensures x <= length / period
  {
    if x > length / period { Scaled(length / period + 1, x, period); }
  }

  /** How many windows an interval meets. */
  lemma WindowsFit(w: nat, e: int, length: nat, window: nat)
    requires w >= 1 && 0 <= e <= 1
    requires e == 0 || w >= 2 ==> e + (w - 1 - e) * (window + 1) <= length
    ensures w <= length / (window + 1) + 1 + e
    ensures length % (window + 1) == 0 ==> w <= length / (window + 1) + 1
  {
    var period := window + 1;
    AtMost(0, length, period);
    if e == 0 {
      AtMost(w - 1, length, period);
    } else if w >= 2 {
      assert (w - 1 - e) * period == (w - 2) * period;
      AtMost(w - 2, length, period);
      if length % period == 0 { AtMostBefore(w - 2, length, period); }
    }
  }

  /** With w windows in an interval of the given length. */
  lemma WindowsAllow(n: int, w: int, e: int, length: nat, limit: int, window: nat)
    requires w >= 1 && 0 <= e <= 1 && n + e <= Cap(limit) * w
    requires e == 0 || w >= 2 ==> e + (w - 1 - e) * (window + 1) <= length
    ensures n <= MostAllowed(length, limit, window)
  {
    WindowsFit(w, e, length, window);
    var q, cap := length / (window + 1), Cap(limit);
    var most := if length % (window + 1) == 0 then q + 1 else q + 1 + e;
    Scaled(w, most, cap);
    assert cap * (q + 2) == cap * (q + 1) + cap;
  }

  lemma AtMostBefore(x: int, length: nat, period: nat)
    requires period > 0 && length % period == 0 && x * period + 1 <= length
    ensures x + 1 <= length / period
  {
    assert length == (length / period) * period;
    if x >= length / period { Scaled(length / period, x, period); }
  }

  /** For any key, any closed interval allows at most MostAllowed, over every request history. */
  lemma SharpBound(h: seq<Request>, key: string, a: int, length: nat, limit: int, window: nat)
    requires Ordered(h)
    ensures AllowedDuring(h, key, a, a + length, |h|, limit, window) <= MostAllowed(length, limit, window)
  {
    hide AllowedDuring, WindowsDuring, Early, Rank, MostAllowed;
    var b, last := a + length, LastHit(h, key, a, a + length, |h|);
    if last < 0 {
      NothingBefore(h, key, a, b, |h|, limit, window);
      WindowsAllow(0, 1, 0, length, limit, window);
    } else {
      CountAtHit(h, key, a, b, last, limit, window);
      NothingMore(h, key, a, b, last + 1, |h|, limit, window);
      SameCount(h, key, a, b, last + 1, |h|, last, limit, window);
      var w := WindowsDuring(h, key, a, b, |h|, window);
      OneWindowMore(Cap(limit), w, window);
      WindowsAllow(AllowedDuring(h, key, a, b, |h|, limit, window), w, Early(h, key, a, b, |h|, window), length, limit,
                   window);
    }
  }

  /** So an interval of length T allows at most Cap(limit) * (ceil(T / window) + 1) requests, and one window
      length fewer than twice the cap. */
  lemma IntervalBound(h: seq<Request>, key: string, a: int, length: nat, limit: int, window: nat)
    requires Ordered(h) && window > 0
    ensures AllowedDuring(h, key, a, a + length, |h|, limit, window) <= Cap(limit) * (CeilDiv(length, window) + 1)
    ensures length <= window ==> AllowedDuring(h, key, a, a + length, |h|, limit, window) <= 2 * Cap(limit) - 1
  {
    hide AllowedDuring;
    SharpBound(h, key, a, length, limit, window);
    MostAllowedIsLess(length, limit, window);
  }

  lemma MostAllowedIsLess(length: nat, limit: int, window: nat)
    requires window > 0
    ensures MostAllowed(length, limit, window) <= Cap(limit) * (CeilDiv(length, window) + 1)
    ensures length <= window ==> MostAllowed(length, limit, window) <= 2 * Cap(limit) - 1
  {
    FloorBelowCeil(length, window);
    var more := if length % (window + 1) == 0 then 1 else 2;
    Scaled(length / (window + 1) + more, CeilDiv(length, window) + 1, Cap(limit));
    hide CeilDiv;
    if length <= window { WithinOneWindow(length, limit, window); }
  }

  lemma WithinOneWindow(length: nat, limit: int, window: nat)
    requires length <= window
    ensures MostAllowed(length, limit, window) == if length == 0 then Cap(limit) else 2 * Cap(limit) - 1
  {
    assert length == 0 * (window + 1) + length;
    assert length / (window + 1) == 0 && length % (window + 1) == length;
  }

  lemma FloorBelowCeil(length: nat, window: nat)
    requires window > 0
    ensures length / (window + 1) + (if length % (window + 1) == 0 then 0 else 1) <= CeilDiv(length, window)
  {
    var period := window + 1;
    var q, r := length / period, length % period;
    assert length == q * window + q + r;
    if r > 0 {
      assert (length + window - 1) - (q + 1) * window >= 0;
      AtMost(q + 1, length + window - 1, window);
    } else {
      AtMost(q, length + window - 1, window);
    }
  }

  // ---------------------------------------------------------------- the bound is attained

  /** Blocks of `limit` requests, one period after the other, each at one time; if `late`, the first block has
      only its opener at that time and the rest at the last moment of its window. */
  function Train(limit: nat, window: nat, blocks: nat, late: bool): (h: seq<Request>)
    requires limit >= 1
    ensures forall i :: 0 <= i < |h| ==> h[i].key == "key"
  {
    seq(blocks * limit, i requires i >= 0 => Request("key", if late && 0 < i < limit then window
                                                     else (i / limit) * (window + 1)))
  }

  lemma DivMod(limit: nat, j: nat, r: nat)
    requires r < limit
    ensures (j * limit + r) / limit == j
  {
    var i := j * limit + r;
    assert i == (i / limit) * limit + i % limit;
    if i / limit > j { Scaled(j + 1, i / limit, limit); }
    if i / limit < j { Scaled(i / limit + 1, j, limit); }
  }

  lemma TrainAt(limit: nat, window: nat, blocks: nat, late: bool, j: nat, r: nat)
    requires j < blocks && r < limit
    ensures j * limit + r < |Train(limit, window, blocks, late)|
    ensures Train(limit, window, blocks, late)[j * limit + r]
         == Request("key", if late && j == 0 && r > 0 then window else j * (window + 1))
  {
    DivMod(limit, j, r);
    Scaled(j + 1, blocks, limit);
    if j > 0 { Scaled(1, j, limit); }
  }

  lemma NextInWindow(h: seq<Request>, i: nat, window: nat)
    requires 0 < i < |h| && LastOf(h, h[i].key, i) == i - 1
    ensures var o := Opener(h, i - 1, window);
            if h[i].at <= h[o].at + window then Opener(h, i, window) == o
               && Rank(h, i, window) == Rank(h, i - 1, window) + 1
            else Opener(h, i, window) == i && Rank(h, i, window) == 0
  {
  }

  /** All requests of a block fall in the window that its first one opens. */
  lemma {:induction false} TrainRanks(limit: nat, window: nat, blocks: nat, late: bool, j: nat, r: nat)
    requires j < blocks && r < limit
    ensures var h, i := Train(limit, window, blocks, late), j * limit + r;
            i < |h| && Opener(h, i, window) == j * limit && Rank(h, i, window) == r
    decreases j, r
  {
    hide Train, Opener, Rank, LastOf;
    var h, i := Train(limit, window, blocks, late), j * limit + r;
    TrainAt(limit, window, blocks, late, j, r);
    TrainAt(limit, window, blocks, late, j, 0);
    if r > 0 {
      TrainRanks(limit, window, blocks, late, j, r - 1);
      TrainKeys(limit, window, blocks, late, i);
      NextInWindow(h, i, window);
    } else if j > 0 {
      NextBlock(j, limit, window);
      TrainRanks(limit, window, blocks, late, j - 1, limit - 1);
      TrainAt(limit, window, blocks, late, j - 1, 0);
      TrainKeys(limit, window, blocks, late, i);
      NextInWindow(h, i, window);
    } else {
      FirstOfAll(h, window);
    }
  }

  lemma FirstOfAll(h: seq<Request>, window: nat)
    requires h != []
    ensures Opener(h, 0, window) == 0 && Rank(h, 0, window) == 0
  {
  }

  lemma TrainKeys(limit: nat, window: nat, blocks: nat, late: bool, i: nat)
    requires limit >= 1 && i < |Train(limit, window, blocks, late)|
    ensures LastOf(Train(limit, window, blocks, late), Train(limit, window, blocks, late)[i].key, i) == i - 1
  {
    hide Train;
    SameKey(Train(limit, window, blocks, late), i);
  }

  lemma NextBlock(j: nat, limit: nat, window: nat)
    requires j > 0
    ensures j * limit == (j - 1) * limit + limit
    ensures j * (window + 1) == (j - 1) * (window + 1) + window + 1
  {
  }

  lemma SameKey(h: seq<Request>, i: nat)
    requires i < |h| && forall k :: 0 <= k <= i ==> h[k].key == "key"
    ensures LastOf(h, "key", i) == i - 1
  {
  }

  lemma {:induction false} TrainAllowed(limit: nat, window: nat, blocks: nat, late: bool, a: int, b: int, n: nat)
    requires limit >= 1 && n <= |Train(limit, window, blocks, late)|
    requires var h := Train(limit, window, blocks, late);
             forall i :: 0 <= i < n ==> h[i].at <= b && (h[i].at >= a <==> !(late && i == 0))
    ensures AllowedDuring(Train(limit, window, blocks, late), "key", a, b, n, limit, window) == if late
            && n > 0 then n - 1 else n
  {
    hide Train, Opener, Rank, LastOf;
    if n > 0 {
      var h, j, r := Train(limit, window, blocks, late), (n - 1) / limit, (n - 1) % limit;
      TrainAllowed(limit, window, blocks, late, a, b, n - 1);
      InBlock(limit, window, blocks, late, n - 1);
      TrainAt(limit, window, blocks, late, j, r);
      TrainRanks(limit, window, blocks, late, j, r);
    }
  }

  lemma InBlock(limit: nat, window: nat, blocks: nat, late: bool, i: nat)
    requires limit >= 1 && i < |Train(limit, window, blocks, late)|
    ensures i == (i / limit) * limit + i % limit && i / limit < blocks
  {
    if i / limit >= blocks { Scaled(blocks, i / limit, limit); }
  }

  lemma TrainTimes(limit: nat, window: nat, blocks: nat, late: bool, i: nat)
    requires limit >= 1 && i < |Train(limit, window, blocks, late)|
    ensures var at := Train(limit, window, blocks, late)[i].at;
            && (late && 0 < i < limit ==> at == window)
            && (!(late && 0 < i < limit) ==> at == (i / limit) * (window + 1))
            && at <= (blocks - 1) * (window + 1) + (if late && blocks == 1 then window else 0)
            && (late && i > 0 ==> at >= window) && at >= 0
  {
    hide Train;
    InBlock(limit, window, blocks, late, i);
    var j, r := i / limit, i % limit;
    TrainAt(limit, window, blocks, late, j, r);
    BlockTimes(j, blocks, window);
    if j > 0 { Scaled(1, j, limit); }
  }

  lemma BlockTimes(j: nat, blocks: nat, window: nat)
    requires j < blocks
    ensures j * (window + 1) <= (blocks - 1) * (window + 1)
    ensures j > 0 ==> j * (window + 1) > window
    ensures blocks > 1 ==> window <= (blocks - 1) * (window + 1)
  {
    Scaled(j, blocks - 1, window + 1);
    if j > 0 { Scaled(1, j, window + 1); }
    if blocks > 1 { Scaled(1, blocks - 1, window + 1); }
  }

  lemma TrainIsOrdered(limit: nat, window: nat, blocks: nat, late: bool)
    requires limit >= 1
    ensures Ordered(Train(limit, window, blocks, late))
  {
    hide Train;
    var h := Train(limit, window, blocks, late);
    forall i, k | 0 <= i < k < |h| ensures h[i].at <= h[k].at {
      InBlock(limit, window, blocks, late, i);
      InBlock(limit, window, blocks, late, k);
      DivisionGrows(i, k, limit);
      Scaled(i / limit, k / limit, window + 1);
      TrainTimes(limit, window, blocks, late, i);
      TrainTimes(limit, window, blocks, late, k);
    }
  }

  lemma DivisionGrows(i: nat, k: nat, limit: nat)
    requires 1 <= limit && i <= k
    ensures i / limit <= k / limit
  {
    assert i == (i / limit) * limit + i % limit && k == (k / limit) * limit + k % limit;
    if i / limit > k / limit { Scaled(k / limit + 1, i / limit, limit); }
  }

  lemma AlignedTrain(limit: nat, window: nat, q: nat)
    requires limit >= 1
    ensures var h := Train(limit, window, q + 1, false);
            AllowedDuring(h, "key", 0, q * (window + 1), |h|, limit, window) == limit * (q + 1)
  {
    var h := Train(limit, window, q + 1, false);
    hide AllowedDuring;
    forall i | 0 <= i < |h| ensures 0 <= h[i].at <= q * (window + 1) { TrainTimes(limit, window, q + 1, false, i); }
    TrainAllowed(limit, window, q + 1, false, 0, q * (window + 1), |h|);
  }

  lemma LateTimes(limit: nat, window: nat, q: nat, length: nat, i: nat)
    requires limit >= 1 && window > 0 && length >= q * (window + 1) + 1 && i < |Train(limit, window, q + 2, true)|
    ensures var at := Train(limit, window, q + 2, true)[i].at;
            at <= window + length && (at >= window <==> i != 0)
  {
    hide Train;
    TrainTimes(limit, window, q + 2, true, i);
    NextBlock(q + 1, limit, window);
    if i == 0 { DivMod(limit, 0, 0); }
  }

  lemma LateTrain(limit: nat, window: nat, q: nat, length: nat)
    requires limit >= 1 && window > 0 && length >= q * (window + 1) + 1
    ensures var h := Train(limit, window, q + 2, true);
            AllowedDuring(h, "key", window, window + length, |h|, limit, window) == limit * (q + 2) - 1
  {
    hide AllowedDuring;
    var h := Train(limit, window, q + 2, true);
    Scaled(1, q + 2, limit);
    assert |h| == limit * (q + 2);
    hide Train;
    forall i | 0 <= i < |h| ensures h[i].at <= window + length && (h[i].at >= window <==> i != 0) {
      LateTimes(limit, window, q, length, i);
    }
    TrainAllowed(limit, window, q + 2, true, window, window + length, |h|);
  }

  lemma CapIsAttained(limit: nat, window: nat, length: nat) returns (h: seq<Request>, a: int)
    requires limit >= 1
    ensures Ordered(h) && AllowedDuring(h, "key", a, a + length, |h|, limit, window)
            == MostAllowed(length, limit, window)
  {
    hide AllowedDuring, Ordered;
    var q := length / (window + 1);
    assert length == q * (window + 1) + length % (window + 1);
    if length % (window + 1) == 0 {
      h, a := Train(limit, window, q + 1, false), 0;
      TrainIsOrdered(limit, window, q + 1, false);
      AlignedTrain(limit, window, q);
    } else {
      h, a := Train(limit, window, q + 2, true), window;
      TrainIsOrdered(limit, window, q + 2, true);
      LateTrain(limit, window, q, length);
    }
  }

  /** A limit below 1 allows the openers of windows, as a limit of 1 does. */
  lemma {:induction false} CapAllowsTheSame(h: seq<Request>, key: string, a: int, b: int, n: nat, limit: int,
                                            window: nat)
    requires n <= |h|
    ensures AllowedDuring(h, key, a, b, n, limit, window) == AllowedDuring(h, key, a, b, n, Cap(limit), window)
  {
    if n > 0 {
      CapAllowsTheSame(h, key, a, b, n - 1, limit, window);
      assert Rank(h, n - 1, window) == 0 <==> Opener(h, n - 1, window) == n - 1;
    }
  }

  /** For every limit, window and length some history allows as many requests as an interval of that length
      can: one that begins with its first window or, unless it ends with one, at the end of a window. */
  lemma BoundIsAttained(limit: int, window: nat, length: nat) returns (h: seq<Request>, a: int)
    ensures Ordered(h) && AllowedDuring(h, "key", a, a + length, |h|, limit, window)
            == MostAllowed(length, limit, window)
  {
    hide AllowedDuring, Ordered;
    h, a := CapIsAttained(Cap(limit), window, length);
    CapAllowsTheSame(h, "key", a, a + length, |h|, limit, window);
  }

  function LastHit(h: seq<Request>, key: string, a: int, b: int, n: nat): (l: int)
    requires n <= |h|
    ensures -1 <= l < n
    ensures l >= 0 ==> Hit(h[l], key, a, b)
    ensures forall i :: l < i < n ==> !Hit(h[i], key, a, b)
  {
    if n == 0 then -1 else if Hit(h[n - 1], key, a, b) then n - 1 else LastHit(h, key, a, b, n - 1)
  }

  // ------------------------------------------------------------------------- the code

  class RateLimiter {
    var entries: map<string, Entry>
    const limit: int
    const window: int
    const scope: string
    var lastGC: Option<int>      // None is the zero time
    ghost var history: seq<Request>

    constructor (limit: int, window: int, scope: string)
      ensures Valid() && history == []
      ensures this.limit == limit && this.window == window && this.scope == scope
    {
      this.limit, this.window, this.scope := limit, window, scope;
      entries, lastGC, history := map[], None, [];
    }

    ghost function Now(): int
      reads this
    {
      if history == [] then 0 else history[|history| - 1].at
    }

    ghost predicate Valid()
      reads this
    {
      Ordered(history) && Represented(entries, history, |history|, Now(), limit, window)
    }

    /** More than five minutes have passed since the last collection, if there was one. */
    predicate Due(now: int)
      reads this`lastGC
    {
      lastGC.None? || now - lastGC.value > 5 * 60 * 1000
    }

    /** The decision on a request is the one its whole history prescribes. */
    method Allow(ip: string, now: int) returns (ok: bool)
      requires Valid() && (history != [] ==> Now() <= now)
      modifies this
      ensures Valid() && history == old(history) + [Request(scope + ":" + ip, now)]
      ensures ok <==> Allowed(history, |history| - 1, limit, window)
      ensures lastGC == if old(Due(now)) then Some(now) else old(lastGC)
      ensures entries == Charged(if old(Due(now)) then Collected(old(entries), now) else old(entries),
                                 Request(scope + ":" + ip, now), limit, window)
    {
      var key := scope + ":" + ip;
      ghost var i := |history|;
      ghost var h := history + [Request(key, now)];
      hide Represented, Allowed;
      RequestIsSpec(entries, history, h[i], Now(), limit, window);
      if lastGC.None? || now - lastGC.value > GC_INTERVAL {
        Gc(now);
        lastGC := Some(now);
      }
      history := h;
      if key !in entries || now > entries[key].resetAt {
        entries := entries[key := Entry(1, now + window)];
        return true;
      }
      if entries[key].count >= limit {
        return false;
      }
      entries := entries[key := entries[key].(count := entries[key].count + 1)];
      return true;
    }

    /** Deletes the entries whose window has passed, and no other. */
    method Gc(now: int)
      modifies this`entries
      ensures entries == Collected(old(entries), now)
    {
      var keys := entries.Keys;
      while keys != {}
        invariant keys <= entries.Keys
        invariant forall key :: key in entries ==> key in old(entries) && entries[key] == old(entries)[key]
        invariant forall key :: key in old(entries) ==>
                  (key in entries <==> key in keys || now <= old(entries)[key].resetAt)
        decreases |keys|
      {
        var key :| key in keys;
        keys := keys - {key};
        if now > entries[key].resetAt {
          entries := entries - {key};
        }
      }
    }
  }

  /** Whether or not its entries are collected first, a request is decided and charged as the spec says. */
  lemma RequestIsSpec(entries: map<string, Entry>, history: seq<Request>, r: Request, before: int, limit: int,
                      window: int)
    requires Ordered(history) && Represented(entries, history, |history|, before, limit, window)
    requires history != [] ==> before == history[|history| - 1].at && before <= r.at
    ensures var h, collected := history + [r], Collected(entries, r.at);
            && Ordered(h)
            && (Decide(entries, r, limit) <==> Allowed(h, |history|, limit, window))
            && Represented(Charged(entries, r, limit, window), h, |h|, r.at, limit, window)
            && (Decide(collected, r, limit) <==> Allowed(h, |history|, limit, window))
            && Represented(Charged(collected, r, limit, window), h, |h|, r.at, limit, window)
  {
    var h, i := history + [r], |history|;
    Extended(entries, history, r, before, limit, window);
    if history != [] { LaterIsRepresented(entries, h, i, before, r.at, limit, window); }
    else { NothingRepresented(entries, h, before, r.at, limit, window); }
    hide Represented, Allowed;
    CollectKeepsRepresented(entries, h, i, r.at, limit, window);
    DecisionIsSpec(entries, h, i, limit, window);
    ChargeKeepsRepresented(entries, h, i, limit, window);
    DecisionIsSpec(Collected(entries, r.at), h, i, limit, window);
    ChargeKeepsRepresented(Collected(entries, r.at), h, i, limit, window);
  }

  lemma {:induction false} SamePast(h: seq<Request>, r: Request, i: nat, key: string, window: int)
    requires i <= |h|
    ensures LastOf(h + [r], key, i) == LastOf(h, key, i)
    ensures i < |h| ==>
              Opener(h + [r], i, window) == Opener(h, i, window) && Rank(h + [r], i, window) == Rank(h, i, window)
    decreases i
  {
    if i > 0 { SamePast(h, r, i - 1, key, window); }
    if i < |h| {
      SameLast(h, r, i, h[i].key);
      var p := LastOf(h, h[i].key, i);
      if p >= 0 { SamePast(h, r, p, key, window); }
    }
  }

  lemma {:induction false} SameLast(h: seq<Request>, r: Request, i: nat, key: string)
    requires i <= |h|
    ensures LastOf(h + [r], key, i) == LastOf(h, key, i)
  {
    if i > 0 { SameLast(h, r, i - 1, key); }
  }

  lemma Extended(entries: map<string, Entry>, h: seq<Request>, r: Request, now: int, limit: int, window: int)
    requires Represented(entries, h, |h|, now, limit, window)
    ensures Represented(entries, h + [r], |h|, now, limit, window)
  {
    var n, more := |h|, h + [r];
    forall key ensures KeyRepresented(entries, more, n, now, key, limit, window) {
      assert KeyRepresented(entries, h, n, now, key, limit, window);
      SamePast(h, r, n, key, window);
      var l := LastOf(h, key, n);
      if l >= 0 { SamePast(h, r, l, key, window); }
    }
  }

  lemma NothingRepresented(entries: map<string, Entry>, h: seq<Request>, now: int, later: int, limit: int, window: int)
    requires Represented(entries, h, 0, now, limit, window)
    ensures Represented(entries, h, 0, later, limit, window)
  {
    forall key ensures KeyRepresented(entries, h, 0, later, key, limit, window) {
      assert KeyRepresented(entries, h, 0, now, key, limit, window);
    }
  }
}
