/**
 The fixed-window request limiter of src/lib/rate-limit.ts: a table of counters per client, reset lazily by the next
 request and swept by a background timer.
 */
module RateLimit {

  /** `critical` limiters ignore the switch that turns rate limiting off. */
  datatype Limits = Limits(windowMs: nat, maxRequests: nat, critical: bool)
  datatype Entry = Entry(count: nat, resetAt: int)
  type Store = map<string, Entry>

  /******* The limiter *******/

  function NewEntry(l: Limits, store: Store, key: string, now: int): Entry
  {
    if key !in store || now > store[key].resetAt
    then Entry(1, now + l.windowMs)
    else Entry(store[key].count + 1, store[key].resetAt)
  }

  predicate Admits(l: Limits, store: Store, key: string, now: int)
  {
    key !in store || now > store[key].resetAt || store[key].count + 1 <= l.maxRequests
  }

  function Swept(store: Store, now: int): Store
  {
    map k | k in store && now <= store[k].resetAt :: store[k]
  }

  class RateLimiter {
    const limits: Limits
    var store: Store

    constructor (limits: Limits)
      ensures this.limits == limits && store == map[]
    {
      this.limits := limits;
      store := map[];
    }

    /** `disabled` is the environment switch, read at every call. */
    method Check(ip: string, now: int, disabled: bool) returns (admitted: bool)
      modifies this
      ensures var e := Request(ip, now, disabled && !limits.critical);
              store == After(limits, old(store), e) && admitted == Answer(limits, old(store), e)
      ensures disabled && !limits.critical ==> admitted && store == old(store)
    {
      if disabled && !limits.critical {
        return true;
      }
      if ip !in store || now > store[ip].resetAt {
        store := store[ip := Entry(1, now + limits.windowMs)];
        return true;
      }
      store := store[ip := store[ip].(count := store[ip].count + 1)];
      if store[ip].count > limits.maxRequests {
        return false;
      }
      return true;
    }

    method Cleanup(now: int)
      modifies this
      ensures store == Swept(old(store), now)
    {
      var left := store.Keys;
      while left != {}
        invariant left <= store.Keys
        invariant store == map k | k in old(store) && (k in left || now <= old(store)[k].resetAt) :: old(store)[k]
        decreases |left|
      {
        var key :| key in left;
        if now > store[key].resetAt {
          store := store - {key};
        }
        left := left - {key};
      }
    }
  }

  /******* Runs *******/

  /** A request that the switch lets through uncounted is `bypassed`. */
  datatype Event = Request(key: string, now: int, bypassed: bool) | Cleanup(now: int)

  function After(l: Limits, store: Store, e: Event): Store
  {
    match e
    case Request(key, now, bypassed) => if bypassed then store else store[key := NewEntry(l, store, key, now)]
    case Cleanup(now) => Swept(store, now)
  }

  predicate Answer(l: Limits, store: Store, e: Event)
    requires e.Request?
  {
    e.bypassed || Admits(l, store, e.key, e.now)
  }

  function StoreAfter(l: Limits, events: seq<Event>): Store
  {
    if events == [] then map[] else After(l, StoreAfter(l, events[..|events| - 1]), events[|events| - 1])
  }

  predicate Monotone(events: seq<Event>)
  {
    forall i, j :: 0 <= i < j < |events| ==> events[i].now <= events[j].now
  }

  predicate Counts(e: Event, key: string)
  {
    e.Request? && !e.bypassed && e.key == key
  }

  /** The times of the counted requests of one client. */
  function Times(events: seq<Event>, key: string): seq<int>
  {
    if events == [] then []
    else
      var earlier, e := Times(events[..|events| - 1], key), events[|events| - 1];
      if Counts(e, key) then earlier + [e.now] else earlier
  }

  /******* The reference *******/

  /** Among the request times of one client: the request that opened the window of request i. A window is opened by
      the first request later than the end of the last. */
  function Opening(ts: seq<int>, w: nat, i: nat): (o: nat)
    requires i < |ts|
    ensures o <= i
  {
    if i == 0 then 0
    else
      var o := Opening(ts, w, i - 1);
      if ts[i] > ts[o] + w then i else o
  }

  function PerWindow(l: Limits): (m: nat)
    ensures m >= 1 && m >= l.maxRequests
  {
    if l.maxRequests == 0 then 1 else l.maxRequests
  }

  /** Request i is admitted iff it is among the first PerWindow requests of its window. */
  predicate Within(l: Limits, ts: seq<int>, i: nat)
    requires i < |ts|
  {
    i - Opening(ts, l.windowMs, i) < PerWindow(l)
  }

  predicate Ascending(ts: seq<int>)
  {
    forall i, j :: 0 <= i < j < |ts| ==> ts[i] <= ts[j]
  }

  lemma {:induction false} OpeningOfPrefix(ts: seq<int>, more: seq<int>, w: nat, i: nat)
    requires i < |ts|
    ensures Opening(ts + more, w, i) == Opening(ts, w, i)
  {
    if i > 0 { OpeningOfPrefix(ts, more, w, i - 1); }
  }

  /** Windows are more than w apart, and a request is at most w after its opening. */
  lemma {:induction false} OpeningBounds(ts: seq<int>, w: nat, i: nat)
    requires i < |ts| && Ascending(ts)
    ensures var o := Opening(ts, w, i);
            ts[o] <= ts[i] <= ts[o] + w && Opening(ts, w, o) == o
  {
    if i > 0 { OpeningBounds(ts, w, i - 1); }
  }

  /******* Refinement *******/

  lemma {:induction false} TimesFacts(events: seq<Event>, key: string)
    requires Monotone(events)
    ensures Ascending(Times(events, key))
    ensures forall i :: 0 <= i < |Times(events, key)| ==>
      events != [] && Times(events, key)[i] <= events[|events| - 1].now
  {
    if events != [] { TimesFacts(events[..|events| - 1], key); }
  }

  /** What the table says about one client after any run. An entry may be missing only once its window is over,
      because nothing but the sweep removes it. */
  ghost predicate Agrees(l: Limits, events: seq<Event>, key: string)
  {
    var store, ts := StoreAfter(l, events), Times(events, key);
    if ts == [] then key !in store
    else
      var o := Opening(ts, l.windowMs, |ts| - 1);
      if key in store then store[key] == Entry(|ts| - o, ts[o] + l.windowMs)
      else events != [] && events[|events| - 1].now > ts[o] + l.windowMs
  }

  lemma CountedAgrees(l: Limits, h: seq<Event>, e: Event, key: string)
    requires Monotone(h + [e]) && Agrees(l, h, key) && Counts(e, key)
    ensures Agrees(l, h + [e], key)
  {
    var ts := Times(h, key);
    assert (h + [e])[..|h|] == h;
    if ts != [] {
      OpeningOfPrefix(ts, [e.now], l.windowMs, |ts| - 1);
      assert h != [] ==> (h + [e])[|h| - 1].now <= (h + [e])[|h|].now;
    }
  }

  lemma OtherAgrees(l: Limits, h: seq<Event>, e: Event, key: string)
    requires Monotone(h + [e]) && Agrees(l, h, key) && !Counts(e, key)
    ensures Agrees(l, h + [e], key)
  {
    assert (h + [e])[..|h|] == h;
    assert h != [] ==> (h + [e])[|h| - 1].now <= (h + [e])[|h|].now;
  }

  lemma {:induction false} TableAgrees(l: Limits, events: seq<Event>, key: string)
    requires Monotone(events)
    ensures Agrees(l, events, key)
  {
    if events != [] {
      var h, e := events[..|events| - 1], events[|events| - 1];
      TableAgrees(l, h, key);
      assert events == h + [e];
      if Counts(e, key) { CountedAgrees(l, h, e, key); } else { OtherAgrees(l, h, e, key); }
    }
  }

  /**
   * For every run, every client and every sweep schedule: with a monotone clock a
   * request is answered exactly as by a counter of that client's own requests that is
   * never swept and never sees another client.
   */
  lemma DecidesLikeReference(l: Limits, events: seq<Event>, n: nat)
    requires Monotone(events) && n < |events| && events[n].Request? && !events[n].bypassed
    ensures var ts := Times(events[..n + 1], events[n].key);
            |ts| > 0 && (Answer(l, StoreAfter(l, events[..n]), events[n]) <==> Within(l, ts, |ts| - 1))
  {
    var h, e := events[..n], events[n];
    assert events[..n + 1][..n] == h;
    TableAgrees(l, h, e.key);
    var ts := Times(h, e.key);
    assert Times(events[..n + 1], e.key) == ts + [e.now];
    if ts != [] { OpeningOfPrefix(ts, [e.now], l.windowMs, |ts| - 1); }
  }

  /** The run without its bypassed requests. */
  function Counted(events: seq<Event>): seq<Event>
  {
    if events == [] then []
    else
      var h, e := events[..|events| - 1], events[|events| - 1];
      if e.Request? && e.bypassed then Counted(h) else Counted(h) + [e]
  }

  lemma {:induction false} BypassedLeaveTheTable(l: Limits, events: seq<Event>)
    ensures StoreAfter(l, Counted(events)) == StoreAfter(l, events)
  {
    if events != [] {
      var h, e := events[..|events| - 1], events[|events| - 1];
      BypassedLeaveTheTable(l, h);
      assert (Counted(h) + [e])[..|Counted(h)|] == Counted(h);
    }
  }

  /** A bypassed request is always admitted, and every other is answered as if the bypassed ones had not been made. */
  lemma BypassedDoNotCount(l: Limits, events: seq<Event>, n: nat)
    requires n < |events| && events[n].Request?
    ensures events[n].bypassed ==> Answer(l, StoreAfter(l, events[..n]), events[n])
    ensures Answer(l, StoreAfter(l, events[..n]), events[n])
      == Answer(l, StoreAfter(l, Counted(events[..n])), events[n])
  {
    BypassedLeaveTheTable(l, events[..n]);
  }

  /** Without a monotone clock the sweep shows: a clock set back after a sweep gets a client a fresh window that the
      reference does not grant. */
  lemma SweepShowsWhenTheClockGoesBack()
    ensures var l, events := Limits(10, 1, true), [Request("a", 0, false), Cleanup(11), Request("a", 5, false)];
            Answer(l, StoreAfter(l, events[..2]), events[2]) && Times(events, "a") == [0, 5] && !Within(l, [0, 5], 1)
  {
    var l, events := Limits(10, 1, true), [Request("a", 0, false), Cleanup(11), Request("a", 5, false)];
    assert events[..2][..1] == [events[0]] && events[..1][..0] == [];
    assert StoreAfter(l, events[..1]) == map["a" := Entry(1, 10)];
    assert StoreAfter(l, events[..2]) == map[];
    assert Times(events[..1], "a") == [0];
    assert Times(events[..2], "a") == [0];
    assert Times(events, "a") == [0, 5];
    assert Opening([0, 5], 10, 0) == 0;
  }

  /******* The sliding bound *******/

  /** Admitted requests among the first n with a time in the closed interval [t, t + w]. */
  function WithinInterval(l: Limits, ts: seq<int>, t: int, n: nat): nat
    requires n <= |ts|
  {
    if n == 0 then 0
    else WithinInterval(l, ts, t, n - 1)
         + (if t <= ts[n - 1] <= t + l.windowMs && Within(l, ts, n - 1) then 1 else 0)
  }

  /** By where the last window opens: before the interval, in it, or after it. */
  lemma {:induction false} IntervalInvariant(l: Limits, ts: seq<int>, t: int, n: nat)
    requires Ascending(ts) && 0 < n <= |ts|
    ensures var o, m, c := Opening(ts, l.windowMs, n - 1), PerWindow(l), WithinInterval(l, ts, t, n);
            var used := if n - o < m then n - o else m;
            && (ts[n - 1] < t ==> c == 0)
            && (ts[o] < t ==> c <= used - 1)
            && (t <= ts[o] <= t + l.windowMs ==> c <= m - 1 + used)
            && c <= 2 * m - 1
  {
    if n == 1 {
      assert WithinInterval(l, ts, t, 0) == 0;
    } else {
      IntervalInvariant(l, ts, t, n - 1);
      OpeningBounds(ts, l.windowMs, n - 1);
    }
  }

  /** The requests of one client that were counted, admitted and made in [t, t + windowMs]. */
  function AdmittedIn(l: Limits, events: seq<Event>, key: string, t: int): nat
  {
    if events == [] then 0
    else
      var h, e := events[..|events| - 1], events[|events| - 1];
      AdmittedIn(l, h, key, t)
      + (if Counts(e, key) && t <= e.now <= t + l.windowMs && Answer(l, StoreAfter(l, h), e) then 1 else 0)
  }

  lemma {:induction false} WithinOfPrefix(l: Limits, ts: seq<int>, x: int, t: int, n: nat)
    requires n <= |ts|
    ensures WithinInterval(l, ts + [x], t, n) == WithinInterval(l, ts, t, n)
  {
    if n > 0 {
      WithinOfPrefix(l, ts, x, t, n - 1);
      OpeningOfPrefix(ts, [x], l.windowMs, n - 1);
    }
  }

  lemma {:induction false} AdmittedMatchesReference(l: Limits, events: seq<Event>, key: string, t: int)
    requires Monotone(events)
    ensures var ts := Times(events, key);
            AdmittedIn(l, events, key, t) == WithinInterval(l, ts, t, |ts|)
  {
    if events == [] { return; }
    var h, e := events[..|events| - 1], events[|events| - 1];
    AdmittedMatchesReference(l, h, key, t);
    if Counts(e, key) {
      assert events[..|events|] == events;
      DecidesLikeReference(l, events, |events| - 1);
      var ts := Times(h, key);
      WithinOfPrefix(l, ts, e.now, t, |ts|);
    }
  }

  /**
   * No closed interval of windowMs milliseconds admits more than 2 * m - 1 counted
   * requests of one client, m being the larger of 1 and maxRequests.
   */
  lemma SlidingWindowBound(l: Limits, events: seq<Event>, key: string, t: int)
    requires Monotone(events)
    ensures AdmittedIn(l, events, key, t) <= 2 * PerWindow(l) - 1
  {
    AdmittedMatchesReference(l, events, key, t);
    TimesFacts(events, key);
    var ts := Times(events, key);
    if ts != [] { IntervalInvariant(l, ts, t, |ts|); }
  }

  /******* The bound is reached *******/

  function Repeat(e: Event, n: nat): (s: seq<Event>)
    ensures |s| == n && forall i :: 0 <= i < n ==> s[i] == e
  {
    if n == 0 then [] else Repeat(e, n - 1) + [e]
  }

  function Burst(l: Limits, key: string): seq<Event>
  {
    var m, w := PerWindow(l), l.windowMs;
    [Request(key, 0, false)] + Repeat(Request(key, w, false), m - 1) + Repeat(Request(key, w + 1, false), m)
  }

  /** The client's entry and the number of its requests admitted in [t, t + windowMs]. */
  ghost predicate Stands(l: Limits, h: seq<Event>, key: string, t: int, entry: Entry, admitted: nat)
  {
    key in StoreAfter(l, h) && StoreAfter(l, h)[key] == entry && AdmittedIn(l, h, key, t) == admitted
  }

  lemma OneMore(l: Limits, h: seq<Event>, key: string, now: int, t: int, entry: Entry, admitted: nat)
    requires Stands(l, h, key, t, entry, admitted)
    requires t <= now <= t + l.windowMs
    requires now > entry.resetAt || 1 <= entry.count < PerWindow(l)
    ensures Stands(l, h + [Request(key, now, false)], key, t,
                   if now > entry.resetAt then Entry(1, now + l.windowMs)
                     else entry.(count := entry.count + 1), admitted + 1)
  {
    var e := Request(key, now, false);
    assert (h + [e])[..|h|] == h;
  }

  lemma RepeatOneMore(h: seq<Event>, e: Event, k: nat)
    requires k > 0
    ensures h + Repeat(e, k) == (h + Repeat(e, k - 1)) + [e]
  {
  }

  /** k further requests at the same time inside an open window. */
  lemma {:induction false} RepeatInWindow(l: Limits, h: seq<Event>, key: string, now: int, t: int, k: nat,
      entry: Entry, admitted: nat)
    requires Stands(l, h, key, t, entry, admitted)
    requires now <= entry.resetAt && 1 <= entry.count && entry.count + k <= PerWindow(l)
    requires t <= now <= t + l.windowMs
    ensures Stands(l, h + Repeat(Request(key, now, false), k), key, t, entry.(count := entry.count + k), admitted + k)
  {
    var e := Request(key, now, false);
    if k == 0 {
      assert h + Repeat(e, 0) == h;
    } else {
      RepeatInWindow(l, h, key, now, t, k - 1, entry, admitted);
      OneMore(l, h + Repeat(e, k - 1), key, now, t, entry.(count := entry.count + k - 1), admitted + k - 1);
      RepeatOneMore(h, e, k);
    }
  }

  lemma FirstRequest(l: Limits, key: string)
    ensures Stands(l, [Request(key, 0, false)], key, 1, Entry(1, l.windowMs), 0)
  {
    var h := [Request(key, 0, false)];
    assert h[..0] == [];
    assert StoreAfter(l, []) == map[];
  }

  lemma BurstInParts(g: seq<Event>, e: Event, m: nat)
    requires m > 0
    ensures g + Repeat(e, m) == (g + [e]) + Repeat(e, m - 1)
  {
  }

  lemma BurstStands(l: Limits, key: string)
    requires l.windowMs >= 1
    ensures var m, w := PerWindow(l), l.windowMs;
            Stands(l, Burst(l, key), key, 1, Entry(m, w + 1 + w), 2 * m - 1)
  {
    var m, w := PerWindow(l), l.windowMs;
    var h, e := [Request(key, 0, false)], Request(key, w + 1, false);
    FirstRequest(l, key);
    RepeatInWindow(l, h, key, w, 1, m - 1, Entry(1, w), 0);
    var g := h + Repeat(Request(key, w, false), m - 1);
    OneMore(l, g, key, w + 1, 1, Entry(m, w), m - 1);
    RepeatInWindow(l, g + [e], key, w + 1, 1, m - 1, Entry(1, w + 1 + w), m);
    BurstInParts(g, e, m);
  }

  lemma BurstIsMonotone(l: Limits, key: string)
    ensures Monotone(Burst(l, key))
  {
    var m, w := PerWindow(l), l.windowMs;
    var times := [0] + seq(m - 1, _ => w) + seq(m, _ => w + 1);
    assert forall i :: 0 <= i < |Burst(l, key)| ==> Burst(l, key)[i].now == times[i];
  }

  /**
   * The bound is exact for every limiter whose window is at least a millisecond: a
   * burst at the end of one window and the start of the next admits 2 * m - 1 requests
   * inside windowMs milliseconds.
   */
  lemma SlidingWindowBoundIsReached(l: Limits, key: string)
    requires l.windowMs >= 1
    ensures Monotone(Burst(l, key))
    ensures AdmittedIn(l, Burst(l, key), key, 1) == 2 * PerWindow(l) - 1
  {
    BurstIsMonotone(l, key);
    BurstStands(l, key);
  }
}
