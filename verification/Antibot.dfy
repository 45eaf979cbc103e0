/** The rate limiter and the single-use set, both kept in memory and swept when they grow large. */
module Antibot {
  import opened Wrappers

  datatype Bucket = Bucket(start: int, count: int)

  /** One call, and the clock as it read. */
  datatype Call = Call(key: string, at: int)

  const MAX_BUCKETS := 100000

  /** The clock never goes back between calls. */
  ghost predicate InOrder(calls: seq<Call>) {
    forall i, j :: 0 <= i < j < |calls| ==> calls[i].at <= calls[j].at
  }

  /** Whether a table of this size is swept; with no cap, never. */
  predicate Full(size: nat, cap: Option<nat>) { cap.Some? && size >= cap.value }

  // --- the limiter ------------------------------------------------------------

  function LiveBuckets(buckets: map<string, Bucket>, window: int, now: int): map<string, Bucket> {
    map k | k in buckets && now - buckets[k].start < window :: buckets[k]
  }

  /** What one call answers, and the buckets after it. */
  function Allowed(limit: int, window: int, cap: Option<nat>, buckets: map<string, Bucket>, c: Call)
    : (bool, map<string, Bucket>)
  {
    if c.key !in buckets then
      var kept := if Full(|buckets|, cap) then LiveBuckets(buckets, window, c.at) else buckets;
      (true, kept[c.key := Bucket(c.at, 1)])
    else
      var b := buckets[c.key];
      if c.at - b.start >= window then (true, buckets[c.key := Bucket(c.at, 1)])
      else if b.count >= limit then (false, buckets)
      else (true, buckets[c.key := b.(count := b.count + 1)])
  }

  class Limiter {
    const limit: int
    const window: int
    var buckets: map<string, Bucket>

    constructor (limit: int, window: int)
      ensures this.limit == limit && this.window == window && buckets == map[]
    {
      this.limit := limit;
      this.window := window;
      buckets := map[];
    }

    /** One more event for a key: whether it fits the window, counted if it does. */
    method Allow(key: string, now: int) returns (ok: bool)
      modifies this
      ensures (ok, buckets) == Allowed(limit, window, Some(MAX_BUCKETS), old(buckets), Call(key, now))
    {
      if key !in buckets || now - buckets[key].start >= window {
        if key !in buckets && |buckets| >= MAX_BUCKETS {
          Sweep(now);
        }
        buckets := buckets[key := Bucket(now, 1)];
        return true;
      }
      var b := buckets[key];
      if b.count >= limit {
        return false;
      }
      buckets := buckets[key := b.(count := b.count + 1)];
      return true;
    }

    method Sweep(now: int)
      modifies this
      ensures buckets == LiveBuckets(old(buckets), window, now)
    {
      var left := buckets.Keys;
      while left != {}
        invariant left <= buckets.Keys <= old(buckets).Keys
        invariant forall k <- buckets :: buckets[k] == old(buckets)[k]
        invariant forall k <- buckets :: k in left || now - buckets[k].start < window
        invariant forall k <- old(buckets) :: now - old(buckets)[k].start < window ==> k in buckets
        decreases |left|
      {
        var k :| k in left;
        left := left - {k};
        if now - buckets[k].start >= window {
          buckets := buckets - {k};
        }
      }
    }
  }

  /** A whole run of calls from an empty limiter: every answer, and the buckets after. */
  function Ran(limit: int, window: int, cap: Option<nat>, calls: seq<Call>): (r: (seq<bool>, map<string, Bucket>))
    ensures |r.0| == |calls|
  {
    if calls == [] then ([], map[])
    else
      var n := |calls| - 1;
      var (answers, buckets) := Ran(limit, window, cap, calls[..n]);
      var (ok, after) := Allowed(limit, window, cap, buckets, calls[n]);
      (answers + [ok], after)
  }

  /** Two tables hold the same for every key whose window is still open. */
  ghost predicate OpenAlike(window: int, now: int, a: map<string, Bucket>, b: map<string, Bucket>) {
    LiveBuckets(a, window, now) == LiveBuckets(b, window, now)
  }

  lemma OpenKeysAnswerAlike(window: int, now: int, a: map<string, Bucket>, b: map<string, Bucket>, key: string)
    requires OpenAlike(window, now, a, b)
    ensures key in a && now - a[key].start < window <==> key in b && now - b[key].start < window
    ensures key in a && now - a[key].start < window ==> a[key] == b[key]
  {
    assert key in LiveBuckets(a, window, now) <==> key in LiveBuckets(b, window, now);
  }

  /** Sweeping at an earlier time changes nothing of the windows open later. */
  lemma AllowedAlike(limit: int, window: int, cap: Option<nat>, a: map<string, Bucket>, b: map<string, Bucket>, c: Call)
    requires OpenAlike(window, c.at, a, b)
    ensures var (okA, afterA) := Allowed(limit, window, cap, a, c);
            var (okB, afterB) := Allowed(limit, window, None, b, c);
            okA == okB && forall later :: later >= c.at ==> OpenAlike(window, later, afterA, afterB)
  {
    var (okA, afterA) := Allowed(limit, window, cap, a, c);
    var (okB, afterB) := Allowed(limit, window, None, b, c);
    OpenKeysAnswerAlike(window, c.at, a, b, c.key);
    forall later | later >= c.at ensures OpenAlike(window, later, afterA, afterB) {
      forall k ensures k in LiveBuckets(afterA, window, later) <==> k in LiveBuckets(afterB, window, later)
               ensures k in LiveBuckets(afterA, window, later) ==> afterA[k] == afterB[k]
      {
        OpenKeysAnswerAlike(window, c.at, a, b, k);
      }
    }
  }

  lemma {:induction false} RunsAlike(limit: int, window: int, cap: Option<nat>, calls: seq<Call>)
    requires InOrder(calls)
    ensures Ran(limit, window, cap, calls).0 == Ran(limit, window, None, calls).0
    ensures forall later :: (calls == [] || later >= calls[|calls| - 1].at)
              ==> OpenAlike(window, later, Ran(limit, window, cap, calls).1, Ran(limit, window, None, calls).1)
  {
    if calls != [] {
      var n := |calls| - 1;
      RunsAlike(limit, window, cap, calls[..n]);
      AllowedAlike(limit, window, cap, Ran(limit, window, cap, calls[..n]).1, Ran(limit, window, None, calls[..n]).1, calls[n]);
    }
  }

  // --- how many a window admits -----------------------------------------------

  /** The times at which a key was let through. */
  function Admitted(calls: seq<Call>, answers: seq<bool>, key: string): seq<int>
    requires |calls| == |answers|
  {
    if calls == [] then []
    else
      var n := |calls| - 1;
      Admitted(calls[..n], answers[..n], key) + if calls[n].key == key && answers[n] then [calls[n].at] else []
  }

  /** How many of some times fall in [lo, hi). */
  function Within(times: seq<int>, lo: int, hi: int): nat {
    if times == [] then 0
    else
      var n := |times| - 1;
      Within(times[..n], lo, hi) + if lo <= times[n] < hi then 1 else 0
  }

  lemma {:induction false} WithinSplits(times: seq<int>, lo: int, mid: int, hi: int)
    requires lo <= mid <= hi
    ensures Within(times, lo, hi) == Within(times, lo, mid) + Within(times, mid, hi)
  {
    if times != [] {
      WithinSplits(times[..|times| - 1], lo, mid, hi);
    }
  }

  lemma {:induction false} NoneWithin(times: seq<int>, lo: int, hi: int)
    requires forall i :: 0 <= i < |times| ==> times[i] < lo || hi <= times[i]
    ensures Within(times, lo, hi) == 0
  {
    if times != [] {
      NoneWithin(times[..|times| - 1], lo, hi);
    }
  }

  lemma WithinOneMore(times: seq<int>, t: int, lo: int, hi: int)
    ensures Within(times + [t], lo, hi) == Within(times, lo, hi) + if lo <= t < hi then 1 else 0
  {
    assert (times + [t])[..|times|] == times;
  }

  /** How many fall in the stretch of a window's length from lo. */
  function InWindow(times: seq<int>, lo: int, window: int): nat { Within(times, lo, lo + window) }

  /** What a key's bucket remembers of the times the key was let through: one as its window began, as
      many since as it counts, and fewer than most in any part of the window's length before that. */
  ghost predicate Remembers(times: seq<int>, b: Bucket, window: int, most: int) {
    && 1 <= b.count <= most
    && (forall i ::
          0 <= i < |times| ==> times[i] < b.start + window)
    && Within(times, b.start, b.start + 1) >= 1
    && Within(times, b.start, b.start + window) == b.count
    && (forall lo ::
          b.start - window < lo <= b.start ==> Within(times, lo, b.start) < most)
    && (forall lo ::
          InWindow(times, lo, window) < 2 * most)
  }

  lemma AnotherInTheWindow(times: seq<int>, b: Bucket, window: int, most: int, now: int)
    requires window > 0 && Remembers(times, b, window, most)
    requires b.start <= now < b.start + window && b.count < most
    ensures Remembers(times + [now], b.(count := b.count + 1), window, most)
  {
    var after := times + [now];
    WithinOneMore(times, now, b.start, b.start + window);
    WithinOneMore(times, now, b.start, b.start + 1);
    forall lo | b.start - window < lo <= b.start ensures Within(after, lo, b.start) < most {
      WithinOneMore(times, now, lo, b.start);
    }
    forall lo ensures InWindow(after, lo, window) < 2 * most {
      assert InWindow(times, lo, window) < 2 * most;
      WithinOneMore(times, now, lo, lo + window);
      if b.start - window < lo <= b.start {
        WithinSplits(after, lo, b.start, lo + window);
        WithinSplits(after, b.start, lo + window, b.start + window);
      } else if b.start < lo < b.start + window {
        WithinSplits(after, b.start, lo, b.start + window);
        WithinSplits(after, lo, b.start + window, lo + window);
        NoneWithin(after, b.start + window, lo + window);
      }
    }
  }

  /** As a new window begins, the old one's first is too long ago to share a stretch with it. */
  lemma BeforeANewWindow(times: seq<int>, b: Bucket, window: int, most: int, now: int, lo: int)
    requires window > 0 && Remembers(times, b, window, most) && now >= b.start + window
    requires now - window < lo <= now
    ensures Within(times, lo, now) < most
  {
    if lo < b.start + window {
      WithinSplits(times, b.start, b.start + 1, b.start + window);
      WithinSplits(times, b.start + 1, lo, b.start + window);
      WithinSplits(times, lo, b.start + window, now);
      NoneWithin(times, b.start + window, now);
    } else {
      NoneWithin(times, lo, now);
    }
  }

  lemma ANewWindow(times: seq<int>, b: Bucket, window: int, most: int, now: int)
    requires window > 0 && Remembers(times, b, window, most) && now >= b.start + window
    ensures Remembers(times + [now], Bucket(now, 1), window, most)
  {
    var after := times + [now];
    WithinOneMore(times, now, now, now + window);
    WithinOneMore(times, now, now, now + 1);
    NoneWithin(times, now, now + window);
    forall lo | now - window < lo <= now ensures Within(after, lo, now) < most {
      WithinOneMore(times, now, lo, now);
      BeforeANewWindow(times, b, window, most, now, lo);
    }
    forall lo ensures InWindow(after, lo, window) < 2 * most {
      assert InWindow(times, lo, window) < 2 * most;
      WithinOneMore(times, now, lo, lo + window);
      if now - window < lo <= now {
        BeforeANewWindow(times, b, window, most, now, lo);
        WithinSplits(times, lo, now, lo + window);
        NoneWithin(times, now, lo + window);
      }
    }
  }

  lemma TheFirstWindow(window: int, most: int, now: int)
    requires window > 0 && most >= 1
    ensures Remembers([now], Bucket(now, 1), window, most)
  {
    assert [now] == [] + [now];
    WithinOneMore([], now, now, now + 1);
    WithinOneMore([], now, now, now + window);
    forall lo ensures lo <= now ==> Within([now], lo, now) < most {
      WithinOneMore([], now, lo, now);
    }
    forall lo ensures InWindow([now], lo, window) < 2 * most {
      WithinOneMore([], now, lo, lo + window);
    }
  }

  function Most(limit: int): int { if limit < 1 then 1 else limit }

  /** A key's bucket, if it has one, remembers the times the key was let through, none of them after now. */
  ghost predicate Remembered(limit: int, window: int, buckets: map<string, Bucket>, key: string, times: seq<int>, now: int) {
    if key in buckets then
      && Remembers(times, buckets[key], window, Most(limit))
      && buckets[key].start <= now
    else
      times == []
  }

  lemma RememberedNext(limit: int, window: int, buckets: map<string, Bucket>, key: string, times: seq<int>, before: int, c: Call)
    requires window > 0 && before <= c.at && Remembered(limit, window, buckets, key, times, before)
    ensures var (ok, after) := Allowed(limit, window, None, buckets, c);
            Remembered(limit, window, after, key, times + if c.key == key && ok then [c.at] else [], c.at)
  {
    hide Remembers;
    assert times + [] == times;
    if c.key == key {
      if key !in buckets {
        TheFirstWindow(window, Most(limit), c.at);
        assert [] + [c.at] == [c.at];
      } else if c.at - buckets[key].start >= window {
        ANewWindow(times, buckets[key], window, Most(limit), c.at);
      } else if buckets[key].count < limit {
        AnotherInTheWindow(times, buckets[key], window, Most(limit), c.at);
      }
    }
  }

  lemma AdmittedNext(calls: seq<Call>, answers: seq<bool>, ok: bool, key: string)
    requires |calls| == |answers| + 1
    ensures var n := |answers|;
            Admitted(calls, answers + [ok], key) == Admitted(calls[..n], answers, key) + if calls[n].key == key && ok then [calls[n].at] else []
  {
    assert (answers + [ok])[..|answers|] == answers;
  }

  lemma {:induction false} BucketsRemember(limit: int, window: int, calls: seq<Call>, key: string)
    requires InOrder(calls) && window > 0 && calls != []
    ensures var (answers, buckets) := Ran(limit, window, None, calls);
            Remembered(
              limit, window, buckets, key, Admitted(calls, answers, key), calls[|calls| - 1].at)
  {
    hide Remembered, Allowed, Admitted;
    var n := |calls| - 1;
    var (answers, buckets) := Ran(limit, window, None, calls[..n]);
    var (ok, after) := Allowed(limit, window, None, buckets, calls[n]);
    AdmittedNext(calls, answers, ok, key);
    if n == 0 {
      NothingRemembered(limit, window, key, calls[0].at);
      RememberedNext(limit, window, map[], key, [], calls[0].at, calls[0]);
    } else {
      BucketsRemember(limit, window, calls[..n], key);
      RememberedNext(limit, window, buckets, key, Admitted(calls[..n], answers, key), calls[n - 1].at, calls[n]);
    }
  }

  lemma NothingRemembered(limit: int, window: int, key: string, now: int)
    ensures Remembered(limit, window, map[], key, [], now) && Admitted([], [], key) == []
  {
  }

  /** While the clock does not go back, every stretch of one window's length lets a key through fewer
      times than twice the limit, and sweeping changes no answer: the limiter answers as one that never
      sweeps. A limit below one lets one through. */
  lemma AWindowAdmitsFewerThanTwiceTheLimit(limit: int, window: int, cap: Option<nat>, calls: seq<Call>, key: string, lo: int)
    requires InOrder(calls)
    ensures Ran(limit, window, cap, calls).0 == Ran(limit, window, None, calls).0
    ensures InWindow(Admitted(calls, Ran(limit, window, cap, calls).0, key), lo, window) < 2 * Most(limit)
  {
    RunsAlike(limit, window, cap, calls);
    var (answers, buckets) := Ran(limit, window, None, calls);
    var times := Admitted(calls, answers, key);
    if window > 0 && calls != [] {
      BucketsRemember(limit, window, calls, key);
      if key !in buckets {
        NoneWithin(times, lo, lo + window);
      }
    } else {
      NoneWithin(times, lo, lo + window);
    }
  }

  lemma OneMoreCall(limit: int, window: int, calls: seq<Call>, c: Call, key: string)
    ensures var (answers, buckets) := Ran(limit, window, None, calls);
            var (ok, after) := Allowed(limit, window, None, buckets, c);
            && Ran(limit, window, None, calls + [c]) == (answers + [ok], after)
            && Admitted(calls + [c], answers + [ok], key)
               == Admitted(calls, answers, key) + if c.key == key && ok then [c.at] else []
  {
    assert (calls + [c])[..|calls|] == calls;
    var answers := Ran(limit, window, None, calls).0;
    var ok := Allowed(limit, window, None, Ran(limit, window, None, calls).1, c).0;
    assert (answers + [ok])[..|calls|] == answers;
  }

  /** calls, all of one key and none after now, leave its bucket as b and let it through n times from lo
      to hi. */
  ghost predicate Leaves(limit: int, window: int, calls: seq<Call>, now: int, b: Bucket, lo: int, hi: int, n: int) {
    && InOrder(calls)
    && (forall i :: 0 <= i < |calls| ==> calls[i].at <= now)
    && Ran(limit, window, None, calls).1 == map["k" := b]
    && Within(Admitted(calls, Ran(limit, window, None, calls).0, "k"), lo, hi) == n
  }

  lemma TheFirstCallLeaves(limit: int, window: int, lo: int, hi: int)
    ensures Leaves(limit, window, [Call("k", 0)], 0, Bucket(0, 1), lo, hi, if lo <= 0 < hi then 1 else 0)
  {
    OneMoreCall(limit, window, [], Call("k", 0), "k");
    assert [] + [Call("k", 0)] == [Call("k", 0)];
    WithinOneMore([], 0, lo, hi);
  }

  lemma OneMoreLeaves(limit: int, window: int, calls: seq<Call>, last: int, b: Bucket, lo: int, hi: int, n: int, now: int)
    requires Leaves(limit, window, calls, last, b, lo, hi, n) && last <= now
    requires now - b.start >= window || b.count < limit
    ensures Leaves(limit, window, calls + [Call("k", now)], now,
                   if now - b.start >= window then Bucket(now, 1) else b.(count := b.count + 1),
                   lo, hi, n + if lo <= now < hi then 1 else 0)
  {
    hide Ran, Admitted, Within, InOrder, Allowed;
    var c, after := Call("k", now), if now - b.start >= window then Bucket(now, 1) else b.(count := b.count + 1);
    AllowedOfOne(limit, window, b, now);
    OneMoreCall(limit, window, calls, c, "k");
    assert Ran(limit, window, None, calls + [c]).1 == map["k" := after];
    WithinOneMore(Admitted(calls, Ran(limit, window, None, calls).0, "k"), now, lo, hi);
    InOrderOneMore(calls, last, c);
  }

  lemma AllowedOfOne(limit: int, window: int, b: Bucket, now: int)
    requires now - b.start >= window || b.count < limit
    ensures Allowed(limit, window, None, map["k" := b], Call("k", now))
         == (true, map["k" := if now - b.start >= window then Bucket(now, 1) else b.(count := b.count + 1)])
  {
    var after := if now - b.start >= window then Bucket(now, 1) else b.(count := b.count + 1);
    assert map["k" := b]["k" := after] == map["k" := after];
  }

  lemma InOrderOneMore(calls: seq<Call>, last: int, c: Call)
    requires InOrder(calls) && last <= c.at && forall i :: 0 <= i < |calls| ==> calls[i].at <= last
    ensures InOrder(calls + [c]) && forall i :: 0 <= i < |calls + [c]| ==> (calls + [c])[i].at <= c.at
  {
  }

  lemma LaterLeaves(limit: int, window: int, calls: seq<Call>, last: int, b: Bucket, lo: int, hi: int, n: int, now: int)
    requires Leaves(limit, window, calls, last, b, lo, hi, n) && last <= now
    ensures Leaves(limit, window, calls, now, b, lo, hi, n)
  {
    hide Ran, Admitted, Within, InOrder;
  }

  /** Calls at one time until the bucket is full. */
  lemma Filled(limit: int, window: int, calls: seq<Call>, last: int, b: Bucket, lo: int, hi: int, n: int, now: int)
    returns (after: seq<Call>)
    requires Leaves(limit, window, calls, last, b, lo, hi, n) && last <= now
    requires now - b.start < window && b.count <= limit
    ensures Leaves(
              limit, window, after, now, b.(count := limit), lo, hi, n + if lo <= now < hi then limit - b.count else 0)
    decreases limit - b.count
  {
    if b.count == limit {
      after := calls;
      LaterLeaves(limit, window, calls, last, b, lo, hi, n, now);
    } else {
      hide Leaves;
      OneMoreLeaves(limit, window, calls, last, b, lo, hi, n, now);
      after := Filled(limit, window, calls + [Call("k", now)], now, b.(count := b.count + 1), lo, hi,
                      n + (if lo <= now < hi then 1 else 0), now);
    }
  }

  /** The bound is met: under any limit and any window longer than one tick there are calls, the clock
      never going back, that let a key through one fewer than twice the limit within one window's length. */
  lemma OneFewerThanTwiceTheLimitIsReached(limit: int, window: int) returns (calls: seq<Call>)
    requires limit >= 1 && window >= 2
    ensures InOrder(calls)
    ensures InWindow(Admitted(calls, Ran(limit, window, None, calls).0, "k"), window - 1, window) == 2 * limit - 1
  {
    hide Leaves, Ran, Admitted, Within, InOrder;
    var lo, hi := window - 1, window - 1 + window;
    TheFirstCallLeaves(limit, window, lo, hi);
    calls := Filled(limit, window, [Call("k", 0)], 0, Bucket(0, 1), lo, hi, 0, window - 1);
    OneMoreLeaves(limit, window, calls, window - 1, Bucket(0, limit), lo, hi, limit - 1, window);
    calls := Filled(limit, window, calls + [Call("k", window)], window, Bucket(window, 1), lo, hi, limit, window);
    LeftWithin(limit, window, calls, window, Bucket(window, limit), lo, 2 * limit - 1);
  }

  lemma LeftWithin(limit: int, window: int, calls: seq<Call>, now: int, b: Bucket, lo: int, n: int)
    requires Leaves(limit, window, calls, now, b, lo, lo + window, n)
    ensures InOrder(calls) && InWindow(Admitted(calls, Ran(limit, window, None, calls).0, "k"), lo, window) == n
  {
    hide Ran, Admitted, Within, InOrder;
  }

  // --- the single-use set -----------------------------------------------------

  function LiveEntries(entries: map<string, int>, now: int): map<string, int> {
    map k | k in entries && now < entries[k] :: entries[k]
  }

  function Used(ttl: int, cap: Option<nat>, entries: map<string, int>, c: Call): (bool, map<string, int>) {
    if c.key in entries && c.at < entries[c.key] then (false, entries)
    else
      var kept := if Full(|entries|, cap) then LiveEntries(entries, c.at) else entries;
      (true, kept[c.key := c.at + ttl])
  }

  class Seen {
    const ttl: int
    var entries: map<string, int>

    constructor (ttl: int)
      ensures this.ttl == ttl && entries == map[]
    {
      this.ttl := ttl;
      entries := map[];
    }

    /** Whether this is a key's first use, or its first since the last expired; recorded if it is. */
    method FirstUse(key: string, now: int) returns (first: bool)
      modifies this
      ensures (first, entries) == Used(ttl, Some(MAX_BUCKETS), old(entries), Call(key, now))
    {
      if key in entries && now < entries[key] {
        return false;
      }
      if |entries| >= MAX_BUCKETS {
        var left := entries.Keys;
        while left != {}
          invariant left <= entries.Keys <= old(entries).Keys
          invariant forall k <- entries :: entries[k] == old(entries)[k]
          invariant forall k <- entries :: k in left || now < entries[k]
          invariant forall k <- old(entries) :: now < old(entries)[k] ==> k in entries
          decreases |left|
        {
          var k :| k in left;
          left := left - {k};
          if !(now < entries[k]) {
            entries := entries - {k};
          }
        }
        assert entries == LiveEntries(old(entries), now);
      }
      entries := entries[key := now + ttl];
      return true;
    }
  }

  function Uses(ttl: int, cap: Option<nat>, calls: seq<Call>): (r: (seq<bool>, map<string, int>))
    ensures |r.0| == |calls|
  {
    if calls == [] then ([], map[])
    else
      var n := |calls| - 1;
      var (answers, entries) := Uses(ttl, cap, calls[..n]);
      var (first, after) := Used(ttl, cap, entries, calls[n]);
      (answers + [first], after)
  }

  /** A first use of key among the first n calls that has not expired by now. */
  ghost predicate StillUsed(calls: seq<Call>, answers: seq<bool>, ttl: int, n: nat, key: string, now: int)
    requires n <= |calls| && n <= |answers|
  {
    exists i :: 0 <= i < n && calls[i].key == key && answers[i] && now < calls[i].at + ttl
  }

  lemma {:induction false} EntriesKnowFirstUses(ttl: int, cap: Option<nat>, calls: seq<Call>, key: string, now: int)
    requires InOrder(calls) && (calls == [] || calls[|calls| - 1].at <= now)
    ensures var (answers, entries) := Uses(ttl, cap, calls);
            (key in entries && now < entries[key]) <==> StillUsed(calls, answers, ttl, |calls|, key, now)
  {
    if calls != [] {
      var n := |calls| - 1;
      EntriesKnowFirstUses(ttl, cap, calls[..n], key, now);
      EntriesKnowFirstUses(ttl, cap, calls[..n], key, calls[n].at);
      var (answers, entries) := Uses(ttl, cap, calls[..n]);
      var (first, after) := Used(ttl, cap, entries, calls[n]);
      StillUsedAfter(calls, answers, first, ttl, key, now);
      if StillUsed(calls[..n], answers, ttl, n, key, now) {
        assert StillUsed(calls[..n], answers, ttl, n, key, calls[n].at);
      }
    }
  }

  lemma StillUsedAfter(calls: seq<Call>, answers: seq<bool>, first: bool, ttl: int, key: string, now: int)
    requires |calls| == |answers| + 1
    ensures StillUsed(calls, answers + [first], ttl, |answers| + 1, key, now)
         == (StillUsed(calls[..|answers|], answers, ttl, |answers|, key, now)
             || (calls[|answers|].key == key && first && now < calls[|answers|].at + ttl))
  {
    var n := |answers|;
    var all := answers + [first];
    if StillUsed(calls[..n], answers, ttl, n, key, now) {
      var i :| 0 <= i < n && calls[..n][i].key == key && answers[i] && now < calls[..n][i].at + ttl;
      assert all[i] == answers[i] && calls[i] == calls[..n][i];
    }
    if calls[n].key == key && first && now < calls[n].at + ttl {
      assert all[n] == first;
    }
    if StillUsed(calls, all, ttl, n + 1, key, now) {
      var i :| 0 <= i < n + 1 && calls[i].key == key && all[i] && now < calls[i].at + ttl;
      if i < n {
        assert all[i] == answers[i] && calls[i] == calls[..n][i];
      }
    }
  }

  /** While the clock does not go back, a call is a first use exactly when every earlier first use of its
      key is at least the time to live old, however often the set was swept. */
  lemma {:induction false} FirstUseExactlyWhenExpired(ttl: int, cap: Option<nat>, calls: seq<Call>, i: nat)
    requires InOrder(calls) && i < |calls|
    ensures var answers := Uses(ttl, cap, calls).0;
            answers[i] <==> forall j :: 0 <= j < i && calls[j].key == calls[i].key && answers[j] ==> calls[i].at - calls[j].at >= ttl
  {
    hide Used, StillUsed;
    var n := |calls| - 1;
    var answers := Uses(ttl, cap, calls[..n]).0;
    assert forall j :: 0 <= j < n ==> Uses(ttl, cap, calls).0[j] == answers[j];
    if i < n {
      FirstUseExactlyWhenExpired(ttl, cap, calls[..n], i);
    } else {
      LastUse(ttl, cap, calls);
      NotStillUsed(calls, Uses(ttl, cap, calls).0, answers, ttl, calls[n].key, calls[n].at);
    }
  }

  lemma LastUse(ttl: int, cap: Option<nat>, calls: seq<Call>)
    requires InOrder(calls) && calls != []
    ensures var n := |calls| - 1;
            Uses(ttl, cap, calls).0[n] <==> !StillUsed(calls[..n], Uses(ttl, cap, calls[..n]).0, ttl, n, calls[n].key, calls[n].at)
  {
    hide StillUsed;
    var n := |calls| - 1;
    EntriesKnowFirstUses(ttl, cap, calls[..n], calls[n].key, calls[n].at);
  }

  lemma NotStillUsed(calls: seq<Call>, all: seq<bool>, answers: seq<bool>, ttl: int, key: string, now: int)
    requires |calls| == |all| == |answers| + 1 && forall j :: 0 <= j < |answers| ==> all[j] == answers[j]
    ensures var n := |answers|;
            (!StillUsed(calls[..n], answers, ttl, n, key, now)
             <==> forall j :: 0 <= j < n && calls[j].key == key && all[j] ==> now - calls[j].at >= ttl)
  {
    var n := |answers|;
    assert forall j :: 0 <= j < n ==> calls[..n][j] == calls[j];
  }

  /** The set answers as one that never sweeps. */
  lemma {:induction false} SeenAnswersAsIfNeverSwept(ttl: int, cap: Option<nat>, calls: seq<Call>)
    requires InOrder(calls)
    ensures Uses(ttl, cap, calls).0 == Uses(ttl, None, calls).0
  {
    if calls != [] {
      var n := |calls| - 1;
      SeenAnswersAsIfNeverSwept(ttl, cap, calls[..n]);
      EntriesKnowFirstUses(ttl, cap, calls[..n], calls[n].key, calls[n].at);
      EntriesKnowFirstUses(ttl, None, calls[..n], calls[n].key, calls[n].at);
    }
  }
}
