/**
 The per-address rate limiter: a mutable table with a capacity, lazy eviction and fixed windows. The class
 follows the source; `Allow` is its specification as a function, and the lemmas are about every sequence of
 requests whose clock readings do not decrease.
 */
module RateLimiter {
  import opened Prelude

  datatype Config = Config(limit: int, window: int, maxKeys: int)

  datatype Bucket = Bucket(attempts: int, expiresAt: int)

  /** The table, and the next cleanup time once there has been a cleanup. */
  datatype Table = Table(buckets: map<string, Bucket>, nextCleanup: Option<int>)

  function Live(buckets: map<string, Bucket>, now: int): map<string, Bucket> {
    map k | k in buckets && now < buckets[k].expiresAt :: buckets[k]
  }

  function Cleaned(c: Config, s: Table, now: int): Table {
    if s.nextCleanup.None? || now >= s.nextCleanup.value
    then Table(Live(s.buckets, now), Some(now + c.window))
    else s
  }

  /** The table after cleanup and after dropping the requested key's own expired bucket. */
  function Prepared(c: Config, s: Table, key: string, now: int): Table {
    var t := Cleaned(c, s, now);
    if key in t.buckets && now >= t.buckets[key].expiresAt then t.(buckets := t.buckets - {key}) else t
  }

  function Allow(c: Config, s: Table, key: string, now: int): (bool, Table) {
    var t := Prepared(c, s, key, now);
    if key !in t.buckets then
      if |t.buckets| >= c.maxKeys then (false, t)
      else (true, t.(buckets := t.buckets[key := Bucket(1, now + c.window)]))
    else
      var b := t.buckets[key];
      if b.attempts >= c.limit then (false, t)
      else (true, t.(buckets := t.buckets[key := b.(attempts := b.attempts + 1)]))
  }

  class IpRateLimiter {
    var buckets: map<string, Bucket>
    var nextCleanup: Option<int>
    const config: Config

    constructor (limit: int, window: int, maxKeys: int)
      ensures config == Config(limit, window, if maxKeys <= 0 then 10_000 else maxKeys)
      ensures State() == Table(map[], None)
    {
      config := Config(limit, window, if maxKeys <= 0 then 10_000 else maxKeys);
      buckets, nextCleanup := map[], None;
    }

    function State(): Table
      reads this
    {
      Table(buckets, nextCleanup)
    }

    method EvictExpired(now: int)
      modifies this`buckets
      ensures buckets == Live(old(buckets), now)
    {
      var keys := buckets.Keys;
      while keys != {}
        invariant keys <= buckets.Keys <= old(buckets).Keys
        invariant forall k :: k in buckets ==> buckets[k] == old(buckets)[k]
        invariant forall k :: k in old(buckets) && k !in keys ==> (k in buckets <==> now < old(buckets)[k].expiresAt)
        decreases keys
      {
        var k :| k in keys;
        keys := keys - {k};
        if now >= buckets[k].expiresAt {
          buckets := buckets - {k};
        }
      }
    }

    method AllowRequest(key: string, now: int) returns (admitted: bool)
      modifies this
      ensures (admitted, State()) == Allow(config, old(State()), key, now)
    {
      if nextCleanup.None? || now >= nextCleanup.value {
        EvictExpired(now);
        nextCleanup := Some(now + config.window);
      }
      var exists' := key in buckets;
      if exists' && now >= buckets[key].expiresAt {
        buckets := buckets - {key};
        exists' := false;
      }
      if !exists' {
        if |buckets| >= config.maxKeys {
          return false;
        }
        buckets := buckets[key := Bucket(1, now + config.window)];
        return true;
      }
      var bucket := buckets[key];
      if bucket.attempts >= config.limit {
        return false;
      }
      buckets := buckets[key := bucket.(attempts := bucket.attempts + 1)];
      return true;
    }
  }

  // ---- Runs ----

  datatype Request = Request(key: string, now: int)

  ghost predicate Monotone(reqs: seq<Request>) {
    forall i, j :: 0 <= i < j < |reqs| ==> reqs[i].now <= reqs[j].now
  }

  /** The table after a run from the empty table. */
  function After(c: Config, reqs: seq<Request>): Table {
    if reqs == [] then Table(map[], None)
    else Allow(c, After(c, Init(reqs)), Last(reqs).key, Last(reqs).now).1
  }

  function Init(reqs: seq<Request>): seq<Request>
    requires reqs != []
  {
    reqs[..|reqs| - 1]
  }

  function Last(reqs: seq<Request>): Request
    requires reqs != []
  {
    reqs[|reqs| - 1]
  }

  /** Whether the last request of a run is admitted. */
  predicate LastAdmitted(c: Config, reqs: seq<Request>)
    requires reqs != []
  {
    Allow(c, After(c, Init(reqs)), Last(reqs).key, Last(reqs).now).0
  }

  /** Admissions of `key` at clock readings in `[from, from + window)`. */
  function AdmittedWithin(c: Config, reqs: seq<Request>, key: string, from: int): nat {
    if reqs == [] then 0
    else
      AdmittedWithin(c, Init(reqs), key, from)
      + if LastAdmitted(c, reqs) && Last(reqs).key == key && from <= Last(reqs).now < from + c.window then 1 else 0
  }

  // ---- One call, key by key ----

  predicate LiveIn(s: Table, key: string, now: int) {
    key in s.buckets && now < s.buckets[key].expiresAt
  }

  /** A call changes no other key's bucket, except to drop an expired one. */
  lemma OtherKey(c: Config, s: Table, key: string, now: int, k: string)
    requires k != key
    ensures var s' := Allow(c, s, key, now).1;
            && (k in s'.buckets ==> k in s.buckets && s'.buckets[k] == s.buckets[k])
            && (k in s.buckets && k !in s'.buckets ==> s.buckets[k].expiresAt <= now)
  {
  }

  /** A live bucket counts up to the limit; otherwise an admission opens a new bucket. */
  lemma OwnKey(c: Config, s: Table, key: string, now: int)
    ensures var (ok, s') := Allow(c, s, key, now);
            && (LiveIn(s, key, now) ==>
                  && (ok <==> s.buckets[key].attempts < c.limit)
                  && key in s'.buckets
                  && s'.buckets[key] == s.buckets[key].(attempts := s.buckets[key].attempts + if ok then 1 else 0))
            && (!LiveIn(s, key, now) ==>
                  && (ok <==> key in s'.buckets) && (ok <==> |Prepared(c, s, key, now).buckets| < c.maxKeys)
                  && (ok ==> s'.buckets[key] == Bucket(1, now + c.window)))
  {
  }

  // ---- Table invariants ----

  function MaxPerBucket(c: Config): (max: int)
    ensures max >= 1
  {
    if c.limit < 1 then 1 else c.limit
  }

  ghost predicate TableOk(c: Config, s: Table, now: int) {
    && |s.buckets| <= c.maxKeys
    && s.nextCleanup.Some? && now < s.nextCleanup.value <= now + c.window
    && (forall k :: k in s.buckets ==> && 1 <= s.buckets[k].attempts <= MaxPerBucket(c)
                                       && s.buckets[k].expiresAt > s.nextCleanup.value - c.window)
  }

  lemma SmallerMap(m: map<string, Bucket>, n: map<string, Bucket>)
    requires n.Keys <= m.Keys
    ensures |n| <= |m|
  {
    SmallerSet(n.Keys, m.Keys);
    assert |n.Keys| == |n| && |m.Keys| == |m|;
  }

  lemma {:induction false} SmallerSet<T>(a: set<T>, b: set<T>)
    requires a <= b
    ensures |a| <= |b|
  {
    if x :| x in a {
      SmallerSet(a - {x}, b - {x});
    }
  }

  /**
   In every run the table stays within its capacity, no bucket admits more than the limit (or one), and
   no retained bucket has been expired for a whole window.
   */
  lemma {:induction false} RunTableOk(c: Config, reqs: seq<Request>)
    requires reqs != [] && Monotone(reqs) && c.window > 0 && c.maxKeys > 0
    ensures TableOk(c, After(c, reqs), Last(reqs).now)
    ensures forall k :: k in After(c, reqs).buckets ==> Last(reqs).now < After(c, reqs).buckets[k].expiresAt + c.window
  {
    hide Allow;
    if Init(reqs) != [] {
      RunTableOk(c, Init(reqs));
      CallKeepsTable(c, After(c, Init(reqs)), Last(reqs).key, Last(Init(reqs)).now, Last(reqs).now);
    } else {
      FirstCall(c, Last(reqs).key, Last(reqs).now);
    }
  }

  lemma FirstCall(c: Config, key: string, now: int)
    requires c.window > 0 && c.maxKeys > 0
    ensures TableOk(c, Allow(c, Table(map[], None), key, now).1, now)
  {
    assert Live(map[], now) == map[];
  }

  lemma CallKeepsTable(c: Config, s: Table, key: string, before: int, now: int)
    requires TableOk(c, s, before) && before <= now && c.window > 0
    ensures TableOk(c, Allow(c, s, key, now).1, now)
  {
    var s' := Allow(c, s, key, now).1;
    OwnKey(c, s, key, now);
    forall k | k in s'.buckets
      ensures 1 <= s'.buckets[k].attempts <= MaxPerBucket(c)
            && s'.buckets[k].expiresAt > s'.nextCleanup.value - c.window
    {
      if k != key {
        OtherKey(c, s, key, now, k);
      }
      BucketAge(c, s, key, now, k);
    }
    SmallerMap(s.buckets, Prepared(c, s, key, now).buckets);
  }

  lemma BucketAge(c: Config, s: Table, key: string, now: int, k: string)
    requires s.nextCleanup.Some? && s.nextCleanup.value <= now + c.window && c.window > 0
    requires forall j :: j in s.buckets ==> s.buckets[j].expiresAt > s.nextCleanup.value - c.window
    requires k in Allow(c, s, key, now).1.buckets
    ensures var s' := Allow(c, s, key, now).1;
            && s'.nextCleanup.Some? && now < s'.nextCleanup.value <= now + c.window
            && s'.buckets[k].expiresAt > s'.nextCleanup.value - c.window
  {
    PreparedAge(c, s, key, now, k);
    hide Prepared;
  }

  lemma PreparedAge(c: Config, s: Table, key: string, now: int, k: string)
    requires s.nextCleanup.Some? && s.nextCleanup.value <= now + c.window && c.window > 0
    requires forall j :: j in s.buckets ==> s.buckets[j].expiresAt > s.nextCleanup.value - c.window
    ensures var t := Prepared(c, s, key, now);
            && t.nextCleanup.Some? && now < t.nextCleanup.value <= now + c.window
            && (k in t.buckets ==> t.buckets[k].expiresAt > t.nextCleanup.value - c.window)
  {
  }

  // ---- At most 2L - 1 admissions in any window ----

  /** The admissions of one key that share a bucket. */
  datatype Chunk = Chunk(start: int, times: seq<int>)

  function CountTimes(times: seq<int>, from: int, window: int): nat {
    if times == [] then 0
    else CountTimes(times[..|times| - 1], from, window)
         + if from <= times[|times| - 1] < from + window then 1 else 0
  }

  function CountChunks(chunks: seq<Chunk>, from: int, window: int): nat {
    if chunks == [] then 0
    else CountChunks(chunks[..|chunks| - 1], from, window) + CountTimes(chunks[|chunks| - 1].times, from, window)
  }

  /** The groups after one more request. */
  function NextChunks(c: Config, chunks: seq<Chunk>, now: int): seq<Chunk> {
    if chunks == [] || now >= chunks[|chunks| - 1].start + c.window then chunks + [Chunk(now, [now])]
    else chunks[|chunks| - 1 := Chunk(chunks[|chunks| - 1].start, chunks[|chunks| - 1].times + [now])]
  }

  /** A key's admissions so far, grouped by bucket. */
  function Chunks(c: Config, reqs: seq<Request>, key: string): seq<Chunk> {
    if reqs == [] then []
    else
      var chunks := Chunks(c, Init(reqs), key);
      if LastAdmitted(c, reqs) && Last(reqs).key == key then NextChunks(c, chunks, Last(reqs).now) else chunks
  }

  ghost predicate ChunkOk(c: Config, k: Chunk) {
    && 1 <= |k.times| <= MaxPerBucket(c)
    && k.times[0] == k.start
    && forall i :: 0 <= i < |k.times| ==> k.start <= k.times[i] < k.start + c.window
  }

  ghost predicate ChunksOk(c: Config, chunks: seq<Chunk>) {
    && (forall i :: 0 <= i < |chunks| ==> ChunkOk(c, chunks[i]))
    && (forall i :: 0 < i < |chunks| ==> chunks[i - 1].start + c.window <= chunks[i].start)
  }

  /** The table's bucket for a key is the key's last chunk, unless that chunk has expired. */
  ghost predicate Tracks(c: Config, s: Table, key: string, chunks: seq<Chunk>, now: int) {
    && (chunks != [] ==> chunks[|chunks| - 1].start <= now)
    && (key in s.buckets ==>
          && chunks != []
          && s.buckets[key] == Bucket(|chunks[|chunks| - 1].times|, chunks[|chunks| - 1].start + c.window))
    && (key !in s.buckets && chunks != [] ==> chunks[|chunks| - 1].start + c.window <= now)
  }

  lemma NextChunksTrack(c: Config, s: Table, key: string, chunks: seq<Chunk>, before: int, now: int)
    requires ChunksOk(c, chunks) && Tracks(c, s, key, chunks, before) && before <= now && c.window > 0
    requires Allow(c, s, key, now).0
    ensures ChunksOk(c, NextChunks(c, chunks, now))
    ensures Tracks(c, Allow(c, s, key, now).1, key, NextChunks(c, chunks, now), now)
  {
    OwnKey(c, s, key, now);
    hide Allow, Prepared;
    var n := |chunks| - 1;
    if chunks != [] && now < chunks[n].start + c.window {
      assert ChunkOk(c, chunks[n]);
      assert ChunkOk(c, Chunk(chunks[n].start, chunks[n].times + [now]));
    } else {
      assert ChunkOk(c, Chunk(now, [now]));
    }
  }

  lemma RefusedTracks(c: Config, s: Table, key: string, k: string, chunks: seq<Chunk>, before: int, now: int)
    requires Tracks(c, s, k, chunks, before) && before <= now
    requires k != key || !Allow(c, s, key, now).0
    ensures Tracks(c, Allow(c, s, key, now).1, k, chunks, now)
  {
    OwnKey(c, s, key, now);
    if k != key {
      OtherKey(c, s, key, now, k);
    }
    hide Allow, Prepared;
  }

  lemma {:induction false} RunTracks(c: Config, reqs: seq<Request>, key: string, now: int)
    requires Monotone(reqs) && c.window > 0
    requires reqs != [] ==> Last(reqs).now == now
    ensures ChunksOk(c, Chunks(c, reqs, key))
    ensures Tracks(c, After(c, reqs), key, Chunks(c, reqs, key), now)
  {
    if reqs != [] {
      hide Allow, ChunksOk, Tracks;
      var before := if Init(reqs) == [] then now else Last(Init(reqs)).now;
      RunTracks(c, Init(reqs), key, before);
      var s, chunks := After(c, Init(reqs)), Chunks(c, Init(reqs), key);
      if LastAdmitted(c, reqs) && Last(reqs).key == key {
        NextChunksTrack(c, s, key, chunks, before, now);
      } else {
        RefusedTracks(c, s, Last(reqs).key, key, chunks, before, now);
      }
    }
  }

  lemma NextChunksCount(c: Config, chunks: seq<Chunk>, now: int, from: int)
    ensures CountChunks(NextChunks(c, chunks, now), from, c.window)
            == CountChunks(chunks, from, c.window) + if from <= now < from + c.window then 1 else 0
  {
    var after := NextChunks(c, chunks, now);
    var n := |after| - 1;
    if |after| > |chunks| {
      assert after[..n] == chunks && after[n].times == [now] && [now][..0] == [];
      assert CountTimes([now], from, c.window) == CountTimes([now][..0], from, c.window) + if from <= now < from
          + c.window then 1 else 0;
    } else {
      assert after[..n] == chunks[..n];
      assert after[n].times[..|after[n].times| - 1] == chunks[n].times;
    }
  }

  lemma {:induction false} AdmissionsAreChunked(c: Config, reqs: seq<Request>, key: string, from: int)
    ensures AdmittedWithin(c, reqs, key, from) == CountChunks(Chunks(c, reqs, key), from, c.window)
  {
    hide Allow, NextChunks;
    if reqs != [] {
      AdmissionsAreChunked(c, Init(reqs), key, from);
      NextChunksCount(c, Chunks(c, Init(reqs), key), Last(reqs).now, from);
    }
  }

  lemma {:induction false} CountTimesBound(times: seq<int>, from: int, window: int)
    ensures CountTimes(times, from, window) <= |times|
    ensures times != [] && !(from <= times[0] < from + window) ==> CountTimes(times, from, window) <= |times| - 1
    ensures (forall i :: 0 <= i < |times| ==> !(from <= times[i] < from + window))
          ==> CountTimes(times, from, window) == 0
  {
    if times != [] {
      CountTimesBound(times[..|times| - 1], from, window);
    }
  }

  /** Buckets that ended before the window starts contribute nothing to it. */
  lemma {:induction false} OldChunksCountNothing(c: Config, chunks: seq<Chunk>, from: int)
    requires ChunksOk(c, chunks)
    requires chunks != [] ==> chunks[|chunks| - 1].start + c.window <= from
    requires c.window > 0
    ensures CountChunks(chunks, from, c.window) == 0
  {
    if chunks != [] {
      var n := |chunks| - 1;
      assert ChunkOk(c, chunks[n]);
      OldChunksCountNothing(c, chunks[..n], from);
      CountTimesBound(chunks[n].times, from, c.window);
    }
  }

  /** A window that starts after a bucket's first admission misses that admission and every older bucket. */
  lemma StraddledChunk(c: Config, chunks: seq<Chunk>, from: int)
    requires ChunksOk(c, chunks) && c.window > 0
    requires chunks != [] ==> chunks[|chunks| - 1].start < from
    ensures CountChunks(chunks, from, c.window) <= MaxPerBucket(c) - 1
  {
    if chunks != [] {
      var n := |chunks| - 1;
      assert ChunkOk(c, chunks[n]);
      OldChunksCountNothing(c, chunks[..n], from);
      CountTimesBound(chunks[n].times, from, c.window);
    }
  }

  lemma {:induction false} ChunkBound(c: Config, chunks: seq<Chunk>, from: int)
    requires ChunksOk(c, chunks) && c.window > 0
    ensures CountChunks(chunks, from, c.window) <= 2 * MaxPerBucket(c) - 1
  {
    if chunks != [] {
      var n := |chunks| - 1;
      assert ChunkOk(c, chunks[n]);
      CountTimesBound(chunks[n].times, from, c.window);
      if chunks[n].start >= from + c.window {
        ChunkBound(c, chunks[..n], from);
      } else if chunks[n].start >= from {
        StraddledChunk(c, chunks[..n], from);
      } else {
        StraddledChunk(c, chunks, from);
      }
    }
  }

  /** Any half-open interval of one window's length admits at most 2L - 1 requests of one key, in every run. */
  lemma AtMostTwiceLimitLessOne(c: Config, reqs: seq<Request>, key: string, from: int)
    requires Monotone(reqs) && c.window > 0
    ensures AdmittedWithin(c, reqs, key, from) <= 2 * MaxPerBucket(c) - 1
  {
    RunTracks(c, reqs, key, if reqs == [] then 0 else Last(reqs).now);
    hide Chunks, CountChunks, AdmittedWithin;
    AdmissionsAreChunked(c, reqs, key, from);
    ChunkBound(c, Chunks(c, reqs, key), from);
  }

  /** `n` more requests of one key at one instant. */
  function Burst(reqs: seq<Request>, now: int, n: nat): (burst: seq<Request>)
    ensures |burst| == |reqs| + n
  {
    if n == 0 then reqs else Burst(reqs, now, n - 1) + [Request("a", now)]
  }

  /** A request opens a bucket, the rest of it is used at its last instant, and a new bucket fills at the next. */
  function TightRun(c: Config): seq<Request> {
    Burst(Burst([Request("a", 0)], c.window - 1, MaxPerBucket(c) - 1), c.window, MaxPerBucket(c))
  }

  lemma OneMoreInBurst(c: Config, reqs: seq<Request>, now: int, n: nat, from: int)
    requires n > 0
    ensures var before, burst := Burst(reqs, now, n - 1), Burst(reqs, now, n);
            var (ok, s) := Allow(c, After(c, before), "a", now);
            && After(c, burst) == s
            && AdmittedWithin(c, burst, "a", from)
               == AdmittedWithin(c, before, "a", from) + if ok && from <= now < from + c.window then 1 else 0
  {
    hide Allow;
    assert Init(Burst(reqs, now, n)) == Burst(reqs, now, n - 1);
  }

  /** The table of one key. */
  function OneBucket(n: int, end: int): Table {
    Table(map["a" := Bucket(n, end)], Some(end))
  }

  lemma CallOpens(c: Config, now: int)
    requires c.maxKeys >= 1
    ensures Allow(c, Table(map[], None), "a", now) == (true, OneBucket(1, now + c.window))
  {
    assert Live(map[], now) == map[];
  }

  lemma CallCounts(c: Config, n: int, end: int, now: int)
    requires now < end && 0 < n < MaxPerBucket(c)
    ensures Allow(c, OneBucket(n, end), "a", now) == (true, OneBucket(n + 1, end))
  {
    var s := OneBucket(n, end);
    assert Prepared(c, s, "a", now) == s && n < c.limit;
    assert s.buckets["a" := Bucket(n + 1, end)] == OneBucket(n + 1, end).buckets;
  }

  lemma CallReopens(c: Config, n: int, now: int)
    requires c.maxKeys >= 1
    ensures Allow(c, OneBucket(n, now), "a", now) == (true, OneBucket(1, now + c.window))
  {
    assert Live(OneBucket(n, now).buckets, now) == map[];
  }

  lemma RunOpens(c: Config, from: int)
    requires c.maxKeys >= 1 && from > 0
    ensures After(c, [Request("a", 0)]) == OneBucket(1, c.window)
    ensures AdmittedWithin(c, [Request("a", 0)], "a", from) == 0
  {
    var r := [Request("a", 0)];
    assert Init(r) == [] && After(c, []) == Table(map[], None);
    CallOpens(c, 0);
    hide Allow;
  }

  lemma NoBurst(reqs: seq<Request>, now: int)
    ensures Burst(reqs, now, 0) == reqs
  {
  }

  lemma {:induction false} FirstBucketFills(c: Config, n: nat)
    requires c.window >= 2 && c.maxKeys >= 1 && n <= MaxPerBucket(c) - 1
    ensures var r := Burst([Request("a", 0)], c.window - 1, n);
            After(c, r) == OneBucket(1 + n, c.window) && AdmittedWithin(c, r, "a", c.window - 1) == n
  {
    hide *;
    var one := [Request("a", 0)];
    if n == 0 {
      NoBurst(one, c.window - 1);
      RunOpens(c, c.window - 1);
    } else {
      FirstBucketFills(c, n - 1);
      OneMoreInBurst(c, one, c.window - 1, n, c.window - 1);
      CallCounts(c, n, c.window, c.window - 1);
    }
  }

  lemma {:induction false} SecondBucketFills(c: Config, n: nat)
    requires c.window >= 2 && c.maxKeys >= 1 && n <= MaxPerBucket(c)
    ensures var r := Burst(Burst([Request("a", 0)], c.window - 1, MaxPerBucket(c) - 1), c.window, n);
            && (n > 0 ==> After(c, r) == OneBucket(n, 2 * c.window))
            && AdmittedWithin(c, r, "a", c.window - 1) == MaxPerBucket(c) - 1 + n
  {
    hide *;
    var max := MaxPerBucket(c);
    var first := Burst([Request("a", 0)], c.window - 1, max - 1);
    FirstBucketFills(c, max - 1);
    NoBurst(first, c.window);
    if n > 0 {
      SecondBucketFills(c, n - 1);
      OneMoreInBurst(c, first, c.window, n, c.window - 1);
      if n == 1 {
        CallReopens(c, max, c.window);
      } else {
        CallCounts(c, n - 1, 2 * c.window, c.window);
      }
    }
  }

  lemma {:induction false} BurstIsMonotone(reqs: seq<Request>, now: int, n: nat)
    requires Monotone(reqs) && forall i :: 0 <= i < |reqs| ==> reqs[i].now <= now
    ensures Monotone(Burst(reqs, now, n)) && forall i :: 0 <= i < |reqs| + n ==> Burst(reqs, now, n)[i].now <= now
  {
    if n > 0 {
      BurstIsMonotone(reqs, now, n - 1);
    }
  }

  /**
   The bound is tight for every limit and capacity and every window of at least two ticks: a run with a clock that does
   not decrease admits exactly 2L - 1 requests of one key within one window.
   */
  lemma BoundIsAttained(c: Config)
    requires c.window >= 2 && c.maxKeys >= 1
    ensures Monotone(TightRun(c)) && AdmittedWithin(c, TightRun(c), "a", c.window - 1) == 2 * MaxPerBucket(c) - 1
  {
    hide After, AdmittedWithin, Burst, Monotone;
    var one := [Request("a", 0)];
    SecondBucketFills(c, MaxPerBucket(c));
    assert Monotone(one) by {
      OneIsMonotone(one[0]);
    }
    BurstIsMonotone(one, c.window - 1, MaxPerBucket(c) - 1);
    BurstIsMonotone(Burst(one, c.window - 1, MaxPerBucket(c) - 1), c.window, MaxPerBucket(c));
  }

  lemma OneIsMonotone(r: Request)
    ensures Monotone([r])
  {
  }

  // ---- Lazy cleanup is invisible ----

  /** A limiter for one key that never forgets: its bucket after the admissions so far. */
  function Ideal(c: Config, reqs: seq<Request>, key: string): Option<Bucket> {
    if reqs == [] then None
    else
      var b := Ideal(c, Init(reqs), key);
      var now := Last(reqs).now;
      if !(LastAdmitted(c, reqs) && Last(reqs).key == key) then b
      else if IdealLive(b, now) then Some(Bucket(b.value.attempts + 1, b.value.expiresAt))
      else Some(Bucket(1, now + c.window))
  }

  predicate IdealLive(b: Option<Bucket>, now: int) {
    b.Some? && now < b.value.expiresAt
  }

  predicate IdealAdmits(c: Config, b: Option<Bucket>, now: int) {
    IdealLive(b, now) ==> b.value.attempts < c.limit
  }

  /** What the table forgot about a key had expired; what it kept is what the ideal limiter has. */
  lemma {:induction false} IdealTracks(c: Config, reqs: seq<Request>, key: string, now: int)
    requires Monotone(reqs) && (reqs != [] ==> Last(reqs).now <= now)
    ensures var s, b := After(c, reqs), Ideal(c, reqs, key);
            && (key in s.buckets ==> b == Some(s.buckets[key]))
            && (key !in s.buckets ==> !IdealLive(b, now))
  {
    hide Allow, Prepared;
    if reqs != [] {
      var s, last := After(c, Init(reqs)), Last(reqs);
      IdealTracks(c, Init(reqs), key, last.now);
      OwnKey(c, s, last.key, last.now);
      if key != last.key {
        OtherKey(c, s, last.key, last.now, key);
      }
    }
  }

  /** A request is admitted exactly when the never-cleaning limiter admits it and its key is live or there is room. */
  lemma CleanupIsInvisible(c: Config, reqs: seq<Request>)
    requires reqs != [] && Monotone(reqs)
    ensures var s, key, now := After(c, Init(reqs)), Last(reqs).key, Last(reqs).now;
            var b := Ideal(c, Init(reqs), key);
            LastAdmitted(c, reqs) <==>
            IdealAdmits(c, b, now) && (IdealLive(b, now) || |Prepared(c, s, key, now).buckets| < c.maxKeys)
  {
    IdealTracks(c, Init(reqs), Last(reqs).key, Last(reqs).now);
  }
}
