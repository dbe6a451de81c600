/** The in-memory fixed-window limiter, its periodic sweep and its cap on keys. */
module RateLimiter {
  import opened Common

  const MAX_KEYS := 10000
  const CLEANUP_MS := 60000

  datatype Bucket = Bucket(count: nat, resetAt: int)
  datatype Policy = Policy(windowMs: nat, max: nat)
  datatype State = State(buckets: map<string, Bucket>, nextCleanup: int)
  datatype Decision = Admitted | Refused(retryAfter: nat)
  datatype Arrival = Arrival(key: string, now: int)

  // ---------- One request ----------

  function Swept(buckets: map<string, Bucket>, now: int): map<string, Bucket> {
    map key | key in buckets && buckets[key].resetAt > now :: buckets[key]
  }

  /** How long the next sweep waits after one. */
  function SweepEvery(p: Policy): nat {
    if p.windowMs <= CLEANUP_MS then p.windowMs else CLEANUP_MS
  }

  function Cleaned(s: State, now: int, p: Policy): State {
    if now >= s.nextCleanup then State(Swept(s.buckets, now), now + SweepEvery(p)) else s
  }

  function SecondsUntil(resetAt: int, now: int): nat {
    Max(1, (resetAt - now + 999) / 1000)
  }

  /** Counting a request on the buckets as they stand, with room for `cap` keys. */
  function Counted(buckets: map<string, Bucket>, key: string, now: int, p: Policy, cap: Option<nat>): (map<string, Bucket>, Decision) {
    if key !in buckets || buckets[key].resetAt <= now then
      if key !in buckets && cap.Some? && |buckets| >= cap.value then (buckets, Refused(60))
      else (buckets[key := Bucket(1, now + p.windowMs)], Admitted)
    else
      var bucket := Bucket(buckets[key].count + 1, buckets[key].resetAt);
      (buckets[key := bucket], if bucket.count > p.max then Refused(SecondsUntil(bucket.resetAt, now)) else Admitted)
  }

  function Step(s: State, key: string, now: int, p: Policy): (State, Decision) {
    var c := Cleaned(s, now, p);
    var r := Counted(c.buckets, key, now, p, Some(MAX_KEYS));
    (State(r.0, c.nextCleanup), r.1)
  }

  class Limiter {
    const policy: Policy
    var buckets: map<string, Bucket>
    var nextCleanup: int

    constructor (p: Policy)
      ensures policy == p && Contents() == State(map[], 0)
    {
      policy, buckets, nextCleanup := p, map[], 0;
    }

    function Contents(): State
      reads this
    {
      State(buckets, nextCleanup)
    }

    method Sweep(now: int)
      modifies this`buckets
      ensures buckets == Swept(old(buckets), now)
    {
      var left := buckets.Keys;
      while left != {}
        invariant left <= buckets.Keys <= old(buckets).Keys
        invariant forall key | key in buckets :: buckets[key] == old(buckets)[key]
        invariant forall key | key in old(buckets) && key !in left :: key in buckets <==> old(buckets)[key].resetAt > now
        decreases |left|
      {
        var key :| key in left;
        left := left - {key};
        if buckets[key].resetAt <= now { buckets := buckets - {key}; }
      }
    }

    method Handle(key: string, now: int) returns (decision: Decision)
      modifies this
      ensures (Contents(), decision) == Step(old(Contents()), key, now, policy)
    {
      if now >= nextCleanup {
        Sweep(now);
        nextCleanup := now + SweepEvery(policy);
      }
      if key !in buckets || buckets[key].resetAt <= now {
        if key !in buckets && |buckets| >= MAX_KEYS { return Refused(60); }
        buckets := buckets[key := Bucket(1, now + policy.windowMs)];
        return Admitted;
      }
      buckets := buckets[key := Bucket(buckets[key].count + 1, buckets[key].resetAt)];
      if buckets[key].count > policy.max { return Refused(SecondsUntil(buckets[key].resetAt, now)); }
      return Admitted;
    }
  }

  // ---------- Runs ----------

  function After(run: seq<Arrival>, p: Policy): State {
    if run == [] then State(map[], 0)
    else Step(After(run[..|run| - 1], p), run[|run| - 1].key, run[|run| - 1].now, p).0
  }

  function DecisionOn(run: seq<Arrival>, p: Policy): Decision
    requires run != []
  {
    Step(After(run[..|run| - 1], p), run[|run| - 1].key, run[|run| - 1].now, p).1
  }

  /** When the key's requests were let in. */
  function Entries(run: seq<Arrival>, key: string, p: Policy): seq<int> {
    if run == [] then []
    else
      var last := run[|run| - 1];
      var before := Entries(run[..|run| - 1], key, p);
      if last.key == key && DecisionOn(run, p) == Admitted then before + [last.now] else before
  }

  ghost predicate ClockRuns(run: seq<Arrival>) {
    forall i, j | 0 <= i < j < |run| :: run[i].now <= run[j].now
  }

  function CountIn(v: seq<int>, lo: int, hi: int): nat {
    if v == [] then 0 else CountIn(v[..|v| - 1], lo, hi) + if lo <= v[|v| - 1] < hi then 1 else 0
  }

  lemma CountOneMore(v: seq<int>, x: int, lo: int, hi: int)
    ensures CountIn(v + [x], lo, hi) == CountIn(v, lo, hi) + if lo <= x < hi then 1 else 0
  {
    assert (v + [x])[..|v|] == v;
  }

  lemma {:induction false} CountSplits(v: seq<int>, lo: int, mid: int, hi: int)
    requires lo <= mid <= hi
    ensures CountIn(v, lo, hi) == CountIn(v, lo, mid) + CountIn(v, mid, hi)
  {
    if v != [] {
      CountSplits(v[..|v| - 1], lo, mid, hi);
    }
  }

  lemma {:induction false} CountGrows(v: seq<int>, lo: int, hi: int, lo': int, hi': int)
    requires lo' <= lo && hi <= hi'
    ensures CountIn(v, lo, hi) <= CountIn(v, lo', hi')
  {
    if v != [] {
      CountGrows(v[..|v| - 1], lo, hi, lo', hi');
    }
  }

  lemma {:induction false} NoneBeyond(v: seq<int>, lo: int, hi: int)
    requires forall x | x in v :: x < lo
    ensures CountIn(v, lo, hi) == 0
  {
    if v != [] {
      var init := v[..|v| - 1];
      forall x | x in init ensures x < lo { assert x in v; }
      NoneBeyond(init, lo, hi);
      assert v[|v| - 1] in v;
    }
  }

  // ---------- How many get in ----------

  /** A bucket's first request always gets in, whatever the limit. */
  function Limit(p: Policy): nat { Max(1, p.max) }

  function AtMost(x: nat, bound: nat): nat { if x <= bound then x else bound }

  /** What is known of a key whose latest bucket opened at `start`. */
  ghost predicate Ledger(buckets: map<string, Bucket>, key: string, v: seq<int>, now: int, start: int, p: Policy) {
    var w := p.windowMs;
    && start <= now
    && (forall x | x in v :: x <= now && x < start + w)
    && (key in buckets ==> buckets[key].resetAt == start + w && CountIn(v, start, start + w) == AtMost(buckets[key].count, Limit(p)))
    && (key !in buckets ==> start + w <= now)
    && CountIn(v, start, start + w) <= Limit(p)
    && CountIn(v, start, start + 1) >= 1
    && (forall t | t > start - w :: CountIn(v, t, start) < Limit(p))
  }

  ghost predicate Known(buckets: map<string, Bucket>, key: string, v: seq<int>, now: int, start: Option<int>, p: Policy) {
    if start.None? then v == [] && key !in buckets else Ledger(buckets, key, v, now, start.value, p)
  }

  /** The entries of the half-open window that starts at t. */
  function InWindow(v: seq<int>, t: int, p: Policy): nat {
    CountIn(v, t, t + p.windowMs)
  }

  ghost predicate Sparse(v: seq<int>, p: Policy) {
    forall t :: InWindow(v, t, p) < 2 * Limit(p)
  }

  lemma SweepKeepsKnown(s: State, key: string, v: seq<int>, now: int, later: int, start: Option<int>, p: Policy)
    requires now <= later && Known(s.buckets, key, v, now, start, p)
    ensures Known(Cleaned(s, later, p).buckets, key, v, later, start, p)
  {
  }

  /** A new bucket starts a count of its own; the one before it has ended. */
  lemma OpeningIsKnown(buckets: map<string, Bucket>, key: string, v: seq<int>, now: int, start: Option<int>, p: Policy)
    requires p.windowMs > 0 && Known(buckets, key, v, now, start, p)
    requires key !in buckets || buckets[key].resetAt <= now
    ensures Known(buckets[key := Bucket(1, now + p.windowMs)], key, v + [now], now, Some(now), p)
  {
    var w := p.windowMs;
    assert forall x | x in v :: x < now;
    NoneBeyond(v, now, now + w);
    CountOneMore(v, now, now, now + w);
    CountOneMore(v, now, now, now + 1);
    forall t | t > now - w ensures CountIn(v + [now], t, now) < Limit(p) {
      CountOneMore(v, now, t, now);
      if start.Some? {
        NoneBeyond(v, start.value + w, now);
        if start.value + w <= now && t <= start.value + w {
          CountSplits(v, t, start.value + w, now);
          CountSplits(v, start.value, start.value + 1, start.value + w);
          CountGrows(v, t, start.value + w, start.value + 1, start.value + w);
        } else if t > start.value + w {
          NoneBeyond(v, t, now);
        }
      }
    }
  }

  lemma JoiningIsKnown(buckets: map<string, Bucket>, key: string, v: seq<int>, now: int, start: int, p: Policy)
    requires key in buckets && buckets[key].resetAt > now && Ledger(buckets, key, v, now, start, p) && buckets[key].count >= 1
    ensures var count := buckets[key].count + 1;
      Ledger(buckets[key := Bucket(count, buckets[key].resetAt)], key, if count > p.max then v else v + [now], now, start, p)
  {
    var w := p.windowMs;
    CountOneMore(v, now, start, start + w);
    CountOneMore(v, now, start, start + 1);
    forall t | t > start - w ensures CountIn(v + [now], t, start) == CountIn(v, t, start) { CountOneMore(v, now, t, start); }
  }

  /** Entries known to come from two buckets at most are sparse. */
  lemma KnownStaysSparse(v: seq<int>, now: int, start: int, buckets: map<string, Bucket>, key: string, p: Policy)
    requires Sparse(v, p) && Ledger(buckets, key, v + [now], now, start, p)
    ensures Sparse(v + [now], p)
  {
    var w, all := p.windowMs, v + [now];
    forall t ensures InWindow(all, t, p) < 2 * Limit(p) {
      if t <= now < t + w {
        if t <= start {
          CountSplits(all, t, start, t + w);
          CountGrows(all, start, t + w, start, start + w);
        } else {
          NoneBeyond(all, start + w, t + w);
          CountSplits(all, t, start + w, t + w);
          CountGrows(all, t, start + w, start, start + w);
        }
      } else {
        CountOneMore(v, now, t, t + w);
        assert InWindow(v, t, p) < 2 * Limit(p);
      }
    }
  }

  // ---------- Over a whole run ----------

  ghost predicate Counting(buckets: map<string, Bucket>) {
    forall key | key in buckets :: buckets[key].count >= 1
  }

  lemma {:induction false} CountsStayPositive(run: seq<Arrival>, p: Policy)
    ensures Counting(After(run, p).buckets) && |After(run, p).buckets| <= MAX_KEYS
  {
    if run != [] {
      var s, last := After(run[..|run| - 1], p), run[|run| - 1];
      CountsStayPositive(run[..|run| - 1], p);
      SweepShrinks(s.buckets, last.now);
      CountingKeepsCap(Cleaned(s, last.now, p).buckets, last.key, last.now, p);
    }
  }

  lemma SweepShrinks(buckets: map<string, Bucket>, now: int)
    ensures |Swept(buckets, now)| <= |buckets| && (Counting(buckets) ==> Counting(Swept(buckets, now)))
  {
    SubsetIsSmaller(Swept(buckets, now).Keys, buckets.Keys);
    assert |Swept(buckets, now).Keys| == |Swept(buckets, now)| && |buckets.Keys| == |buckets|;
  }

  lemma {:induction false} SubsetIsSmaller(a: set<string>, b: set<string>)
    requires a <= b
    ensures |a| <= |b|
  {
    if x :| x in a {
      SubsetIsSmaller(a - {x}, b - {x});
    }
  }

  lemma CountingKeepsCap(buckets: map<string, Bucket>, key: string, now: int, p: Policy)
    requires Counting(buckets) && |buckets| <= MAX_KEYS
    ensures var r := Counted(buckets, key, now, p, Some(MAX_KEYS)).0; Counting(r) && |r| <= MAX_KEYS
  {
    var r := Counted(buckets, key, now, p, Some(MAX_KEYS)).0;
    assert r.Keys == buckets.Keys || r.Keys == buckets.Keys + {key};
    assert |r.Keys| == |r| && |buckets.Keys| == |buckets|;
  }

  /** The key's own request, on swept buckets, keeps what is known of it and keeps its entries sparse. */
  lemma OwnRequestKeepsKnown(buckets: map<string, Bucket>, key: string, v: seq<int>, now: int, start: Option<int>, p: Policy) returns (after: Option<int>)
    requires p.windowMs > 0 && Counting(buckets) && Known(buckets, key, v, now, start, p) && Sparse(v, p)
    ensures var r := Counted(buckets, key, now, p, Some(MAX_KEYS));
      var entries := if r.1 == Admitted then v + [now] else v;
      Known(r.0, key, entries, now, after, p) && Sparse(entries, p)
  {
    var r := Counted(buckets, key, now, p, Some(MAX_KEYS));
    after := start;
    if key !in buckets || buckets[key].resetAt <= now {
      if r.1 == Admitted {
        after := Some(now);
        OpeningIsKnown(buckets, key, v, now, start, p);
        KnownStaysSparse(v, now, now, r.0, key, p);
      }
    } else {
      JoiningIsKnown(buckets, key, v, now, start.value, p);
      if r.1 == Admitted {
        KnownStaysSparse(v, now, start.value, r.0, key, p);
      }
    }
  }

  /** So does any request. */
  lemma StepKeepsKnown(s: State, a: Arrival, key: string, v: seq<int>, before: int, start: Option<int>, p: Policy) returns (after: Option<int>)
    requires p.windowMs > 0 && before <= a.now && Counting(s.buckets)
    requires Known(s.buckets, key, v, before, start, p) && Sparse(v, p)
    ensures var r := Step(s, a.key, a.now, p);
      var entries := if a.key == key && r.1 == Admitted then v + [a.now] else v;
      Known(r.0.buckets, key, entries, a.now, after, p) && Sparse(entries, p)
  {
    SweepKeepsKnown(s, key, v, before, a.now, start, p);
    SweepShrinks(s.buckets, a.now);
    if a.key == key {
      after := OwnRequestKeepsKnown(Cleaned(s, a.now, p).buckets, key, v, a.now, start, p);
    } else {
      after := start;
    }
  }

  lemma {:induction false} RunIsKnown(run: seq<Arrival>, key: string, p: Policy) returns (start: Option<int>)
    requires p.windowMs > 0 && ClockRuns(run) && run != []
    ensures Known(After(run, p).buckets, key, Entries(run, key, p), run[|run| - 1].now, start, p) && Sparse(Entries(run, key, p), p)
  {
    var init, last := run[..|run| - 1], run[|run| - 1];
    CountsStayPositive(init, p);
    if init == [] {
      assert Known(map[], key, [], last.now, None, p);
      start := StepKeepsKnown(After(init, p), last, key, [], last.now, None, p);
    } else {
      start := RunIsKnown(init, key, p);
      start := StepKeepsKnown(After(init, p), last, key, Entries(init, key, p), init[|init| - 1].now, start, p);
    }
  }

  /**
   * However requests arrive, no key gets in twice its limit within any window's
   * length, and the table never holds more than ten thousand keys.
   */
  lemma FewerThanTwiceTheLimit(run: seq<Arrival>, key: string, p: Policy, t: int)
    requires ClockRuns(run)
    ensures InWindow(Entries(run, key, p), t, p) < 2 * Limit(p)
    ensures |After(run, p).buckets| <= MAX_KEYS
  {
    CountsStayPositive(run, p);
    var v := Entries(run, key, p);
    if p.windowMs == 0 {
      CountSplits(v, t, t, t);
    } else if run != [] {
      var start := RunIsKnown(run, key, p);
      assert Sparse(v, p);
    }
  }

  function Calls(key: string, now: int, n: nat): (run: seq<Arrival>)
    ensures |run| == n && forall i | 0 <= i < n :: run[i] == Arrival(key, now)
  {
    seq(n, i => Arrival(key, now))
  }

  function Times(now: int, n: nat): (v: seq<int>)
    ensures |v| == n && forall i | 0 <= i < n :: v[i] == now
  {
    seq(n, i => now)
  }

  /** One call to open a bucket, all it still allows in its last millisecond, and a full bucket at the turn. */
  function AroundTheTurn(key: string, p: Policy): seq<Arrival>
    requires p.max >= 1
  {
    [Arrival(key, 0)] + Calls(key, p.windowMs - 1, p.max - 1) + Calls(key, p.windowMs, p.max)
  }

  lemma OneMoreArrival(run: seq<Arrival>, a: Arrival, p: Policy)
    ensures After(run + [a], p) == Step(After(run, p), a.key, a.now, p).0
    ensures Entries(run + [a], a.key, p) ==
      if Step(After(run, p), a.key, a.now, p).1 == Admitted then Entries(run, a.key, p) + [a.now] else Entries(run, a.key, p)
  {
    assert (run + [a])[..|run|] == run;
  }

  lemma LoneBucketJoins(s: State, key: string, now: int, p: Policy, c: nat, resetAt: int)
    requires s.buckets == map[key := Bucket(c, resetAt)] && now < resetAt && c + 1 <= p.max
    ensures Step(s, key, now, p).0.buckets == map[key := Bucket(c + 1, resetAt)] && Step(s, key, now, p).1 == Admitted
  {
    assert Swept(s.buckets, now) == s.buckets;
    assert s.buckets[key := Bucket(c + 1, resetAt)] == map[key := Bucket(c + 1, resetAt)];
  }

  lemma LoneBucketReopens(s: State, key: string, now: int, p: Policy)
    requires s.buckets.Keys <= {key} && (key in s.buckets ==> s.buckets[key].resetAt <= now)
    ensures Step(s, key, now, p).0.buckets == map[key := Bucket(1, now + p.windowMs)] && Step(s, key, now, p).1 == Admitted
  {
    SubsetIsSmaller(s.buckets.Keys, {key});
    SweepShrinks(s.buckets, now);
    assert |s.buckets.Keys| == |s.buckets|;
  }

  lemma OneMoreGetsIn(init: seq<Arrival>, key: string, now: int, p: Policy, c: nat, resetAt: int)
    requires After(init, p).buckets == map[key := Bucket(c, resetAt)] && now < resetAt && c + 1 <= p.max
    ensures After(init + [Arrival(key, now)], p).buckets == map[key := Bucket(c + 1, resetAt)]
    ensures Entries(init + [Arrival(key, now)], key, p) == Entries(init, key, p) + [now]
  {
    OneMoreArrival(init, Arrival(key, now), p);
    LoneBucketJoins(After(init, p), key, now, p, c, resetAt);
  }

  lemma OneMoreCall(run: seq<Arrival>, v: seq<int>, key: string, now: int, n: nat)
    requires n >= 1
    ensures run + Calls(key, now, n) == run + Calls(key, now, n - 1) + [Arrival(key, now)]
    ensures v + Times(now, n) == v + Times(now, n - 1) + [now]
  {
  }

  lemma NextCallGetsIn(run: seq<Arrival>, v: seq<int>, key: string, now: int, n: nat, p: Policy, c: nat, resetAt: int)
    requires n >= 1 && now < resetAt && c + n <= p.max
    requires After(run + Calls(key, now, n - 1), p).buckets == map[key := Bucket(c + n - 1, resetAt)]
    requires Entries(run + Calls(key, now, n - 1), key, p) == v + Times(now, n - 1)
    ensures After(run + Calls(key, now, n), p).buckets == map[key := Bucket(c + n, resetAt)]
    ensures Entries(run + Calls(key, now, n), key, p) == v + Times(now, n)
  {
    OneMoreGetsIn(run + Calls(key, now, n - 1), key, now, p, c + n - 1, resetAt);
    OneMoreCall(run, v, key, now, n);
  }

  /** Calls within what a bucket still allows all get in. */
  lemma {:induction false} CallsGetIn(run: seq<Arrival>, key: string, now: int, n: nat, p: Policy, c: nat, resetAt: int)
    requires After(run, p).buckets == map[key := Bucket(c, resetAt)] && now < resetAt && c + n <= p.max
    ensures After(run + Calls(key, now, n), p).buckets == map[key := Bucket(c + n, resetAt)]
    ensures Entries(run + Calls(key, now, n), key, p) == Entries(run, key, p) + Times(now, n)
  {
    if n == 0 {
      assert run + Calls(key, now, 0) == run;
    } else {
      CallsGetIn(run, key, now, n - 1, p, c, resetAt);
      NextCallGetsIn(run, Entries(run, key, p), key, now, n, p, c, resetAt);
    }
  }

  lemma {:induction false} CountRepeated(v: seq<int>, now: int, n: nat, lo: int, hi: int)
    requires lo <= now < hi
    ensures CountIn(v + Times(now, n), lo, hi) == CountIn(v, lo, hi) + n
  {
    if n == 0 {
      assert v + Times(now, 0) == v;
    } else {
      CountRepeated(v, now, n - 1, lo, hi);
      CountOneMore(v + Times(now, n - 1), now, lo, hi);
      assert v + Times(now, n) == v + Times(now, n - 1) + [now];
    }
  }

  /** A call that opens a bucket, and calls that fill it. */
  lemma BucketFills(run: seq<Arrival>, key: string, open: int, now: int, n: nat, p: Policy)
    requires var s := After(run, p); s.buckets.Keys <= {key} && (key in s.buckets ==> s.buckets[key].resetAt <= open)
    requires open <= now < open + p.windowMs && 1 + n <= p.max
    ensures var whole := run + [Arrival(key, open)] + Calls(key, now, n);
      && After(whole, p).buckets == map[key := Bucket(1 + n, open + p.windowMs)]
      && Entries(whole, key, p) == Entries(run, key, p) + [open] + Times(now, n)
  {
    OneMoreArrival(run, Arrival(key, open), p);
    LoneBucketReopens(After(run, p), key, open, p);
    CallsGetIn(run + [Arrival(key, open)], key, now, n, p, 1, open + p.windowMs);
  }

  /** The first bucket of the run. */
  lemma EntriesBeforeTheTurn(run: seq<Arrival>, key: string, p: Policy)
    requires p.windowMs >= 2 && p.max >= 1
    requires run == [Arrival(key, 0)] + Calls(key, p.windowMs - 1, p.max - 1)
    ensures After(run, p).buckets == map[key := Bucket(p.max, p.windowMs)]
    ensures Entries(run, key, p) == [0] + Times(p.windowMs - 1, p.max - 1)
  {
    FirstCallOpens(key, p);
    CallsGetIn([Arrival(key, 0)], key, p.windowMs - 1, p.max - 1, p, 1, p.windowMs);
  }

  lemma FirstCallOpens(key: string, p: Policy)
    ensures After([Arrival(key, 0)], p).buckets == map[key := Bucket(1, p.windowMs)] && Entries([Arrival(key, 0)], key, p) == [0]
  {
    assert [] + [Arrival(key, 0)] == [Arrival(key, 0)];
    OneMoreArrival([], Arrival(key, 0), p);
    LoneBucketReopens(After([], p), key, 0, p);
  }

  lemma EntriesAroundTheTurn(key: string, p: Policy)
    requires p.windowMs >= 2 && p.max >= 1
    ensures Entries(AroundTheTurn(key, p), key, p) == [0] + Times(p.windowMs - 1, p.max - 1) + [p.windowMs] + Times(p.windowMs, p.max - 1)
  {
    var first := [Arrival(key, 0)] + Calls(key, p.windowMs - 1, p.max - 1);
    EntriesBeforeTheTurn(first, key, p);
    OneCallFirst(first, key, p.windowMs, p.max);
    EntriesAfterTheTurn(AroundTheTurn(key, p), first, key, p, [0] + Times(p.windowMs - 1, p.max - 1));
  }

  /** The bucket opened at the turn. */
  lemma EntriesAfterTheTurn(run: seq<Arrival>, first: seq<Arrival>, key: string, p: Policy, v: seq<int>)
    requires p.windowMs >= 1 && p.max >= 1 && Entries(first, key, p) == v
    requires After(first, p).buckets == map[key := Bucket(p.max, p.windowMs)]
    requires run == first + [Arrival(key, p.windowMs)] + Calls(key, p.windowMs, p.max - 1)
    ensures Entries(run, key, p) == v + [p.windowMs] + Times(p.windowMs, p.max - 1)
  {
    BucketFills(first, key, p.windowMs, p.windowMs, p.max - 1, p);
  }

  lemma OneCallFirst(run: seq<Arrival>, key: string, now: int, n: nat)
    requires n >= 1
    ensures run + Calls(key, now, n) == run + [Arrival(key, now)] + Calls(key, now, n - 1)
  {
  }

  lemma TurnIsOrdered(key: string, p: Policy)
    requires p.windowMs >= 2 && p.max >= 1
    ensures ClockRuns(AroundTheTurn(key, p))
  {
  }

  /** Of these entries the window opening a millisecond before the turn misses the first alone. */
  lemma CountAroundTheTurn(v: seq<int>, w: int, n: nat)
    requires w >= 2 && v == [0] + Times(w - 1, n) + [w] + Times(w, n)
    ensures CountIn(v, w - 1, 2 * w - 1) == 2 * n + 1
  {
    CountOneMore([], 0, w - 1, 2 * w - 1);
    assert [] + [0] == [0];
    CountRepeated([0], w - 1, n, w - 1, 2 * w - 1);
    CountOneMore([0] + Times(w - 1, n), w, w - 1, 2 * w - 1);
    CountRepeated([0] + Times(w - 1, n) + [w], w, n, w - 1, 2 * w - 1);
  }

  lemma NearlyTwiceGetIn(v: seq<int>, p: Policy)
    requires p.windowMs >= 2 && p.max >= 1
    requires v == [0] + Times(p.windowMs - 1, p.max - 1) + [p.windowMs] + Times(p.windowMs, p.max - 1)
    ensures InWindow(v, p.windowMs - 1, p) == 2 * Limit(p) - 1
  {
    CountAroundTheTurn(v, p.windowMs, p.max - 1);
  }

  /** Under any policy with a window worth the name, one less than twice the limit does get in around the turn of a window. */
  lemma NearlyTwiceTheLimitHappens(key: string, p: Policy)
    requires p.windowMs >= 2 && p.max >= 1
    ensures ClockRuns(AroundTheTurn(key, p))
    ensures InWindow(Entries(AroundTheTurn(key, p), key, p), p.windowMs - 1, p) == 2 * Limit(p) - 1
  {
    TurnIsOrdered(key, p);
    EntriesAroundTheTurn(key, p);
    NearlyTwiceGetIn(Entries(AroundTheTurn(key, p), key, p), p);
  }

  // ---------- Sweeping changes no decision ----------

  /** The limiter that keeps every bucket for ever and takes any number of keys. */
  function Forever(run: seq<Arrival>, p: Policy): map<string, Bucket> {
    if run == [] then map[]
    else Counted(Forever(run[..|run| - 1], p), run[|run| - 1].key, run[|run| - 1].now, p, None).0
  }

  function ForeverDecisionOn(run: seq<Arrival>, p: Policy): Decision
    requires run != []
  {
    Counted(Forever(run[..|run| - 1], p), run[|run| - 1].key, run[|run| - 1].now, p, None).1
  }

  /** The kept buckets are the swept ones and expired ones besides. */
  ghost predicate Shadows(swept: map<string, Bucket>, kept: map<string, Bucket>, now: int) {
    && (forall key | key in swept :: key in kept && kept[key] == swept[key])
    && forall key | key in kept && key !in swept :: kept[key].resetAt <= now
  }

  lemma SameDecision(s: State, kept: map<string, Bucket>, a: Arrival, before: int, p: Policy)
    requires before <= a.now && Shadows(s.buckets, kept, before)
    requires a.key in Cleaned(s, a.now, p).buckets || |Cleaned(s, a.now, p).buckets| < MAX_KEYS
    ensures Step(s, a.key, a.now, p).1 == Counted(kept, a.key, a.now, p, None).1
    ensures Shadows(Step(s, a.key, a.now, p).0.buckets, Counted(kept, a.key, a.now, p, None).0, a.now)
  {
    assert Shadows(Cleaned(s, a.now, p).buckets, kept, a.now);
  }

  /** Request `n` finds its key in the table, or room for it. */
  ghost predicate HasRoom(run: seq<Arrival>, n: nat, p: Policy)
    requires n < |run|
  {
    var table := Cleaned(After(run[..n], p), run[n].now, p).buckets;
    run[n].key in table || |table| < MAX_KEYS
  }

  ghost predicate AlwaysRoom(run: seq<Arrival>, p: Policy) {
    forall n | 0 <= n < |run| :: HasRoom(run, n, p)
  }

  ghost predicate SameDecisions(run: seq<Arrival>, p: Policy) {
    forall n | 0 < n <= |run| :: DecisionOn(run[..n], p) == ForeverDecisionOn(run[..n], p)
  }

  /** When the request before this one came. */
  function Before(run: seq<Arrival>, now: int): int {
    if run == [] then now else run[|run| - 1].now
  }

  lemma RoomInPrefix(run: seq<Arrival>, init: seq<Arrival>, p: Policy)
    requires init <= run && AlwaysRoom(run, p)
    ensures AlwaysRoom(init, p)
  {
    forall n | 0 <= n < |init| ensures HasRoom(init, n, p) {
      assert HasRoom(run, n, p) && init[..n] == run[..n];
    }
  }

  /** As long as there was room, the swept table is the kept one less what has expired. */
  lemma {:induction false} ShadowsWhileRoom(run: seq<Arrival>, p: Policy, now: int)
    requires ClockRuns(run) && AlwaysRoom(run, p)
    ensures Shadows(After(run, p).buckets, Forever(run, p), Before(run, now))
    ensures run != [] ==> DecisionOn(run, p) == ForeverDecisionOn(run, p)
  {
    if run != [] {
      var init, last := run[..|run| - 1], run[|run| - 1];
      RoomInPrefix(run, init, p);
      ShadowsWhileRoom(init, p, last.now);
      assert HasRoom(run, |run| - 1, p);
      SameDecision(After(init, p), Forever(init, p), last, Before(init, last.now), p);
    }
  }

  /** Where there is no room the limiter with no cap lets the request in. */
  lemma CapDiffers(s: State, kept: map<string, Bucket>, a: Arrival, before: int, p: Policy)
    requires before <= a.now && Shadows(s.buckets, kept, before)
    requires a.key !in Cleaned(s, a.now, p).buckets && |Cleaned(s, a.now, p).buckets| >= MAX_KEYS
    ensures Step(s, a.key, a.now, p).1 == Refused(60) && Counted(kept, a.key, a.now, p, None).1 == Admitted
  {
    assert Shadows(Cleaned(s, a.now, p).buckets, kept, a.now);
  }

  lemma {:induction false} SameDecisionsNeedRoom(run: seq<Arrival>, p: Policy)
    requires ClockRuns(run) && SameDecisions(run, p)
    ensures AlwaysRoom(run, p)
  {
    if run != [] {
      var init, last := run[..|run| - 1], run[|run| - 1];
      forall n | 0 < n <= |init| ensures DecisionOn(init[..n], p) == ForeverDecisionOn(init[..n], p) {
        assert init[..n] == run[..n];
      }
      SameDecisionsNeedRoom(init, p);
      LastHasRoom(run, init, last, p);
      forall n | 0 <= n < |run| ensures HasRoom(run, n, p) {
        if n < |init| { assert HasRoom(init, n, p) && init[..n] == run[..n]; }
      }
    }
  }

  lemma LastHasRoom(run: seq<Arrival>, init: seq<Arrival>, last: Arrival, p: Policy)
    requires run != [] && init == run[..|run| - 1] && last == run[|run| - 1]
    requires ClockRuns(run) && AlwaysRoom(init, p) && SameDecisions(run, p)
    ensures HasRoom(run, |run| - 1, p)
  {
    ShadowsWhileRoom(init, p, last.now);
    assert run[..|run|] == run;
    assert DecisionOn(run, p) == ForeverDecisionOn(run, p);
    if !HasRoom(run, |run| - 1, p) { CapDiffers(After(init, p), Forever(init, p), last, Before(init, last.now), p); }
  }

  /**
   * Every decision of a run is that of the limiter that never sweeps and takes any number of
   * keys, exactly when each request finds its key in the table or room for it.
   */
  lemma SweepingIsInvisible(run: seq<Arrival>, p: Policy)
    requires ClockRuns(run)
    ensures SameDecisions(run, p) <==> AlwaysRoom(run, p)
  {
    if SameDecisions(run, p) { SameDecisionsNeedRoom(run, p); }
    if AlwaysRoom(run, p) {
      forall n | 0 < n <= |run| ensures DecisionOn(run[..n], p) == ForeverDecisionOn(run[..n], p) {
        RoomInPrefix(run, run[..n], p);
        ShadowsWhileRoom(run[..n], p, 0);
      }
    }
  }

  // ---------- How few callers leave room ----------

  /** The keys that called within a window and a sweep of request `n`, its own included. */
  function RecentKeys(run: seq<Arrival>, n: nat, p: Policy): set<string>
    requires n < |run|
  {
    set i | 0 <= i <= n && (i == n || run[i].now > run[n].now - p.windowMs - SweepEvery(p)) :: run[i].key
  }

  /** The key's bucket was opened by one of its requests. */
  ghost predicate OpenedBy(run: seq<Arrival>, key: string, resetAt: int, p: Policy) {
    exists i | 0 <= i < |run| :: run[i].key == key && run[i].now + p.windowMs == resetAt
  }

  /** Every bucket was opened by a request, and stands until a sweep after it expired. */
  ghost predicate Dated(s: State, run: seq<Arrival>, p: Policy) {
    forall key | key in s.buckets ::
      OpenedBy(run, key, s.buckets[key].resetAt, p) && (p.windowMs > 0 ==> s.buckets[key].resetAt > s.nextCleanup - SweepEvery(p))
  }

  lemma OpenedStays(run: seq<Arrival>, a: Arrival, key: string, resetAt: int, p: Policy)
    requires OpenedBy(run, key, resetAt, p)
    ensures OpenedBy(run + [a], key, resetAt, p)
  {
    var i :| 0 <= i < |run| && run[i].key == key && run[i].now + p.windowMs == resetAt;
    assert (run + [a])[i] == run[i];
  }

  lemma StepStaysDated(s: State, run: seq<Arrival>, a: Arrival, p: Policy)
    requires Dated(s, run, p) && s.nextCleanup - SweepEvery(p) <= a.now
    ensures Dated(Step(s, a.key, a.now, p).0, run + [a], p)
    ensures Step(s, a.key, a.now, p).0.nextCleanup - SweepEvery(p) <= a.now
  {
    var after := Step(s, a.key, a.now, p).0;
    forall key | key in after.buckets
      ensures OpenedBy(run + [a], key, after.buckets[key].resetAt, p)
      ensures p.windowMs > 0 ==> after.buckets[key].resetAt > after.nextCleanup - SweepEvery(p)
    {
      if key in s.buckets && after.buckets[key].resetAt == s.buckets[key].resetAt {
        OpenedStays(run, a, key, s.buckets[key].resetAt, p);
      } else {
        assert (run + [a])[|run|] == a;
      }
    }
  }

  lemma {:induction false} RunStaysDated(run: seq<Arrival>, p: Policy, now: int)
    requires ClockRuns(run) && (forall i | 0 <= i < |run| :: run[i].now >= 0) && (run == [] ==> now >= 0)
    ensures Dated(After(run, p), run, p) && After(run, p).nextCleanup - SweepEvery(p) <= Before(run, now)
  {
    if run != [] {
      var init, last := run[..|run| - 1], run[|run| - 1];
      RunStaysDated(init, p, last.now);
      StepStaysDated(After(init, p), init, last, p);
      assert init + [last] == run;
    }
  }

  lemma RoomForOne(buckets: map<string, Bucket>, seen: set<string>, key: string)
    requires buckets.Keys <= seen && key in seen && |seen| <= MAX_KEYS
    ensures key in buckets || |buckets| < MAX_KEYS
  {
    if key !in buckets {
      SubsetIsSmaller(buckets.Keys + {key}, seen);
      assert |buckets.Keys| == |buckets|;
    }
  }

  lemma TableIsRecent(run: seq<Arrival>, n: nat, p: Policy)
    requires n < |run| && ClockRuns(run) && forall i | 0 <= i < |run| :: run[i].now >= 0
    ensures Cleaned(After(run[..n], p), run[n].now, p).buckets.Keys <= RecentKeys(run, n, p)
  {
    var s, now := After(run[..n], p), run[n].now;
    RunStaysDated(run[..n], p, now);
    forall key | key in Cleaned(s, now, p).buckets ensures key in RecentKeys(run, n, p) {
      assert OpenedBy(run[..n], key, s.buckets[key].resetAt, p);
      var i :| 0 <= i < n && run[..n][i].key == key && run[..n][i].now + p.windowMs == s.buckets[key].resetAt;
      assert run[i].now > now - p.windowMs - SweepEvery(p);
    }
  }

  /** So however many keys call over time, sweeping and the cap change no decision while no more than ten thousand call within a window and a sweep. */
  lemma FewRecentKeysLeaveRoom(run: seq<Arrival>, p: Policy)
    requires ClockRuns(run) && forall i | 0 <= i < |run| :: run[i].now >= 0
    requires forall n | 0 <= n < |run| :: |RecentKeys(run, n, p)| <= MAX_KEYS
    ensures SameDecisions(run, p)
  {
    forall n | 0 <= n < |run| ensures HasRoom(run, n, p) {
      TableIsRecent(run, n, p);
      RoomForOne(Cleaned(After(run[..n], p), run[n].now, p).buckets, RecentKeys(run, n, p), run[n].key);
    }
    SweepingIsInvisible(run, p);
  }

  /**
   * A caller refused for its own count gets in once the seconds it was told have passed,
   * if its bucket still stands; a full second sooner, when told more than one, it would not.
   */
  lemma RetryAfterIsExact(buckets: map<string, Bucket>, key: string, now: int, later: int, p: Policy, cap: Option<nat>)
    requires key in buckets && Counted(buckets, key, now, p, cap).1.Refused? && now <= later
    ensures var (after, refused) := Counted(buckets, key, now, p, cap);
      && (later >= now + 1000 * refused.retryAfter ==> Counted(after, key, later, p, cap).1 == Admitted)
      && (later <= now + 1000 * (refused.retryAfter - 1) ==> Counted(after, key, later, p, cap).1.Refused?)
  {
  }
}
