/** The fixed-window limiter of the gateway: one bucket per key, kept in a map. */
module RateLimiter {
  import opened Prelude
  import opened Text

  datatype Bucket = Bucket(count: nat, windowStart: int)

  datatype Limits = Limits(window: int, max: int)

  /** loadEnv refuses settings that are not positive. */
  predicate ValidLimits(l: Limits) {
    l.window > 0 && l.max > 0
  }

  datatype Context = Context(userId: string, requestId: string, tenantId: string, developer: bool)

  datatype Verdict = Pass | MissingContext | Limited

  /** The key of a request, or None where the middleware answers 400. Empty strings are falsy. */
  function KeyOf(ctx: Option<Context>): Option<string> {
    match ctx
    case None => None
    case Some(c) =>
      if c.userId == "" || c.requestId == "" then None
      else if c.tenantId == "" && !c.developer then None
      else if c.tenantId != "" then Some(c.tenantId + ":" + c.userId)
      else Some("dev:" + c.userId)
  }

  /** A caller that is let past the context check: a user, a request id, and a tenant or the
      developer role. */
  predicate Identified(ctx: Option<Context>) {
    && ctx.Some? && ctx.value.userId != "" && ctx.value.requestId != ""
    && (ctx.value.tenantId != "" || ctx.value.developer)
  }

  /** A tenant id that is neither the word that stands for no tenant nor cut by the separator. */
  predicate PlainTenant(tenant: string) {
    tenant != "dev" && ':' !in tenant
  }

  /** Two callers share a bucket exactly when tenant and user are the same, or both have no
      tenant and the user is the same. */
  lemma {:induction false} ShareBucketIff(a: Context, b: Context)
    requires Identified(Some(a)) && Identified(Some(b)) && PlainTenant(a.tenantId) && PlainTenant(b.tenantId)
    ensures KeyOf(Some(a)) == KeyOf(Some(b)) <==> a.tenantId == b.tenantId && a.userId == b.userId
  {
    var s, t := if a.tenantId == "" then "dev" else a.tenantId, if b.tenantId == "" then "dev" else b.tenantId;
    DevKey(a.userId);
    DevKey(b.userId);
    if KeyOf(Some(a)) == KeyOf(Some(b)) {
      assert s + [':'] + a.userId == t + [':'] + b.userId;
      SeparatorSplits(':', s, t, a.userId, b.userId);
    }
  }

  lemma DevKey(user: string)
    ensures "dev:" + user == "dev" + ":" + user
  {
  }

  /** A tenant called dev shares the buckets of developers without a tenant, and a colon in an id
      lets two tenants share one. */
  lemma {:induction false} OddTenantsShare(user: string)
    requires user != ""
    ensures
      KeyOf(Some(Context(user, "r", "dev", false))) == KeyOf(Some(Context(user, "r", "", true)))
    ensures
      KeyOf(Some(Context("b:" + user, "r", "a", false))) == KeyOf(Some(Context(user, "r", "a:b", false)))
  {
    DevKey(user);
    assert "a" + ":" + ("b:" + user) == "a:b" + ":" + user;
  }

  /** What one request does to the bucket of its key. */
  function Touch(l: Limits, b: Option<Bucket>, now: int): (Option<Bucket>, bool) {
    if b == None || now - b.value.windowStart >= l.window then (Some(Bucket(1, now)), true)
    else if b.value.count < l.max then (Some(b.value.(count := b.value.count + 1)), true)
    else (b, false)
  }

  function Lookup(buckets: map<string, Bucket>, key: string): Option<Bucket> {
    if key in buckets then Some(buckets[key]) else None
  }

  class Limiter {
    const limits: Limits
    var buckets: map<string, Bucket>

    constructor (l: Limits)
      ensures limits == l && buckets == map[]
    {
      limits := l;
      buckets := map[];
    }

    method RateLimit(path: string, ctx: Option<Context>, now: int) returns (v: Verdict)
      modifies this
      ensures path == "/health" ==> v == Pass && buckets == old(buckets)
      ensures path != "/health" && !Identified(ctx) ==> v == MissingContext && buckets == old(buckets)
      ensures path != "/health" && Identified(ctx) ==>
                var key := KeyOf(ctx).value;
                var (b, admitted) := Touch(limits, Lookup(old(buckets), key), now);
                && v == (if admitted then Pass else Limited)
                && b.Some? && buckets == old(buckets)[key := b.value]
    {
      if path == "/health" {
        return Pass;
      }
      if ctx == None || ctx.value.userId == "" || ctx.value.requestId == "" {
        return MissingContext;
      }
      var c := ctx.value;
      if c.tenantId == "" && !c.developer {
        return MissingContext;
      }
      var key := if c.tenantId != "" then c.tenantId + ":" + c.userId else "dev:" + c.userId;
      if key !in buckets || now - buckets[key].windowStart >= limits.window {
        buckets := buckets[key := Bucket(1, now)];
        return Pass;
      }
      if buckets[key].count < limits.max {
        buckets := buckets[key := buckets[key].(count := buckets[key].count + 1)];
        return Pass;
      }
      v := Limited;
    }
  }

  // -- runs --

  datatype Request = Request(key: string, now: int)

  ghost predicate ClockMonotone(rs: seq<Request>) {
    forall i, j :: 0 <= i < j < |rs| ==> rs[i].now <= rs[j].now
  }

  /** The buckets after a run of keyed requests. */
  function Buckets(l: Limits, rs: seq<Request>): map<string, Bucket> {
    if rs == [] then map[]
    else
      var before := Buckets(l, rs[..|rs| - 1]);
      var r := rs[|rs| - 1];
      var (b, _) := Touch(l, Lookup(before, r.key), r.now);
      if b.Some? then before[r.key := b.value] else before
  }

  /** Whether the i-th request of a run is admitted. */
  predicate Admitted(l: Limits, rs: seq<Request>, i: nat)
    requires i < |rs|
  {
    Touch(l, Lookup(Buckets(l, rs[..i]), rs[i].key), rs[i].now).1
  }

  /** The times at which the requests of a key were admitted, in order. */
  function Admissions(l: Limits, rs: seq<Request>, key: string): seq<int> {
    if rs == [] then []
    else
      var n := |rs| - 1;
      var before := Admissions(l, rs[..n], key);
      if rs[n].key == key && Touch(l, Lookup(Buckets(l, rs[..n]), key), rs[n].now).1
      then before + [rs[n].now] else before
  }

  /** How many of the times fall in [from, to). */
  function Within(times: seq<int>, from: int, to: int): nat {
    if times == [] then 0
    else
      var n := |times| - 1;
      Within(times[..n], from, to) + (if from <= times[n] < to then 1 else 0)
  }

  lemma WithinSnoc(times: seq<int>, t: int, from: int, to: int)
    ensures Within(times + [t], from, to) == Within(times, from, to) + (if from <= t < to then 1 else 0)
  {
    assert (times + [t])[..|times|] == times;
  }

  lemma {:induction false} WithinShrinks(times: seq<int>, from: int, to: int, from': int, to': int)
    requires from <= from' && to' <= to
    ensures Within(times, from', to') <= Within(times, from, to)
  {
    if times != [] {
      WithinShrinks(times[..|times| - 1], from, to, from', to');
    }
  }

  lemma {:induction false} WithinAll(times: seq<int>, from: int, to: int, to': int)
    requires to <= to'
    requires forall i :: 0 <= i < |times| ==> times[i] < to
    ensures Within(times, from, to') == Within(times, from, to)
  {
    if times != [] {
      WithinAll(times[..|times| - 1], from, to, to');
    }
  }

  /** A split of an interval splits the count. */
  lemma {:induction false} WithinSplits(times: seq<int>, from: int, mid: int, to: int)
    requires from <= mid <= to
    ensures Within(times, from, to) == Within(times, from, mid) + Within(times, mid, to)
  {
    if times != [] {
      WithinSplits(times[..|times| - 1], from, mid, to);
    }
  }

  lemma {:induction false} WithinEmpty(times: seq<int>, from: int, to: int)
    requires forall i :: 0 <= i < |times| ==> times[i] < from || to <= times[i]
    ensures Within(times, from, to) == 0
  {
    if times != [] {
      WithinEmpty(times[..|times| - 1], from, to);
    }
  }

  // -- one key is never affected by the others --

  function Only(rs: seq<Request>, key: string): seq<Request> {
    if rs == [] then []
    else
      var n := |rs| - 1;
      Only(rs[..n], key) + (if rs[n].key == key then [rs[n]] else [])
  }

  lemma {:induction false} BucketOfKey(l: Limits, rs: seq<Request>, key: string)
    ensures Lookup(Buckets(l, rs), key) == Lookup(Buckets(l, Only(rs, key)), key)
  {
    if rs != [] {
      var n := |rs| - 1;
      BucketOfKey(l, rs[..n], key);
      if rs[n].key == key {
        var own := Only(rs, key);
        assert own[..|own| - 1] == Only(rs[..n], key) && own[|own| - 1] == rs[n];
      } else {
        assert Only(rs, key) == Only(rs[..n], key);
      }
    }
  }

  /** The decisions for a key are those of the run with every other key removed. */
  lemma {:induction false} KeysAreIndependent(l: Limits, rs: seq<Request>, key: string)
    ensures Admissions(l, rs, key) == Admissions(l, Only(rs, key), key)
  {
    if rs != [] {
      var n := |rs| - 1;
      KeysAreIndependent(l, rs[..n], key);
      BucketOfKey(l, rs[..n], key);
      if rs[n].key == key {
        var own := Only(rs, key);
        assert own[..|own| - 1] == Only(rs[..n], key) && own[|own| - 1] == rs[n];
      } else {
        assert Only(rs, key) == Only(rs[..n], key);
      }
    }
  }

  lemma {:induction false} DecisionIsIndependent(l: Limits, rs: seq<Request>, i: nat)
    requires i < |rs|
    ensures Admitted(l, rs, i) == Touch(l, Lookup(Buckets(l, Only(rs[..i], rs[i].key)), rs[i].key), rs[i].now).1
  {
    BucketOfKey(l, rs[..i], rs[i].key);
  }

  // -- the bounds --

  /** A bucket counts the admissions of its window, one of them at its start, and less than
      `max` came within `window` seconds before it. */
  ghost predicate Tells(l: Limits, b: Bucket, times: seq<int>, now: int) {
    && b.windowStart <= now
    && 1 <= b.count <= l.max
    && Within(times, b.windowStart, now + 1) == b.count
    && Within(times, b.windowStart, b.windowStart + 1) >= 1
    && Within(times, b.windowStart - l.window + 1, b.windowStart) < l.max
    && (forall i :: 0 <= i < |times| ==> times[i] <= now && times[i] < b.windowStart + l.window)
  }

  lemma TellsLater(l: Limits, b: Bucket, times: seq<int>, now: int, later: int)
    requires Tells(l, b, times, now) && now <= later
    ensures Tells(l, b, times, later)
  {
    WithinAll(times, b.windowStart, now + 1, later + 1);
  }

  lemma TellsFirst(l: Limits, now: int)
    requires ValidLimits(l)
    ensures Tells(l, Bucket(1, now), [now], now)
  {
    WithinSnoc([], now, now, now + 1);
    WithinSnoc([], now, now - l.window + 1, now);
    assert [] + [now] == [now];
  }

  lemma TellsNewWindow(l: Limits, b: Bucket, times: seq<int>, now: int)
    requires ValidLimits(l) && Tells(l, b, times, now) && now - b.windowStart >= l.window
    ensures Tells(l, Bucket(1, now), times + [now], now)
  {
    WithinSnoc(times, now, now, now + 1);
    WithinSnoc(times, now, now - l.window + 1, now);
    WithinEmpty(times, now, now + 1);
    WithinSplits(times, b.windowStart, b.windowStart + 1, now + 1);
    WithinShrinks(times, b.windowStart + 1, now + 1, now - l.window + 1, now);
  }

  lemma TellsOneMore(l: Limits, b: Bucket, times: seq<int>, now: int)
    requires ValidLimits(l) && Tells(l, b, times, now) && now - b.windowStart < l.window && b.count < l.max
    ensures Tells(l, b.(count := b.count + 1), times + [now], now)
  {
    WithinSnoc(times, now, b.windowStart, now + 1);
    WithinSnoc(times, now, b.windowStart, b.windowStart + 1);
    WithinSnoc(times, now, b.windowStart - l.window + 1, b.windowStart);
  }

  ghost predicate KnowsTimes(l: Limits, b: Option<Bucket>, times: seq<int>, now: int) {
    match b
    case None => times == []
    case Some(bucket) => Tells(l, bucket, times, now)
  }

  /** One request of the key keeps what the bucket tells. */
  lemma TouchTells(l: Limits, b: Option<Bucket>, times: seq<int>, last: int, now: int)
    requires ValidLimits(l) && KnowsTimes(l, b, times, last) && (b.Some? ==> last <= now)
    ensures
      var (after, admitted) := Touch(l, b, now);
      after.Some? && Tells(l, after.value, if admitted then times + [now] else times, now)
  {
    if b == None {
      TellsFirst(l, now);
      assert times + [now] == [now];
    } else {
      TellsLater(l, b.value, times, last, now);
      if now - b.value.windowStart >= l.window {
        TellsNewWindow(l, b.value, times, now);
      } else if b.value.count < l.max {
        TellsOneMore(l, b.value, times, now);
      }
    }
  }

  ghost predicate BucketTells(l: Limits, rs: seq<Request>, key: string) {
    match Lookup(Buckets(l, rs), key)
    case None => Admissions(l, rs, key) == []
    case Some(b) => rs != [] && Tells(l, b, Admissions(l, rs, key), rs[|rs| - 1].now)
  }

  lemma {:induction false} BucketAlwaysTells(l: Limits, rs: seq<Request>, key: string)
    requires ValidLimits(l) && ClockMonotone(rs)
    ensures BucketTells(l, rs, key)
  {
    if rs != [] {
      var n := |rs| - 1;
      var before, now := rs[..n], rs[n].now;
      BucketAlwaysTells(l, before, key);
      var times := Admissions(l, before, key);
      var b := Lookup(Buckets(l, before), key);
      var last := if n > 0 then before[n - 1].now else now;
      if rs[n].key == key {
        TouchTells(l, b, times, last, now);
      } else if b.Some? {
        TellsLater(l, b.value, times, last, now);
      }
    }
  }

  /** A later bucket of a key is of the same window or of one that starts after its end. */
  lemma {:induction false} WindowsDoNotOverlap(l: Limits, rs: seq<Request>, n: nat, key: string)
    requires n <= |rs| && key in Buckets(l, rs[..n])
    ensures key in Buckets(l, rs)
    ensures var early, late := Buckets(l, rs[..n])[key].windowStart, Buckets(l, rs)[key].windowStart;
            ValidLimits(l) ==> late == early || late >= early + l.window
  {
    if n == |rs| {
      assert rs[..n] == rs;
    } else {
      var init := rs[..|rs| - 1];
      assert init[..n] == rs[..n];
      WindowsDoNotOverlap(l, init, n, key);
    }
  }

  lemma {:induction false} TellsAtMostMax(l: Limits, b: Bucket, times: seq<int>, now: int)
    requires Tells(l, b, times, now)
    ensures Within(times, b.windowStart, b.windowStart + l.window) <= l.max
  {
    var end := b.windowStart + l.window;
    if now < end {
      WithinAll(times, b.windowStart, now + 1, end);
    } else {
      WithinShrinks(times, b.windowStart, now + 1, b.windowStart, end);
    }
  }

  /** A key is admitted at most `max` times in each window that one of its buckets ever
      stood for. */
  lemma {:induction false} AtMostMaxPerWindow(l: Limits, rs: seq<Request>, n: nat, key: string)
    requires ValidLimits(l) && ClockMonotone(rs) && n <= |rs| && key in Buckets(l, rs[..n])
    ensures
      var start := Buckets(l, rs[..n])[key].windowStart;
      Within(Admissions(l, rs, key), start, start + l.window) <= l.max
    decreases |rs|
  {
    var start := Buckets(l, rs[..n])[key].windowStart;
    WindowsDoNotOverlap(l, rs, n, key);
    BucketAlwaysTells(l, rs, key);
    var times, now := Admissions(l, rs, key), rs[|rs| - 1].now;
    var late := Buckets(l, rs)[key].windowStart;
    if late == start {
      TellsAtMostMax(l, Buckets(l, rs)[key], times, now);
    } else {
      assert rs[..|rs|] == rs;
      var init := rs[..|rs| - 1];
      assert init[..n] == rs[..n];
      AtMostMaxPerWindow(l, init, n, key);
      WithinSnoc(Admissions(l, init, key), now, start, start + l.window);
    }
  }

  /** The bucket bounds the admissions in any interval that its last request lies in. */
  lemma {:induction false} TellsLessThanTwice(l: Limits, b: Bucket, times: seq<int>, now: int, from: int)
    requires ValidLimits(l) && Tells(l, b, times, now) && from <= now < from + l.window
    ensures Within(times, from, from + l.window) <= 2 * l.max - 1
  {
    var start := b.windowStart;
    WithinAll(times, from, now + 1, from + l.window);
    if from <= start {
      WithinSplits(times, from, start, now + 1);
      WithinShrinks(times, start - l.window + 1, start, from, start);
    } else {
      WithinShrinks(times, start, now + 1, from, now + 1);
    }
  }

  /** .. and less than twice `max` times in any `window` seconds. */
  lemma {:induction false} LessThanTwiceMax(l: Limits, rs: seq<Request>, key: string, from: int)
    requires ValidLimits(l) && ClockMonotone(rs)
    ensures Within(Admissions(l, rs, key), from, from + l.window) <= 2 * l.max - 1
  {
    if rs != [] {
      var n := |rs| - 1;
      LessThanTwiceMax(l, rs[..n], key, from);
      var times, before, now := Admissions(l, rs, key), Admissions(l, rs[..n], key), rs[n].now;
      if from <= now < from + l.window {
        BucketAlwaysTells(l, rs, key);
        if key in Buckets(l, rs) {
          TellsLessThanTwice(l, Buckets(l, rs)[key], times, now, from);
        }
      } else if times != before {
        WithinSnoc(before, now, from, from + l.window);
      }
    }
  }

  // -- the bound is reached --

  /** The run with n more requests, all alike. */
  function Burst(rs: seq<Request>, r: Request, n: nat): seq<Request>
    decreases n
  {
    if n == 0 then rs else Burst(rs + [r], r, n - 1)
  }

  ghost predicate EndsBy(rs: seq<Request>, now: int) {
    ClockMonotone(rs) && forall i :: 0 <= i < |rs| ==> rs[i].now <= now
  }

  lemma {:induction false} BurstEnds(rs: seq<Request>, r: Request, n: nat)
    requires EndsBy(rs, r.now)
    ensures EndsBy(Burst(rs, r, n), r.now)
    decreases n
  {
    if n > 0 {
      BurstEnds(rs + [r], r, n - 1);
    }
  }

  /** The bucket of the key and how many of its admissions fall in [from, to). */
  ghost predicate Stands(l: Limits, rs: seq<Request>, key: string, b: Bucket, from: int, to: int, admitted: int) {
    Lookup(Buckets(l, rs), key) == Some(b) && Within(Admissions(l, rs, key), from, to) == admitted
  }

  function Inside(now: int, from: int, to: int): nat {
    if from <= now < to then 1 else 0
  }

  /** A request that opens a window .. */
  lemma {:induction false} WindowOpened(l: Limits, rs: seq<Request>, r: Request, from: int, to: int)
    requires
      var b := Lookup(Buckets(l, rs), r.key);
      b == None || r.now - b.value.windowStart >= l.window
    ensures
      var admitted := Within(Admissions(l, rs, r.key), from, to);
      Stands(l, rs + [r], r.key, Bucket(1, r.now), from, to, admitted + Inside(r.now, from, to))
  {
    assert (rs + [r])[..|rs|] == rs;
    WithinSnoc(Admissions(l, rs, r.key), r.now, from, to);
  }

  /** .. and one whose bucket is of this window and not yet full. */
  lemma {:induction false} OneMoreAdmitted(l: Limits, rs: seq<Request>, r: Request, b: Bucket, from: int, to: int,
                                           admitted: int)
    requires Stands(l, rs, r.key, b, from, to, admitted) && r.now - b.windowStart < l.window && b.count < l.max
    ensures
      Stands(l, rs + [r], r.key, Bucket(b.count + 1, b.windowStart), from, to, admitted + Inside(r.now, from, to))
  {
    assert (rs + [r])[..|rs|] == rs;
    WithinSnoc(Admissions(l, rs, r.key), r.now, from, to);
  }

  lemma {:induction false} BurstAdmitted(l: Limits, rs: seq<Request>, r: Request, n: nat, b: Bucket, from: int, to: int,
                                         admitted: int)
    requires Stands(l, rs, r.key, b, from, to, admitted) && b.count + n <= l.max
    requires r.now - b.windowStart < l.window && from <= r.now < to
    ensures Stands(l, Burst(rs, r, n), r.key, Bucket(b.count + n, b.windowStart), from, to, admitted + n)
    decreases n
  {
    if n > 0 {
      OneMoreAdmitted(l, rs, r, b, from, to, admitted);
      BurstAdmitted(l, rs + [r], r, n - 1, Bucket(b.count + 1, b.windowStart), from, to, admitted + 1);
    }
  }

  /** A window that opens and fills up. */
  function FullWindow(l: Limits, rs: seq<Request>, open: Request, late: Request): seq<Request>
    requires ValidLimits(l)
  {
    Burst(rs + [open], late, l.max - 1)
  }

  lemma {:induction false} WindowFills(l: Limits, rs: seq<Request>, open: Request, late: Request, from: int, to: int,
                                       before: int)
    requires ValidLimits(l) && open.key == late.key && late.now - open.now < l.window && from <= late.now < to
    requires
      var b := Lookup(Buckets(l, rs), open.key);
      b == None || open.now - b.value.windowStart >= l.window
    requires Within(Admissions(l, rs, open.key), from, to) == before
    ensures
      Stands(l, FullWindow(l, rs, open, late), open.key, Bucket(l.max, open.now), from, to,
             before + Inside(open.now, from, to) + l.max - 1)
  {
    WindowOpened(l, rs, open, from, to);
    BurstAdmitted(l, rs + [open], late, l.max - 1, Bucket(1, open.now), from, to,
                  before + Inside(open.now, from, to));
  }

  /** A window that opens at 0 and fills up in its last second. */
  function FirstWindow(l: Limits, key: string): seq<Request>
    requires ValidLimits(l)
  {
    FullWindow(l, [], Request(key, 0), Request(key, l.window - 1))
  }

  /** .. and the next one, full at once. */
  function TwoWindows(l: Limits, key: string): seq<Request>
    requires ValidLimits(l)
  {
    FullWindow(l, FirstWindow(l, key), Request(key, l.window), Request(key, l.window))
  }

  lemma {:induction false} SecondWindowFills(l: Limits, rs: seq<Request>, key: string)
    requires ValidLimits(l) && l.window >= 2 && Stands(l, rs, key, Bucket(l.max, 0), 1, 1 + l.window, l.max - 1)
    ensures
      var next := Request(key, l.window);
      Within(Admissions(l, FullWindow(l, rs, next, next), key), 1, 1 + l.window) == 2 * l.max - 1
  {
    WindowFills(l, rs, Request(key, l.window), Request(key, l.window), 1, 1 + l.window, l.max - 1);
  }

  lemma {:induction false} TwoWindowsEnd(l: Limits, key: string)
    requires ValidLimits(l)
    ensures ClockMonotone(TwoWindows(l, key))
  {
    var next := Request(key, l.window);
    BurstEnds([] + [Request(key, 0)], Request(key, l.window - 1), l.max - 1);
    BurstEnds(FirstWindow(l, key) + [next], next, l.max - 1);
  }

  /** For a window of two or more seconds the bound is exact: whatever the key and the limit,
      2 * max - 1 requests pass within the `window` seconds from second 1 on. */
  lemma {:induction false} TwiceMaxLessOneIsReached(l: Limits, key: string)
    requires ValidLimits(l) && l.window >= 2
    ensures ClockMonotone(TwoWindows(l, key))
    ensures Within(Admissions(l, TwoWindows(l, key), key), 1, 1 + l.window) == 2 * l.max - 1
  {
    TwoWindowsEnd(l, key);
    WindowFills(l, [], Request(key, 0), Request(key, l.window - 1), 1, 1 + l.window, 0);
    SecondWindowFills(l, FirstWindow(l, key), key);
  }

  // -- refusals --

  /** A request is refused only when `max` requests of its own key were admitted in the
      last `window` seconds. */
  lemma RefusedOnlyWhenSpent(l: Limits, rs: seq<Request>, i: nat)
    requires ValidLimits(l) && ClockMonotone(rs) && i < |rs| && !Admitted(l, rs, i)
    ensures Within(Admissions(l, rs[..i], rs[i].key), rs[i].now - l.window + 1, rs[i].now + 1) >= l.max
  {
    var before := rs[..i];
    var key := rs[i].key;
    BucketAlwaysTells(l, before, key);
    var b := Lookup(Buckets(l, before), key).value;
    var times := Admissions(l, before, key);
    WithinAll(times, b.windowStart, before[i - 1].now + 1, rs[i].now + 1);
    WithinShrinks(times, rs[i].now - l.window + 1, rs[i].now + 1, b.windowStart, rs[i].now + 1);
  }

  // -- the middleware over raw requests --

  datatype Incoming = Incoming(path: string, context: Option<Context>, now: int)

  /** The requests that reach a bucket. */
  function Keyed(incoming: seq<Incoming>): seq<Request> {
    if incoming == [] then []
    else
      var last := incoming[|incoming| - 1];
      Keyed(incoming[..|incoming| - 1]) +
      (if last.path != "/health" && KeyOf(last.context) != None
       then [Request(KeyOf(last.context).value, last.now)] else [])
  }

  /** The answer to the i-th request: by path, by context, or as the keyed run decides. */
  function Answer(l: Limits, incoming: seq<Incoming>, i: nat): Verdict
    requires i < |incoming|
  {
    var r := incoming[i];
    if r.path == "/health" then Pass
    else if KeyOf(r.context) == None then MissingContext
    else
      var rs := Keyed(incoming[..i]) + [Request(KeyOf(r.context).value, r.now)];
      if Admitted(l, rs, |rs| - 1) then Pass else Limited
  }

  /** One request more: the buckets and the answer follow from the buckets before it. */
  lemma {:induction false} AnswerStep(l: Limits, incoming: seq<Incoming>, i: nat)
    requires i < |incoming|
    ensures
      var r, before, after := incoming[i], Buckets(l, Keyed(incoming[..i])), Buckets(l, Keyed(incoming[..i + 1]));
      if r.path == "/health" || KeyOf(r.context) == None then
        after == before && Answer(l, incoming, i) == if r.path == "/health" then Pass else MissingContext
      else
        var key := KeyOf(r.context).value;
        var (b, admitted) := Touch(l, Lookup(before, key), r.now);
        && b.Some? && after == before[key := b.value]
        && Answer(l, incoming, i) == if admitted then Pass else Limited
  {
    var r := incoming[i];
    KeyedStep(incoming, i);
    if r.path != "/health" && KeyOf(r.context) != None {
      BucketsStep(l, Keyed(incoming[..i]), Request(KeyOf(r.context).value, r.now));
    }
  }

  lemma {:induction false} KeyedStep(incoming: seq<Incoming>, i: nat)
    requires i < |incoming|
    ensures
      var r, before := incoming[i], Keyed(incoming[..i]);
      Keyed(incoming[..i + 1]) ==
      if r.path == "/health" || KeyOf(r.context) == None then before
      else before + [Request(KeyOf(r.context).value, r.now)]
  {
    assert incoming[..i + 1][..i] == incoming[..i];
    assert Keyed(incoming[..i]) + [] == Keyed(incoming[..i]);
  }

  lemma {:induction false} BucketsStep(l: Limits, rs: seq<Request>, r: Request)
    ensures
      var (b, admitted) := Touch(l, Lookup(Buckets(l, rs), r.key), r.now);
      && b.Some? && Buckets(l, rs + [r]) == Buckets(l, rs)[r.key := b.value]
      && Admitted(l, rs + [r], |rs|) == admitted
  {
    assert (rs + [r])[..|rs|] == rs;
  }

  // -- one caller is never affected by the others --

  predicate IsCaller(r: Incoming, tenant: string, user: string) {
    r.context.Some? && r.context.value.tenantId == tenant && r.context.value.userId == user
  }

  /** The requests of one caller. */
  function OfCaller(incoming: seq<Incoming>, tenant: string, user: string): seq<Incoming> {
    if incoming == [] then []
    else
      var last := incoming[|incoming| - 1];
      OfCaller(incoming[..|incoming| - 1], tenant, user) + (if IsCaller(last, tenant, user) then [last] else [])
  }

  ghost predicate PlainTenants(incoming: seq<Incoming>) {
    forall i :: 0 <= i < |incoming| && incoming[i].context.Some? ==> PlainTenant(incoming[i].context.value.tenantId)
  }

  /** The requests that count against a caller's bucket are those of the caller. */
  lemma {:induction false} KeyedOfCaller(incoming: seq<Incoming>, c: Context, key: string)
    requires PlainTenants(incoming) && Identified(Some(c)) && PlainTenant(c.tenantId) && KeyOf(Some(c)) == Some(key)
    ensures Only(Keyed(incoming), key) == Keyed(OfCaller(incoming, c.tenantId, c.userId))
    decreases |incoming|
  {
    if incoming != [] {
      var n := |incoming| - 1;
      var init, last := incoming[..n], incoming[n];
      KeyedOfCaller(init, c, key);
      assert incoming == init + [last];
      KeyedSnoc(init, last);
      var own := OfCaller(init, c.tenantId, c.userId);
      KeyedSnoc(own, last);
      assert Keyed(init) + [] == Keyed(init) && Keyed(own) + [] == Keyed(own) && own + [] == own;
      if last.path != "/health" && Identified(last.context) {
        ShareBucketIff(last.context.value, c);
        OnlySnoc(Keyed(init), Request(KeyOf(last.context).value, last.now), key);
      }
    }
  }

  lemma OnlySnoc(rs: seq<Request>, r: Request, key: string)
    ensures Only(rs + [r], key) == Only(rs, key) + (if r.key == key then [r] else [])
  {
    assert (rs + [r])[..|rs|] == rs;
  }

  lemma KeyedSnoc(incoming: seq<Incoming>, r: Incoming)
    ensures
      Keyed(incoming + [r]) ==
      Keyed(incoming) +
      (if r.path != "/health" && KeyOf(r.context) != None then [Request(KeyOf(r.context).value, r.now)] else [])
  {
    assert (incoming + [r])[..|incoming|] == incoming;
  }

  /** Each answer to a caller is the one that the caller would get with the requests of everyone
      else removed. */
  lemma {:induction false} AnswerIsIndependent(l: Limits, incoming: seq<Incoming>, i: nat)
    requires i < |incoming| && PlainTenants(incoming) && Identified(incoming[i].context)
    ensures
      var c := incoming[i].context.value;
      var own := OfCaller(incoming[..i], c.tenantId, c.userId);
      Answer(l, incoming, i) == Answer(l, own + [incoming[i]], |own|)
  {
    var r := incoming[i];
    var c, key := r.context.value, KeyOf(r.context).value;
    var own := OfCaller(incoming[..i], c.tenantId, c.userId);
    assert PlainTenants(incoming[..i]) && PlainTenant(c.tenantId);
    KeyedOfCaller(incoming[..i], c, key);
    BucketOfKey(l, Keyed(incoming[..i]), key);
    assert (own + [r])[..|own|] == own;
    AnswerByBucket(l, incoming, i, key);
    AnswerByBucket(l, own + [r], |own|, key);
  }

  lemma {:induction false} AnswerByBucket(l: Limits, incoming: seq<Incoming>, i: nat, key: string)
    requires i < |incoming| && KeyOf(incoming[i].context) == Some(key)
    ensures
      var r := incoming[i];
      var admitted := Touch(l, Lookup(Buckets(l, Keyed(incoming[..i])), key), r.now).1;
      Answer(l, incoming, i) == if r.path == "/health" || admitted then Pass else Limited
  {
    BucketsStep(l, Keyed(incoming[..i]), Request(key, incoming[i].now));
  }

  /** Serving any sequence of requests one by one leaves the buckets of the keyed run and
      gives its answers. */
  method Serve(l: Limits, incoming: seq<Incoming>) returns (limiter: Limiter, verdicts: seq<Verdict>)
    ensures fresh(limiter) && limiter.buckets == Buckets(l, Keyed(incoming))
    ensures |verdicts| == |incoming|
    ensures forall i :: 0 <= i < |incoming| ==> verdicts[i] == Answer(l, incoming, i)
  {
    limiter := new Limiter(l);
    verdicts := [];
    var i := 0;
    while i < |incoming|
      invariant 0 <= i <= |incoming| && |verdicts| == i
      invariant fresh(limiter) && limiter.limits == l && limiter.buckets == Buckets(l, Keyed(incoming[..i]))
      invariant forall j :: 0 <= j < i ==> verdicts[j] == Answer(l, incoming, j)
    {
      var r := incoming[i];
      AnswerStep(l, incoming, i);
      var v := limiter.RateLimit(r.path, r.context, r.now);
      verdicts := verdicts + [v];
      i := i + 1;
    }
    assert incoming[..i] == incoming;
  }
}
