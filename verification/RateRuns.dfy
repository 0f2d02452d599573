/** The rate limiter over whole runs of checks, with a clock that never goes back. */
module RateRuns {
  import opened Options
  import opened RateLimiter

  /** One admitted call: its number in the run and its time. */
  datatype Call = Call(number: nat, t: int)

  /** The limiter, and what the run has seen: each key's admitted calls since it was last evicted. */
  datatype World = World(h: Hits, log: map<string, seq<Call>>, count: nat, clock: int)

  function Log(w: World, key: string): seq<Call> { if key in w.log then w.log[key] else [] }

  function AfterEviction(cfg: Config, w: World, key: string): map<string, seq<Call>> {
    if Evicts(cfg, w.h, key) then w.log[w.h.order[0] := []] else w.log
  }

  function Step(cfg: Config, w: World, key: string, t: int): World
    requires ConfigOk(cfg)
  {
    var (h, retry) := Check(cfg, w.h, key, t);
    var log := AfterEviction(cfg, w, key);
    if retry.Some? then World(h, w.log, w.count + 1, t)
    else World(h, log[key := (if key in log then log[key] else []) + [Call(w.count, t)]], w.count + 1, t)
  }

  // ---- one key -------------------------------------------------------------

  /** Calls in order, none after the clock or past the count, and any limit + 1 of them span a window. */
  ghost predicate CallsOk(cfg: Config, calls: seq<Call>, count: nat, clock: int) {
    && (forall i :: 0 <= i < |calls| ==> calls[i].number < count && calls[i].t <= clock)
    && (forall i, j :: 0 <= i < j < |calls| ==> calls[i].number < calls[j].number && calls[i].t <= calls[j].t)
    && (forall i, j :: 0 <= i && j == i + cfg.limit && j < |calls| ==> calls[i].t + cfg.windowMs <= calls[j].t)
  }

  /** The stored stamps are the last admitted calls; the ones dropped are out of the window. */
  ghost predicate Stored(cfg: Config, stamps: seq<int>, calls: seq<Call>, clock: int) {
    && |stamps| <= |calls| && |stamps| <= cfg.limit
    && (forall i :: |calls| - |stamps| <= i < |calls| ==> stamps[i - (|calls| - |stamps|)] == calls[i].t)
    && (forall i :: 0 <= i < |calls| - |stamps| ==> calls[i].t + cfg.windowMs <= clock)
  }

  lemma StoredPruned(cfg: Config, stamps: seq<int>, calls: seq<Call>, clock: int, t: int)
    requires Stored(cfg, stamps, calls, clock) && clock <= t
    ensures Stored(cfg, Live(stamps, t - cfg.windowMs), calls, t)
  {
    var n := Expired(stamps, t - cfg.windowMs);
    var kept := Live(stamps, t - cfg.windowMs);
    var d := |calls| - |stamps|;
    assert |calls| - |kept| == d + n;
    forall i | 0 <= i < d + n ensures calls[i].t + cfg.windowMs <= t {
      if i >= d { assert stamps[i - d] == calls[i].t; }
    }
  }

  lemma StoredAppended(cfg: Config, stamps: seq<int>, calls: seq<Call>, count: nat, clock: int)
    requires Stored(cfg, stamps, calls, clock) && |stamps| < cfg.limit
    ensures Stored(cfg, stamps + [clock], calls + [Call(count, clock)], clock)
  {
  }

  /** An admitted call keeps the spacing: the one limit calls earlier is out of the window. */
  lemma CallsAppended(cfg: Config, stamps: seq<int>, calls: seq<Call>, count: nat, was: int, clock: int)
    requires CallsOk(cfg, calls, count, was) && was <= clock && Stored(cfg, stamps, calls, clock) && |stamps| < cfg.limit
    ensures CallsOk(cfg, calls + [Call(count, clock)], count + 1, clock)
  {
    var r := calls + [Call(count, clock)];
    forall i, j | 0 <= i && j == i + cfg.limit && j < |r| ensures r[i].t + cfg.windowMs <= r[j].t {
      if j == |calls| { assert i < |calls| - |stamps|; }
    }
  }

  // ---- the whole map -------------------------------------------------------

  ghost predicate KeyOk(cfg: Config, w: World, key: string) {
    && CallsOk(cfg, Log(w, key), w.count, w.clock)
    && (key in w.h.stamps ==> Stored(cfg, w.h.stamps[key], Log(w, key), w.clock) && Log(w, key) != [])
    && (key !in w.h.stamps ==> Log(w, key) == [])
  }

  /** The number of the key's last admitted call. */
  function LastCall(w: World, key: string): int { if Log(w, key) == [] then -1 else Log(w, key)[|Log(w, key)| - 1].number }

  /** The map's keys stand in the order of their last admitted calls. */
  ghost predicate ByRecency(w: World) {
    forall i, j :: 0 <= i < j < |w.h.order| ==> LastCall(w, w.h.order[i]) < LastCall(w, w.h.order[j])
  }

  ghost predicate Inv(cfg: Config, w: World) {
    HitsOk(w.h) && |w.h.order| <= cfg.maxKeys && ByRecency(w) && forall key :: KeyOk(cfg, w, key)
  }

  /** The key that a check drops, if it drops one. */
  predicate Drops(cfg: Config, w: World, key: string, other: string) { Evicts(cfg, w.h, key) && other == w.h.order[0] }

  lemma OtherAfter(cfg: Config, w: World, key: string, t: int, other: string)
    requires ConfigOk(cfg) && other != key
    ensures var v := Step(cfg, w, key, t);
      if Drops(cfg, w, key, other) then other !in v.h.stamps && Log(v, other) == []
      else Log(v, other) == Log(w, other) && (other in v.h.stamps <==> other in w.h.stamps) && (other in v.h.stamps ==> v.h.stamps[other] == w.h.stamps[other])
  {
  }

  lemma OwnAfter(cfg: Config, w: World, key: string, t: int)
    requires ConfigOk(cfg) && HitsOk(w.h)
    ensures var v, seen := Step(cfg, w, key, t), Seen(cfg, w.h, key, t);
      && key in v.h.stamps
      && (|seen| >= cfg.limit ==> v.h.stamps[key] == seen && Log(v, key) == Log(w, key))
      && (|seen| < cfg.limit ==> v.h.stamps[key] == seen + [t] && Log(v, key) == Log(w, key) + [Call(w.count, t)])
  {
    assert Evicts(cfg, w.h, key) ==> w.h.order[0] in w.h.order;
  }

  lemma CallsLater(cfg: Config, calls: seq<Call>, count: nat, clock: int, t: int)
    requires CallsOk(cfg, calls, count, clock) && clock <= t
    ensures CallsOk(cfg, calls, count + 1, t)
  {
  }

  lemma OtherKeyOk(cfg: Config, w: World, key: string, t: int, other: string)
    requires ConfigOk(cfg) && KeyOk(cfg, w, other) && w.clock <= t && other != key
    ensures KeyOk(cfg, Step(cfg, w, key, t), other)
  {
    OtherAfter(cfg, w, key, t, other);
    CallsLater(cfg, Log(w, other), w.count, w.clock, t);
  }

  lemma OwnKeyOk(cfg: Config, w: World, key: string, t: int)
    requires ConfigOk(cfg) && KeyOk(cfg, w, key) && HitsOk(w.h) && w.clock <= t
    ensures KeyOk(cfg, Step(cfg, w, key, t), key)
  {
    var seen := Seen(cfg, w.h, key, t);
    OwnAfter(cfg, w, key, t);
    CallsLater(cfg, Log(w, key), w.count, w.clock, t);
    if key in w.h.stamps { StoredPruned(cfg, w.h.stamps[key], Log(w, key), w.clock, t); }
    if |seen| < cfg.limit {
      StoredAppended(cfg, seen, Log(w, key), w.count, t);
      CallsAppended(cfg, seen, Log(w, key), w.count, w.clock, t);
    }
  }

  // ---- the order of the keys -----------------------------------------------

  lemma {:induction false} WithoutShorter(order: seq<string>, key: string)
    ensures |Without(order, key)| <= |order| - (if key in order then 1 else 0)
  {
    if order != [] { WithoutShorter(order[1..], key); }
  }

  /** A list in ascending order of some rank stays so without one key. */
  ghost predicate Ascends(order: seq<string>, rank: string -> int) {
    forall i, j :: 0 <= i < j < |order| ==> rank(order[i]) < rank(order[j])
  }

  lemma {:induction false} WithoutAscends(order: seq<string>, key: string, rank: string -> int)
    requires Ascends(order, rank)
    ensures Ascends(Without(order, key), rank)
  {
    if order != [] {
      assert Ascends(order[1..], rank);
      WithoutAscends(order[1..], key, rank);
      var rest := Without(order[1..], key);
      forall j | 0 <= j < |rest| ensures rank(order[0]) < rank(rest[j]) {
        assert rest[j] in order[1..];
        var i :| 0 <= i < |order[1..]| && order[1..][i] == rest[j];
        assert order[i + 1] == rest[j];
      }
    }
  }

  lemma AscendsSnoc(order: seq<string>, key: string, rank: string -> int)
    requires Ascends(order, rank) && forall k :: k in order ==> rank(k) < rank(key)
    ensures Ascends(order + [key], rank)
  {
    var r := order + [key];
    forall i, j | 0 <= i < j < |r| ensures rank(r[i]) < rank(r[j]) {
      if j == |order| { assert r[i] in order; }
    }
  }

  lemma SameRank(order: seq<string>, a: string -> int, b: string -> int)
    requires Ascends(order, a) && forall k :: k in order ==> a(k) == b(k)
    ensures Ascends(order, b)
  {
  }

  function Rank(w: World): string -> int { (k: string) => LastCall(w, k) }

  lemma EvictedAscends(cfg: Config, h: Hits, key: string, rank: string -> int)
    requires Ascends(h.order, rank)
    ensures Ascends(Evicted(cfg, h, key).order, rank)
  {
  }

  /** An admitted key has the greatest call number, so the order stays by recency. */
  lemma AdmittedOrder(cfg: Config, w: World, key: string, t: int)
    requires ConfigOk(cfg) && Inv(cfg, w) && |Seen(cfg, w.h, key, t)| < cfg.limit
    ensures Ascends(Step(cfg, w, key, t).h.order, Rank(Step(cfg, w, key, t)))
  {
    var v := Step(cfg, w, key, t);
    var base := Evicted(cfg, w.h, key);
    var rest := Without(base.order, key);
    OwnAfter(cfg, w, key, t);
    EvictedAscends(cfg, w.h, key, Rank(w));
    WithoutAscends(base.order, key, Rank(w));
    forall k | k in rest ensures Rank(w)(k) == Rank(v)(k) && Rank(v)(k) < Rank(v)(key) { RestRank(cfg, w, key, t, k); }
    SameRank(rest, Rank(w), Rank(v));
    AscendsSnoc(rest, key, Rank(v));
  }

  /** A key that stays in the map keeps its last call, which is before this one. */
  lemma RestRank(cfg: Config, w: World, key: string, t: int, k: string)
    requires ConfigOk(cfg) && Inv(cfg, w) && |Seen(cfg, w.h, key, t)| < cfg.limit
    requires k in Evicted(cfg, w.h, key).order && k != key
    ensures LastCall(w, k) == LastCall(Step(cfg, w, key, t), k) < LastCall(Step(cfg, w, key, t), key)
  {
    OtherAfter(cfg, w, key, t, k);
    OwnAfter(cfg, w, key, t);
    assert KeyOk(cfg, w, k);
    if Evicts(cfg, w.h, key) { FirstGone(w.h.order, k); }
  }

  lemma FirstGone(order: seq<string>, k: string)
    requires Distinct(order) && order != [] && k in order[1..]
    ensures k != order[0]
  {
  }

  lemma RefusedOrder(cfg: Config, w: World, key: string, t: int)
    requires ConfigOk(cfg) && Inv(cfg, w) && |Seen(cfg, w.h, key, t)| >= cfg.limit
    ensures Ascends(Step(cfg, w, key, t).h.order, Rank(Step(cfg, w, key, t)))
  {
    SameRank(w.h.order, Rank(w), Rank(Step(cfg, w, key, t)));
  }

  lemma AscendsDistinct(order: seq<string>, rank: string -> int)
    requires Ascends(order, rank)
    ensures Distinct(order)
  {
  }

  /** The map's keys and their list stay the same keys, and never more than the cap. */
  lemma SameKeys(cfg: Config, w: World, key: string, t: int)
    requires ConfigOk(cfg) && HitsOk(w.h) && |w.h.order| <= cfg.maxKeys
    ensures var h := Step(cfg, w, key, t).h; |h.order| <= cfg.maxKeys && forall k :: k in h.stamps <==> k in h.order
  {
    var base := Evicted(cfg, w.h, key);
    WithoutShorter(base.order, key);
    if Evicts(cfg, w.h, key) {
      forall k ensures k in base.order <==> k in w.h.order && k != w.h.order[0] { TailMember(w.h.order, k); }
    }
  }

  lemma TailMember(order: seq<string>, k: string)
    requires Distinct(order) && order != []
    ensures k in order[1..] <==> k in order && k != order[0]
  {
    assert order == [order[0]] + order[1..];
  }

  /** Every check keeps the invariant. */
  lemma StepKeeps(cfg: Config, w: World, key: string, t: int)
    requires ConfigOk(cfg) && Inv(cfg, w) && w.clock <= t
    ensures Inv(cfg, Step(cfg, w, key, t))
  {
    var v := Step(cfg, w, key, t);
    if |Seen(cfg, w.h, key, t)| < cfg.limit { AdmittedOrder(cfg, w, key, t); } else { RefusedOrder(cfg, w, key, t); }
    AscendsDistinct(v.h.order, Rank(v));
    SameKeys(cfg, w, key, t);
    forall other ensures KeyOk(cfg, v, other) {
      assert KeyOk(cfg, w, other);
      if other == key { OwnKeyOk(cfg, w, key, t); } else { OtherKeyOk(cfg, w, key, t, other); }
    }
    RecencyIs(v);
  }

  lemma RecencyIs(w: World)
    requires Ascends(w.h.order, Rank(w))
    ensures ByRecency(w)
  {
    assert forall k: string :: Rank(w)(k) == LastCall(w, k);
  }

  // ---- runs ----------------------------------------------------------------

  datatype Ask = Ask(key: string, t: int)

  ghost predicate StepAt(cfg: Config, ws: seq<World>, asks: seq<Ask>, i: nat)
    requires ConfigOk(cfg) && |ws| == |asks| + 1 && i < |asks|
  {
    ws[i].clock <= asks[i].t && ws[i + 1] == Step(cfg, ws[i], asks[i].key, asks[i].t)
  }

  ghost predicate Run(cfg: Config, ws: seq<World>, asks: seq<Ask>) {
    && ConfigOk(cfg) && |ws| == |asks| + 1 && ws[0].h == EMPTY && ws[0].log == map[] && ws[0].count == 0
    && forall i :: 0 <= i < |asks| ==> StepAt(cfg, ws, asks, i)
  }

  lemma {:induction false} RunKeeps(cfg: Config, ws: seq<World>, asks: seq<Ask>, i: nat)
    requires Run(cfg, ws, asks) && i < |ws|
    ensures Inv(cfg, ws[i])
  {
    if i > 0 {
      RunKeeps(cfg, ws, asks, i - 1);
      assert StepAt(cfg, ws, asks, i - 1);
      StepKeeps(cfg, ws[i - 1], asks[i - 1].key, asks[i - 1].t);
    }
  }

  lemma SpansWindow(cfg: Config, calls: seq<Call>, count: nat, clock: int, i: nat, j: nat)
    requires CallsOk(cfg, calls, count, clock) && i + cfg.limit <= j < |calls|
    ensures calls[i].t + cfg.windowMs <= calls[j].t
  {
    var m := i + cfg.limit;
    assert calls[i].t + cfg.windowMs <= calls[m].t <= calls[j].t;
  }

  /** Admitted calls of a key that fall in one window, with no eviction of it since the first, are at most the limit. */
  lemma WindowHoldsAtMostLimit(cfg: Config, ws: seq<World>, asks: seq<Ask>, n: nat, key: string, i: nat, j: nat)
    requires Run(cfg, ws, asks) && n < |ws| && i <= j < |Log(ws[n], key)|
    requires Log(ws[n], key)[j].t < Log(ws[n], key)[i].t + cfg.windowMs
    ensures j - i + 1 <= cfg.limit
  {
    RunKeeps(cfg, ws, asks, n);
    assert KeyOk(cfg, ws[n], key);
    if j - i >= cfg.limit { SpansWindow(cfg, Log(ws[n], key), ws[n].count, ws[n].clock, i, j); }
  }

  /** The map never holds more keys than the cap. */
  lemma MapStaysBounded(cfg: Config, ws: seq<World>, asks: seq<Ask>, n: nat)
    requires Run(cfg, ws, asks) && n < |ws|
    ensures |ws[n].h.stamps.Keys| <= cfg.maxKeys
  {
    RunKeeps(cfg, ws, asks, n);
    KeyCount(ws[n].h.order, ws[n].h.stamps.Keys);
  }

  lemma {:induction false} KeyCount(order: seq<string>, keys: set<string>)
    requires forall k :: k in keys ==> k in order
    ensures |keys| <= |order|
    decreases |order|
  {
    if order == [] {
      assert keys == {};
    } else {
      KeyCount(order[1..], keys - {order[0]});
    }
  }

  /** A key is dropped only for a new one in a full map, and it is the key whose last admitted call is the oldest. */
  lemma StalestIsEvicted(cfg: Config, ws: seq<World>, asks: seq<Ask>, i: nat, gone: string, other: string)
    requires Run(cfg, ws, asks) && i < |asks|
    requires gone in ws[i].h.stamps && gone !in ws[i + 1].h.stamps && other in ws[i].h.stamps && other != gone
    ensures asks[i].key !in ws[i].h.stamps && |ws[i].h.order| >= cfg.maxKeys
    ensures LastCall(ws[i], gone) < LastCall(ws[i], other)
  {
    RunKeeps(cfg, ws, asks, i);
    assert StepAt(cfg, ws, asks, i);
    var w, key, t := ws[i], asks[i].key, asks[i].t;
    OwnAfter(cfg, w, key, t);
    OtherAfter(cfg, w, key, t, gone);
    assert other in w.h.order;
    var j :| 0 <= j < |w.h.order| && w.h.order[j] == other;
  }

  // ---- waiting as told -----------------------------------------------------

  lemma CeilEnough(n: int)
    ensures 1000 * CeilSeconds(n) >= n
  {
  }

  /** Some first part of the list was dropped. */
  predicate Suffix(now: seq<int>, was: seq<int>) { |now| <= |was| && now == was[|was| - |now|..] }

  lemma SuffixTransitive(a: seq<int>, b: seq<int>, c: seq<int>)
    requires Suffix(a, b) && Suffix(b, c)
    ensures Suffix(a, c)
  {
  }

  /** One check that does not admit the key only drops stamps of it. */
  lemma StepOnlyDrops(cfg: Config, w: World, ask: Ask, key: string)
    requires ConfigOk(cfg) && HitsOk(w.h) && (ask.key == key ==> Check(cfg, w.h, key, ask.t).1.Some?)
    ensures var v := Step(cfg, w, ask.key, ask.t); key in v.h.stamps ==> key in w.h.stamps && Suffix(v.h.stamps[key], w.h.stamps[key])
  {
    if ask.key == key { OwnAfter(cfg, w, key, ask.t); } else { OtherAfter(cfg, w, ask.key, ask.t, key); }
  }

  /** Checks that do not admit the key only ever drop stamps of it. */
  lemma {:induction false} NotAdmittedOnlyDrops(cfg: Config, ws: seq<World>, asks: seq<Ask>, i: nat, j: nat, key: string)
    requires Run(cfg, ws, asks) && i <= j < |ws| && key in ws[i].h.stamps
    requires forall m :: i <= m < j && asks[m].key == key ==> Check(cfg, ws[m].h, key, asks[m].t).1.Some?
    ensures key in ws[j].h.stamps ==> Suffix(ws[j].h.stamps[key], ws[i].h.stamps[key])
    decreases j
  {
    if i < j {
      NotAdmittedOnlyDrops(cfg, ws, asks, i, j - 1, key);
      assert StepAt(cfg, ws, asks, j - 1);
      RunKeeps(cfg, ws, asks, j - 1);
      StepOnlyDrops(cfg, ws[j - 1], asks[j - 1], key);
      if key in ws[j].h.stamps { SuffixTransitive(ws[j].h.stamps[key], ws[j - 1].h.stamps[key], ws[i].h.stamps[key]); }
    }
  }

  lemma ExpiredDrops(stamps: seq<int>, cutoff: int)
    requires stamps != [] && stamps[0] <= cutoff
    ensures |Live(stamps, cutoff)| < |stamps|
  {
  }

  /** After the seconds a refusal names, a call is admitted, when no call of the key was admitted in between. */
  lemma WaitingIsEnough(cfg: Config, ws: seq<World>, asks: seq<Ask>, i: nat, j: nat, key: string)
    requires Run(cfg, ws, asks) && i < j < |asks| && asks[i].key == key == asks[j].key
    requires var r := Check(cfg, ws[i].h, key, asks[i].t).1; r.Some? && asks[j].t >= asks[i].t + 1000 * r.value
    requires forall m :: i < m < j && asks[m].key == key ==> Check(cfg, ws[m].h, key, asks[m].t).1.Some?
    ensures Check(cfg, ws[j].h, key, asks[j].t).1.None?
  {
    var seen := Seen(cfg, ws[i].h, key, asks[i].t);
    RefusedFull(cfg, ws, asks, i);
    NotAdmittedOnlyDrops(cfg, ws, asks, i + 1, j, key);
    CeilEnough(seen[0] + cfg.windowMs - asks[i].t);
    if key in ws[j].h.stamps {
      var now := ws[j].h.stamps[key];
      if |now| == |seen| { ExpiredDrops(now, asks[j].t - cfg.windowMs); }
    }
  }

  /** A refused key holds exactly the limit of stamps. */
  lemma RefusedFull(cfg: Config, ws: seq<World>, asks: seq<Ask>, i: nat)
    requires Run(cfg, ws, asks) && i < |asks| && Check(cfg, ws[i].h, asks[i].key, asks[i].t).1.Some?
    ensures var seen := Seen(cfg, ws[i].h, asks[i].key, asks[i].t);
      |seen| == cfg.limit && asks[i].key in ws[i + 1].h.stamps && ws[i + 1].h.stamps[asks[i].key] == seen
  {
    RunKeeps(cfg, ws, asks, i);
    assert StepAt(cfg, ws, asks, i);
    assert KeyOk(cfg, ws[i], asks[i].key);
    OwnAfter(cfg, ws[i], asks[i].key, asks[i].t);
  }

  // ---- exactly when a call is admitted -------------------------------------

  /** The admitted call `limit` back, if there is one, has left the window that ends at t. */
  predicate RoomAt(cfg: Config, calls: seq<Call>, t: int)
    requires cfg.limit >= 1
  {
    |calls| < cfg.limit || calls[|calls| - cfg.limit].t + cfg.windowMs <= t
  }

  lemma SeenIsWindow(cfg: Config, stamps: seq<int>, calls: seq<Call>, count: nat, clock: int, t: int)
    requires cfg.limit >= 1 && CallsOk(cfg, calls, count, clock) && Stored(cfg, stamps, calls, clock) && clock <= t
    ensures |Live(stamps, t - cfg.windowMs)| < cfg.limit <==> RoomAt(cfg, calls, t)
    ensures |Live(stamps, t - cfg.windowMs)| == cfg.limit ==> Live(stamps, t - cfg.windowMs)[0] == calls[|calls| - cfg.limit].t
  {
    var live := Live(stamps, t - cfg.windowMs);
    StoredPruned(cfg, stamps, calls, clock, t);
    if |live| == cfg.limit {
      assert live[0] > t - cfg.windowMs && live[0] == calls[|calls| - cfg.limit].t;
    } else if |calls| >= cfg.limit {
      assert |calls| - cfg.limit < |calls| - |live|;
    }
  }

  /** A call is admitted if and only if the key's admitted call `limit` back, since its last eviction, is out of the window. */
  lemma AdmittedIff(cfg: Config, ws: seq<World>, asks: seq<Ask>, i: nat)
    requires Run(cfg, ws, asks) && i < |asks|
    ensures var r, calls := Check(cfg, ws[i].h, asks[i].key, asks[i].t).1, Log(ws[i], asks[i].key);
      && (r.None? <==> RoomAt(cfg, calls, asks[i].t))
      && (r.Some? ==> r.value == RetryAfter(cfg, calls[|calls| - cfg.limit].t, asks[i].t))
  {
    RunKeeps(cfg, ws, asks, i);
    assert StepAt(cfg, ws, asks, i);
    var w, key, t := ws[i], asks[i].key, asks[i].t;
    assert KeyOk(cfg, w, key);
    if key in w.h.stamps {
      SeenIsWindow(cfg, w.h.stamps[key], Log(w, key), w.count, w.clock, t);
      StoredPruned(cfg, w.h.stamps[key], Log(w, key), w.clock, t);
    }
  }

  /** Until the named seconds are nearly over the key's log stays as it is, while it is not evicted. */
  lemma {:induction false} LogWaits(cfg: Config, ws: seq<World>, asks: seq<Ask>, i: nat, m: nat, key: string, until: int)
    requires Run(cfg, ws, asks) && i <= m < |ws| && forall l :: i < l <= m ==> key in ws[l].h.stamps
    requires !RoomAt(cfg, Log(ws[i], key), until) && forall l :: i <= l < m ==> asks[l].t <= until
    ensures Log(ws[m], key) == Log(ws[i], key)
    decreases m
  {
    if i < m {
      LogWaits(cfg, ws, asks, i, m - 1, key, until);
      var w, ask := ws[m - 1], asks[m - 1];
      assert StepAt(cfg, ws, asks, m - 1);
      RunKeeps(cfg, ws, asks, m - 1);
      if ask.key == key {
        AdmittedIff(cfg, ws, asks, m - 1);
        OwnAfter(cfg, w, key, ask.t);
      } else {
        OtherAfter(cfg, w, ask.key, ask.t, key);
      }
    }
  }

  lemma {:induction false} TimesGrow(cfg: Config, ws: seq<World>, asks: seq<Ask>, i: nat, j: nat)
    requires Run(cfg, ws, asks) && i <= j < |asks|
    ensures asks[i].t <= asks[j].t
    decreases j
  {
    if i < j {
      TimesGrow(cfg, ws, asks, i, j - 1);
      assert StepAt(cfg, ws, asks, j - 1) && StepAt(cfg, ws, asks, j);
    }
  }

  lemma TimesBelow(cfg: Config, ws: seq<World>, asks: seq<Ask>, i: nat, j: nat)
    requires Run(cfg, ws, asks) && i <= j < |asks|
    ensures forall l :: i <= l < j ==> asks[l].t <= asks[j].t
  {
    forall l | i <= l < j ensures asks[l].t <= asks[j].t { TimesGrow(cfg, ws, asks, l, j); }
  }

  lemma CeilNotBefore(n: int)
    ensures 1000 * (CeilSeconds(n) - 1) < n
  {
  }

  /** A call made a whole second sooner than told is still refused, when more than a second was named and the key is not evicted. */
  lemma SoonerIsRefused(cfg: Config, ws: seq<World>, asks: seq<Ask>, i: nat, j: nat, key: string)
    requires Run(cfg, ws, asks) && i < j < |asks| && asks[i].key == key == asks[j].key
    requires var r := Check(cfg, ws[i].h, key, asks[i].t).1; r.Some? && r.value > 1 && asks[j].t <= asks[i].t + 1000 * (r.value - 1)
    requires forall m :: i < m <= j ==> key in ws[m].h.stamps
    ensures Check(cfg, ws[j].h, key, asks[j].t).1.Some?
  {
    AdmittedIff(cfg, ws, asks, i);
    var calls := Log(ws[i], key);
    CeilNotBefore(calls[|calls| - cfg.limit].t + cfg.windowMs - asks[i].t);
    TimesBelow(cfg, ws, asks, i, j);
    LogWaits(cfg, ws, asks, i, j, key, asks[j].t);
    AdmittedIff(cfg, ws, asks, j);
  }
}
