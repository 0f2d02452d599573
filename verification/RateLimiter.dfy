/**
 * The sliding-window rate limiter of both servers: timestamps per key, pruned
 * on access, and a capped key map that evicts in insertion order. A JavaScript
 * Map is a list of its keys in insertion order and their values.
 */
module RateLimiter {
  import opened Options

  datatype Config = Config(limit: nat, windowMs: nat, maxKeys: nat)
  datatype Hits = Hits(order: seq<string>, stamps: map<string, seq<int>>)

  /** `rateLimitFromEnv` yields no limit of 0, and the map can hold a key. */
  predicate ConfigOk(cfg: Config) { cfg.limit >= 1 && cfg.maxKeys >= 1 }

  predicate Distinct(order: seq<string>) { forall i, j :: 0 <= i < j < |order| ==> order[i] != order[j] }

  /** The list and the map have the same keys. */
  ghost predicate HitsOk(h: Hits) { Distinct(h.order) && forall k :: k in h.stamps <==> k in h.order }

  const EMPTY := Hits([], map[])

  // ---- one check -----------------------------------------------------------

  /** How many of the first stamps are not after the cutoff. */
  function Expired(stamps: seq<int>, cutoff: int): (n: nat)
    ensures n <= |stamps| && (n < |stamps| ==> stamps[n] > cutoff)
    ensures forall i :: 0 <= i < n ==> stamps[i] <= cutoff
  {
    if stamps != [] && stamps[0] <= cutoff then 1 + Expired(stamps[1..], cutoff) else 0
  }

  function Live(stamps: seq<int>, cutoff: int): seq<int> { stamps[Expired(stamps, cutoff)..] }

  function Without(order: seq<string>, key: string): (r: seq<string>)
    ensures forall k :: k in r <==> k in order && k != key
    ensures key !in order ==> r == order
  {
    if order == [] then [] else if order[0] == key then Without(order[1..], key) else [order[0]] + Without(order[1..], key)
  }

  /** Whether the check drops the first key of the map: it is full and the caller's key is new. */
  predicate Evicts(cfg: Config, h: Hits, key: string) { key !in h.stamps && |h.order| >= cfg.maxKeys && h.order != [] }

  function Evicted(cfg: Config, h: Hits, key: string): Hits {
    if Evicts(cfg, h, key) then Hits(h.order[1..], h.stamps - {h.order[0]}) else h
  }

  /** The caller's stamps as the check sees them: pruned, or none. */
  function Seen(cfg: Config, h: Hits, key: string, t: int): seq<int> {
    if key in h.stamps then Live(h.stamps[key], t - cfg.windowMs) else []
  }

  function Max(a: int, b: int): int { if a < b then b else a }

  /** `Math.ceil(n / 1000)`. */
  function CeilSeconds(n: int): int { -((-n) / 1000) }

  function RetryAfter(cfg: Config, oldest: int, t: int): int { Max(1, CeilSeconds(oldest + cfg.windowMs - t)) }

  function Refused(h: Hits, key: string, seen: seq<int>): Hits { Hits(h.order, h.stamps[key := seen]) }

  /** The key goes to the end of the map with one stamp more. */
  function Admitted(h: Hits, key: string, seen: seq<int>, t: int): Hits {
    Hits(Without(h.order, key) + [key], h.stamps[key := seen + [t]])
  }

  /** `check`: None when admitted, else the seconds to wait. */
  function Check(cfg: Config, h: Hits, key: string, t: int): (Hits, Option<int>)
    requires cfg.limit >= 1
  {
    var seen := Seen(cfg, h, key, t);
    if |seen| >= cfg.limit then (Refused(h, key, seen), Some(RetryAfter(cfg, seen[0], t)))
    else (Admitted(Evicted(cfg, h, key), key, seen, t), None)
  }

  class Limiter {
    const cfg: Config
    var order: seq<string>
    var stamps: map<string, seq<int>>

    constructor (limit: nat, windowMs: nat, maxKeys: nat := 10000)
      ensures cfg == Config(limit, windowMs, maxKeys) && Value() == EMPTY
    {
      cfg := Config(limit, windowMs, maxKeys);
      order, stamps := [], map[];
    }

    function Value(): Hits
      reads this
    {
      Hits(order, stamps)
    }

    method EvictStalest()
      modifies this
      ensures Value() == if old(order) == [] then old(Value()) else Hits(old(order)[1..], old(stamps) - {old(order)[0]})
    {
      if order != [] {
        stamps := stamps - {order[0]};
        order := order[1..];
      }
    }

    static method FirstLive(mine: seq<int>, cutoff: int) returns (n: nat)
      ensures n == Expired(mine, cutoff)
    {
      n := 0;
      while n < |mine| && mine[n] <= cutoff
        invariant n <= |mine| && forall i :: 0 <= i < n ==> mine[i] <= cutoff
      {
        n := n + 1;
      }
    }

    /** The expired stamps go, in place. */
    method Prune(key: string, cutoff: int) returns (mine: seq<int>)
      requires key in stamps
      modifies this
      ensures mine == Live(old(stamps)[key], cutoff) && order == old(order) && stamps == old(stamps)[key := mine]
    {
      mine := stamps[key];
      var firstLive := FirstLive(mine, cutoff);
      if firstLive > 0 { mine := mine[firstLive..]; }
      stamps := stamps[key := mine];
    }

    /** A new key gets an empty list at the end of the map. */
    method Track(key: string)
      requires key !in stamps && cfg.maxKeys >= 1
      modifies this
      ensures var base := Evicted(cfg, old(Value()), key); Value() == Hits(base.order + [key], base.stamps[key := []])
    {
      if |order| >= cfg.maxKeys { EvictStalest(); }
      stamps := stamps[key := []];
      order := order + [key];
    }

    /** The key's list takes the stamp, and the key goes to the end of the map. */
    method Record(key: string, mine: seq<int>, t: int)
      requires key in stamps
      modifies this
      ensures order == Without(old(order), key) + [key] && stamps == old(stamps)[key := mine + [t]]
    {
      order := Without(order, key) + [key];
      stamps := stamps[key := mine + [t]];
    }

    method CheckKey(key: string, t: int) returns (retry: Option<int>)
      requires ConfigOk(cfg) && HitsOk(Value())
      modifies this
      ensures Value() == Check(cfg, old(Value()), key, t).0 && retry == Check(cfg, old(Value()), key, t).1
    {
      var mine: seq<int> := [];
      ghost var base := Evicted(cfg, Value(), key);
      if key in stamps {
        mine := Prune(key, t - cfg.windowMs);
      } else {
        WithoutLast(base.order, key);
        Track(key);
      }
      assert mine == Seen(cfg, old(Value()), key, t) && stamps == base.stamps[key := mine];
      assert Without(order, key) == Without(base.order, key);
      if |mine| >= cfg.limit {
        return Some(Max(1, CeilSeconds(mine[0] + cfg.windowMs - t)));
      }
      SetTwice(base.stamps, key, mine, mine + [t]);
      Record(key, mine, t);
      retry := None;
    }
  }

  lemma SetTwice(m: map<string, seq<int>>, key: string, a: seq<int>, b: seq<int>)
    ensures m[key := a][key := b] == m[key := b]
  {
  }

  lemma {:induction false} WithoutLast(order: seq<string>, key: string)
    ensures Without(order + [key], key) == Without(order, key)
  {
    if order == [] {
      assert [key][1..] == [];
    } else {
      assert (order + [key])[1..] == order[1..] + [key];
      WithoutLast(order[1..], key);
    }
  }
}
