/** Port pools: the in-memory allocator behind every published listener. */
module Ports {
  import opened Common

  /** An inclusive range of ports. */
  datatype PortRange = PortRange(start: int, end: int) {
    /** The last port the scan can reach: an inverted range still offers its start. */
    function Last(): int {
      if start <= end then end else start
    }

    predicate Contains(p: int) {
      start <= p <= Last()
    }
  }

  /** One cursor-based pool of ports. */
  datatype Pool = Pool(range: PortRange, next: int, used: set<int>) {
    predicate WellFormed() {
      && range.start <= next <= range.Last() + 1
      && forall p :: p in used ==> range.Contains(p)
    }

    predicate Free(p: int) {
      range.Contains(p) && p !in used
    }

    /** Every port below the cursor is taken. */
    predicate Packed() {
      forall p :: range.start <= p < next ==> p in used
    }

    function NextInRange(current: int): int {
      if current > range.end then range.start else current
    }

    /** The least port of lo..hi that is not in use. */
    function LeastFree(lo: int, hi: int): (r: Option<int>)
      ensures r.Some? ==> lo <= r.value <= hi && r.value !in used && forall q :: lo <= q < r.value ==> q in used
      ensures r.None? ==> forall q :: lo <= q <= hi ==> q in used
      decreases hi - lo
    {
      if lo > hi then None
      else if lo !in used then Some(lo)
      else LeastFree(lo + 1, hi)
    }

    /** First free port from the cursor to the end of the range, else from the start up to the cursor. */
    function NextFree(): Option<int> {
      var from := NextInRange(next);
      match LeastFree(from, range.Last())
      case Some(p) => Some(p)
      case None => LeastFree(range.start, from - 1)
    }

    /** Steps a wrapping walk takes from the cursor to port p. */
    function Distance(p: int): int {
      var from := NextInRange(next);
      if p >= from then p - from else p - from + (range.Last() - range.start + 1)
    }

    /** Port p becomes used and the cursor moves past it, never backwards. */
    function Take(p: int): Pool {
      this.(used := used + {p}, next := if p >= next then p + 1 else next)
    }

    /** Port p becomes free and the cursor falls back to it, never forwards. */
    function Release(p: int): Pool {
      this.(used := used - {p}, next := Min(p, next))
    }

    /** All of ports released, in whatever order. */
    ghost function ReleaseAll(ports: set<int>): Pool {
      this.(used := used - ports, next := Lowest(next, ports))
    }
  }

  function FreshPool(r: PortRange): (p: Pool)
    ensures p.WellFormed() && p.Packed() && p.used == {}
  {
    Pool(r, r.start, {})
  }

  /** The minimum of cap and all elements of ports. */
  ghost function Lowest(cap: int, ports: set<int>): (m: int)
    ensures m <= cap && (m == cap || m in ports)
    ensures forall p :: p in ports ==> m <= p
    decreases |ports|
  {
    if exists p :: p in ports then
      var p :| p in ports;
      var rest := Lowest(cap, ports - {p});
      assert forall q :: q in ports ==> q == p || q in ports - {p};
      Min(p, rest)
    else cap
  }

  lemma ReleaseAllSnoc(pool: Pool, ports: set<int>, p: int)
    ensures pool.ReleaseAll(ports).Release(p) == pool.ReleaseAll(ports + {p})
    ensures pool.ReleaseAll({}) == pool
  {
  }

  /** The scan stops at the first free port in cyclic order, and fails exactly on a full range. */
  lemma NextFreeIsFirstInCyclicOrder(pool: Pool)
    requires pool.WellFormed()
    ensures pool.NextFree().None? <==> forall p :: pool.range.Contains(p) ==> p in pool.used
    ensures pool.NextFree().Some? ==>
              var p := pool.NextFree().value;
              && pool.Free(p)
              && forall q :: pool.Free(q) && q != p ==> pool.Distance(p) < pool.Distance(q)
  {
  }

  /** A packed pool is first-fit: the scan returns the least free port of the whole range. */
  lemma PackedPoolIsFirstFit(pool: Pool)
    requires pool.WellFormed() && pool.Packed()
    ensures pool.NextFree() == pool.LeastFree(pool.range.start, pool.range.Last())
  {
  }

  /** What an allocation or reservation of a free port keeps. */
  lemma TakeKeeps(pool: Pool, p: int)
    requires pool.WellFormed() && pool.Free(p)
    ensures pool.Take(p).WellFormed()
    ensures pool.Packed() && pool.NextFree() == Some(p) ==> pool.Take(p).Packed()
  {
  }

  /** Where the scan goes on after a port was taken that the cursor had not passed: behind that port. */
  lemma ScanAfterTake(pool: Pool, p: int)
    requires pool.WellFormed() && pool.Free(p) && p >= pool.next
    ensures
      var t := pool.Take(p);
      t.NextFree() == if exists q :: q > p && t.Free(q) then t.LeastFree(p + 1, t.range.Last()) else t.LeastFree(t.range.start, p - 1)
  {
    NextFreeIsFirstInCyclicOrder(pool.Take(p));
  }

  /** A port taken behind the cursor does not move the scan. */
  lemma ScanIgnoresTakeBehind(pool: Pool, p: int)
    requires pool.WellFormed() && pool.Free(p) && p < pool.next && pool.NextFree() != Some(p)
    ensures pool.Take(p).NextFree() == pool.NextFree()
  {
    NextFreeIsFirstInCyclicOrder(pool);
    NextFreeIsFirstInCyclicOrder(pool.Take(p));
  }

  /** Releasing keeps the cursor in range exactly when the port is not below the range. */
  lemma ReleaseKeepsIff(pool: Pool, p: int)
    requires pool.WellFormed()
    ensures pool.Release(p).WellFormed() <==> p >= pool.range.start
    ensures pool.Packed() ==> pool.Release(p).Packed()
  {
  }

  /** A port below the range that is released anyway is handed out by the very next scan. */
  lemma StrayReleaseIsHandedOut(r: PortRange, p: int)
    requires r.start <= r.end && p < r.start
    ensures FreshPool(r).Release(p).NextFree() == Some(p)
  {
  }

  /** What callers do to one pool. */
  datatype PoolOp = Allocate | Reserve(port: int) | GiveBack(port: int)

  function PoolStep(pool: Pool, op: PoolOp): Pool {
    match op
    case Allocate => (match pool.NextFree() case None => pool case Some(p) => pool.Take(p))
    case Reserve(p) => if pool.Free(p) && p <= pool.range.end then pool.Take(p) else pool
    case GiveBack(p) => if p in pool.used then pool.Release(p) else pool
  }

  function PoolRun(pool: Pool, ops: seq<PoolOp>): Pool {
    if ops == [] then pool else PoolStep(PoolRun(pool, ops[..|ops| - 1]), ops[|ops| - 1])
  }

  /** Every run of a fresh pool keeps the cursor in range, and is first-fit until something is reserved. */
  lemma {:induction false} PoolRunSound(r: PortRange, ops: seq<PoolOp>)
    ensures
      var pool := PoolRun(FreshPool(r), ops);
      && pool.WellFormed() && pool.range == r
      && ((forall i :: 0 <= i < |ops| ==> !ops[i].Reserve?) ==>
            pool.Packed() && pool.NextFree() == pool.LeastFree(r.start, r.Last()))
  {
    if ops != [] {
      var before := ops[..|ops| - 1];
      PoolRunSound(r, before);
      var pool := PoolRun(FreshPool(r), before);
      assert forall i :: 0 <= i < |before| ==> before[i] == ops[i];
      NextFreeIsFirstInCyclicOrder(pool);
      match ops[|ops| - 1] {
        case Allocate =>
          if pool.NextFree().Some? {
            TakeKeeps(pool, pool.NextFree().value);
          }
        case Reserve(p) =>
        case GiveBack(p) => ReleaseKeepsIff(pool, p);
      }
    }
    var pool := PoolRun(FreshPool(r), ops);
    if pool.Packed() {
      PackedPoolIsFirstFit(pool);
    }
  }

  /** Both pools of the allocator. */
  datatype Pools = Pools(host: Pool, public: Pool) {
    predicate WellFormed() {
      host.WellFormed() && public.WellFormed()
    }
  }

  datatype Pair = Pair(host: int, public: int)

  datatype PairResult = PairResult(pools: Pools, pair: Option<Pair>)

  /** A host port and a public port together; a missing public port gives the host port back. */
  function TakePair(ps: Pools): PairResult {
    match ps.host.NextFree()
    case None => PairResult(ps, None)
    case Some(h) =>
      match ps.public.NextFree()
      case None => PairResult(ps.(host := ps.host.Take(h).Release(h)), None)
      case Some(p) => PairResult(Pools(ps.host.Take(h), ps.public.Take(p)), Some(Pair(h, p)))
  }

  datatype PairsResult = PairsResult(pools: Pools, pairs: seq<Pair>)

  /** Up to n pairs in sequence, stopping at the first failure. */
  function TakePairs(ps: Pools, n: nat): PairsResult {
    if n == 0 then PairsResult(ps, [])
    else
      var before := TakePairs(ps, n - 1);
      if |before.pairs| < n - 1 then before
      else
        var one := TakePair(before.pools);
        PairsResult(one.pools, match one.pair case None => before.pairs case Some(pr) => before.pairs + [pr])
  }

  function Hosts(pairs: seq<Pair>): set<int> {
    set i | 0 <= i < |pairs| :: pairs[i].host
  }

  function Publics(pairs: seq<Pair>): set<int> {
    set i | 0 <= i < |pairs| :: pairs[i].public
  }

  /** No two pairs share a host port or a public port. */
  predicate DistinctPorts(pairs: seq<Pair>) {
    forall i, j :: 0 <= i < j < |pairs| ==> pairs[i].host != pairs[j].host && pairs[i].public != pairs[j].public
  }

  lemma TakePairSound(ps: Pools)
    requires ps.WellFormed()
    ensures
      var r := TakePair(ps);
      && r.pools.WellFormed()
      && r.pools.host.range == ps.host.range && r.pools.public.range == ps.public.range
      && (ps.public.Packed() ==> r.pools.public.Packed())
      && (r.pair.None? ==> r.pools.host.used == ps.host.used && r.pools.public == ps.public)
      && (r.pair.Some? ==>
            && ps.host.Free(r.pair.value.host) && ps.public.Free(r.pair.value.public)
            && r.pools.host.used == ps.host.used + {r.pair.value.host}
            && r.pools.public.used == ps.public.used + {r.pair.value.public})
  {
  }

  ghost predicate Full(pool: Pool) {
    forall p :: pool.range.Contains(p) ==> p in pool.used
  }

  /** A pair is refused exactly when one of the pools has no free port left. */
  lemma PairRefusedIff(ps: Pools)
    requires ps.WellFormed()
    ensures TakePair(ps).pair.None? <==> Full(ps.host) || Full(ps.public)
  {
    NextFreeIsFirstInCyclicOrder(ps.host);
    NextFreeIsFirstInCyclicOrder(ps.public);
  }

  /** A series of pairs is cut short only by a full pool. */
  lemma {:induction false} CutShortIsFull(ps: Pools, n: nat)
    requires ps.WellFormed()
    ensures var r := TakePairs(ps, n); |r.pairs| < n ==> Full(r.pools.host) || Full(r.pools.public)
  {
    if n > 0 {
      CutShortIsFull(ps, n - 1);
      TakePairsSound(ps, n - 1);
      TakePairSound(TakePairs(ps, n - 1).pools);
      PairRefusedIff(TakePairs(ps, n - 1).pools);
    }
  }

  /** The pairs handed out are fresh, distinct, and exactly what the used sets gained. */
  ghost predicate Grown(ps: Pools, r: PairsResult) {
    && DistinctPorts(r.pairs)
    && r.pools.host.used == ps.host.used + Hosts(r.pairs)
    && r.pools.public.used == ps.public.used + Publics(r.pairs)
    && forall i :: 0 <= i < |r.pairs| ==> ps.host.Free(r.pairs[i].host) && ps.public.Free(r.pairs[i].public)
  }

  /** Whatever the outcome, the used sets grow by exactly the pairs handed out, all fresh and distinct. */
  lemma {:induction false} TakePairsSound(ps: Pools, n: nat)
    requires ps.WellFormed()
    ensures
      var r := TakePairs(ps, n);
      && r.pools.WellFormed()
      && r.pools.host.range == ps.host.range && r.pools.public.range == ps.public.range
      && (ps.public.Packed() ==> r.pools.public.Packed())
      && |r.pairs| <= n && Grown(ps, r)
  {
    if n > 0 {
      TakePairsSound(ps, n - 1);
      var before := TakePairs(ps, n - 1);
      TakePairSound(before.pools);
      var one := TakePair(before.pools);
      if |before.pairs| == n - 1 && one.pair.Some? {
        GrownSnoc(ps, before, one.pools, one.pair.value);
      }
    }
  }

  lemma GrownSnoc(ps: Pools, before: PairsResult, after: Pools, pr: Pair)
    requires Grown(ps, before)
    requires before.pools.host.range == ps.host.range && before.pools.public.range == ps.public.range
    requires before.pools.host.Free(pr.host) && before.pools.public.Free(pr.public)
    requires after.host.used == before.pools.host.used + {pr.host}
    requires after.public.used == before.pools.public.used + {pr.public}
    ensures Grown(ps, PairsResult(after, before.pairs + [pr]))
  {
    PortsOfSnoc(before.pairs, pr);
    DistinctSnoc(before.pairs, pr);
    assert ps.host.used <= before.pools.host.used && ps.public.used <= before.pools.public.used;
  }

  lemma DistinctSnoc(pairs: seq<Pair>, pr: Pair)
    requires DistinctPorts(pairs) && pr.host !in Hosts(pairs) && pr.public !in Publics(pairs)
    ensures DistinctPorts(pairs + [pr])
  {
    forall i | 0 <= i < |pairs| ensures pairs[i].host != pr.host && pairs[i].public != pr.public {
      assert pairs[i].host in Hosts(pairs) && pairs[i].public in Publics(pairs);
    }
  }

  lemma PortsOfSnoc(pairs: seq<Pair>, pr: Pair)
    ensures Hosts(pairs + [pr]) == Hosts(pairs) + {pr.host}
    ensures Publics(pairs + [pr]) == Publics(pairs) + {pr.public}
  {
    var more := pairs + [pr];
    assert more[|pairs|] == pr && forall i :: 0 <= i < |pairs| ==> more[i] == pairs[i];
  }

  /** Circular walk from the cursor: at most one lap, ends on the port NextFree describes. */
  method Scan(pool: Pool) returns (found: Option<int>, ghost probes: nat)
    requires pool.WellFormed()
    ensures found == pool.NextFree()
    ensures probes <= pool.range.Last() - pool.range.start + 1
  {
    var port := pool.NextInRange(pool.next);
    var first := port;
    var last := pool.range.Last();
    probes := 0;
    while true
      invariant pool.range.Contains(port) && pool.range.Contains(first)
      invariant port >= first ==> pool.LeastFree(first, last) == pool.LeastFree(port, last)
      invariant port < first ==> pool.LeastFree(first, last).None?
      invariant port < first ==> pool.LeastFree(pool.range.start, first - 1) == pool.LeastFree(port, first - 1)
      invariant probes == if port >= first then port - first else last - first + 1 + port - pool.range.start
      decreases last - pool.range.start + 1 - probes
    {
      probes := probes + 1;
      if port !in pool.used {
        return Some(port), probes;
      }
      port := pool.NextInRange(port + 1);
      if port == first {
        return None, probes;
      }
    }
  }

  class PortAllocator {
    var host: Pool
    var public: Pool

    ghost predicate Valid()
      reads this
    {
      Contents().WellFormed()
    }

    ghost function Contents(): Pools
      reads this
    {
      Pools(host, public)
    }

    constructor (hostRange: PortRange, publicRange: PortRange)
      ensures Valid() && host == FreshPool(hostRange) && public == FreshPool(publicRange)
    {
      host := FreshPool(hostRange);
      public := FreshPool(publicRange);
    }

    method AllocateHost() returns (port: Option<int>)
      requires Valid()
      modifies this`host
      ensures Valid() && port == old(host).NextFree()
      ensures host == if port.Some? then old(host).Take(port.value) else old(host)
    {
      ghost var probes;
      port, probes := Scan(host);
      if port.Some? {
        NextFreeIsFirstInCyclicOrder(host);
        TakeKeeps(host, port.value);
        host := host.(used := host.used + {port.value});
        if port.value >= host.next {
          host := host.(next := port.value + 1);
        }
      }
    }

    method AllocatePublic() returns (port: Option<int>)
      requires Valid()
      modifies this`public
      ensures Valid() && port == old(public).NextFree()
      ensures public == if port.Some? then old(public).Take(port.value) else old(public)
    {
      ghost var probes;
      port, probes := Scan(public);
      if port.Some? {
        NextFreeIsFirstInCyclicOrder(public);
        TakeKeeps(public, port.value);
        public := public.(used := public.used + {port.value});
        if port.value >= public.next {
          public := public.(next := port.value + 1);
        }
      }
    }

    method AllocatePair() returns (pair: Option<Pair>)
      requires Valid()
      modifies this
      ensures Valid() && PairResult(Contents(), pair) == TakePair(old(Contents()))
    {
      TakePairSound(Contents());
      pair := None;
      var hb := AllocateHost();
      if hb.Some? {
        var pp := AllocatePublic();
        if pp.None? {
          FreeHost(hb.value);
        } else {
          pair := Some(Pair(hb.value, pp.value));
        }
      }
    }

    /** Marks an existing host port used; refused outside the range and for a port already used. */
    method ReserveHost(port: int) returns (ok: bool)
      requires Valid()
      modifies this`host
      ensures Valid()
      ensures ok <==> old(host).Free(port) && port <= host.range.end
      ensures host == if ok then old(host).Take(port) else old(host)
    {
      if port < host.range.start || port > host.range.end || port in host.used {
        return false;
      }
      TakeKeeps(host, port);
      host := host.(used := host.used + {port});
      if port >= host.next {
        host := host.(next := port + 1);
      }
      ok := true;
    }

    method FreeHost(port: int)
      modifies this`host
      ensures host == old(host).Release(port)
      ensures old(Valid()) ==> (Valid() <==> port >= host.range.start)
    {
      host := host.(used := host.used - {port});
      if port < host.next {
        host := host.(next := port);
      }
    }

    method FreePublic(port: int)
      modifies this`public
      ensures public == old(public).Release(port)
      ensures old(Valid()) ==> (Valid() <==> port >= public.range.start)
    {
      public := public.(used := public.used - {port});
      if port < public.next {
        public := public.(next := port);
      }
    }

    /** Gives back both ports of a listener; a non-positive port is ignored. */
    method Release(hostPort: int, publicPort: int)
      modifies this
      ensures host == if hostPort > 0 then old(host).Release(hostPort) else old(host)
      ensures public == if publicPort > 0 then old(public).Release(publicPort) else old(public)
    {
      if hostPort > 0 {
        FreeHost(hostPort);
      }
      if publicPort > 0 {
        FreePublic(publicPort);
      }
    }
  }
}
