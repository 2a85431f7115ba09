/** The mDNS query limiter: a record per client address, swept now and then, over a monotone clock. */
module RateLimiter {
  import opened Common

  // Time is counted in nanoseconds.
  const SECOND := 1_000_000_000
  const MINUTE := 60 * SECOND

  datatype Config = Config(maxPerSecond: nat, maxPerMinute: nat, maxPacketSize: nat, blockDuration: int)

  const DEFAULT_CONFIG := Config(10, 100, 1500, 5 * MINUTE)
  const MIN_PACKET_SIZE := 12

  datatype Client = Client(count: nat, last: int, blocked: bool, until: int)

  datatype Verdict = Accepted | StillBlocked | LimitHit

  datatype Answer = Answer(client: Client, verdict: Verdict)

  /** One query of a client whose block, if any, has run out. */
  function AskUnblocked(cfg: Config, c: Client, now: int): Answer {
    var expired := c.blocked && now > c.until;
    var gap := now - c.last;
    var count := 1 + if expired || gap > MINUTE then 0 else c.count;
    if (gap < SECOND && count > cfg.maxPerSecond) || count > cfg.maxPerMinute then
      Answer(Client(count, now, true, now + cfg.blockDuration), LimitHit)
    else
      Answer(Client(count, now, c.blocked && !expired, c.until), Accepted)
  }

  function Ask(cfg: Config, known: Option<Client>, now: int): Answer {
    match known
    case None => Answer(Client(0, now, false, 0), Accepted)
    case Some(c) => if c.blocked && now < c.until then Answer(c, StillBlocked) else AskUnblocked(cfg, c, now)
  }

  /** A sweep forgets clients silent for a quarter of an hour, unless their blocked mark is set. */
  predicate Stale(c: Client, now: int) {
    c.last < now - 15 * MINUTE && !c.blocked
  }

  datatype Metrics = Metrics(total: nat, blocked: nat, malformed: nat, limitHits: nat, large: nat)

  datatype Limiter = Limiter(clients: map<string, Client>, metrics: Metrics)

  /** A packet of some size; parses says whether its bytes make a DNS message. */
  datatype Event = Packet(ip: string, size: nat, at: int, parses: bool) | Sweep(at: int)

  function Get(clients: map<string, Client>, ip: string): Option<Client> {
    if ip in clients then Some(clients[ip]) else None
  }

  function Count(m: Metrics, v: Verdict): Metrics {
    m.(total := m.total + 1,
       blocked := m.blocked + if v.StillBlocked? then 1 else 0,
       limitHits := m.limitHits + if v.LimitHit? then 1 else 0)
  }

  function Query(cfg: Config, l: Limiter, ip: string, now: int): Limiter {
    var a := Ask(cfg, Get(l.clients, ip), now);
    Limiter(l.clients[ip := a.client], Count(l.metrics, a.verdict))
  }

  /** The checks made before a packet is parsed. */
  function Validate(cfg: Config, l: Limiter, ip: string, size: nat, now: int): Limiter {
    if size > cfg.maxPacketSize then l.(metrics := l.metrics.(total := l.metrics.total + 1, large := l.metrics.large + 1))
    else if size < MIN_PACKET_SIZE then l.(metrics := l.metrics.(total := l.metrics.total + 1, malformed := l.metrics.malformed + 1))
    else Query(cfg, l, ip, now)
  }

  /** A packet let through that does not parse is counted once more, as malformed. */
  function Step(cfg: Config, l: Limiter, e: Event): Limiter {
    match e
    case Sweep(now) => l.(clients := map ip | ip in l.clients && !Stale(l.clients[ip], now) :: l.clients[ip])
    case Packet(ip, size, now, parses) =>
      var after := Validate(cfg, l, ip, size, now);
      if Passes(cfg, l, e) && !parses then after.(metrics := after.metrics.(malformed := after.metrics.malformed + 1)) else after
  }

  /** The packet reaches the client's record. */
  predicate Asks(cfg: Config, e: Event, ip: string) {
    e.Packet? && e.ip == ip && MIN_PACKET_SIZE <= e.size <= cfg.maxPacketSize
  }

  /** The packet is let through. */
  predicate Passes(cfg: Config, l: Limiter, e: Event) {
    e.Packet? && Asks(cfg, e, e.ip) && Ask(cfg, Get(l.clients, e.ip), e.at).verdict.Accepted?
  }

  function Run(cfg: Config, es: seq<Event>): Limiter {
    if es == [] then Limiter(map[], Metrics(0, 0, 0, 0, 0))
    else Step(cfg, Run(cfg, es[..|es| - 1]), es[|es| - 1])
  }

  predicate Monotone(es: seq<Event>) {
    forall i, j :: 0 <= i < j < |es| ==> es[i].at <= es[j].at
  }

  // ---------------------------------------------------------------- conservation

  /** Packets let through that parse, or that do not. */
  function PassCount(cfg: Config, es: seq<Event>, parsing: bool): nat {
    if es == [] then 0
    else
      var before, e := es[..|es| - 1], es[|es| - 1];
      PassCount(cfg, before, parsing) + if Passes(cfg, Run(cfg, before), e) && e.parses == parsing then 1 else 0
  }

  /** Every packet counted is accounted for exactly once: let through and parsed, or refused for one recorded reason. */
  lemma {:induction false} EveryPacketIsAccountedFor(cfg: Config, es: seq<Event>)
    ensures
      var m := Run(cfg, es).metrics;
      m.total == PassCount(cfg, es, true) + m.blocked + m.limitHits + m.large + m.malformed
  {
    if es != [] {
      EveryPacketIsAccountedFor(cfg, es[..|es| - 1]);
    }
  }

  /** What becomes of a packet. */
  datatype Fate = TooLarge | TooSmall | Refused | HitsLimit | Unparsed | Handled

  function FateOf(cfg: Config, l: Limiter, p: Event): Fate
    requires p.Packet?
  {
    if p.size > cfg.maxPacketSize then TooLarge
    else if p.size < 12 then TooSmall
    else
      match Ask(cfg, Get(l.clients, p.ip), p.at).verdict
      case StillBlocked => Refused
      case LimitHit => HitsLimit
      case Accepted => if p.parses then Handled else Unparsed
  }

  /** Packets of the run that met the given fate. */
  function FateCount(cfg: Config, es: seq<Event>, fate: Fate): nat {
    if es == [] then 0
    else
      var before, e := es[..|es| - 1], es[|es| - 1];
      FateCount(cfg, before, fate) + if e.Packet? && FateOf(cfg, Run(cfg, before), e) == fate then 1 else 0
  }

  function PacketCount(es: seq<Event>): nat {
    if es == [] then 0 else PacketCount(es[..|es| - 1]) + if es[|es| - 1].Packet? then 1 else 0
  }

  /** Over every run each counter counts the packets of its own kind, and the total counts them all. */
  lemma {:induction false} CountersExactly(cfg: Config, es: seq<Event>)
    ensures
      var m := Run(cfg, es).metrics;
      && m.total == PacketCount(es)
      && m.large == FateCount(cfg, es, TooLarge)
      && m.malformed == FateCount(cfg, es, TooSmall) + FateCount(cfg, es, Unparsed)
      && m.blocked == FateCount(cfg, es, Refused)
      && m.limitHits == FateCount(cfg, es, HitsLimit)
  {
    if es != [] {
      CountersExactly(cfg, es[..|es| - 1]);
    }
  }

  /** A sweep forgets exactly the clients not marked as blocked that were silent for over 15 minutes. */
  lemma SweepForgetsExactly(cfg: Config, l: Limiter, now: int, ip: string)
    requires ip in l.clients
    ensures
      var after, c := Step(cfg, l, Sweep(now)), l.clients[ip];
      && after.metrics == l.metrics
      && Get(after.clients, ip) == if !c.blocked && now - c.last > 900_000_000_000 then None else Some(c)
  {
  }

  /** The i-th event is a packet that is let through and does not parse. */
  ghost predicate PassesUnparsed(cfg: Config, es: seq<Event>, i: int) {
    0 <= i < |es| && Passes(cfg, Run(cfg, es[..i]), es[i]) && !es[i].parses
  }

  lemma UnparsedBefore(cfg: Config, es: seq<Event>, last: nat, i: int)
    requires last < |es| && i < last
    ensures PassesUnparsed(cfg, es[..last], i) <==> PassesUnparsed(cfg, es, i)
  {
    if 0 <= i {
      assert es[..last][..i] == es[..i] && es[..last][i] == es[i];
    }
  }

  lemma {:induction false} UnparsedAreCounted(cfg: Config, es: seq<Event>)
    ensures PassCount(cfg, es, false) > 0 <==> exists i :: PassesUnparsed(cfg, es, i)
  {
    if es != [] {
      var last := |es| - 1;
      UnparsedAreCounted(cfg, es[..last]);
      forall i | i < last ensures PassesUnparsed(cfg, es[..last], i) <==> PassesUnparsed(cfg, es, i) {
        UnparsedBefore(cfg, es, last, i);
      }
      UnparsedLast(cfg, es);
      assert forall i :: PassesUnparsed(cfg, es, i) ==> i < last || i == last;
      assert forall i :: PassesUnparsed(cfg, es[..last], i) ==> i < last;
    }
  }

  lemma UnparsedLast(cfg: Config, es: seq<Event>)
    requires es != []
    ensures PassCount(cfg, es, false)
         == PassCount(cfg, es[..|es| - 1], false) + if PassesUnparsed(cfg, es, |es| - 1) then 1 else 0
  {
  }

  /** Counting every packet let through instead, the sum comes out exactly when all of those parse. */
  lemma GrantedSumIff(cfg: Config, es: seq<Event>)
    ensures
      var m := Run(cfg, es).metrics;
      m.total == PassCount(cfg, es, true) + PassCount(cfg, es, false) + m.blocked + m.limitHits + m.large + m.malformed
      <==> forall i :: !PassesUnparsed(cfg, es, i)
  {
    EveryPacketIsAccountedFor(cfg, es);
    UnparsedAreCounted(cfg, es);
  }

  /** One packet of the least size that does not parse is let through and counted as malformed too. */
  lemma UnparsedPacketCountsTwice(ip: string, now: int)
    ensures
      var es := [Packet(ip, MIN_PACKET_SIZE, now, false)];
      var m := Run(DEFAULT_CONFIG, es).metrics;
      m.total == 1 && m.malformed == 1 && Passes(DEFAULT_CONFIG, Run(DEFAULT_CONFIG, []), es[0])
  {
    var es := [Packet(ip, MIN_PACKET_SIZE, now, false)];
    assert es[..0] == [];
  }

  // ---------------------------------------------------------------- a block holds

  /** What a client's record says right after a limit was hit at time t. */
  ghost predicate BlockedUntil(l: Limiter, ip: string, t: int) {
    ip in l.clients && l.clients[ip].blocked && l.clients[ip].until == t
  }

  lemma {:induction false} BlockSurvives(cfg: Config, before: seq<Event>, later: seq<Event>, ip: string, until: int)
    requires BlockedUntil(Run(cfg, before), ip, until)
    requires forall i :: 0 <= i < |later| ==> later[i].at < until
    ensures BlockedUntil(Run(cfg, before + later), ip, until)
  {
    if later == [] {
      assert before + later == before;
    } else {
      var last := |later| - 1;
      BlockSurvives(cfg, before, later[..last], ip, until);
      assert (before + later)[..|before| + last] == before + later[..last];
      assert (before + later)[|before| + last] == later[last];
    }
  }

  /** A client that hits a limit is refused until the block has run out, whatever else happens meanwhile. */
  lemma BlockHolds(cfg: Config, before: seq<Event>, hit: Event, meanwhile: seq<Event>, again: Event)
    requires hit.Packet? && Asks(cfg, hit, hit.ip) && Asks(cfg, again, hit.ip)
    requires Ask(cfg, Get(Run(cfg, before).clients, hit.ip), hit.at).verdict.LimitHit?
    requires Monotone(meanwhile + [again]) && again.at < hit.at + cfg.blockDuration
    ensures
      var l := Run(cfg, before + [hit] + meanwhile);
      !Passes(cfg, l, again) && Ask(cfg, Get(l.clients, hit.ip), again.at).verdict.StillBlocked?
  {
    var es := before + [hit];
    assert es[..|before|] == before && es[|before|] == hit;
    var tail := meanwhile + [again];
    assert forall i :: 0 <= i < |meanwhile| ==> tail[i] == meanwhile[i] && tail[i].at <= tail[|meanwhile|].at;
    BlockSurvives(cfg, es, meanwhile, hit.ip, hit.at + cfg.blockDuration);
  }

  // ---------------------------------------------------------------- clients do not interfere

  /** The events that can touch the record of ip. */
  function Own(es: seq<Event>, ip: string): seq<Event> {
    if es == [] then []
    else
      var e := es[|es| - 1];
      Own(es[..|es| - 1], ip) + if e.Sweep? || e.ip == ip then [e] else []
  }

  /** A client's record depends on its own packets and the sweeps, on no other client's traffic. */
  lemma {:induction false} OnlyOwnTrafficMatters(cfg: Config, es: seq<Event>, ip: string)
    ensures Get(Run(cfg, es).clients, ip) == Get(Run(cfg, Own(es, ip)).clients, ip)
  {
    if es != [] {
      var e, before := es[|es| - 1], es[..|es| - 1];
      OnlyOwnTrafficMatters(cfg, before, ip);
      if e.Sweep? || e.ip == ip {
        assert Own(es, ip)[..|Own(before, ip)|] == Own(before, ip);
      } else {
        assert Own(es, ip) == Own(before, ip);
      }
    }
  }

  // ---------------------------------------------------------------- the rate bound

  /** How a granted query found the client's record: absent, at the very instant its block ends, or otherwise. */
  datatype Kind = FirstContact | OnExpiry | Ordinary

  datatype Grant = Grant(at: int, kind: Kind)

  function KindOf(known: Option<Client>, now: int): Kind {
    match known
    case None => FirstContact
    case Some(c) => if c.blocked && now == c.until then OnExpiry else Ordinary
  }

  /** The queries of ip that were let through. */
  function Grants(cfg: Config, es: seq<Event>, ip: string): seq<Grant> {
    if es == [] then []
    else
      var before, e := es[..|es| - 1], es[|es| - 1];
      Grants(cfg, before, ip)
      + if Asks(cfg, e, ip) && Passes(cfg, Run(cfg, before), e) then [Grant(e.at, KindOf(Get(Run(cfg, before).clients, ip), e.at))]
        else []
  }

  /** gs[lo..hi] holds only the given kinds of grants, with gaps of at most g. */
  ghost predicate Stretch(gs: seq<Grant>, g: int, kinds: set<Kind>, lo: nat, hi: nat) {
    && lo <= hi <= |gs|
    && (forall k :: lo <= k < hi ==> gs[k].kind in kinds)
    && (forall k :: lo < k < hi ==> gs[k].at - gs[k - 1].at <= g)
  }

  /** Length of the longest such stretch at the end of gs. */
  function Tail(gs: seq<Grant>, g: int, kinds: set<Kind>): nat {
    var last := |gs| - 1;
    if gs == [] || gs[last].kind !in kinds then 0
    else if last > 0 && gs[last].at - gs[last - 1].at <= g then 1 + Tail(gs[..last], g, kinds)
    else 1
  }

  predicate Sane(cfg: Config) {
    1 <= cfg.maxPerSecond && cfg.blockDuration > MINUTE
  }

  /** How many queries may follow one another at once. */
  function Burst(cfg: Config): nat {
    Min(cfg.maxPerSecond, cfg.maxPerMinute)
  }

  /** What the configuration promises for queries with gaps of at most g. */
  function Promise(cfg: Config, g: int): nat {
    if g < SECOND then Burst(cfg) else cfg.maxPerMinute
  }

  /** What the two lenient kinds of grants add to the promise. */
  function Slack(cfg: Config, g: int, kinds: set<Kind>): nat {
    if OnExpiry in kinds && g > 0 && Burst(cfg) > 0 then Burst(cfg)
    else if FirstContact in kinds then 1
    else 0
  }

  function Bound(cfg: Config, g: int, kinds: set<Kind>): nat {
    Promise(cfg, g) + Slack(cfg, g, kinds)
  }

  /** How a client's record bounds the stretch of queries it has just been granted. */
  ghost predicate Paces(cfg: Config, g: int, kinds: set<Kind>, known: Option<Client>, gs: seq<Grant>, clock: int) {
    && (forall k :: 0 <= k <= |gs| ==> Tail(gs[..k], g, kinds) <= Bound(cfg, g, kinds))
    && match known
       case None => gs == [] || clock - gs[|gs| - 1].at > MINUTE
       case Some(c) =>
         && c.last <= clock
         && (if !c.blocked then
               gs != [] && gs[|gs| - 1].at == c.last && Tail(gs, g, kinds) <= c.count + Slack(cfg, g, kinds)
             else if c.last == c.until then
               && gs != [] && gs[|gs| - 1].at == c.last && c.count <= Burst(cfg)
               && Tail(gs, g, kinds) <= if OnExpiry in kinds then c.count else 0
             else
               c.last == c.until - cfg.blockDuration && (gs == [] || gs[|gs| - 1].at <= c.last))
  }

  function Clock(es: seq<Event>, start: int): int {
    if es == [] then start else es[|es| - 1].at
  }

  lemma PacesLater(cfg: Config, g: int, kinds: set<Kind>, known: Option<Client>, gs: seq<Grant>, clock: int, now: int)
    requires Paces(cfg, g, kinds, known, gs, clock) && clock <= now
    ensures Paces(cfg, g, kinds, known, gs, now)
  {
  }

  lemma TailSnoc(gs: seq<Grant>, x: Grant, g: int, kinds: set<Kind>)
    ensures Tail(gs + [x], g, kinds)
         == if x.kind !in kinds then 0 else if gs != [] && x.at - gs[|gs| - 1].at <= g then 1 + Tail(gs, g, kinds) else 1
    ensures forall k :: 0 <= k <= |gs| ==> (gs + [x])[..k] == gs[..k]
  {
    assert (gs + [x])[..|gs|] == gs;
  }

  lemma AskPaces(cfg: Config, g: int, kinds: set<Kind>, known: Option<Client>, gs: seq<Grant>, now: int)
    requires Sane(cfg) && 0 <= g <= MINUTE && Paces(cfg, g, kinds, known, gs, now)
    ensures
      var a := Ask(cfg, known, now);
      Paces(cfg, g, kinds, Some(a.client), gs + if a.verdict.Accepted? then [Grant(now, KindOf(known, now))] else [], now)
  {
    var a := Ask(cfg, known, now);
    if a.verdict.Accepted? {
      var x := Grant(now, KindOf(known, now));
      TailSnoc(gs, x, g, kinds);
      var more := gs + [x];
      assert more[..|more|] == more && gs[..|gs|] == gs;
    } else {
      assert gs + [] == gs;
    }
  }

  lemma {:induction false} EveryRunPaces(cfg: Config, g: int, kinds: set<Kind>, es: seq<Event>, ip: string, start: int)
    requires Sane(cfg) && 0 <= g <= MINUTE && Monotone(es)
    ensures Paces(cfg, g, kinds, Get(Run(cfg, es).clients, ip), Grants(cfg, es, ip), Clock(es, start))
  {
    if es != [] {
      var before, e := es[..|es| - 1], es[|es| - 1];
      EveryRunPaces(cfg, g, kinds, before, ip, e.at);
      var known, gs := Get(Run(cfg, before).clients, ip), Grants(cfg, before, ip);
      PacesLater(cfg, g, kinds, known, gs, Clock(before, e.at), e.at);
      assert gs + [] == gs;
      if Asks(cfg, e, ip) {
        AskPaces(cfg, g, kinds, known, gs, e.at);
      }
    }
  }

  lemma {:induction false} StretchIsATail(gs: seq<Grant>, g: int, kinds: set<Kind>, lo: nat, hi: nat)
    requires Stretch(gs, g, kinds, lo, hi)
    ensures hi - lo <= Tail(gs[..hi], g, kinds)
  {
    if hi > lo {
      StretchIsATail(gs, g, kinds, lo, hi - 1);
      assert gs[..hi][..hi - 1] == gs[..hi - 1];
      assert gs[..hi][hi - 1] == gs[hi - 1];
      assert hi > lo + 1 ==> gs[..hi][hi - 2] == gs[hi - 2];
    }
  }

  /** A stretch of ordinary grants keeps the promise; one that may start with the client's first query can be one over;
      only one that may hold grants on the instant a block ends can be a whole burst over. */
  lemma RateBound(cfg: Config, es: seq<Event>, ip: string, g: int, kinds: set<Kind>, lo: nat, hi: nat)
    requires Sane(cfg) && Monotone(es) && 0 <= g <= MINUTE
    requires Stretch(Grants(cfg, es, ip), g, kinds, lo, hi)
    ensures hi - lo <= Bound(cfg, g, kinds)
  {
    EveryRunPaces(cfg, g, kinds, es, ip, 0);
    StretchIsATail(Grants(cfg, es, ip), g, kinds, lo, hi);
  }

  /** The shipped limits: 10 per second and 100 per minute for ordinary grants, 11 and 101 with the first query,
      20 and 110 with grants on the end of a block. */
  lemma DefaultRates(es: seq<Event>, ip: string, g: int, kinds: set<Kind>, lo: nat, hi: nat)
    requires Monotone(es) && 0 <= g <= 60_000_000_000
    requires Stretch(Grants(DEFAULT_CONFIG, es, ip), g, kinds, lo, hi)
    ensures hi - lo <= if g < 1_000_000_000 then 20 else 110
    ensures OnExpiry !in kinds ==> hi - lo <= if g < 1_000_000_000 then 11 else 101
    ensures kinds <= {Ordinary} ==> hi - lo <= if g < 1_000_000_000 then 10 else 100
  {
    RateBound(DEFAULT_CONFIG, es, ip, g, kinds, lo, hi);
  }

  // ---------------------------------------------------------------- the bound is reached

  datatype Fed = Fed(client: Option<Client>, granted: seq<Grant>)

  /** One client asking at the given times, with no sweep in between. */
  function Feed(cfg: Config, known: Option<Client>, ts: seq<int>): Fed {
    if ts == [] then Fed(known, [])
    else
      var before, now := Feed(cfg, known, ts[..|ts| - 1]), ts[|ts| - 1];
      var a := Ask(cfg, before.client, now);
      Fed(Some(a.client), before.granted + if a.verdict.Accepted? then [Grant(now, KindOf(before.client, now))] else [])
  }

  lemma FeedSnoc(cfg: Config, known: Option<Client>, ts: seq<int>, t: int)
    ensures
      var before := Feed(cfg, known, ts);
      var a := Ask(cfg, before.client, t);
      Feed(cfg, known, ts + [t])
      == Fed(Some(a.client), before.granted + if a.verdict.Accepted? then [Grant(t, KindOf(before.client, t))] else [])
  {
    assert (ts + [t])[..|ts|] == ts;
  }

  lemma FeedOne(cfg: Config, known: Option<Client>, t: int)
    ensures
      var a := Ask(cfg, known, t);
      Feed(cfg, known, [t]) == Fed(Some(a.client), if a.verdict.Accepted? then [Grant(t, KindOf(known, t))] else [])
  {
    FeedSnoc(cfg, known, [], t);
    assert [] + [t] == [t];
  }

  lemma {:induction false} FeedConcat(cfg: Config, known: Option<Client>, ts: seq<int>, us: seq<int>)
    ensures
      var first := Feed(cfg, known, ts);
      var second := Feed(cfg, first.client, us);
      Feed(cfg, known, ts + us) == Fed(second.client, first.granted + second.granted)
  {
    if us == [] {
      assert ts + us == ts;
    } else {
      var last := |us| - 1;
      FeedConcat(cfg, known, ts, us[..last]);
      assert ts + us == (ts + us[..last]) + [us[last]];
      FeedSnoc(cfg, known, ts + us[..last], us[last]);
    }
  }

  function Packets(ip: string, ts: seq<int>): seq<Event> {
    seq(|ts|, i requires 0 <= i < |ts| => Packet(ip, MIN_PACKET_SIZE, ts[i], true))
  }

  lemma {:induction false} RunIsFeed(cfg: Config, ip: string, ts: seq<int>)
    requires MIN_PACKET_SIZE <= cfg.maxPacketSize
    ensures Feed(cfg, None, ts) == Fed(Get(Run(cfg, Packets(ip, ts)).clients, ip), Grants(cfg, Packets(ip, ts), ip))
  {
    if ts != [] {
      var last := |ts| - 1;
      RunIsFeed(cfg, ip, ts[..last]);
      assert Packets(ip, ts)[..last] == Packets(ip, ts[..last]);
    }
  }

  function Nth(t: int, n: nat, pace: nat): (u: int)
    ensures u >= t && (pace == 0 ==> u == t)
  {
    if n == 0 then t else Nth(t, n - 1, pace) + pace
  }

  /** n times after t, the given pace apart. */
  function Times(t: int, n: nat, pace: nat): (ts: seq<int>)
    ensures |ts| == n
  {
    seq(n, i requires 0 <= i < n => Nth(t, i + 1, pace))
  }

  function Marked(ts: seq<int>, kind: Kind): (gs: seq<Grant>)
    ensures |gs| == |ts|
  {
    seq(|ts|, i requires 0 <= i < |ts| => Grant(ts[i], kind))
  }

  lemma TimesSnoc(t: int, n: nat, pace: nat, kind: Kind)
    ensures Times(t, n + 1, pace) == Times(t, n, pace) + [Nth(t, n + 1, pace)]
    ensures Marked(Times(t, n + 1, pace), kind) == Marked(Times(t, n, pace), kind) + [Grant(Nth(t, n + 1, pace), kind)]
  {
  }

  /** Asking n times from the record c, the given pace apart, is granted each time and leaves the record after. */
  ghost predicate AllGranted(cfg: Config, c: Client, t: int, n: nat, pace: nat, kind: Kind, after: Client) {
    Feed(cfg, Some(c), Times(t, n, pace)) == Fed(Some(after), Marked(Times(t, n, pace), kind))
  }

  lemma NoneGranted(cfg: Config, c: Client, t: int, pace: nat, kind: Kind)
    ensures AllGranted(cfg, c, t, 0, pace, kind, c)
  {
    assert Times(t, 0, pace) == [];
  }

  lemma OneMoreGranted(cfg: Config, c: Client, t: int, n: nat, pace: nat, kind: Kind, between: Client, after: Client)
    requires AllGranted(cfg, c, t, n, pace, kind, between)
    requires Ask(cfg, Some(between), Nth(t, n + 1, pace)) == Answer(after, Accepted)
    requires KindOf(Some(between), Nth(t, n + 1, pace)) == kind
    ensures AllGranted(cfg, c, t, n + 1, pace, kind, after)
  {
    TimesSnoc(t, n, pace, kind);
    FeedSnoc(cfg, Some(c), Times(t, n, pace), Nth(t, n + 1, pace));
  }

  /** Queries at the end of a block are granted, up to a burst of them, and leave the client marked as blocked. */
  lemma ExpiryAnswer(cfg: Config, c: Client, n: nat)
    requires Sane(cfg) && c.blocked && n < Burst(cfg)
    requires if n == 0 then c.last == c.until - cfg.blockDuration else c.last == c.until && c.count == n
    ensures Ask(cfg, Some(c), c.until) == Answer(Client(n + 1, c.until, true, c.until), Accepted)
  {
  }

  function AfterExpiry(c: Client, n: nat): Client {
    if n == 0 then c else Client(n, c.until, true, c.until)
  }

  lemma {:induction false} ExpiryFlood(cfg: Config, c: Client, n: nat)
    requires Sane(cfg) && c.blocked && c.last == c.until - cfg.blockDuration && n <= Burst(cfg)
    ensures AllGranted(cfg, c, c.until, n, 0, OnExpiry, AfterExpiry(c, n))
  {
    if n == 0 {
      NoneGranted(cfg, c, c.until, 0, OnExpiry);
    } else {
      var between := AfterExpiry(c, n - 1);
      ExpiryFlood(cfg, c, n - 1);
      ExpiryAnswer(cfg, between, n - 1);
      OneMoreGranted(cfg, c, c.until, n - 1, 0, OnExpiry, between, AfterExpiry(c, n));
    }
  }

  /** A client that may start over: its block has just ended, or it has just been met. */
  predicate StartsOver(c: Client, pace: nat) {
    if c.blocked then c.last == c.until && pace > 0 else c.count == 0
  }

  /** A query in step with the previous one is granted while the count allows it. */
  lemma SteadyAnswer(cfg: Config, c: Client, n: nat, pace: nat)
    requires if n == 0 then StartsOver(c, pace) else !c.blocked && c.count == n
    requires pace <= MINUTE && n < Promise(cfg, pace)
    ensures Ask(cfg, Some(c), c.last + pace) == Answer(Client(n + 1, c.last + pace, false, c.until), Accepted)
    ensures KindOf(Some(c), c.last + pace) == Ordinary
  {
  }

  function AfterAsking(c: Client, n: nat, pace: nat): Client {
    if n == 0 then c else Client(n, Nth(c.last, n, pace), false, c.until)
  }

  lemma {:induction false} SteadyAsking(cfg: Config, c: Client, n: nat, pace: nat)
    requires StartsOver(c, pace) && pace <= MINUTE && n <= Promise(cfg, pace)
    ensures AllGranted(cfg, c, c.last, n, pace, Ordinary, AfterAsking(c, n, pace))
  {
    if n == 0 {
      NoneGranted(cfg, c, c.last, pace, Ordinary);
    } else {
      var between := AfterAsking(c, n - 1, pace);
      SteadyAsking(cfg, c, n - 1, pace);
      SteadyAnswer(cfg, between, n - 1, pace);
      OneMoreGranted(cfg, c, c.last, n - 1, pace, Ordinary, between, AfterAsking(c, n, pace));
    }
  }

  lemma FeedThen(cfg: Config, ts: seq<int>, us: seq<int>, first: Fed, second: Fed)
    requires Feed(cfg, None, ts) == first && Feed(cfg, first.client, us) == second
    ensures Feed(cfg, None, ts + us) == Fed(second.client, first.granted + second.granted)
  {
    FeedConcat(cfg, None, ts, us);
  }

  /** A new client that asks once and then, in step, as often as promised. */
  function NewcomerTimes(cfg: Config, g: int): seq<int> {
    [0] + Times(0, Promise(cfg, g), if g < SECOND then 0 else SECOND)
  }

  function NewcomerGrants(n: nat, pace: nat): seq<Grant> {
    [Grant(0, FirstContact)] + Marked(Times(0, n, pace), Ordinary)
  }

  lemma NewcomerGranted(cfg: Config, n: nat, pace: nat)
    requires pace <= MINUTE && n <= Promise(cfg, pace)
    ensures Feed(cfg, None, [0] + Times(0, n, pace))
         == Fed(Some(AfterAsking(Client(0, 0, false, 0), n, pace)), NewcomerGrants(n, pace))
  {
    var met := Client(0, 0, false, 0);
    FeedOne(cfg, None, 0);
    SteadyAsking(cfg, met, n, pace);
    FeedThen(cfg, [0], Times(0, n, pace), Fed(Some(met), [Grant(0, FirstContact)]),
             Fed(Some(AfterAsking(met, n, pace)), Marked(Times(0, n, pace), Ordinary)));
  }

  /** A new client that floods until it is blocked. */
  function FloodTimes(cfg: Config): seq<int> {
    [0] + Times(0, Burst(cfg), 0) + [0]
  }

  lemma FloodEndsInBlock(cfg: Config)
    ensures Feed(cfg, None, FloodTimes(cfg))
         == Fed(Some(Client(Burst(cfg) + 1, 0, true, cfg.blockDuration)), NewcomerGrants(Burst(cfg), 0))
  {
    var s := Burst(cfg);
    var granted := NewcomerGrants(s, 0);
    NewcomerGranted(cfg, s, 0);
    FeedSnoc(cfg, None, [0] + Times(0, s, 0), 0);
    assert Ask(cfg, Some(Client(s, 0, false, 0)), 0) == Answer(Client(s + 1, 0, true, cfg.blockDuration), LimitHit);
    assert granted + [] == granted;
  }

  /** The gap kept after the block has ended. */
  function Pace(g: int): nat {
    if g < SECOND then 1 else SECOND
  }

  /** Floods until blocked, waits the block out to the nanosecond, floods again, then keeps asking in step. */
  function PunctualTimes(cfg: Config, g: int): seq<int> {
    FloodTimes(cfg) + Times(cfg.blockDuration, Burst(cfg), 0) + Times(cfg.blockDuration, Promise(cfg, g), Pace(g))
  }

  function PunctualGrants(cfg: Config, g: int): seq<Grant> {
    NewcomerGrants(Burst(cfg), 0)
    + Marked(Times(cfg.blockDuration, Burst(cfg), 0), OnExpiry)
    + Marked(Times(cfg.blockDuration, Promise(cfg, g), Pace(g)), Ordinary)
  }

  lemma PunctualGranted(cfg: Config, g: int)
    requires Sane(cfg) && Burst(cfg) > 0
    ensures Feed(cfg, None, PunctualTimes(cfg, g)).granted == PunctualGrants(cfg, g)
  {
    var s, t, n := Burst(cfg), cfg.blockDuration, Promise(cfg, g);
    var once, twice, third := FloodTimes(cfg), Times(t, s, 0), Times(t, n, Pace(g));
    var blocked, tied := Client(s + 1, 0, true, t), Client(s, t, true, t);
    var flood := NewcomerGrants(s, 0);
    FloodEndsInBlock(cfg);
    ExpiryFlood(cfg, blocked, s);
    FeedThen(cfg, once, twice, Fed(Some(blocked), flood), Fed(Some(tied), Marked(twice, OnExpiry)));
    SteadyAsking(cfg, tied, n, Pace(g));
    FeedThen(cfg, once + twice, third, Fed(Some(tied), flood + Marked(twice, OnExpiry)),
             Fed(Some(AfterAsking(tied, n, Pace(g))), Marked(third, Ordinary)));
  }

  predicate Climbs(ts: seq<int>) {
    forall i, j :: 0 <= i < j < |ts| ==> ts[i] <= ts[j]
  }

  lemma {:induction false} NthClimbs(t: int, i: nat, j: nat, pace: nat)
    requires i <= j
    ensures Nth(t, i, pace) <= Nth(t, j, pace)
  {
    if i < j {
      NthClimbs(t, i, j - 1, pace);
    }
  }

  lemma TimesClimb(t: int, n: nat, pace: nat)
    ensures Climbs(Times(t, n, pace))
    ensures forall i :: 0 <= i < n ==> Times(t, n, pace)[i] >= t
    ensures forall i :: 0 < i < n ==> Times(t, n, pace)[i] - Times(t, n, pace)[i - 1] == pace
    ensures n > 0 ==> Times(t, n, pace)[0] == t + pace
  {
    forall i, j | 0 <= i < j < n ensures Times(t, n, pace)[i] <= Times(t, n, pace)[j] {
      NthClimbs(t, i + 1, j + 1, pace);
    }
    assert Nth(t, 1, pace) == Nth(t, 0, pace) + pace;
  }

  lemma PunctualTimesClimb(cfg: Config, g: int)
    requires cfg.blockDuration >= 0
    ensures Climbs(PunctualTimes(cfg, g))
  {
    var s, t := Burst(cfg), cfg.blockDuration;
    var first, second, third := FloodTimes(cfg), Times(t, s, 0), Times(t, Promise(cfg, g), Pace(g));
    TimesClimb(t, |third|, Pace(g));
    assert forall i :: 0 <= i < |first| ==> first[i] == 0;
    assert forall i :: 0 <= i < |second| ==> second[i] == t;
  }

  /** Asking at the times ts, a client is granted as long a stretch as the bound allows, starting at grant lo. */
  ghost predicate Reaches(cfg: Config, ip: string, g: int, kinds: set<Kind>, ts: seq<int>, lo: nat) {
    var es := Packets(ip, ts);
    var gs := Grants(cfg, es, ip);
    Monotone(es) && Stretch(gs, g, kinds, lo, |gs|) && |gs| - lo == Bound(cfg, g, kinds)
  }

  lemma GrantedReaches(cfg: Config, ip: string, g: int, kinds: set<Kind>, ts: seq<int>, lo: nat, gs: seq<Grant>)
    requires MIN_PACKET_SIZE <= cfg.maxPacketSize && Climbs(ts) && gs == Feed(cfg, None, ts).granted
    requires Stretch(gs, g, kinds, lo, |gs|) && |gs| - lo == Bound(cfg, g, kinds)
    ensures Reaches(cfg, ip, g, kinds, ts, lo)
  {
    RunIsFeed(cfg, ip, ts);
  }

  lemma PunctualStretch(cfg: Config, g: int, kinds: set<Kind>)
    requires g > 0 && Ordinary in kinds && OnExpiry in kinds
    ensures Stretch(PunctualGrants(cfg, g), g, kinds, 1 + Burst(cfg), |PunctualGrants(cfg, g)|)
  {
    TimesClimb(cfg.blockDuration, Promise(cfg, g), Pace(g));
    TimesClimb(cfg.blockDuration, Burst(cfg), 0);
  }

  lemma PunctualReaches(cfg: Config, ip: string, g: int, kinds: set<Kind>)
    requires Sane(cfg) && MIN_PACKET_SIZE <= cfg.maxPacketSize
    requires g > 0 && Burst(cfg) > 0 && Ordinary in kinds && OnExpiry in kinds
    ensures Reaches(cfg, ip, g, kinds, PunctualTimes(cfg, g), 1 + Burst(cfg))
  {
    PunctualGranted(cfg, g);
    PunctualTimesClimb(cfg, g);
    PunctualStretch(cfg, g, kinds);
    GrantedReaches(cfg, ip, g, kinds, PunctualTimes(cfg, g), 1 + Burst(cfg), PunctualGrants(cfg, g));
  }

  lemma NewcomerStretch(n: nat, pace: nat, g: int, kinds: set<Kind>, lo: nat)
    requires pace <= g && Ordinary in kinds && lo == if FirstContact in kinds then 0 else 1
    ensures Stretch(NewcomerGrants(n, pace), g, kinds, lo, 1 + n)
  {
    TimesClimb(0, n, pace);
  }

  lemma NewcomerTimesClimb(n: nat, pace: nat)
    ensures Climbs([0] + Times(0, n, pace))
  {
    TimesClimb(0, n, pace);
  }

  lemma NewcomerReaches(cfg: Config, ip: string, g: int, kinds: set<Kind>)
    requires MIN_PACKET_SIZE <= cfg.maxPacketSize && g >= 0 && Ordinary in kinds
    requires !(OnExpiry in kinds && g > 0 && Burst(cfg) > 0)
    ensures Reaches(cfg, ip, g, kinds, NewcomerTimes(cfg, g), if FirstContact in kinds then 0 else 1)
  {
    var n, pace, lo := Promise(cfg, g), if g < SECOND then 0 else SECOND, if FirstContact in kinds then 0 else 1;
    NewcomerGranted(cfg, n, pace);
    NewcomerTimesClimb(n, pace);
    NewcomerStretch(n, pace, g, kinds, lo);
    GrantedReaches(cfg, ip, g, kinds, NewcomerTimes(cfg, g), lo, NewcomerGrants(n, pace));
  }

  /** Which client is the greediest under the given kinds of grants, and where its longest stretch starts. */
  function Greediest(cfg: Config, g: int, kinds: set<Kind>): (seq<int>, nat) {
    if OnExpiry in kinds && g > 0 && Burst(cfg) > 0 then (PunctualTimes(cfg, g), 1 + Burst(cfg))
    else (NewcomerTimes(cfg, g), if FirstContact in kinds then 0 else 1)
  }

  /** The bound is exact for every choice of kinds. With ordinary grants alone it is the promise, so the promise is kept
      by exactly the stretches that hold no first query and none on the end of a block, and it cannot be lowered. */
  lemma RateBoundIsReached(cfg: Config, ip: string, g: int, kinds: set<Kind>)
    requires Sane(cfg) && MIN_PACKET_SIZE <= cfg.maxPacketSize && 0 <= g <= MINUTE && Ordinary in kinds
    ensures Reaches(cfg, ip, g, kinds, Greediest(cfg, g, kinds).0, Greediest(cfg, g, kinds).1)
  {
    if OnExpiry in kinds && g > 0 && Burst(cfg) > 0 {
      PunctualReaches(cfg, ip, g, kinds);
    } else {
      NewcomerReaches(cfg, ip, g, kinds);
    }
  }

  // ---------------------------------------------------------------- verdicts, from the history alone

  /** Times at which queries of ip hit a limit. */
  function Hits(cfg: Config, es: seq<Event>, ip: string): seq<int> {
    if es == [] then []
    else
      var before, e := es[..|es| - 1], es[|es| - 1];
      Hits(cfg, before, ip)
      + if Asks(cfg, e, ip) && Ask(cfg, Get(Run(cfg, before).clients, ip), e.at).verdict.LimitHit? then [e.at] else []
  }

  /** How many grants at the end follow one another within a minute. The query that met the client is not one of them,
      and the end of a block starts over. */
  function Streak(gs: seq<Grant>): nat {
    var last := |gs| - 1;
    if gs == [] || gs[last].kind.FirstContact? then 0
    else if last == 0 || gs[last].at - gs[last - 1].at > MINUTE then 1
    else if gs[last].kind.Ordinary? && gs[last - 1].kind.OnExpiry? then 1
    else 1 + Streak(gs[..last])
  }

  /** One more query of that kind would be too many: for a minute's streak, or for a second's if it comes that soon. */
  predicate Exceeds(cfg: Config, gs: seq<Grant>, x: Grant) {
    var n := Streak(gs + [x]);
    n > cfg.maxPerMinute || (n > cfg.maxPerSecond && gs != [] && x.at - gs[|gs| - 1].at < SECOND)
  }

  /** The last limit hit at the end of hits still blocks at the given time. */
  predicate Blocks(cfg: Config, hits: seq<int>, now: int) {
    hits != [] && now < hits[|hits| - 1] + cfg.blockDuration
  }

  /** How a record reflects the grants and hits of its client. */
  ghost predicate Reflects(cfg: Config, known: Option<Client>, gs: seq<Grant>, hits: seq<int>, clock: int) {
    match known
    case None =>
      && (gs == [] || clock - gs[|gs| - 1].at > MINUTE)
      && (hits == [] || clock > hits[|hits| - 1] + cfg.blockDuration)
    case Some(c) =>
      && c.last <= clock
      && (if !c.blocked then
            && gs != [] && gs[|gs| - 1].at == c.last && !gs[|gs| - 1].kind.OnExpiry? && c.count == Streak(gs)
            && (hits == [] || clock > hits[|hits| - 1] + cfg.blockDuration)
          else
            && hits != [] && c.until == hits[|hits| - 1] + cfg.blockDuration
            && (if c.last == c.until then
                  gs != [] && gs[|gs| - 1] == Grant(c.last, OnExpiry) && c.count == Streak(gs)
                else
                  c.last == hits[|hits| - 1] && (gs == [] || gs[|gs| - 1].at <= c.last)))
  }

  lemma StreakSnoc(gs: seq<Grant>, x: Grant)
    ensures Streak(gs + [x])
         == if x.kind.FirstContact? then 0
            else if gs == [] || x.at - gs[|gs| - 1].at > MINUTE then 1
            else if x.kind.Ordinary? && gs[|gs| - 1].kind.OnExpiry? then 1
            else 1 + Streak(gs)
  {
    assert (gs + [x])[..|gs|] == gs;
  }

  /** The verdict on a query, given a record that reflects the history. */
  lemma VerdictFromHistory(cfg: Config, known: Option<Client>, gs: seq<Grant>, hits: seq<int>, now: int)
    requires Sane(cfg) && Reflects(cfg, known, gs, hits, now)
    ensures
      var v := Ask(cfg, known, now).verdict;
      && (v.StillBlocked? <==> Blocks(cfg, hits, now))
      && (v.LimitHit? <==> !Blocks(cfg, hits, now) && Exceeds(cfg, gs, Grant(now, KindOf(known, now))))
  {
    StreakSnoc(gs, Grant(now, KindOf(known, now)));
    if known.Some? && !Blocks(cfg, hits, now) {
      CountIsStreak(cfg, known.value, gs, hits, now);
    }
  }

  /** The count that a query is judged by is its streak, and the gap that since the last grant. */
  lemma CountIsStreak(cfg: Config, c: Client, gs: seq<Grant>, hits: seq<int>, now: int)
    requires Sane(cfg) && Reflects(cfg, Some(c), gs, hits, now) && !(c.blocked && now < c.until)
    ensures AskUnblocked(cfg, c, now).client.count == Streak(gs + [Grant(now, KindOf(Some(c), now))])
    ensures now - c.last < SECOND <==> gs != [] && now - gs[|gs| - 1].at < SECOND
  {
    StreakSnoc(gs, Grant(now, KindOf(Some(c), now)));
    if !c.blocked {
      assert c.count == Streak(gs);
    } else if c.last == c.until {
      assert gs[|gs| - 1] == Grant(c.last, OnExpiry);
    } else {
      assert now - c.last >= cfg.blockDuration;
    }
  }

  lemma AskReflects(cfg: Config, known: Option<Client>, gs: seq<Grant>, hits: seq<int>, now: int)
    requires Sane(cfg) && Reflects(cfg, known, gs, hits, now)
    ensures
      var a := Ask(cfg, known, now);
      Reflects(cfg, Some(a.client), gs + if a.verdict.Accepted? then [Grant(now, KindOf(known, now))] else [],
               hits + if a.verdict.LimitHit? then [now] else [], now)
  {
    StreakSnoc(gs, Grant(now, KindOf(known, now)));
    assert gs + [] == gs && hits + [] == hits;
  }

  lemma ReflectsLater(cfg: Config, known: Option<Client>, gs: seq<Grant>, hits: seq<int>, clock: int, now: int)
    requires Reflects(cfg, known, gs, hits, clock) && clock <= now
    ensures Reflects(cfg, known, gs, hits, now)
    ensures known.Some? && Stale(known.value, now) ==> Reflects(cfg, None, gs, hits, now)
  {
  }

  /** What an event does to the record of ip. */
  lemma StepOnClient(cfg: Config, l: Limiter, e: Event, ip: string)
    ensures
      var known := Get(l.clients, ip);
      Get(Step(cfg, l, e).clients, ip)
      == if Asks(cfg, e, ip) then Some(Ask(cfg, known, e.at).client)
         else if e.Sweep? && known.Some? && Stale(known.value, e.at) then None
         else known
  {
  }

  lemma {:induction false} EveryRunReflects(cfg: Config, es: seq<Event>, ip: string, start: int)
    requires Sane(cfg) && Monotone(es)
    ensures Reflects(cfg, Get(Run(cfg, es).clients, ip), Grants(cfg, es, ip), Hits(cfg, es, ip), Clock(es, start))
  {
    if es != [] {
      var before, e := es[..|es| - 1], es[|es| - 1];
      EveryRunReflects(cfg, before, ip, e.at);
      StepReflects(cfg, before, e, ip);
      assert es == before + [e];
    }
  }

  lemma StepReflects(cfg: Config, before: seq<Event>, e: Event, ip: string)
    requires Sane(cfg) && Clock(before, e.at) <= e.at
    requires Reflects(cfg, Get(Run(cfg, before).clients, ip), Grants(cfg, before, ip), Hits(cfg, before, ip), Clock(before, e.at))
    ensures
      var es := before + [e];
      Reflects(cfg, Get(Run(cfg, es).clients, ip), Grants(cfg, es, ip), Hits(cfg, es, ip), e.at)
  {
    var es := before + [e];
    assert es[..|es| - 1] == before && es[|es| - 1] == e;
    var known, gs, hits := Get(Run(cfg, before).clients, ip), Grants(cfg, before, ip), Hits(cfg, before, ip);
    ReflectsLater(cfg, known, gs, hits, Clock(before, e.at), e.at);
    StepOnClient(cfg, Run(cfg, before), e, ip);
    if Asks(cfg, e, ip) {
      AskReflects(cfg, known, gs, hits, e.at);
    } else {
      assert gs + [] == gs && hits + [] == hits;
    }
  }

  /** After any run on a monotone clock, a query is refused as blocked exactly within the block of the client's last
      limit hit, and hits a limit exactly when its streak of granted queries is exhausted. */
  lemma VerdictExactly(cfg: Config, es: seq<Event>, ip: string, now: int)
    requires Sane(cfg) && Monotone(es) && Clock(es, now) <= now
    ensures
      var known, gs, hits := Get(Run(cfg, es).clients, ip), Grants(cfg, es, ip), Hits(cfg, es, ip);
      var v := Ask(cfg, known, now).verdict;
      && (v.StillBlocked? <==> Blocks(cfg, hits, now))
      && (v.LimitHit? <==> !Blocks(cfg, hits, now) && Exceeds(cfg, gs, Grant(now, KindOf(known, now))))
  {
    EveryRunReflects(cfg, es, ip, now);
    var known, gs, hits := Get(Run(cfg, es).clients, ip), Grants(cfg, es, ip), Hits(cfg, es, ip);
    ReflectsLater(cfg, known, gs, hits, Clock(es, now), now);
    VerdictFromHistory(cfg, known, gs, hits, now);
  }

  /** The shipped block: from a limit hit on, exactly the queries within five minutes are refused as blocked, and exactly
      packets of over 1500 bytes are too large. */
  lemma DefaultBlock(es: seq<Event>, ip: string, now: int, p: Event)
    requires Monotone(es) && Clock(es, now) <= now && Hits(DEFAULT_CONFIG, es, ip) != [] && p.Packet?
    ensures
      var hits := Hits(DEFAULT_CONFIG, es, ip);
      Ask(DEFAULT_CONFIG, Get(Run(DEFAULT_CONFIG, es).clients, ip), now).verdict.StillBlocked?
      <==> now - hits[|hits| - 1] < 300_000_000_000
    ensures FateOf(DEFAULT_CONFIG, Run(DEFAULT_CONFIG, es), p).TooLarge? <==> p.size > 1500
  {
    VerdictExactly(DEFAULT_CONFIG, es, ip, now);
  }

  /** A minute's limit is no limit per minute: a client that asks in step, however far below the rate, is blocked after
      as many queries as one that asks with gaps of a second, because any gap of up to a minute goes on counting. */
  lemma SteadyClientIsBlocked(cfg: Config, ip: string, pace: nat)
    requires MIN_PACKET_SIZE <= cfg.maxPacketSize && pace <= MINUTE
    ensures
      var n := Promise(cfg, pace);
      var es := Packets(ip, [0] + Times(0, n, pace));
      && |Grants(cfg, es, ip)| == |es| == n + 1
      && Ask(cfg, Get(Run(cfg, es).clients, ip), Nth(0, n + 1, pace)).verdict.LimitHit?
  {
    var n := Promise(cfg, pace);
    RunIsFeed(cfg, ip, [0] + Times(0, n, pace));
    NewcomerGranted(cfg, n, pace);
  }

  /** In the shipped configuration: one query every 59 seconds, and the 102nd is refused. */
  lemma SlowClientIsBlocked(ip: string)
    ensures
      var es := Packets(ip, [0] + Times(0, 100, 59 * SECOND));
      && |Grants(DEFAULT_CONFIG, es, ip)| == |es| == 101
      && Ask(DEFAULT_CONFIG, Get(Run(DEFAULT_CONFIG, es).clients, ip), Nth(0, 101, 59 * SECOND)).verdict.LimitHit?
  {
    SteadyClientIsBlocked(DEFAULT_CONFIG, ip, 59 * SECOND);
  }

  // ---------------------------------------------------------------- the limiter itself

  class Manager {
    const cfg: Config
    var clients: map<string, Client>
    var metrics: Metrics

    ghost function Model(): Limiter
      reads this
    {
      Limiter(clients, metrics)
    }

    constructor (cfg: Config)
      ensures this.cfg == cfg && Model() == Run(cfg, [])
    {
      this.cfg := cfg;
      clients := map[];
      metrics := Metrics(0, 0, 0, 0, 0);
    }

    method IsRateLimited(ip: string, now: int) returns (limited: bool)
      modifies this
      ensures Model() == Query(cfg, old(Model()), ip, now)
      ensures limited <==> !Ask(cfg, Get(old(clients), ip), now).verdict.Accepted?
    {
      if ip !in clients {
        clients := clients[ip := Client(0, now, false, 0)];
        metrics := metrics.(total := metrics.total + 1);
        return false;
      }
      var c := clients[ip];
      if c.blocked && now < c.until {
        clients := clients[ip := c];
        metrics := metrics.(blocked := metrics.blocked + 1);
        metrics := metrics.(total := metrics.total + 1);
        return true;
      }
      if c.blocked && now > c.until {
        c := c.(blocked := false, count := 0);
      }
      var sinceLast := now - c.last;
      if sinceLast > MINUTE {
        c := c.(count := 0);
      }
      c := c.(count := c.count + 1, last := now);
      metrics := metrics.(total := metrics.total + 1);
      limited := (sinceLast < SECOND && c.count > cfg.maxPerSecond) || c.count > cfg.maxPerMinute;
      if limited {
        c := c.(blocked := true, until := now + cfg.blockDuration);
        metrics := metrics.(limitHits := metrics.limitHits + 1);
      }
      clients := clients[ip := c];
    }

    method ValidatePacket(ip: string, size: nat, now: int) returns (ok: bool)
      modifies this
      ensures Model() == Validate(cfg, old(Model()), ip, size, now)
      ensures forall parses :: ok <==> Passes(cfg, old(Model()), Packet(ip, size, now, parses))
    {
      if size > cfg.maxPacketSize {
        metrics := metrics.(total := metrics.total + 1, large := metrics.large + 1);
        return false;
      }
      if size < MIN_PACKET_SIZE {
        metrics := metrics.(total := metrics.total + 1, malformed := metrics.malformed + 1);
        return false;
      }
      var limited := IsRateLimited(ip, now);
      ok := !limited;
    }

    /** The way of a packet up to its parsed message. */
    method HandleQuery(ip: string, size: nat, now: int, parses: bool) returns (handled: bool)
      modifies this
      ensures Model() == Step(cfg, old(Model()), Packet(ip, size, now, parses))
      ensures handled <==> Passes(cfg, old(Model()), Packet(ip, size, now, parses)) && parses
    {
      var ok := ValidatePacket(ip, size, now);
      if !ok {
        return false;
      }
      if !parses {
        metrics := metrics.(malformed := metrics.malformed + 1);
        return false;
      }
      return true;
    }

    method PerformSecurityCleanup(now: int)
      modifies this
      ensures Model() == Step(cfg, old(Model()), Sweep(now))
    {
      var rest := clients.Keys;
      while exists ip :: ip in rest
        invariant rest <= old(clients).Keys && metrics == old(metrics)
        invariant clients == map ip | ip in old(clients) && (ip in rest || !Stale(old(clients)[ip], now)) :: old(clients)[ip]
        decreases rest
      {
        var ip :| ip in rest;
        if Stale(clients[ip], now) {
          clients := clients - {ip};
        }
        rest := rest - {ip};
      }
    }
  }
}
