/** Every auction closes: compounding minimum bids against a fixed amount of gold bound the number of bids, and so
    bound how far the anti-snipe rule can push the closing time. */
module Closing {
  import opened Domain
  import opened Auctions
  import opened States
  import opened UseCases
  import opened Invariant
  import opened Histories
  import opened Conservation

  function Pow(base: nat, n: nat): nat {
    if n == 0 then 1 else base * Pow(base, n - 1)
  }

  lemma {:induction false} PowPositive(base: nat, n: nat)
    requires base > 0
    ensures Pow(base, n) > 0
  {
    if n > 0 {
      PowPositive(base, n - 1);
    }
  }

  /** Bernoulli's inequality for a growth of five percent. */
  lemma {:induction false} GrowthIsAtLeastLinear(n: nat)
    ensures 20 * Pow(21, n) >= Pow(20, n) * (20 + n)
  {
    if n > 0 {
      var p, q := Pow(21, n - 1), Pow(20, n - 1);
      GrowthIsAtLeastLinear(n - 1);
      GrowthStep(p, q, n);
    }
  }

  lemma GrowthStep(p: nat, q: nat, n: nat)
    requires n > 0 && 20 * p >= q * (19 + n)
    ensures 20 * (21 * p) >= (20 * q) * (20 + n)
  {
    MulMonotone(q, 20 * (20 + n), 21 * (19 + n));
    assert q * (21 * (19 + n)) == 21 * (q * (19 + n));
    assert q * (20 * (20 + n)) == (20 * q) * (20 + n);
  }

  lemma MulMonotone(q: int, x: int, y: int)
    requires q >= 0 && x <= y
    ensures q * x <= q * y
  {
  }

  lemma MulCancel(q: int, x: int, y: int)
    requires q > 0 && q * x <= q * y
    ensures x <= y
  {
    if y < x {
      MulMonotone(q, y + 1, x);
    }
  }

  /** Each bid has compounded one increment of five percent for every bid before it. */
  ghost predicate Compounded(startPrice: Gold, bids: seq<Bid>, i: nat)
    requires i < |bids|
  {
    Pow(20, i) * bids[i].amount >= Pow(21, i) * startPrice
  }

  lemma {:induction false} BidsCompound(a: AuctionRow, i: nat)
    requires Orderly(a) && i < |a.bids|
    ensures Compounded(a.startPrice, a.bids, i)
  {
    if i > 0 {
      var low, high := a.bids[i - 1].amount, a.bids[i].amount;
      BidsCompound(a, i - 1);
      IncrementIsCeiling(low);
      CompoundStep(Pow(20, i - 1), Pow(21, i - 1), a.startPrice, low, high);
    }
  }

  lemma CompoundStep(q: nat, p: nat, start: int, low: int, high: int)
    requires q * low >= p * start && 20 * high >= 21 * low
    ensures (20 * q) * high >= (21 * p) * start
  {
    MulMonotone(q, 21 * low, 20 * high);
    assert (20 * q) * high == q * (20 * high);
    assert q * (21 * low) == 21 * (q * low);
  }

  lemma BoundFromGrowth(q: int, p: int, m: int, start: int, amount: int, gold: int)
    requires q > 0 && start >= 0 && amount <= gold
    requires q * amount >= p * start && 20 * p >= q * m
    ensures start * m <= 20 * gold
  {
    MulMonotone(start, q * m, 20 * p);
    MulMonotone(q, amount, gold);
    assert q * (start * m) == start * (q * m);
    assert start * (20 * p) == 20 * (p * start);
    assert q * (20 * gold) == 20 * (q * gold);
    MulCancel(q, start * m, 20 * gold);
  }

  /** With every bid within `gold`, the number of bids is bounded. */
  lemma {:induction false} BidsAreBounded(a: AuctionRow, gold: Gold)
    requires Orderly(a) && AmountsWithin(a.bids, gold) && a.bids != []
    ensures a.startPrice * (|a.bids| + 19) <= 20 * gold
  {
    var i := |a.bids| - 1;
    BidsCompound(a, i);
    GrowthIsAtLeastLinear(i);
    PowPositive(20, i);
    BoundFromGrowth(Pow(20, i), Pow(21, i), 20 + i, a.startPrice, a.bids[i].amount, gold);
  }

  function Max(x: int, y: int): int {
    if x < y then y else x
  }

  /** An auction ends no earlier than its window and no later than one extension per bid after it. */
  ghost predicate Timely(cfg: Config, a: AuctionRow)
  {
    && a.extension == cfg.extension
    && a.createdAt + cfg.window <= a.endsAt <= a.createdAt + cfg.window + |a.bids| * Max(cfg.extension, 0)
  }

  ghost predicate AllTimely(cfg: Config, s: State)
  {
    forall k :: k in s.auctions ==> Timely(cfg, s.auctions[k])
  }

  lemma {:induction false} BidKeepsTimely(cfg: Config, a: AuctionRow, bidId: Id, guild: Id, amount: Gold, now: Time)
    requires Timely(cfg, a) && a.PlaceBid(bidId, guild, amount, now).Ok?
    ensures Timely(cfg, a.PlaceBid(bidId, guild, amount, now).value)
  {
    var a' := a.PlaceBid(bidId, guild, amount, now).value;
    EndAfterBidBounds(a, bidId, guild, amount, now);
    assert (|a.bids| + 1) * Max(cfg.extension, 0) == |a.bids| * Max(cfg.extension, 0) + Max(cfg.extension, 0);
  }

  lemma {:induction false} ChangeKeepsTimely(cfg: Config, s: State, c: Change, s': State)
    requires AllTimely(cfg, s) && Effect(cfg, s, c, s')
    ensures AllTimely(cfg, s')
  {
    match c {
      case Raised(k, bidder, amount, bidId, now) => BidKeepsTimely(cfg, s.auctions[k], bidId, bidder, amount, now);
      case _ =>
    }
  }

  lemma {:induction false} TimelyAlong(cfg: Config, h: History)
    requires Valid(cfg, h) && AllTimely(cfg, First(h))
    ensures AllTimely(cfg, h.state)
  {
    if h.Then? {
      TimelyAlong(cfg, h.before);
      ChangeKeepsTimely(cfg, h.before.state, h.change, h.state);
    }
  }

  /** No bids but these fit, and the closing time is within reach. */
  ghost predicate ClosesInTime(cfg: Config, a: AuctionRow, gold: Gold)
  {
    && (forall i :: 0 <= i < |a.bids| ==> Compounded(a.startPrice, a.bids, i))
    && (a.bids != [] ==> a.startPrice * (|a.bids| + 19) <= 20 * gold)
    && a.endsAt <= a.createdAt + cfg.window + |a.bids| * Max(cfg.extension, 0)
    && forall t :: t >= a.createdAt + cfg.window + 20 * gold * Max(cfg.extension, 0) && a.status.Active? ==> a.Due(t)
  }

  lemma {:induction false} TimelyAuctionCloses(cfg: Config, a: AuctionRow, gold: Gold)
    requires Orderly(a) && Timely(cfg, a) && AmountsWithin(a.bids, gold) && gold >= 0
    ensures ClosesInTime(cfg, a, gold)
  {
    forall i | 0 <= i < |a.bids| ensures Compounded(a.startPrice, a.bids, i) {
      BidsCompound(a, i);
    }
    var n, e := |a.bids|, Max(cfg.extension, 0);
    if n > 0 {
      BidsAreBounded(a, gold);
      MulMonotone(n + 19, 1, a.startPrice);
    }
    MulMonotone(e, n, 20 * gold);
  }

  ghost predicate AllClose(cfg: Config, t: State, gold: Gold)
  {
    forall k :: k in t.auctions ==> ClosesInTime(cfg, t.auctions[k], gold)
  }

  lemma {:induction false} HistoryCloses(cfg: Config, h: History)
    requires Valid(cfg, h) && Initial(First(h))
    ensures AllClose(cfg, h.state, TotalGold(First(h)))
  {
    TimelyAlong(cfg, h);
    BidsWithinAlong(cfg, h);
    InitialIsSound(First(h));
    NoLessThanNothing(First(h));
    forall k | k in h.state.auctions ensures ClosesInTime(cfg, h.state.auctions[k], TotalGold(First(h))) {
      TimelyAuctionCloses(cfg, h.state.auctions[k], TotalGold(First(h)));
    }
  }

  /** From funded wallets, whatever the guilds do: the i-th bid on an auction is at least the start price compounded
      i times; the number of bids is bounded by the gold there is; each bid adds at most one extension; and so there
      is a time, known when the auction opens, after which the auction is due. */
  lemma {:induction false} EveryAuctionCloses(cfg: Config, s: State, ops: seq<Op>, k: Id)
    requires Initial(s) && Legal(cfg, s, ops) && k in Exec(cfg, s, ops).auctions
    ensures ClosesInTime(cfg, Exec(cfg, s, ops).auctions[k], TotalGold(s))
  {
    InitialIsSound(s);
    var h := RunHistory(cfg, s, ops);
    HistoryCloses(cfg, h);
  }
}
