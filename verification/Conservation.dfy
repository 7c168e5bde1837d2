/** No request creates or destroys gold, and no bid exceeds the gold there is. */
module Conservation {
  import opened Domain
  import opened Wallets
  import opened Auctions
  import opened Sums
  import opened States
  import opened UseCases
  import opened Invariant
  import opened Histories

  ghost function TotalOf(): WalletRow -> int {
    (w: WalletRow) => w.total
  }

  ghost function TotalGold(s: State): Gold {
    MapSum(s.wallets, TotalOf())
  }

  /** Moving gold between two different wallets keeps the sum. */
  lemma {:induction false} TransferKeepsGold(wallets: map<Id, WalletRow>, from: WalletRow, to: WalletRow, amount: Gold)
    requires from.guild != to.guild && from.guild in wallets && to.guild in wallets
    requires from.total == wallets[from.guild].total - amount && to.total == wallets[to.guild].total + amount
    ensures MapSum(wallets[from.guild := from][to.guild := to], TotalOf()) == MapSum(wallets, TotalOf())
  {
    MapSumUpdate(wallets, TotalOf(), from.guild, from);
    MapSumUpdate(wallets[from.guild := from], TotalOf(), to.guild, to);
  }

  lemma {:induction false} ClosingKeepsGold(s: State, a: AuctionRow, now: Time, s': State)
    requires LeadCovered(s, a) && Orderly(a) && SettleEffect(s, a, now, s')
    requires forall g :: g in s.wallets ==> s.wallets[g].guild == g
    ensures TotalGold(s') == TotalGold(s)
  {
    LeaderIsLast(a);
    if a.bids == [] {
      assert s'.wallets == s.wallets;
    } else {
      var winner := a.bids[|a.bids| - 1];
      var paid, earned := s'.wallets[winner.guild], s'.wallets[a.seller];
      assert s'.wallets == s.wallets[winner.guild := paid][a.seller := earned];
      TransferKeepsGold(s.wallets, paid, earned, winner.amount);
    }
  }

  lemma {:induction false} ChangeKeepsGold(cfg: Config, s: State, c: Change, s': State)
    requires Sound(s) && Effect(cfg, s, c, s')
    ensures TotalGold(s') == TotalGold(s) && s'.wallets.Keys == s.wallets.Keys
  {
    match c {
      case Bought(itemId, buyer, qty, now) =>
        var seller := s.items[itemId].seller;
        TransferKeepsGold(s.wallets, s'.wallets[buyer], s'.wallets[seller], s.items[itemId].price * qty);
      case Raised(_, _, _, _, _) => MapSumSame(s.wallets, s'.wallets, TotalOf());
      case ClosedOne(a, now) =>
        LeadsAreCovered(s, a.id);
        ClosingKeepsGold(s, a, now, s');
      case _ =>
    }
  }

  lemma {:induction false} GoldAlong(cfg: Config, h: History)
    requires Valid(cfg, h)
    ensures TotalGold(h.state) == TotalGold(First(h)) && h.state.wallets.Keys == First(h).wallets.Keys
  {
    if h.Then? {
      GoldAlong(cfg, h.before);
      ChangeKeepsGold(cfg, h.before.state, h.change, h.state);
    }
  }

  /** Over any run of accepted and refused requests the gold is the gold the guilds were seeded with,
      and every wallet stays solvent with its reservation equal to the bids it leads. */
  lemma GoldIsConserved(cfg: Config, s: State, ops: seq<Op>)
    requires Sound(s) && Legal(cfg, s, ops)
    ensures TotalGold(Exec(cfg, s, ops)) == TotalGold(s)
    ensures Exec(cfg, s, ops).wallets.Keys == s.wallets.Keys
    ensures forall g :: g in s.wallets ==>
              var w := Exec(cfg, s, ops).wallets[g];
              0 <= w.reserved <= w.total <= TotalGold(s) && w.reserved == Leads(Exec(cfg, s, ops).auctions, g)
  {
    var h := RunHistory(cfg, s, ops);
    GoldAlong(cfg, h);
    MapSumBound(h.state.wallets, TotalOf());
    forall g | g in s.wallets
      ensures h.state.wallets[g].total <= TotalGold(s)
    {
      assert TotalOf()(h.state.wallets[g]) <= TotalGold(h.state);
    }
  }

  lemma NoLessThanNothing(s: State)
    requires SolventWallets(s)
    ensures TotalGold(s) >= 0
  {
    MapSumBound(s.wallets, TotalOf());
  }

  /** Every bid ever placed is at most the gold there is. */
  ghost predicate BidsWithin(auctions: map<Id, AuctionRow>, bound: Gold)
  {
    forall k :: k in auctions ==> AmountsWithin(auctions[k].bids, bound)
  }

  ghost predicate AmountsWithin(bids: seq<Bid>, bound: Gold)
  {
    forall i :: 0 <= i < |bids| ==> bids[i].amount <= bound
  }

  lemma {:induction false} WalletWithinGold(s: State, g: Id)
    requires SolventWallets(s) && g in s.wallets
    ensures s.wallets[g].total <= TotalGold(s)
  {
    MapSumBound(s.wallets, TotalOf());
    assert TotalOf()(s.wallets[g]) <= TotalGold(s);
  }

  lemma {:induction false} AcceptedBidWithinGold(s: State, k: Id, bidder: Id, amount: Gold, bidId: Id, now: Time, s': State)
    requires SolventWallets(s) && ReservedExactly(s) && OrderlyAuctions(s)
    requires BidEffect(s, k, bidder, amount, bidId, now, s')
    ensures amount <= s.wallets[bidder].total <= TotalGold(s)
  {
    WalletWithinGold(s, bidder);
    LeadsNonNegative(s, bidder);
    assert LeadOf(bidder)(s.auctions[k]) <= s.wallets[bidder].reserved;
  }

  lemma {:induction false} BidKeepsWithin(s: State, k: Id, bidder: Id, amount: Gold, bidId: Id, now: Time, s': State,
                                          bound: Gold)
    requires BidEffect(s, k, bidder, amount, bidId, now, s') && BidsWithin(s.auctions, bound) && amount <= bound
    ensures BidsWithin(s'.auctions, bound)
  {
  }

  lemma {:induction false} CancelKeepsWithin(s: State, k: Id, bidId: Id, guild: Id, s': State, bound: Gold)
    requires k in s.auctions && Orderly(s.auctions[k]) && CancelEffect(s, k, bidId, guild, s')
        && BidsWithin(s.auctions, bound)
    ensures BidsWithin(s'.auctions, bound)
  {
    CancelKeepsLeader(s.auctions[k], bidId, guild);
  }

  lemma {:induction false} ChangeKeepsBidsWithin(cfg: Config, s: State, c: Change, s': State)
    requires Sound(s) && Effect(cfg, s, c, s') && BidsWithin(s.auctions, TotalGold(s))
    ensures BidsWithin(s'.auctions, TotalGold(s))
  {
    match c {
      case Raised(k, bidder, amount, bidId, now) =>
        AcceptedBidWithinGold(s, k, bidder, amount, bidId, now, s');
        BidKeepsWithin(s, k, bidder, amount, bidId, now, s', TotalGold(s));
      case Withdrawn(k, bidId, guild) =>
        CancelKeepsWithin(s, k, bidId, guild, s', TotalGold(s));
      case _ =>
    }
  }

  lemma {:induction false} BidsWithinAlong(cfg: Config, h: History)
    requires Valid(cfg, h) && BidsWithin(First(h).auctions, TotalGold(First(h)))
    ensures BidsWithin(h.state.auctions, TotalGold(First(h)))
  {
    if h.Then? {
      BidsWithinAlong(cfg, h.before);
      GoldAlong(cfg, h.before);
      ChangeKeepsBidsWithin(cfg, h.before.state, h.change, h.state);
    }
  }
}
