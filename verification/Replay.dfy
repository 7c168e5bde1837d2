/** Replaying the ledger (internal/domain/ledger.go): what it reproduces exactly, and what it misses. */
module Replay {
  import opened Domain
  import opened Auctions
  import opened Sums
  import opened States
  import opened UseCases
  import opened Invariant
  import opened Histories

  /** What an entry does to a guild's total. */
  ghost function TotalDelta(g: Id): Entry -> int {
    (e: Entry) =>
      if e.guild != g then 0
      else match e.kind
           case LedgerCredit => e.amount
           case LedgerDebit => -e.amount
           case LedgerSettle => -e.amount
           case _ => 0
  }

  /** What an entry does to a guild's reservation. */
  ghost function ReservedDelta(g: Id): Entry -> int {
    (e: Entry) =>
      if e.guild != g then 0
      else match e.kind
           case LedgerReserve => e.amount
           case LedgerRelease => -e.amount
           case LedgerSettle => -e.amount
           case _ => 0
  }

  /** The amounts that a guild outbid itself, on one list of bids. */
  ghost function OwnRaises(bids: seq<Bid>, g: Id): Gold {
    if |bids| < 2 then 0
    else
      var n := |bids|;
      OwnRaises(bids[..n - 1], g) + if bids[n - 2].guild == g && bids[n - 1].guild == g then bids[n - 2].amount else 0
  }

  ghost function OwnRaisesOf(g: Id): AuctionRow -> int {
    (a: AuctionRow) => OwnRaises(a.bids, g)
  }

  /** The amounts that a guild outbid itself, over all auctions, open and closed. */
  ghost function AllOwnRaises(auctions: map<Id, AuctionRow>, g: Id): Gold {
    MapSum(auctions, OwnRaisesOf(g))
  }

  ghost predicate RaisesItself(bids: seq<Bid>, g: Id) {
    exists i :: 0 <= i < |bids| - 1 && OwnRaiseAt(bids, g, i)
  }

  predicate OwnRaiseAt(bids: seq<Bid>, g: Id, i: nat)
    requires i + 1 < |bids|
  {
    bids[i].guild == g && bids[i + 1].guild == g
  }

  lemma {:induction false} OwnRaisesSign(startPrice: Gold, bids: seq<Bid>, g: Id)
    requires startPrice > 0 && forall i :: 0 <= i < |bids| ==> bids[i].amount >= startPrice
    ensures OwnRaises(bids, g) >= 0
    ensures OwnRaises(bids, g) > 0 <==> RaisesItself(bids, g)
  {
    if |bids| >= 2 {
      var n := |bids|;
      var front := bids[..n - 1];
      OwnRaisesSign(startPrice, front, g);
      assert forall i :: 0 <= i < n - 2 ==> (OwnRaiseAt(front, g, i) <==> OwnRaiseAt(bids, g, i));
      assert RaisesItself(bids, g) <==> RaisesItself(front, g) || OwnRaiseAt(bids, g, n - 2);
    }
  }

  lemma {:induction false} OwnRaisesUnchanged(bids: seq<Bid>, bids': seq<Bid>, g: Id)
    requires |bids| == |bids'|
    requires forall i :: 0 <= i < |bids| ==> bids'[i].guild == bids[i].guild && bids'[i].amount == bids[i].amount
    ensures OwnRaises(bids', g) == OwnRaises(bids, g)
  {
    if |bids| >= 2 {
      OwnRaisesUnchanged(bids[..|bids| - 1], bids'[..|bids| - 1], g);
    }
  }

  /** What the books say of one guild in one state. */
  ghost predicate Balanced(seed: Gold, s: State, g: Id)
    requires g in s.wallets
  {
    && s.wallets[g].total == seed + SeqSum(s.ledger, TotalDelta(g))
    && s.wallets[g].reserved + AllOwnRaises(s.auctions, g) == SeqSum(s.ledger, ReservedDelta(g))
  }

  lemma {:induction false} LogOne(ledger: seq<Entry>, f: Entry -> int, x: Entry)
    ensures SeqSum(ledger + [x], f) == SeqSum(ledger, f) + f(x)
  {
    SeqSumPush(ledger, f, x);
  }

  lemma {:induction false} LogTwo(ledger: seq<Entry>, f: Entry -> int, x: Entry, y: Entry)
    ensures SeqSum(ledger + [x, y], f) == SeqSum(ledger, f) + f(x) + f(y)
  {
    assert ledger + [x, y] == (ledger + [x]) + [y];
    SeqSumPush(ledger, f, x);
    SeqSumPush(ledger + [x], f, y);
  }

  lemma {:induction false} PurchaseBalances(seed: Gold, s: State, itemId: Id, buyer: Id, qty: int, now: Time, s': State,
                                            g: Id)
    requires PurchaseEffect(s, itemId, buyer, qty, now, s') && g in s.wallets && Balanced(seed, s, g)
    ensures Balanced(seed, s', g)
  {
    var cost, seller := s.items[itemId].price * qty, s.items[itemId].seller;
    var x, y := Entry(buyer, LedgerDebit, cost, itemId, now), Entry(seller, LedgerCredit, cost, itemId, now);
    LogTwo(s.ledger, TotalDelta(g), x, y);
    LogTwo(s.ledger, ReservedDelta(g), x, y);
  }

  /** The amount by which a bid of `bidder` makes `g` outbid itself. */
  ghost function OwnRaise(a: AuctionRow, bidder: Id, g: Id): Gold {
    if g == bidder then LeadOf(g)(a) else 0
  }

  lemma {:induction false} BidDeltas(ledger: seq<Entry>, a: AuctionRow, bidder: Id, amount: Gold, now: Time, g: Id)
    requires a.status.Active?
    ensures SeqSum(ledger + BidEntries(a, bidder, amount, now), TotalDelta(g)) == SeqSum(ledger, TotalDelta(g))
    ensures SeqSum(ledger + BidEntries(a, bidder, amount, now), ReservedDelta(g)) ==
            SeqSum(ledger, ReservedDelta(g)) - LeadOf(g)(a) + OwnRaise(a, bidder, g) + if g == bidder then amount else 0
  {
    var y := Entry(bidder, LedgerReserve, amount, a.itemId, now);
    if a.HighestBid().None? || a.HighestBid().value.guild == bidder {
      assert BidEntries(a, bidder, amount, now) == [y];
      LogOne(ledger, TotalDelta(g), y);
      LogOne(ledger, ReservedDelta(g), y);
    } else {
      var high := a.HighestBid().value;
      var x := Entry(high.guild, LedgerRelease, high.amount, a.itemId, now);
      assert BidEntries(a, bidder, amount, now) == [x, y];
      LogTwo(ledger, TotalDelta(g), x, y);
      LogTwo(ledger, ReservedDelta(g), x, y);
    }
  }

  lemma {:induction false} BidAddsOwnRaise(a: AuctionRow, bidId: Id, bidder: Id, amount: Gold, now: Time, g: Id)
    requires Orderly(a) && a.PlaceBid(bidId, bidder, amount, now).Ok?
    ensures OwnRaises(a.PlaceBid(bidId, bidder, amount, now).value.bids, g) == OwnRaises(a.bids, g) + OwnRaise(a, bidder, g)
  {
    LeaderIsLast(a);
    var bids' := a.PlaceBid(bidId, bidder, amount, now).value.bids;
    assert bids'[..|bids'| - 1] == a.bids;
  }

  lemma {:induction false} BidBalances(seed: Gold, s: State, k: Id, bidder: Id, amount: Gold, bidId: Id, now: Time,
                                       s': State, g: Id)
    requires k in s.auctions && Orderly(s.auctions[k])
    requires BidEffect(s, k, bidder, amount, bidId, now, s') && g in s.wallets && Balanced(seed, s, g)
    ensures Balanced(seed, s', g)
  {
    var a := s.auctions[k];
    MapSumUpdate(s.auctions, OwnRaisesOf(g), k, s'.auctions[k]);
    BidAddsOwnRaise(a, bidId, bidder, amount, now, g);
    BidDeltas(s.ledger, a, bidder, amount, now, g);
  }

  lemma {:induction false} CancelKeepsOwnRaises(a: AuctionRow, bidId: Id, guild: Id, g: Id)
    requires Orderly(a) && a.CancelBid(bidId, guild).Ok?
    ensures OwnRaises(a.CancelBid(bidId, guild).value.bids, g) == OwnRaises(a.bids, g)
  {
    CancelKeepsLeader(a, bidId, guild);
    OwnRaisesUnchanged(a.bids, a.CancelBid(bidId, guild).value.bids, g);
  }

  lemma {:induction false} CancelBalances(seed: Gold, s: State, k: Id, bidId: Id, guild: Id, s': State, g: Id)
    requires k in s.auctions && Orderly(s.auctions[k])
    requires CancelEffect(s, k, bidId, guild, s') && g in s.wallets && Balanced(seed, s, g)
    ensures Balanced(seed, s', g)
  {
    CancelKeepsOwnRaises(s.auctions[k], bidId, guild, g);
    MapSumUpdate(s.auctions, OwnRaisesOf(g), k, s'.auctions[k]);
  }

  lemma {:induction false} CreateBalances(cfg: Config, seed: Gold, s: State, itemId: Id, auctionId: Id, seller: Id,
                                          price: Gold, now: Time, s': State, g: Id)
    requires auctionId !in s.auctions && g in s.wallets && Balanced(seed, s, g)
    requires CreateEffect(cfg, s, itemId, auctionId, seller, price, now, s')
    ensures Balanced(seed, s', g)
  {
    if s'.items[itemId].rarity.Legendary? {
      MapSumUpdate(s.auctions, OwnRaisesOf(g), auctionId, s'.auctions[auctionId]);
    }
  }

  lemma ClosingKeepsOwnRaises(s: State, a: AuctionRow, now: Time, s': State, g: Id)
    requires SettleEffect(s, a, now, s')
    ensures AllOwnRaises(s'.auctions, g) == AllOwnRaises(s.auctions, g)
  {
    MapSumUpdate(s.auctions, OwnRaisesOf(g), a.id, a.(status := Settled));
  }

  lemma {:induction false} ClosingBalances(seed: Gold, s: State, a: AuctionRow, now: Time, s': State, g: Id)
    requires Orderly(a) && SettleEffect(s, a, now, s') && g in s.wallets && Balanced(seed, s, g)
    ensures Balanced(seed, s', g)
  {
    LeaderIsLast(a);
    ClosingKeepsOwnRaises(s, a, now, s', g);
    if a.bids == [] {
      assert s'.ledger == s.ledger;
    } else {
      var winner := a.bids[|a.bids| - 1];
      var x, y := Entry(winner.guild, LedgerSettle, winner.amount, a.itemId, now),
          Entry(a.seller, LedgerCredit, winner.amount, a.itemId, now);
      LogTwo(s.ledger, TotalDelta(g), x, y);
      LogTwo(s.ledger, ReservedDelta(g), x, y);
    }
  }

  lemma {:induction false} ChangeBalances(cfg: Config, seed: Gold, s: State, c: Change, s': State, g: Id)
    requires OrderlyAuctions(s) && Effect(cfg, s, c, s') && g in s.wallets && g in s'.wallets && Balanced(seed, s, g)
    ensures Balanced(seed, s', g)
  {
    match c {
      case Listed(itemId, auctionId, seller, price, now) =>
        CreateBalances(cfg, seed, s, itemId, auctionId, seller, price, now, s', g);
      case Bought(itemId, buyer, qty, now) => PurchaseBalances(seed, s, itemId, buyer, qty, now, s', g);
      case Raised(k, bidder, amount, bidId, now) => BidBalances(seed, s, k, bidder, amount, bidId, now, s', g);
      case Withdrawn(k, bidId, guild) => CancelBalances(seed, s, k, bidId, guild, s', g);
      case ClosedOne(a, now) => ClosingBalances(seed, s, a, now, s', g);
    }
  }

  lemma {:induction false} BalancedAlong(cfg: Config, h: History, g: Id)
    requires Valid(cfg, h) && Initial(First(h)) && g in First(h).wallets
    ensures g in h.state.wallets && Balanced(First(h).wallets[g].total, h.state, g)
  {
    if h.Then? {
      BalancedAlong(cfg, h.before, g);
      ChangeBalances(cfg, First(h).wallets[g].total, h.before.state, h.change, h.state, g);
    }
  }

  ghost predicate NeverRaisesItself(auctions: map<Id, AuctionRow>, g: Id)
  {
    forall k :: k in auctions ==> !RaisesItself(auctions[k].bids, g)
  }

  lemma {:induction false} NoOwnRaisesIff(t: State, g: Id)
    requires OrderlyAuctions(t)
    ensures AllOwnRaises(t.auctions, g) == 0 <==> NeverRaisesItself(t.auctions, g)
  {
    forall k | k in t.auctions
      ensures OwnRaisesOf(g)(t.auctions[k]) >= 0
      ensures OwnRaisesOf(g)(t.auctions[k]) > 0 <==> RaisesItself(t.auctions[k].bids, g)
    {
      assert Orderly(t.auctions[k]);
      OwnRaisesSign(t.auctions[k].startPrice, t.auctions[k].bids, g);
    }
    MapSumBound(t.auctions, OwnRaisesOf(g));
    if NeverRaisesItself(t.auctions, g) {
      MapSumZero(t.auctions, OwnRaisesOf(g));
    }
  }

  /** What replaying the ledger over a guild's seed gives: the total exactly, and the reservation plus the amounts
      with which the guild outbid itself; so the reservation exactly if and only if the guild never did. */
  ghost predicate Replays(seed: Gold, t: State, g: Id)
  {
    && g in t.wallets
    && t.wallets[g].total == seed + SeqSum(t.ledger, TotalDelta(g))
    && t.wallets[g].reserved + AllOwnRaises(t.auctions, g) == SeqSum(t.ledger, ReservedDelta(g))
    && (SeqSum(t.ledger, ReservedDelta(g)) == t.wallets[g].reserved <==> NeverRaisesItself(t.auctions, g))
  }

  lemma {:induction false} HistoryReplays(cfg: Config, h: History, g: Id)
    requires Valid(cfg, h) && Initial(First(h)) && g in First(h).wallets
    ensures Replays(First(h).wallets[g].total, h.state, g)
  {
    BalancedAlong(cfg, h, g);
    NoOwnRaisesIff(h.state, g);
  }

  /** Credits less debits less settlements turn the seed into the total, exactly. Reserves less releases less
      settlements give the reservation plus every amount with which the guild outbid itself. */
  lemma LedgerReplays(cfg: Config, s: State, ops: seq<Op>, g: Id)
    requires Initial(s) && Legal(cfg, s, ops) && g in s.wallets
    ensures
      var t := Exec(cfg, s, ops);
      && g in t.wallets
      && t.wallets[g].total == s.wallets[g].total + SeqSum(t.ledger, TotalDelta(g))
      && t.wallets[g].reserved + AllOwnRaises(t.auctions, g) == SeqSum(t.ledger, ReservedDelta(g))
  {
    InitialIsSound(s);
    var h := RunHistory(cfg, s, ops);
    HistoryReplays(cfg, h, g);
  }

  /** Replaying the reservations is exact if and only if the guild never raised its own leading bid. */
  lemma ReservedReplaysIff(cfg: Config, s: State, ops: seq<Op>, g: Id)
    requires Initial(s) && Legal(cfg, s, ops) && g in s.wallets
    ensures
      var t := Exec(cfg, s, ops);
      && g in t.wallets
      && (SeqSum(t.ledger, ReservedDelta(g)) == t.wallets[g].reserved
          <==> forall k :: k in t.auctions ==> !RaisesItself(t.auctions[k].bids, g))
  {
    InitialIsSound(s);
    var h := RunHistory(cfg, s, ops);
    HistoryReplays(cfg, h, g);
    assert NeverRaisesItself(h.state.auctions, g)
        <==> forall k :: k in h.state.auctions ==> !RaisesItself(h.state.auctions[k].bids, g);
  }
}
