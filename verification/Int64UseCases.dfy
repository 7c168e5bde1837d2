/**
 The use cases in 64-bit arithmetic: every gold operation of the domain and every sum wraps as the machine's does.
 As long as the gold there is stays far enough below the limit, they do what the unbounded use cases do.
 */
module Int64UseCases {
  import opened Domain
  import opened Wallets
  import opened Items
  import opened Auctions
  import opened Sums
  import opened States
  import opened UseCases
  import opened Invariant
  import opened Histories
  import opened Conservation
  import opened DailyCap
  import opened Int64

  // ---------------------------------------------------------------- the use cases, wrapped

  ghost function Spent64(ledger: seq<Entry>, guild: Id, since: Time): Gold {
    if ledger == [] then 0
    else
      var rest, e := Spent64(ledger[..|ledger| - 1], guild, since), ledger[|ledger| - 1];
      if IsSpend(e, guild, since) then Wrap(rest + e.amount) else rest
  }

  ghost function Purchase64(s: State, itemId: Id, buyer: Id, qty: int, now: Time): Result<State>
  {
    if qty < 1 then Err(InvalidQuantity) else
    var item :- GetItem(s, itemId);
    var buyerWallet :- GetWallet(s, buyer);
    var _ :- GetWallet(s, item.seller);
    var sale :- SellTo64(item, buyer, qty);
    if !WithinDailyCap64(buyerWallet, Spent64(s.ledger, buyer, StartOfUTCDay(now)), sale.cost)
    then Err(DailyCapExceeded) else
    var paid :- Debit64(buyerWallet, sale.cost);
    var s1 := PutWallet(s, paid);
    var sellerWallet :- GetWallet(s1, item.seller);
    var earned :- Credit64(sellerWallet, sale.cost);
    Ok(Log(PutItem(PutWallet(s1, earned), sale.item),
           [Entry(buyer, LedgerDebit, sale.cost, itemId, now), Entry(item.seller, LedgerCredit, sale.cost, itemId, now)]))
  }

  function PlaceBid64(a: AuctionRow, bidId: Id, guild: Id, amount: Gold, now: Time): Result<AuctionRow> {
    if !a.status.Active? || now >= a.endsAt then Err(AuctionClosed)
    else if guild == a.seller then Err(CannotBidOwnItem)
    else if amount < MinNextBid64(a) then Err(BidTooLow)
    else Ok(a.(bids := a.bids + [Bid(bidId, guild, amount, true, now)], endsAt := a.EndAfterBid(now)))
  }

  ghost function BidOnItem64(s: State, itemId: Id, bidder: Id, amount: Gold, bidId: Id, now: Time): Result<State>
  {
    if amount <= 0 then Err(NonPositiveAmount) else
    var k :- ActiveAuction(s.auctions, itemId);
    var a := s.auctions[k];
    var wallet :- GetWallet(s, bidder);
    var a' :- PlaceBid64(a, bidId, bidder, amount, now);
    if !WithinDailyCap64(wallet, Spent64(s.ledger, bidder, StartOfUTCDay(now)), amount) then Err(DailyCapExceeded) else
    var s1 :- ReleaseLeader64(s, a, bidder, now);
    var s2 :- ReserveFunds64(s1, a, bidder, amount, now);
    Ok(PutAuction(s2, a'))
  }

  ghost function ReleaseLeader64(s: State, a: AuctionRow, bidder: Id, now: Time): Result<State>
  {
    match a.HighestBid()
    case None => Ok(s)
    case Some(high) =>
      var wallet :- GetWallet(s, high.guild);
      var freed :- Release64(wallet, high.amount);
      Ok(Log(PutWallet(s, freed),
             if high.guild == bidder then [] else [Entry(high.guild, LedgerRelease, high.amount, a.itemId, now)]))
  }

  ghost function ReserveFunds64(s: State, a: AuctionRow, bidder: Id, amount: Gold, now: Time): Result<State>
  {
    var wallet :- GetWallet(s, bidder);
    var held :- Reserve64(wallet, amount);
    Ok(Log(PutWallet(s, held), [Entry(bidder, LedgerReserve, amount, a.itemId, now)]))
  }

  ghost function SettleOne64(s: State, a: AuctionRow, now: Time): Result<State>
  {
    var closed :- a.Settle();
    var item :- GetItem(s, a.itemId);
    match a.HighestBid()
    case None => Ok(PutAuction(PutItem(s, item.(status := Available)), closed))
    case Some(winner) =>
      var s1 :- Pay64(s, a.seller, winner);
      Ok(PutAuction(PutItem(Log(s1,
        [Entry(winner.guild, LedgerSettle, winner.amount, a.itemId, now),
         Entry(a.seller, LedgerCredit, winner.amount, a.itemId, now)]), item.(status := SoldOut)), closed))
  }

  ghost function Pay64(s: State, seller: Id, winner: Bid): Result<State>
  {
    var winnerWallet :- GetWallet(s, winner.guild);
    var paid :- Settle64(winnerWallet, winner.amount);
    var s1 := PutWallet(s, paid);
    var sellerWallet :- GetWallet(s1, seller);
    var earned :- Credit64(sellerWallet, winner.amount);
    Ok(PutWallet(s1, earned))
  }

  ghost function SettleAll64(s: State, due: seq<AuctionRow>, now: Time): Result<State>
  {
    if due == [] then Ok(s) else
    var s1 :- SettleAll64(s, due[..|due| - 1], now);
    SettleOne64(s1, due[|due| - 1], now)
  }

  /** Listing and withdrawing compute no gold. */
  ghost function Attempt64(cfg: Config, s: State, op: Op): Result<State>
  {
    match op
    case ListItem(itemId, auctionId, rarity, seller, price, quantity, now) =>
      CreateItem(cfg, s, itemId, auctionId, rarity, seller, price, quantity, now)
    case Buy(itemId, buyer, qty, now) => Purchase64(s, itemId, buyer, qty, now)
    case PlaceBid(itemId, bidder, amount, bidId, now) => BidOnItem64(s, itemId, bidder, amount, bidId, now)
    case Withdraw(itemId, bidId, guild) => CancelBidOnItem(s, itemId, bidId, guild)
    case SettleDue(due, now) => SettleAll64(s, due, now)
  }

  ghost function Exec64(cfg: Config, s: State, ops: seq<Op>): State
  {
    if ops == [] then s
    else
      var t := Exec64(cfg, s, ops[..|ops| - 1]);
      var r := Attempt64(cfg, t, ops[|ops| - 1]);
      if r.Ok? then r.value else t
  }

  // ---------------------------------------------------------------- one request

  /** The state is sound, and its gold, listings and bids are far enough below the limit. */
  ghost predicate InRange(s: State)
  {
    && Sound(s) && ListingsFit(s)
    && BidsWithin(s.auctions, TotalGold(s))
    && 5 * TotalGold(s) + 99 <= MAX
  }

  /** What a capped guild has spent since any time leaves room for all the gold there is. Every amount on the ledger is
      positive. */
  ghost predicate CapSumsFit(s: State)
  {
    && Positive(s.ledger)
    && forall g, since :: g in s.wallets && s.wallets[g].dailyCap > 0 ==> HasRoom(s, g, since)
  }

  ghost predicate HasRoom(s: State, g: Id, since: Time)
    requires g in s.wallets
  {
    s.wallets[g].dailyCap <= MAX && Spent(s.ledger, g, since) + TotalGold(s) <= MAX
  }

  /** The same verdict and the same state; but where the cap check overflows it lets a request pass that it should
      refuse, and the funds check refuses it instead. */
  ghost predicate SameVerdict(r64: Result<State>, r: Result<State>)
  {
    r64 == r || (r == Err(DailyCapExceeded) && r64 == Err(InsufficientFunds))
  }

  lemma {:induction false} SpentWraps(ledger: seq<Entry>, g: Id, since: Time)
    ensures Spent64(ledger, g, since) == Wrap(Spent(ledger, g, since))
  {
    if ledger != [] {
      var front, e := ledger[..|ledger| - 1], ledger[|ledger| - 1];
      SpentWraps(front, g, since);
      WrapAdds(Spent(front, g, since), e.amount);
    }
  }

  lemma WrapAdds(x: int, y: int)
    ensures Wrap(Wrap(x) + y) == Wrap(x + y)
  {
    var q := (x + MAX + 1) / (2 * MAX + 2);
    assert Wrap(x) == x - q * (2 * MAX + 2);
    WrapShifts(x + y, -q);
  }

  lemma WrapShifts(x: int, q: int)
    ensures Wrap(x + q * (2 * MAX + 2)) == Wrap(x)
  {
  }

  lemma {:induction false} SpentFits(s: State, g: Id, since: Time)
    requires CapSumsFit(s) && InRange(s) && g in s.wallets && s.wallets[g].dailyCap > 0
    ensures Spent64(s.ledger, g, since) == Spent(s.ledger, g, since) >= 0
  {
    assert HasRoom(s, g, since);
    SpentWraps(s.ledger, g, since);
    SeqSumBound(s.ledger, SpendOf(g, since));
    NoLessThanNothing(s);
    WrapFits(Spent(s.ledger, g, since));
  }

  /** The cap check agrees on every amount up to the gold there is, and refuses every larger amount or leaves it
      to the funds check. */
  lemma {:induction false} CapCheckAgrees(s: State, g: Id, since: Time, amount: Gold)
    requires CapSumsFit(s) && InRange(s) && g in s.wallets && amount > 0
    ensures
      var w := s.wallets[g];
      var pass64 := WithinDailyCap64(w, Spent64(s.ledger, g, since), amount);
      var pass := w.WithinDailyCap(Spent(s.ledger, g, since), amount);
      pass64 == pass || (!pass && amount > TotalGold(s))
  {
    var w := s.wallets[g];
    if w.dailyCap > 0 {
      assert HasRoom(s, g, since);
      SpentFits(s, g, since);
      if amount <= TotalGold(s) {
        WrapFits(Spent(s.ledger, g, since) + amount);
      } else {
        var sum := Spent(s.ledger, g, since) + amount;
        if sum <= MAX {
          WrapFits(sum);
        }
      }
    }
  }

  lemma {:induction false} WalletAgrees(s: State, g: Id, amount: Gold)
    requires SolventWallets(s) && TotalGold(s) <= MAX && g in s.wallets
    ensures
      var w := s.wallets[g];
      && Reserve64(w, amount) == w.Reserve(amount) && Release64(w, amount) == w.Release(amount)
      && Settle64(w, amount) == w.Settle(amount) && Debit64(w, amount) == w.Debit(amount)
      && w.Available() <= w.total <= TotalGold(s)
  {
    WalletWithinGold(s, g);
    WalletOpsAgree(s.wallets[g], amount);
  }

  /** A credit that comes out of another wallet does not overflow. */
  lemma {:induction false} CreditAgrees(s: State, g: Id, h: Id, amount: Gold)
    requires SolventWallets(s) && TotalGold(s) <= MAX && g in s.wallets && h in s.wallets && g != h
        && amount <= s.wallets[h].total
    ensures Credit64(s.wallets[g], amount) == s.wallets[g].Credit(amount)
  {
    TwoWalletsWithinGold(s, g, h);
    WrapFits(s.wallets[g].total + amount);
  }

  lemma {:induction false} PurchaseAgrees(s: State, itemId: Id, buyer: Id, qty: int, now: Time)
    requires InRange(s) && CapSumsFit(s)
    ensures SameVerdict(Purchase64(s, itemId, buyer, qty, now), Purchase(s, itemId, buyer, qty, now))
  {
    if qty >= 1 && itemId in s.items && buyer in s.wallets && s.items[itemId].seller in s.wallets {
      var item := s.items[itemId];
      assert ListingInOrder(item);
      SellToAgrees(item, buyer, qty);
      var sale := item.SellTo(buyer, qty);
      if sale.Ok? {
        SaleAgrees(s, item, buyer, item.SellTo(buyer, qty).value.cost, now);
      }
    }
  }

  lemma {:induction false} SaleAgrees(s: State, item: ItemRow, buyer: Id, cost: Gold, now: Time)
    requires InRange(s) && CapSumsFit(s) && buyer in s.wallets && item.seller in s.wallets && buyer != item.seller
    ensures cost > 0 ==> CapAgrees(s, buyer, cost, now)
    ensures Debit64(s.wallets[buyer], cost) == s.wallets[buyer].Debit(cost)
    ensures cost > TotalGold(s) ==> Debit64(s.wallets[buyer], cost) == Err(InsufficientFunds)
    ensures s.wallets[buyer].Debit(cost).Ok? ==>
        Credit64(s.wallets[item.seller], cost) == s.wallets[item.seller].Credit(cost)
  {
    WalletAgrees(s, buyer, cost);
    NoLessThanNothing(s);
    if cost > 0 {
      CapCheckAgrees(s, buyer, StartOfUTCDay(now), cost);
    }
    if s.wallets[buyer].Debit(cost).Ok? {
      CreditAgrees(s, item.seller, buyer, cost);
    }
  }

  ghost predicate CapAgrees(s: State, g: Id, amount: Gold, now: Time)
    requires g in s.wallets
  {
    var w, since := s.wallets[g], StartOfUTCDay(now);
    var pass64 := WithinDailyCap64(w, Spent64(s.ledger, g, since), amount);
    var pass := w.WithinDailyCap(Spent(s.ledger, g, since), amount);
    pass64 == pass || (!pass && amount > TotalGold(s))
  }

  lemma {:induction false} BidAgrees(s: State, itemId: Id, bidder: Id, amount: Gold, bidId: Id, now: Time)
    requires InRange(s) && CapSumsFit(s)
    ensures SameVerdict(BidOnItem64(s, itemId, bidder, amount, bidId, now),
        BidOnItem(s, itemId, bidder, amount, bidId, now))
  {
    var k := ActiveAuction(s.auctions, itemId);
    if amount > 0 && k.Ok? && bidder in s.wallets {
      var a := s.auctions[k.value];
      PlaceBidAgrees(s, k.value, bidId, bidder, amount, now);
      CapCheckAgrees(s, bidder, StartOfUTCDay(now), amount);
      LeadsAreCovered(s, k.value);
      ReleaseLeaderOutcome(s, a, bidder, now);
      ReleaseAgrees(s, a, bidder, now);
      ReserveAgrees(s, k.value, bidder, amount, now, ReleaseLeader(s, a, bidder, now).value);
    }
  }

  lemma {:induction false} PlaceBidAgrees(s: State, k: Id, bidId: Id, guild: Id, amount: Gold, now: Time)
    requires InRange(s) && k in s.auctions
    ensures PlaceBid64(s.auctions[k], bidId, guild, amount, now) == s.auctions[k].PlaceBid(bidId, guild, amount, now)
  {
    MinNextBidAgrees(s.auctions[k]);
  }

  lemma {:induction false} ReleaseAgrees(s: State, a: AuctionRow, bidder: Id, now: Time)
    requires InRange(s) && LeadCovered(s, a)
    ensures ReleaseLeader64(s, a, bidder, now) == ReleaseLeader(s, a, bidder, now)
  {
    if a.HighestBid().Some? {
      NoLessThanNothing(s);
      WalletAgrees(s, a.HighestBid().value.guild, a.HighestBid().value.amount);
    }
  }

  /** On the wallet that the release leaves, the reservation agrees too, and refuses more than all the gold. */
  lemma {:induction false} ReserveAgrees(s: State, k: Id, bidder: Id, amount: Gold, now: Time, s1: State)
    requires InRange(s) && k in s.auctions && bidder in s.wallets && amount > 0
    requires Released(s, s.auctions[k], bidder, now, s1)
    ensures ReserveFunds64(s1, s.auctions[k], bidder, amount, now) == ReserveFunds(s1, s.auctions[k], bidder, amount, now)
    ensures amount > TotalGold(s) ==> ReserveFunds64(s1, s.auctions[k], bidder, amount, now) == Err(InsufficientFunds)
  {
    LeadsNonNegative(s, bidder);
    WalletWithinGold(s, bidder);
    assert LeadOf(bidder)(s.auctions[k]) <= s.wallets[bidder].reserved;
    WalletOpsAgree(s1.wallets[bidder], amount);
  }

  lemma {:induction false} SettleOneAgrees(s: State, k: Id, now: Time)
    requires Sound(s) && TotalGold(s) <= MAX && k in s.auctions && s.auctions[k].status.Active?
    ensures SettleOne64(s, s.auctions[k], now) == SettleOne(s, s.auctions[k], now)
  {
    var a := s.auctions[k];
    LeadsAreCovered(s, k);
    LeaderIsLast(a);
    if a.bids != [] {
      PayAgrees(s, a.seller, a.bids[|a.bids| - 1]);
    }
  }

  lemma {:induction false} PayAgrees(s: State, seller: Id, winner: Bid)
    requires SolventWallets(s) && TotalGold(s) <= MAX && winner.guild != seller && winner.guild in s.wallets
    requires s.wallets[winner.guild].guild == winner.guild && 0 < winner.amount <= s.wallets[winner.guild].reserved
    ensures Pay64(s, seller, winner) == Pay(s, seller, winner)
  {
    WalletAgrees(s, winner.guild, winner.amount);
    if seller in s.wallets {
      CreditAgrees(s, seller, winner.guild, winner.amount);
    }
  }

  lemma {:induction false} SettleAllAgrees(s: State, due: seq<AuctionRow>, now: Time)
    requires Sound(s) && TotalGold(s) <= MAX && Offered(s, due)
    ensures SettleAll64(s, due, now) == SettleAll(s, due, now)
    ensures SettleAll(s, due, now).Ok? ==> TotalGold(SettleAll(s, due, now).value) == TotalGold(s)
    decreases |due|
  {
    if due != [] {
      var front, last := due[..|due| - 1], due[|due| - 1];
      FrontIsOffered(s, due);
      SettleAllAgrees(s, front, now);
      if SettleAll(s, front, now).Ok? {
        StillListed(s, due, now);
        NextAgrees(SettleAll(s, front, now).value, last, now);
      }
    }
  }

  lemma FrontIsOffered(s: State, due: seq<AuctionRow>)
    requires Offered(s, due) && due != []
    ensures Offered(s, due[..|due| - 1])
  {
  }

  lemma {:induction false} NextAgrees(s: State, a: AuctionRow, now: Time)
    requires Sound(s) && TotalGold(s) <= MAX && a.id in s.auctions && s.auctions[a.id] == a && a.status.Active?
    ensures SettleOne64(s, a, now) == SettleOne(s, a, now)
    ensures SettleOne(s, a, now).Ok? ==> TotalGold(SettleOne(s, a, now).value) == TotalGold(s)
  {
    SettleOneAgrees(s, a.id, now);
    ClosingOneKeepsGold(s, a, now);
  }

  /** After the front of a list is closed, the last auction still stands as listed. */
  lemma {:induction false} StillListed(s: State, due: seq<AuctionRow>, now: Time)
    requires Sound(s) && Offered(s, due) && due != [] && SettleAll(s, due[..|due| - 1], now).Ok?
    ensures
      var s1, last := SettleAll(s, due[..|due| - 1], now).value, due[|due| - 1];
      Sound(s1) && last.id in s1.auctions && s1.auctions[last.id] == last && last.status.Active?
  {
    var front, last := due[..|due| - 1], due[|due| - 1];
    assert due == front + [last] && last in due;
    FrontIsOffered(s, due);
    SettleAllOutcome(s, front, now);
    ClosedPush(s.auctions, front, last);
  }

  lemma {:induction false} ClosingOneKeepsGold(s: State, a: AuctionRow, now: Time)
    requires Sound(s) && a.id in s.auctions && s.auctions[a.id] == a && a.status.Active?
    ensures SettleOne(s, a, now).Ok? ==> TotalGold(SettleOne(s, a, now).value) == TotalGold(s)
  {
    SettleOneOutcome(s, a, now);
    LeadsAreCovered(s, a.id);
    if SettleOne(s, a, now).Ok? {
      ClosingKeepsGold(s, a, now, SettleOne(s, a, now).value);
    }
  }

  /** One request, whatever it asks for: the same verdict and the same state. */
  lemma {:induction false} AttemptAgrees(cfg: Config, s: State, op: Op)
    requires InRange(s) && CapSumsFit(s) && (op.SettleDue? ==> Offered(s, op.due))
    ensures SameVerdict(Attempt64(cfg, s, op), Attempt(cfg, s, op))
  {
    match op {
      case Buy(itemId, buyer, qty, now) => PurchaseAgrees(s, itemId, buyer, qty, now);
      case PlaceBid(itemId, bidder, amount, bidId, now) => BidAgrees(s, itemId, bidder, amount, bidId, now);
      case SettleDue(due, now) => SettlementAgrees(s, due, now);
      case _ =>
    }
  }

  lemma {:induction false} SettlementAgrees(s: State, due: seq<AuctionRow>, now: Time)
    requires InRange(s) && Offered(s, due)
    ensures SettleAll64(s, due, now) == SettleAll(s, due, now)
  {
    NoLessThanNothing(s);
    SettleAllAgrees(s, due, now);
  }

  // ---------------------------------------------------------------- whole runs

  /** The ledger only grows, and stays positive; caps stay as they were seeded. */
  lemma {:induction false} LedgerGrows(cfg: Config, h: History)
    requires Valid(cfg, h) && Positive(First(h).ledger)
    ensures First(h).ledger <= h.state.ledger && Positive(h.state.ledger)
    ensures forall g :: g in First(h).wallets ==>
        g in h.state.wallets && h.state.wallets[g].dailyCap == First(h).wallets[g].dailyCap
  {
    if h.Then? {
      LedgerGrows(cfg, h.before);
      ChangeKeepsPositive(cfg, h.before.state, h.change, h.state);
      assert h.before.state.ledger <= h.state.ledger;
      forall g | g in h.before.state.wallets
        ensures g in h.state.wallets && h.state.wallets[g].dailyCap == h.before.state.wallets[g].dailyCap
      {
        ChangeKeepsCaps(cfg, h.before.state, h.change, h.state, g);
      }
    }
  }

  lemma {:induction false} SpentGrows(ledger: seq<Entry>, later: seq<Entry>, g: Id, since: Time)
    requires ledger <= later && Positive(later)
    ensures Spent(ledger, g, since) <= Spent(later, g, since)
  {
    var more := later[|ledger|..];
    assert later == ledger + more;
    SeqSumConcat(ledger, more, SpendOf(g, since));
    SeqSumBound(more, SpendOf(g, since));
  }

  /** If the sums fit at the end of a history, they fitted at its start. */
  lemma {:induction false} CapSumsFitBefore(cfg: Config, h: History)
    requires Valid(cfg, h) && Positive(First(h).ledger) && CapSumsFit(h.state)
    ensures CapSumsFit(First(h))
  {
    LedgerGrows(cfg, h);
    GoldAlong(cfg, h);
    SmallerSumsFit(First(h), h.state);
  }

  lemma {:induction false} SmallerSumsFit(s: State, t: State)
    requires Positive(s.ledger) && CapSumsFit(t) && s.ledger <= t.ledger && TotalGold(s) == TotalGold(t)
    requires forall g :: g in s.wallets ==> g in t.wallets && t.wallets[g].dailyCap == s.wallets[g].dailyCap
    ensures CapSumsFit(s)
  {
    forall g, since | g in s.wallets && s.wallets[g].dailyCap > 0 ensures HasRoom(s, g, since) {
      SpentGrows(s.ledger, t.ledger, g, since);
      assert HasRoom(t, g, since);
    }
  }

  lemma {:induction false} RangeAlong(cfg: Config, h: History)
    requires Valid(cfg, h) && InRange(First(h)) && ListingsFit(h.state)
    ensures InRange(h.state)
  {
    BidsWithinAlong(cfg, h);
    GoldAlong(cfg, h);
  }

  lemma InitialInRange(s: State)
    requires Initial(s) && 5 * TotalGold(s) + 99 <= MAX
    ensures InRange(s) && Positive(s.ledger)
  {
    InitialIsSound(s);
  }

  lemma {:induction false} RunInRange(cfg: Config, s: State, ops: seq<Op>)
    requires Initial(s) && Legal(cfg, s, ops) && 5 * TotalGold(s) + 99 <= MAX && RequestsFit(ops)
    ensures InRange(Exec(cfg, s, ops)) && Positive(Exec(cfg, s, ops).ledger)
  {
    InitialInRange(s);
    var h := RunHistory(cfg, s, ops);
    RunKeepsFit(cfg, s, ops);
    RangeAlong(cfg, h);
    LedgerGrows(cfg, h);
  }

  lemma {:induction false} CapSumsFitBeforeLast(cfg: Config, s: State, ops: seq<Op>)
    requires Sound(s) && Legal(cfg, s, ops) && ops != []
    requires Positive(Exec(cfg, s, ops[..|ops| - 1]).ledger) && CapSumsFit(Exec(cfg, s, ops))
    ensures CapSumsFit(Exec(cfg, s, ops[..|ops| - 1]))
  {
    var front := ops[..|ops| - 1];
    RunKeepsSound(cfg, s, front);
    var h := OpHistory(cfg, Start(Exec(cfg, s, front)), ops[|ops| - 1]);
    CapSumsFitBefore(cfg, h);
  }

  /** From funded wallets: if five times the gold, plus rounding, fits in 64 bits, and so does the price of every listed
      stock, and what each capped guild ever spends leaves room for all the gold, then the 64-bit market goes through
      exactly the states of the unbounded one, inside a settlement of several auctions and a guild's own raise included. */
  lemma {:induction false} Exec64IsExec(cfg: Config, s: State, ops: seq<Op>)
    requires Initial(s) && Legal(cfg, s, ops)
    requires 5 * TotalGold(s) + 99 <= MAX && RequestsFit(ops) && CapSumsFit(Exec(cfg, s, ops))
    ensures Exec64(cfg, s, ops) == Exec(cfg, s, ops)
    ensures ops != [] ==> SameVerdict(Attempt64(cfg, Exec(cfg, s, ops[..|ops| - 1]), ops[|ops| - 1]),
                                      Attempt(cfg, Exec(cfg, s, ops[..|ops| - 1]), ops[|ops| - 1]))
  {
    if ops != [] {
      var front, op := ops[..|ops| - 1], ops[|ops| - 1];
      RunInRange(cfg, s, front);
      InitialIsSound(s);
      CapSumsFitBeforeLast(cfg, s, ops);
      Exec64IsExec(cfg, s, front);
      AttemptAgrees(cfg, Exec(cfg, s, front), op);
    }
  }

  /** The verdicts really differ in one error: with a cap set and something spent, a bid near the 64-bit limit passes the
      overflowing check. */
  lemma OverflowingCapCheckPasses(w: WalletRow, spent: Gold, amount: Gold)
    requires 0 < w.dailyCap <= MAX && 0 < spent <= MAX && 0 < amount <= MAX && spent + amount > MAX
    ensures WithinDailyCap64(w, spent, amount) && !w.WithinDailyCap(spent, amount)
  {
    assert Wrap(spent + amount) == spent + amount - 2 * MAX - 2;
  }
}
