/**
 The use cases (internal/service/market.go, internal/service/auction.go), each as one atomic step on plain maps.
 A refused use case is an `Err`, and leaves the state alone. Times and fresh identifiers are inputs.
 */
module UseCases {
  import opened Domain
  import opened Wallets
  import opened Items
  import opened Auctions
  import opened States

  datatype Config = Config(window: Time, extension: Time)

  const DAY: Time := 24 * 60 * 60 * 1_000_000_000

  /** Midnight UTC at or before `t`. */
  function StartOfUTCDay(t: Time): Time {
    t / DAY * DAY
  }

  function PutWallet(s: State, w: WalletRow): State {
    s.(wallets := s.wallets[w.guild := w])
  }

  function PutItem(s: State, it: ItemRow): State {
    s.(items := s.items[it.id := it])
  }

  function PutAuction(s: State, a: AuctionRow): State {
    s.(auctions := s.auctions[a.id := a])
  }

  function Log(s: State, entries: seq<Entry>): State {
    s.(ledger := s.ledger + entries)
  }

  /** List an item. A Legendary item goes straight to auction, with `price` as the least first bid. */
  ghost function CreateItem(cfg: Config, s: State, itemId: Id, auctionId: Id, rarity: Rarity, seller: Id,
                            price: Gold, quantity: int, now: Time): Result<State>
  {
    var item :- NewItem(itemId, rarity, seller, price, quantity, now);
    if rarity.Legendary? && price <= 0 then Err(NonPositiveAmount)
    else if itemId in s.items then Err(ItemNotFound)
    else if rarity.Legendary? then OpenAuction(cfg, PutItem(s, item), item, auctionId, price, now)
    else Ok(PutItem(s, item))
  }

  ghost function OpenAuction(cfg: Config, s: State, item: ItemRow, auctionId: Id, startPrice: Gold,
                             now: Time): Result<State>
  {
    if startPrice <= 0 then Err(NonPositiveAmount)
    else if ActiveAuction(s.auctions, item.id).Ok? then Err(AuctionExists)
    else
      var a := AuctionRow(auctionId, item.id, item.seller, startPrice, now + cfg.window, cfg.extension, Active, [], now);
      Ok(PutItem(PutAuction(s, a), item.(status := InAuction)))
  }

  /** Buy `qty` units of a listing: gold goes from buyer to seller, and both movements are logged. */
  ghost function Purchase(s: State, itemId: Id, buyer: Id, qty: int, now: Time): Result<State>
  {
    if qty < 1 then Err(InvalidQuantity) else
    var item :- GetItem(s, itemId);
    var buyerWallet :- GetWallet(s, buyer);
    var _ :- GetWallet(s, item.seller);
    var sale :- item.SellTo(buyer, qty);
    if !buyerWallet.WithinDailyCap(Spent(s.ledger, buyer, StartOfUTCDay(now)), sale.cost) then Err(DailyCapExceeded) else
    var paid :- buyerWallet.Debit(sale.cost);
    var s1 := PutWallet(s, paid);
    var sellerWallet :- GetWallet(s1, item.seller);
    var earned :- sellerWallet.Credit(sale.cost);
    Ok(Log(PutItem(PutWallet(s1, earned), sale.item),
           [Entry(buyer, LedgerDebit, sale.cost, itemId, now), Entry(item.seller, LedgerCredit, sale.cost, itemId, now)]))
  }

  /** Bid on the active auction of an item: the unseated leader gets its reservation back,
      then the bidder reserves the amount. */
  ghost function BidOnItem(s: State, itemId: Id, bidder: Id, amount: Gold, bidId: Id, now: Time): Result<State>
  {
    if amount <= 0 then Err(NonPositiveAmount) else
    var k :- ActiveAuction(s.auctions, itemId);
    var a := s.auctions[k];
    var wallet :- GetWallet(s, bidder);
    var a' :- a.PlaceBid(bidId, bidder, amount, now);
    if !wallet.WithinDailyCap(Spent(s.ledger, bidder, StartOfUTCDay(now)), amount) then Err(DailyCapExceeded) else
    var s1 :- ReleaseLeader(s, a, bidder, now);
    var s2 :- ReserveFunds(s1, a, bidder, amount, now);
    Ok(PutAuction(s2, a'))
  }

  /** Give the leader its reservation back. A leader that outbids itself gets no ledger entry. */
  ghost function ReleaseLeader(s: State, a: AuctionRow, bidder: Id, now: Time): Result<State>
  {
    match a.HighestBid()
    case None => Ok(s)
    case Some(high) =>
      var wallet :- GetWallet(s, high.guild);
      var freed :- wallet.Release(high.amount);
      Ok(Log(PutWallet(s, freed),
             if high.guild == bidder then [] else [Entry(high.guild, LedgerRelease, high.amount, a.itemId, now)]))
  }

  ghost function ReserveFunds(s: State, a: AuctionRow, bidder: Id, amount: Gold, now: Time): Result<State>
  {
    var wallet :- GetWallet(s, bidder);
    var held :- wallet.Reserve(amount);
    Ok(Log(PutWallet(s, held), [Entry(bidder, LedgerReserve, amount, a.itemId, now)]))
  }

  /** Withdraw a bid that does not lead. No gold moves. */
  ghost function CancelBidOnItem(s: State, itemId: Id, bidId: Id, guild: Id): Result<State>
  {
    var k :- ActiveAuction(s.auctions, itemId);
    var a' :- s.auctions[k].CancelBid(bidId, guild);
    Ok(PutAuction(s, a'))
  }

  /** Close one auction: with a winner, gold moves to the seller; without, the item returns to available. */
  ghost function SettleOne(s: State, a: AuctionRow, now: Time): Result<State>
  {
    var closed :- a.Settle();
    var item :- GetItem(s, a.itemId);
    match a.HighestBid()
    case None => Ok(PutAuction(PutItem(s, item.(status := Available)), closed))
    case Some(winner) =>
      var s1 :- Pay(s, a.seller, winner);
      Ok(PutAuction(PutItem(Log(s1,
        [Entry(winner.guild, LedgerSettle, winner.amount, a.itemId, now),
         Entry(a.seller, LedgerCredit, winner.amount, a.itemId, now)]), item.(status := SoldOut)), closed))
  }

  /** Turn the winner's reservation into a payment to the seller. */
  ghost function Pay(s: State, seller: Id, winner: Bid): Result<State>
  {
    var winnerWallet :- GetWallet(s, winner.guild);
    var paid :- winnerWallet.Settle(winner.amount);
    var s1 := PutWallet(s, paid);
    var sellerWallet :- GetWallet(s1, seller);
    var earned :- sellerWallet.Credit(winner.amount);
    Ok(PutWallet(s1, earned))
  }

  /** Close a list of auctions in order, as one unit: one failure undoes them all. */
  ghost function SettleAll(s: State, due: seq<AuctionRow>, now: Time): Result<State>
  {
    if due == [] then Ok(s) else
    var s1 :- SettleAll(s, due[..|due| - 1], now);
    SettleOne(s1, due[|due| - 1], now)
  }

  /** One request to the market. Settlement carries the order in which it finds the due auctions. */
  datatype Op =
    | ListItem(itemId: Id, auctionId: Id, rarity: Rarity, seller: Id, price: Gold, quantity: int, now: Time)
    | Buy(itemId: Id, buyer: Id, qty: int, now: Time)
    | PlaceBid(itemId: Id, bidder: Id, amount: Gold, bidId: Id, now: Time)
    | Withdraw(itemId: Id, bidId: Id, guild: Id)
    | SettleDue(due: seq<AuctionRow>, now: Time)

  ghost function Attempt(cfg: Config, s: State, op: Op): Result<State>
  {
    match op
    case ListItem(itemId, auctionId, rarity, seller, price, quantity, now) =>
      CreateItem(cfg, s, itemId, auctionId, rarity, seller, price, quantity, now)
    case Buy(itemId, buyer, qty, now) => Purchase(s, itemId, buyer, qty, now)
    case PlaceBid(itemId, bidder, amount, bidId, now) => BidOnItem(s, itemId, bidder, amount, bidId, now)
    case Withdraw(itemId, bidId, guild) => CancelBidOnItem(s, itemId, bidId, guild)
    case SettleDue(due, now) => SettleAll(s, due, now)
  }

  /** The state after a request, whether it succeeds or is refused. */
  ghost function Apply(cfg: Config, s: State, op: Op): State
  {
    var r := Attempt(cfg, s, op);
    if r.Ok? then r.value else s
  }

  /** What the identifier generator and the store guarantee: identifiers are new, and settlement
      is offered exactly the due auctions, in some order. */
  ghost predicate Admissible(s: State, op: Op)
  {
    match op
    case ListItem(itemId, auctionId, _, _, _, _, _) => itemId !in s.items && auctionId !in s.auctions
    case PlaceBid(_, _, _, bidId, _) => NewBidId(s, bidId)
    case SettleDue(due, now) => ListsDue(due, s.auctions, now)
    case Buy(_, _, _, _) => true
    case Withdraw(_, _, _) => true
  }

  ghost predicate NewBidId(s: State, bidId: Id)
  {
    forall k, i :: k in s.auctions && 0 <= i < |s.auctions[k].bids| ==> s.auctions[k].bids[i].id != bidId
  }

  /** The state after a run of requests. */
  ghost function Exec(cfg: Config, s: State, ops: seq<Op>): State
  {
    if ops == [] then s else Apply(cfg, Exec(cfg, s, ops[..|ops| - 1]), ops[|ops| - 1])
  }

  ghost predicate Legal(cfg: Config, s: State, ops: seq<Op>)
  {
    ops != [] ==> Legal(cfg, s, ops[..|ops| - 1]) && Admissible(Exec(cfg, s, ops[..|ops| - 1]), ops[|ops| - 1])
  }

  /** Before the first request: funded wallets and nothing else. */
  ghost predicate Initial(s: State)
  {
    && s.items == map[] && s.auctions == map[] && s.ledger == []
    && forall g :: g in s.wallets ==> s.wallets[g].guild == g && s.wallets[g].reserved == 0 && s.wallets[g].total >= 0
  }
}
