/** What every reachable state of the market satisfies. */
module Invariant {
  import opened Domain
  import opened Wallets
  import opened Items
  import opened Auctions
  import opened Sums
  import opened States
  import opened UseCases

  /** What an auction holds of a guild's gold: the leading bid while it is active. */
  ghost function LeadOf(guild: Id): AuctionRow -> int {
    (a: AuctionRow) =>
      if a.status.Active? && a.HighestBid().Some? && a.HighestBid().value.guild == guild
      then a.HighestBid().value.amount else 0
  }

  /** The leading bids of exactly those active auctions that the guild leads. */
  ghost function Leads(auctions: map<Id, AuctionRow>, guild: Id): Gold {
    MapSum(auctions, LeadOf(guild))
  }

  ghost predicate SolventWallets(s: State) {
    forall g :: g in s.wallets ==> s.wallets[g].Solvent()
  }

  ghost predicate ReservedExactly(s: State) {
    forall g :: g in s.wallets ==> s.wallets[g].reserved == Leads(s.auctions, g)
  }

  ghost predicate OrderlyAuctions(s: State) {
    forall k :: k in s.auctions ==> Orderly(s.auctions[k]) && BiddersFunded(s.wallets, s.auctions[k].bids)
  }

  ghost predicate BiddersFunded(wallets: map<Id, WalletRow>, bids: seq<Bid>) {
    forall i :: 0 <= i < |bids| ==> bids[i].guild in wallets
  }

  /** The status an auctioned item must have. */
  function ItemStatusFor(a: AuctionRow): ItemStatus {
    if a.status.Active? then InAuction else if a.bids == [] then Available else SoldOut
  }

  /** An auction belongs to a Legendary item of the same seller, and that item's status follows the auction. */
  ghost predicate Belongs(items: map<Id, ItemRow>, a: AuctionRow) {
    && a.itemId in items
    && items[a.itemId].rarity.Legendary?
    && items[a.itemId].seller == a.seller
    && items[a.itemId].status == ItemStatusFor(a)
  }

  /** A listing is priced, never oversold, and sold out exactly when nothing is left. */
  predicate ListingInOrder(it: ItemRow) {
    match it.rarity
    case Unknown => false
    case Legendary => it.quantity == 1 && it.price == 0
    case _ => it.price > 0 && it.quantity >= 0 && it.status == if it.quantity == 0 then SoldOut else Available
  }

  ghost predicate ItemsInOrder(items: map<Id, ItemRow>, auctions: map<Id, AuctionRow>) {
    && (forall i :: i in items ==> ListingInOrder(items[i]))
    && (forall k :: k in auctions ==> Belongs(items, auctions[k]))
    && OneAuctionPerItem(auctions)
    && (forall i :: i in items && items[i].rarity.Legendary? ==> Auctioned(auctions, i))
  }

  ghost predicate OneAuctionPerItem(auctions: map<Id, AuctionRow>) {
    forall k, l :: k in auctions && l in auctions && auctions[k].itemId == auctions[l].itemId ==> k == l
  }

  ghost predicate Auctioned(auctions: map<Id, AuctionRow>, itemId: Id) {
    exists k :: k in auctions && auctions[k].itemId == itemId
  }

  ghost predicate Sound(s: State) {
    && Keyed(s)
    && SolventWallets(s)
    && ReservedExactly(s)
    && OrderlyAuctions(s)
    && ItemsInOrder(s.items, s.auctions)
  }

  lemma InitialIsSound(s: State)
    requires Initial(s)
    ensures Sound(s)
  {
    forall g | g in s.wallets ensures Leads(s.auctions, g) == 0 {
      MapSumZero(s.auctions, LeadOf(g));
    }
  }

  /** A reservation covers each bid that leads. */
  lemma LeadIsReserved(s: State, k: Id)
    requires Sound(s) && k in s.auctions && s.auctions[k].status.Active? && s.auctions[k].bids != []
    ensures
      var a := s.auctions[k];
      var high := a.bids[|a.bids| - 1];
      && a.HighestBid() == Some(high)
      && high.guild in s.wallets
      && 0 < high.amount <= s.wallets[high.guild].reserved
  {
    var a := s.auctions[k];
    LeaderIsLast(a);
    var g := a.bids[|a.bids| - 1].guild;
    LeadsNonNegative(s, g);
    assert LeadOf(g)(a) <= Leads(s.auctions, g);
  }

  lemma LeadsNonNegative(s: State, guild: Id)
    requires OrderlyAuctions(s)
    ensures forall k :: k in s.auctions ==> 0 <= LeadOf(guild)(s.auctions[k]) <= Leads(s.auctions, guild)
    ensures Leads(s.auctions, guild) >= 0
  {
    forall k | k in s.auctions ensures LeadOf(guild)(s.auctions[k]) >= 0 {
      LeaderIsLast(s.auctions[k]);
    }
    MapSumBound(s.auctions, LeadOf(guild));
  }

  /** The effect of a purchase, seen from the plain maps. */
  ghost predicate PurchaseEffect(s: State, itemId: Id, buyer: Id, qty: int, now: Time, s': State)
  {
    && itemId in s.items && buyer in s.wallets && s.items[itemId].seller in s.wallets
    && var item := s.items[itemId];
    var seller, cost := item.seller, item.price * qty;
    && buyer != seller && 1 <= qty <= item.quantity && item.status.Available? && !item.rarity.Legendary?
    && 0 < cost <= s.wallets[buyer].total - s.wallets[buyer].reserved
    && (s.wallets[buyer].dailyCap <= 0 || Spent(s.ledger, buyer, StartOfUTCDay(now)) + cost <= s.wallets[buyer].dailyCap)
    && s'.items == s.items[itemId := item.(quantity := item.quantity - qty,
                                           status := if item.quantity == qty then SoldOut else Available)]
    && s'.wallets == s.wallets[buyer := s.wallets[buyer].(total := s.wallets[buyer].total - cost)]
                              [seller := s.wallets[seller].(total := s.wallets[seller].total + cost)]
    && s'.auctions == s.auctions
    && s'.ledger == s.ledger + [Entry(buyer, LedgerDebit, cost, itemId, now),
        Entry(seller, LedgerCredit, cost, itemId, now)]
  }

  lemma PurchaseHasEffect(s: State, itemId: Id, buyer: Id, qty: int, now: Time)
    requires Keyed(s) && Purchase(s, itemId, buyer, qty, now).Ok?
    ensures PurchaseEffect(s, itemId, buyer, qty, now, Purchase(s, itemId, buyer, qty, now).value)
  {
  }

  /** What becomes of a purchase, cause by cause. */
  lemma PurchaseVerdict(s: State, itemId: Id, buyer: Id, qty: int, now: Time)
    requires Sound(s)
    ensures Purchase(s, itemId, buyer, qty, now).Failure() == (
      if qty < 1 then Some(InvalidQuantity)
      else if itemId !in s.items then Some(ItemNotFound)
      else if buyer !in s.wallets || s.items[itemId].seller !in s.wallets then Some(WalletNotFound)
      else
        var item, w := s.items[itemId], s.wallets[buyer];
        if item.rarity.Legendary? then Some(LegendaryNotLimit)
        else if item.seller == buyer then Some(CannotBuyOwnItem)
        else if item.quantity == 0 then Some(ItemNotAvailable)
        else if qty > item.quantity then Some(InsufficientStock)
        else if w.dailyCap > 0 && Spent(s.ledger, buyer, StartOfUTCDay(now)) + item.price * qty > w.dailyCap
        then Some(DailyCapExceeded)
        else if item.price * qty > w.total - w.reserved then Some(InsufficientFunds)
        else None)
  {
    if itemId in s.items && qty >= 1 {
      ListedIsPriced(s.items[itemId], qty, s);
    }
  }

  lemma ListedIsPriced(item: ItemRow, qty: int, s: State)
    requires ItemsInOrder(s.items, s.auctions) && item.id in s.items && s.items[item.id] == item && qty >= 1
    ensures ListingInOrder(item)
    ensures !item.rarity.Legendary? ==> item.price * qty > 0
  {
  }

  /** Exactly when a purchase is accepted. Whether the item is available need not be asked: stock says it. */
  lemma PurchaseOutcome(s: State, itemId: Id, buyer: Id, qty: int, now: Time)
    requires Sound(s)
    ensures
      var r := Purchase(s, itemId, buyer, qty, now);
      && (r.Ok? <==>
            && qty >= 1 && itemId in s.items && buyer in s.wallets && s.items[itemId].seller in s.wallets
            && var item := s.items[itemId];
            && buyer != item.seller && !item.rarity.Legendary? && qty <= item.quantity
            && var w, cost := s.wallets[buyer], item.price * qty;
            && cost <= w.total - w.reserved
            && (w.dailyCap <= 0 || Spent(s.ledger, buyer, StartOfUTCDay(now)) + cost <= w.dailyCap))
      && (r.Ok? ==> PurchaseEffect(s, itemId, buyer, qty, now, r.value))
  {
    PurchaseVerdict(s, itemId, buyer, qty, now);
    if Purchase(s, itemId, buyer, qty, now).Ok? {
      PurchaseHasEffect(s, itemId, buyer, qty, now);
    }
  }

  lemma {:induction false} PurchaseKeepsItems(s: State, itemId: Id, buyer: Id, qty: int, now: Time, s': State)
    requires ItemsInOrder(s.items, s.auctions) && PurchaseEffect(s, itemId, buyer, qty, now, s')
    ensures ItemsInOrder(s'.items, s'.auctions)
  {
  }

  lemma {:induction false} PurchaseKeepsWallets(s: State, itemId: Id, buyer: Id, qty: int, now: Time, s': State)
    requires SolventWallets(s) && ReservedExactly(s) && OrderlyAuctions(s) && PurchaseEffect(s, itemId, buyer, qty, now, s')
    ensures SolventWallets(s') && ReservedExactly(s') && OrderlyAuctions(s')
  {
  }

  lemma {:induction false} PurchaseEffectKeepsSound(s: State, itemId: Id, buyer: Id, qty: int, now: Time, s': State)
    requires Sound(s) && PurchaseEffect(s, itemId, buyer, qty, now, s')
    ensures Sound(s')
  {
    PurchaseKeepsItems(s, itemId, buyer, qty, now, s');
    PurchaseKeepsWallets(s, itemId, buyer, qty, now, s');
  }

  lemma {:induction false} NewAuctionKeepsItems(s: State, item: ItemRow, a: AuctionRow)
    requires ItemsInOrder(s.items, s.auctions) && item.id !in s.items && a.id !in s.auctions
    requires item.rarity.Legendary? && ListingInOrder(item) && item.status.InAuction?
    requires a.itemId == item.id && a.seller == item.seller && a.status.Active?
    ensures ItemsInOrder(s.items[item.id := item], s.auctions[a.id := a])
  {
    var auctions' := s.auctions[a.id := a];
    assert a.id in auctions' && auctions'[a.id].itemId == item.id;
    forall i | i in s.items && s.items[i].rarity.Legendary? ensures Auctioned(auctions', i) {
      var k :| k in s.auctions && s.auctions[k].itemId == i;
      assert k in auctions' && auctions'[k].itemId == i;
    }
  }

  lemma {:induction false} NewItemKeepsItems(s: State, item: ItemRow)
    requires ItemsInOrder(s.items, s.auctions) && item.id !in s.items
    requires !item.rarity.Legendary? && ListingInOrder(item)
    ensures ItemsInOrder(s.items[item.id := item], s.auctions)
  {
  }

  /** The effect of a listing: one new item and, if it is Legendary, its auction. */
  ghost predicate CreateEffect(cfg: Config, s: State, itemId: Id, auctionId: Id, seller: Id, price: Gold, now: Time,
                               s': State)
  {
    && itemId !in s.items && itemId in s'.items
    && var item := s'.items[itemId];
    && item.id == itemId && item.seller == seller && ListingInOrder(item)
    && s'.items == s.items[itemId := item]
    && s'.wallets == s.wallets && s'.ledger == s.ledger
    && if item.rarity.Legendary? then
         && item.status.InAuction? && price > 0
         && s'.auctions == s.auctions[auctionId := AuctionRow(auctionId, itemId, seller, price, now + cfg.window,
                                                              cfg.extension, Active, [], now)]
       else s'.auctions == s.auctions
  }

  lemma CreateItemHasEffect(cfg: Config, s: State, itemId: Id, auctionId: Id, rarity: Rarity, seller: Id,
                            price: Gold, quantity: int, now: Time)
    requires CreateItem(cfg, s, itemId, auctionId, rarity, seller, price, quantity, now).Ok?
    ensures CreateEffect(cfg, s, itemId, auctionId, seller, price, now,
                         CreateItem(cfg, s, itemId, auctionId, rarity, seller, price, quantity, now).value)
  {
    var s' := CreateItem(cfg, s, itemId, auctionId, rarity, seller, price, quantity, now).value;
    assert s'.items == s.items[itemId := s'.items[itemId]];
  }

  /** Exactly when a listing is accepted, what becomes of a refused one, cause by cause, and all that an accepted one
      writes: the item as asked for, and for a Legendary one its auction, open for one window. */
  lemma {:induction false} CreateOutcome(cfg: Config, s: State, itemId: Id, auctionId: Id, rarity: Rarity, seller: Id,
                                         price: Gold, quantity: int, now: Time)
    requires Sound(s) && auctionId !in s.auctions
    ensures
      var r := CreateItem(cfg, s, itemId, auctionId, rarity, seller, price, quantity, now);
      && (r.Ok? <==>
            !rarity.Unknown? && price > 0 && (rarity.Legendary? || quantity >= 1) && itemId !in s.items)
      && r.Failure() == (
        if rarity.Unknown? then Some(InvalidRarity)
        else if price <= 0 then Some(NonPositiveAmount)
        else if !rarity.Legendary? && quantity < 1 then Some(InvalidQuantity)
        else if itemId in s.items then Some(ItemNotFound)
        else None)
      && (r.Ok? && !rarity.Legendary? ==>
            r.value == s.(items := s.items[itemId := ItemRow(itemId, rarity, seller, price, quantity, Available, now)]))
      && (r.Ok? && rarity.Legendary? ==>
            r.value == s.(items := s.items[itemId := ItemRow(itemId, Legendary, seller, 0, 1, InAuction, now)],
                          auctions := s.auctions[auctionId := AuctionRow(auctionId, itemId, seller, price, now + cfg.window,
                                                                         cfg.extension, Active, [], now)]))
  {
    if itemId !in s.items {
      NewItemHasNoAuction(s, itemId);
    }
    if rarity.Legendary? {
      var item := ItemRow(itemId, Legendary, seller, 0, 1, Available, now);
      assert s.items[itemId := item][itemId := item.(status := InAuction)] == s.items[itemId := item.(status := InAuction)];
    }
  }

  lemma NewItemHasNoAuction(s: State, itemId: Id)
    requires ItemsInOrder(s.items, s.auctions) && itemId !in s.items
    ensures ActiveAuction(s.auctions, itemId) == Err(AuctionNotFound)
  {
    var r := ActiveAuction(s.auctions, itemId);
    assert r.Ok? ==> Belongs(s.items, s.auctions[r.value]);
  }

  /** Opening an auction, on any state: at most one active auction per item. */
  lemma OpenAuctionOutcome(cfg: Config, s: State, item: ItemRow, auctionId: Id, startPrice: Gold, now: Time)
    ensures
      var r := OpenAuction(cfg, s, item, auctionId, startPrice, now);
      && r.Failure() == (
        if startPrice <= 0 then Some(NonPositiveAmount)
        else if exists k :: k in s.auctions && s.auctions[k].itemId == item.id && s.auctions[k].status.Active?
        then Some(AuctionExists)
        else None)
      && (r.Ok? ==>
            && r.value.items == s.items[item.id := item.(status := InAuction)]
            && r.value.auctions == s.auctions[auctionId := AuctionRow(auctionId, item.id, item.seller, startPrice,
                                                                      now + cfg.window, cfg.extension, Active, [], now)]
            && r.value.wallets == s.wallets && r.value.ledger == s.ledger)
  {
    var r := ActiveAuction(s.auctions, item.id);
    assert r.Ok? ==> ActiveFor(s.auctions[r.value], item.id);
    assert forall k :: k in s.auctions ==>
        (ActiveFor(s.auctions[k], item.id) <==> s.auctions[k].itemId == item.id && s.auctions[k].status.Active?);
  }

  lemma CreateKeepsKeys(cfg: Config, s: State, itemId: Id, auctionId: Id, seller: Id, price: Gold, now: Time, s': State)
    requires Keyed(s) && OrderlyAuctions(s) && CreateEffect(cfg, s, itemId, auctionId, seller, price, now, s')
    ensures Keyed(s') && OrderlyAuctions(s')
  {
  }

  lemma {:induction false} CreateEffectKeepsSound(cfg: Config, s: State, itemId: Id, auctionId: Id, seller: Id,
                                                  price: Gold, now: Time, s': State)
    requires Sound(s) && auctionId !in s.auctions
    requires CreateEffect(cfg, s, itemId, auctionId, seller, price, now, s')
    ensures Sound(s')
  {
    var item := s'.items[itemId];
    CreateKeepsKeys(cfg, s, itemId, auctionId, seller, price, now, s');
    if item.rarity.Legendary? {
      var a := s'.auctions[auctionId];
      NewAuctionKeepsItems(s, item, a);
      EmptyAuctionHoldsNothing(s, a);
    } else {
      NewItemKeepsItems(s, item);
    }
  }

  lemma {:induction false} EmptyAuctionHoldsNothing(s: State, a: AuctionRow)
    requires a.id !in s.auctions && a.bids == []
    ensures forall g :: Leads(s.auctions[a.id := a], g) == Leads(s.auctions, g)
  {
    forall g ensures Leads(s.auctions[a.id := a], g) == Leads(s.auctions, g) {
      MapSumUpdate(s.auctions, LeadOf(g), a.id, a);
    }
  }

  /** The effect of an accepted bid: every wallet's reservation changes by what it gains and loses as leader. */
  ghost predicate BidEffect(s: State, k: Id, bidder: Id, amount: Gold, bidId: Id, now: Time, s': State)
  {
    && k in s.auctions && bidder in s.wallets && amount > 0
    && var a := s.auctions[k];
    && a.PlaceBid(bidId, bidder, amount, now).Ok?
    && amount <= s.wallets[bidder].total - s.wallets[bidder].reserved + LeadOf(bidder)(a)
    && (s.wallets[bidder].dailyCap <= 0
        || Spent(s.ledger, bidder, StartOfUTCDay(now)) + amount <= s.wallets[bidder].dailyCap)
    && s'.items == s.items
    && s'.auctions == s.auctions[k := a.PlaceBid(bidId, bidder, amount, now).value]
    && s'.wallets.Keys == s.wallets.Keys
    && (forall g :: g in s.wallets ==>
          s'.wallets[g] == s.wallets[g].(reserved := s.wallets[g].reserved - LeadOf(g)(a)
                                                     + if g == bidder then amount else 0))
    && s'.ledger == s.ledger + BidEntries(a, bidder, amount, now)
  }

  /** What an accepted bid logs. A leader that raises its own bid logs no release. */
  ghost function BidEntries(a: AuctionRow, bidder: Id, amount: Gold, now: Time): seq<Entry>
  {
    ReleaseEntries(a, bidder, now) + [Entry(bidder, LedgerReserve, amount, a.itemId, now)]
  }

  ghost function ReleaseEntries(a: AuctionRow, bidder: Id, now: Time): seq<Entry>
  {
    match a.HighestBid()
    case None => []
    case Some(high) =>
      if high.guild == bidder then [] else [Entry(high.guild, LedgerRelease, high.amount, a.itemId, now)]
  }

  /** Exactly when a bid is accepted. Releasing the unseated leader is never what refuses it, and a guild that
      raises its own bid may count on the gold it has already reserved for it. */
  ghost predicate BidAccepted(s: State, itemId: Id, bidder: Id, amount: Gold, bidId: Id, now: Time)
  {
    && amount > 0
    && ActiveAuction(s.auctions, itemId).Ok?
    && bidder in s.wallets
    && var a := s.auctions[ActiveAuction(s.auctions, itemId).value];
    && now < a.endsAt && bidder != a.seller
    && (if a.bids == [] then amount >= a.startPrice
        else 100 * (amount - a.bids[|a.bids| - 1].amount) >= 5 * a.bids[|a.bids| - 1].amount)
    && var w := s.wallets[bidder];
    && (w.dailyCap <= 0 || Spent(s.ledger, bidder, StartOfUTCDay(now)) + amount <= w.dailyCap)
    && amount <= w.total - w.reserved + OwnLead(a, bidder)
  }

  /** What the guild has reserved on an auction that it leads. */
  function OwnLead(a: AuctionRow, guild: Id): Gold
  {
    if a.bids != [] && a.bids[|a.bids| - 1].guild == guild then a.bids[|a.bids| - 1].amount else 0
  }

  /** What becomes of a bid, cause by cause. */
  ghost function BidVerdict(s: State, itemId: Id, bidder: Id, amount: Gold, now: Time): Option<Error>
  {
    if amount <= 0 then Some(NonPositiveAmount)
    else if ActiveAuction(s.auctions, itemId).Err? then Some(AuctionNotFound)
    else if bidder !in s.wallets then Some(WalletNotFound)
    else
      var a, w := s.auctions[ActiveAuction(s.auctions, itemId).value], s.wallets[bidder];
      if now >= a.endsAt then Some(AuctionClosed)
      else if bidder == a.seller then Some(CannotBidOwnItem)
      else if a.bids == [] && amount < a.startPrice then Some(BidTooLow)
      else if a.bids != [] && 100 * (amount - a.bids[|a.bids| - 1].amount) < 5 * a.bids[|a.bids| - 1].amount
      then Some(BidTooLow)
      else if w.dailyCap > 0 && Spent(s.ledger, bidder, StartOfUTCDay(now)) + amount > w.dailyCap
      then Some(DailyCapExceeded)
      else if amount > w.total - w.reserved + OwnLead(a, bidder) then Some(InsufficientFunds)
      else None
  }

  /** The leader of `a`, if any, has a wallet that holds its reservation. */
  ghost predicate LeadCovered(s: State, a: AuctionRow)
  {
    a.HighestBid().Some? ==>
      var high := a.HighestBid().value;
      && high.guild in s.wallets
      && s.wallets[high.guild].guild == high.guild
      && 0 < high.amount <= s.wallets[high.guild].reserved
  }

  lemma {:induction false} LeadsAreCovered(s: State, k: Id)
    requires Sound(s) && k in s.auctions && s.auctions[k].status.Active?
    ensures LeadCovered(s, s.auctions[k])
  {
    LeaderIsLast(s.auctions[k]);
    if s.auctions[k].bids != [] {
      LeadIsReserved(s, k);
    }
  }

  /** Releasing the leader succeeds, and takes its lead out of its reservation. */
  ghost predicate Released(s: State, a: AuctionRow, bidder: Id, now: Time, s': State)
  {
    && s' == s.(wallets := s'.wallets, ledger := s.ledger + ReleaseEntries(a, bidder, now))
    && s'.wallets.Keys == s.wallets.Keys
    && forall g :: g in s.wallets ==> s'.wallets[g] == s.wallets[g].(reserved := s.wallets[g].reserved - LeadOf(g)(a))
  }

  lemma ReleaseLeaderOutcome(s: State, a: AuctionRow, bidder: Id, now: Time)
    requires LeadCovered(s, a) && a.status.Active?
    ensures ReleaseLeader(s, a, bidder, now).Ok?
    ensures Released(s, a, bidder, now, ReleaseLeader(s, a, bidder, now).value)
  {
    assert s.ledger + [] == s.ledger;
  }

  lemma BidOutcomeAfterRelease(s: State, itemId: Id, bidder: Id, amount: Gold, bidId: Id, now: Time, s1: State)
    requires ActiveAuction(s.auctions, itemId).Ok?
    requires ReleaseLeader(s, s.auctions[ActiveAuction(s.auctions, itemId).value], bidder, now) == Ok(s1)
    requires Released(s, s.auctions[ActiveAuction(s.auctions, itemId).value], bidder, now, s1)
    requires bidder in s.wallets ==> s.wallets[bidder].guild == bidder
    requires s.auctions[ActiveAuction(s.auctions, itemId).value].id == ActiveAuction(s.auctions, itemId).value
    requires Orderly(s.auctions[ActiveAuction(s.auctions, itemId).value])
    ensures
      var r := BidOnItem(s, itemId, bidder, amount, bidId, now);
      && r.Failure() == BidVerdict(s, itemId, bidder, amount, now)
      && (r.Ok? ==> BidEffect(s, ActiveAuction(s.auctions, itemId).value, bidder, amount, bidId, now, r.value))
  {
    var a := s.auctions[ActiveAuction(s.auctions, itemId).value];
    LeaderIsLast(a);
    PlaceBidVerdict(a, bidId, bidder, amount, now);
    var e := Entry(bidder, LedgerReserve, amount, a.itemId, now);
    assert s1.ledger + [e] == s.ledger + BidEntries(a, bidder, amount, now);
  }

  lemma {:induction false} BidOutcome(s: State, itemId: Id, bidder: Id, amount: Gold, bidId: Id, now: Time)
    requires Sound(s)
    ensures
      var r := BidOnItem(s, itemId, bidder, amount, bidId, now);
      && (r.Ok? <==> BidAccepted(s, itemId, bidder, amount, bidId, now))
      && r.Failure() == BidVerdict(s, itemId, bidder, amount, now)
      && r != Err(ReserveTooLarge)
      && (r.Ok? ==> BidEffect(s, ActiveAuction(s.auctions, itemId).value, bidder, amount, bidId, now, r.value))
  {
    AcceptedIsNoCause(s, itemId, bidder, amount, bidId, now);
    if ActiveAuction(s.auctions, itemId).Ok? {
      BidOnActive(s, itemId, bidder, amount, bidId, now);
    }
  }

  lemma AcceptedIsNoCause(s: State, itemId: Id, bidder: Id, amount: Gold, bidId: Id, now: Time)
    ensures BidAccepted(s, itemId, bidder, amount, bidId, now) <==> BidVerdict(s, itemId, bidder, amount, now).None?
  {
  }

  lemma {:induction false} BidOnActive(s: State, itemId: Id, bidder: Id, amount: Gold, bidId: Id, now: Time)
    requires Sound(s) && ActiveAuction(s.auctions, itemId).Ok?
    ensures
      var r := BidOnItem(s, itemId, bidder, amount, bidId, now);
      && r.Failure() == BidVerdict(s, itemId, bidder, amount, now)
      && (r.Ok? ==> BidEffect(s, ActiveAuction(s.auctions, itemId).value, bidder, amount, bidId, now, r.value))
  {
    var k := ActiveAuction(s.auctions, itemId).value;
    LeadsAreCovered(s, k);
    ReleaseLeaderOutcome(s, s.auctions[k], bidder, now);
    BidOutcomeAfterRelease(s, itemId, bidder, amount, bidId, now, ReleaseLeader(s, s.auctions[k], bidder, now).value);
  }

  /** All that an accepted bid writes: the new bid at the end of its auction, the closing time, and who is owed what. */
  ghost predicate BidWritten(s: State, k: Id, bidder: Id, amount: Gold, bidId: Id, now: Time, s': State)
  {
    && k in s.auctions && bidder in s.wallets
    && var a := s.auctions[k];
    && s'.items == s.items
    && s'.auctions == s.auctions[k := a.(bids := a.bids + [Bid(bidId, bidder, amount, true, now)],
                                         endsAt := if a.extension > 0 && a.endsAt - now < a.extension
                                                   then now + a.extension else a.endsAt)]
    && s'.wallets.Keys == s.wallets.Keys
    && (forall g :: g in s.wallets ==>
          s'.wallets[g] == s.wallets[g].(reserved := s.wallets[g].reserved - OwnLead(a, g)
                                                     + if g == bidder then amount else 0))
    && s'.ledger == s.ledger
         + (if a.bids == [] || a.bids[|a.bids| - 1].guild == bidder then []
            else [Entry(a.bids[|a.bids| - 1].guild, LedgerRelease, a.bids[|a.bids| - 1].amount, a.itemId, now)])
         + [Entry(bidder, LedgerReserve, amount, a.itemId, now)]
  }

  lemma {:induction false} BidWrites(s: State, itemId: Id, bidder: Id, amount: Gold, bidId: Id, now: Time)
    requires Sound(s) && BidOnItem(s, itemId, bidder, amount, bidId, now).Ok?
    ensures ActiveAuction(s.auctions, itemId).Ok? && bidder in s.wallets
    ensures BidWritten(s, ActiveAuction(s.auctions, itemId).value, bidder, amount, bidId, now,
                       BidOnItem(s, itemId, bidder, amount, bidId, now).value)
  {
    BidOutcome(s, itemId, bidder, amount, bidId, now);
    var k := ActiveAuction(s.auctions, itemId).value;
    assert Orderly(s.auctions[k]);
    EffectIsWritten(s, k, bidder, amount, bidId, now, BidOnItem(s, itemId, bidder, amount, bidId, now).value);
  }

  lemma {:induction false} EffectIsWritten(s: State, k: Id, bidder: Id, amount: Gold, bidId: Id, now: Time, s': State)
    requires BidEffect(s, k, bidder, amount, bidId, now, s') && Orderly(s.auctions[k]) && s.auctions[k].status.Active?
    ensures BidWritten(s, k, bidder, amount, bidId, now, s')
  {
    PlaceBidVerdict(s.auctions[k], bidId, bidder, amount, now);
    LastIsWhatIsOwed(s.auctions[k], bidder, now);
  }

  lemma {:induction false} LastIsWhatIsOwed(a: AuctionRow, bidder: Id, now: Time)
    requires Orderly(a) && a.status.Active?
    ensures forall g :: LeadOf(g)(a) == OwnLead(a, g)
    ensures ReleaseEntries(a, bidder, now)
         == if a.bids == [] || a.bids[|a.bids| - 1].guild == bidder then []
            else [Entry(a.bids[|a.bids| - 1].guild, LedgerRelease, a.bids[|a.bids| - 1].amount, a.itemId, now)]
  {
    LeaderIsLast(a);
  }

  /** Replacing an auction by one of the same item, seller and standing disturbs no item. */
  lemma {:induction false} ReplaceAuctionKeepsItems(items: map<Id, ItemRow>, auctions: map<Id, AuctionRow>, k: Id,
                                                    a: AuctionRow)
    requires ItemsInOrder(items, auctions) && k in auctions
    requires a.itemId == auctions[k].itemId && a.seller == auctions[k].seller
        && ItemStatusFor(a) == ItemStatusFor(auctions[k])
    ensures ItemsInOrder(items, auctions[k := a])
  {
    var auctions' := auctions[k := a];
    forall i | i in items && items[i].rarity.Legendary? ensures Auctioned(auctions', i) {
      var l :| l in auctions && auctions[l].itemId == i;
      assert l in auctions' && auctions'[l].itemId == i;
    }
  }

  lemma {:induction false} BidKeepsWallet(s: State, k: Id, bidder: Id, amount: Gold, bidId: Id, now: Time, s': State, g: Id)
    requires g in s.wallets && s.wallets[g].Solvent() && s.wallets[g].reserved == Leads(s.auctions, g)
    requires k in s.auctions && Orderly(s.auctions[k]) && LeadOf(g)(s.auctions[k]) <= Leads(s.auctions, g)
    requires BidEffect(s, k, bidder, amount, bidId, now, s')
    ensures s'.wallets[g].Solvent() && s'.wallets[g].reserved == Leads(s'.auctions, g)
  {
    LeadAfterBid(s.auctions[k], bidId, bidder, amount, now, g);
    MapSumUpdate(s.auctions, LeadOf(g), k, s'.auctions[k]);
  }

  lemma {:induction false} LeadAfterBid(a: AuctionRow, bidId: Id, bidder: Id, amount: Gold, now: Time, g: Id)
    requires Orderly(a) && a.PlaceBid(bidId, bidder, amount, now).Ok?
    ensures LeadOf(g)(a.PlaceBid(bidId, bidder, amount, now).value) == if g == bidder then amount else 0
    ensures LeadOf(g)(a) >= 0
  {
    LeaderIsLast(a);
    PlaceBidKeepsOrder(a, bidId, bidder, amount, now);
  }

  lemma {:induction false} BidKeepsWallets(s: State, k: Id, bidder: Id, amount: Gold, bidId: Id, now: Time, s': State)
    requires SolventWallets(s) && ReservedExactly(s) && OrderlyAuctions(s)
    requires BidEffect(s, k, bidder, amount, bidId, now, s')
    ensures SolventWallets(s') && ReservedExactly(s')
  {
    forall g | g in s.wallets ensures s'.wallets[g].Solvent() && s'.wallets[g].reserved == Leads(s'.auctions, g) {
      LeadsNonNegative(s, g);
      BidKeepsWallet(s, k, bidder, amount, bidId, now, s', g);
    }
  }

  lemma {:induction false} BidKeepsOrderly(s: State, k: Id, bidder: Id, amount: Gold, bidId: Id, now: Time, s': State)
    requires OrderlyAuctions(s) && BidEffect(s, k, bidder, amount, bidId, now, s')
    ensures OrderlyAuctions(s')
  {
    PlaceBidKeepsOrder(s.auctions[k], bidId, bidder, amount, now);
    BidderIsFunded(s.wallets, s'.wallets, s.auctions[k].bids, Bid(bidId, bidder, amount, true, now));
    forall l | l in s'.auctions ensures Orderly(s'.auctions[l]) && BiddersFunded(s'.wallets, s'.auctions[l].bids) {
      assert l in s.auctions && Orderly(s.auctions[l]) && BiddersFunded(s.wallets, s.auctions[l].bids);
    }
  }

  lemma BidderIsFunded(wallets: map<Id, WalletRow>, wallets': map<Id, WalletRow>, bids: seq<Bid>, b: Bid)
    requires BiddersFunded(wallets, bids) && b.guild in wallets && wallets'.Keys == wallets.Keys
    ensures BiddersFunded(wallets', bids + [b])
  {
  }

  lemma BidKeepsKeys(s: State, k: Id, bidder: Id, amount: Gold, bidId: Id, now: Time, s': State)
    requires Keyed(s) && BidEffect(s, k, bidder, amount, bidId, now, s')
    ensures Keyed(s')
  {
  }

  lemma BidKeepsItems(s: State, k: Id, bidder: Id, amount: Gold, bidId: Id, now: Time, s': State)
    requires ItemsInOrder(s.items, s.auctions) && BidEffect(s, k, bidder, amount, bidId, now, s')
    ensures ItemsInOrder(s'.items, s'.auctions)
  {
    ReplaceAuctionKeepsItems(s.items, s.auctions, k, s'.auctions[k]);
  }

  lemma {:induction false} BidEffectKeepsSound(s: State, k: Id, bidder: Id, amount: Gold, bidId: Id, now: Time, s': State)
    requires Sound(s) && BidEffect(s, k, bidder, amount, bidId, now, s')
    ensures Sound(s')
  {
    BidKeepsKeys(s, k, bidder, amount, bidId, now, s');
    BidKeepsWallets(s, k, bidder, amount, bidId, now, s');
    BidKeepsOrderly(s, k, bidder, amount, bidId, now, s');
    BidKeepsItems(s, k, bidder, amount, bidId, now, s');
  }

  /** The effect of an accepted withdrawal: one losing bid is marked withdrawn. */
  ghost predicate CancelEffect(s: State, k: Id, bidId: Id, guild: Id, s': State)
  {
    && k in s.auctions
    && s.auctions[k].CancelBid(bidId, guild).Ok?
    && s' == s.(auctions := s.auctions[k := s.auctions[k].CancelBid(bidId, guild).value])
  }

  lemma {:induction false} CancelHasEffect(s: State, itemId: Id, bidId: Id, guild: Id)
    requires Keyed(s) && CancelBidOnItem(s, itemId, bidId, guild).Ok?
    ensures CancelEffect(s, ActiveAuction(s.auctions, itemId).value, bidId, guild,
        CancelBidOnItem(s, itemId, bidId, guild).value)
  {
  }

  /** What becomes of a withdrawal, cause by cause, and all that an accepted one writes: one bid is marked. */
  lemma {:induction false} CancelOutcome(s: State, itemId: Id, bidId: Id, guild: Id)
    requires Sound(s)
    requires forall k :: k in s.auctions ==> DistinctIds(s.auctions[k].bids)
    ensures
      var r, k := CancelBidOnItem(s, itemId, bidId, guild), ActiveAuction(s.auctions, itemId);
      if k.Err? then r == Err(AuctionNotFound)
      else
        var a := s.auctions[k.value];
        var n := |a.bids|;
        && r.Failure() == (
          if n > 0 && a.bids[n - 1].id == bidId then Some(CannotCancelLeader)
          else if exists i :: 0 <= i < n && a.bids[i].id == bidId && a.bids[i].guild == guild && a.bids[i].active then None
          else Some(BidNotFound))
        && forall i :: 0 <= i < n - 1 && a.bids[i].id == bidId && a.bids[i].guild == guild && a.bids[i].active ==>
             r == Ok(s.(auctions := s.auctions[k.value := a.(bids := a.bids[i := a.bids[i].(active := false)])]))
  {
    var k := ActiveAuction(s.auctions, itemId);
    if k.Ok? {
      var a := s.auctions[k.value];
      CancelBidVerdict(a, bidId, guild);
      CancelAcceptedIff(a, bidId, guild);
    }
  }

  lemma {:induction false} CancelKeepsAuctions(s: State, k: Id, bidId: Id, guild: Id, s': State)
    requires Keyed(s) && OrderlyAuctions(s) && CancelEffect(s, k, bidId, guild, s')
    ensures Keyed(s') && OrderlyAuctions(s')
  {
    CancelKeepsLeader(s.auctions[k], bidId, guild);
  }

  lemma {:induction false} CancelKeepsLeads(s: State, k: Id, bidId: Id, guild: Id, s': State)
    requires k in s.auctions && Orderly(s.auctions[k]) && CancelEffect(s, k, bidId, guild, s')
    ensures forall g :: Leads(s'.auctions, g) == Leads(s.auctions, g)
  {
    CancelKeepsLeader(s.auctions[k], bidId, guild);
    forall g ensures Leads(s'.auctions, g) == Leads(s.auctions, g) {
      MapSumUpdate(s.auctions, LeadOf(g), k, s'.auctions[k]);
    }
  }

  lemma {:induction false} CancelEffectKeepsSound(s: State, k: Id, bidId: Id, guild: Id, s': State)
    requires Sound(s) && CancelEffect(s, k, bidId, guild, s')
    ensures Sound(s')
  {
    CancelKeepsAuctions(s, k, bidId, guild, s');
    CancelKeepsLeads(s, k, bidId, guild, s');
    ReplaceAuctionKeepsItems(s.items, s.auctions, k, s'.auctions[k]);
    assert ReservedExactly(s');
  }

  /** What an auction pays its seller when it closes. */
  ghost function SaleOf(guild: Id): AuctionRow -> int {
    (a: AuctionRow) => if a.seller == guild && a.HighestBid().Some? then a.HighestBid().value.amount else 0
  }

  /** The effect of closing one auction: the winner's reservation leaves its wallet, the seller earns it. */
  ghost predicate SettleEffect(s: State, a: AuctionRow, now: Time, s': State)
  {
    && a.id in s.auctions && s.auctions[a.id] == a && a.status.Active? && a.itemId in s.items
    && (a.HighestBid().Some? ==> a.seller in s.wallets)
    && s'.items == s.items[a.itemId := s.items[a.itemId].(status := if a.HighestBid().Some? then SoldOut else Available)]
    && s'.auctions == s.auctions[a.id := a.(status := Settled)]
    && s'.wallets.Keys == s.wallets.Keys
    && (forall g :: g in s.wallets ==>
          s'.wallets[g] == s.wallets[g].(total := s.wallets[g].total - LeadOf(g)(a) + SaleOf(g)(a),
                                         reserved := s.wallets[g].reserved - LeadOf(g)(a)))
    && s'.ledger == s.ledger + SettleEntries(a, now)
  }

  ghost function SettleEntries(a: AuctionRow, now: Time): seq<Entry>
  {
    match a.HighestBid()
    case None => []
    case Some(winner) =>
      [Entry(winner.guild, LedgerSettle, winner.amount, a.itemId, now),
          Entry(a.seller, LedgerCredit, winner.amount, a.itemId, now)]
  }

  lemma PayOutcome(s: State, a: AuctionRow)
    requires LeadCovered(s, a) && a.status.Active? && a.HighestBid().Some?
    requires a.seller in s.wallets ==> s.wallets[a.seller].guild == a.seller
    ensures
      var r := Pay(s, a.seller, a.HighestBid().value);
      && r == (if a.seller in s.wallets then Ok(s.(wallets := r.value.wallets)) else Err(WalletNotFound))
      && (r.Ok? ==>
            && r.value.wallets.Keys == s.wallets.Keys
            && forall g :: g in s.wallets ==>
                 r.value.wallets[g] == s.wallets[g].(total := s.wallets[g].total - LeadOf(g)(a) + SaleOf(g)(a),
                                                     reserved := s.wallets[g].reserved - LeadOf(g)(a)))
  {
  }

  /** Whether a due auction can be closed: with a winner, its seller must have a wallet. Nothing else can fail. */
  ghost predicate Settleable(s: State, a: AuctionRow)
  {
    a.bids != [] ==> a.seller in s.wallets
  }

  lemma {:induction false} SettleOneOutcome(s: State, a: AuctionRow, now: Time)
    requires Sound(s) && a.id in s.auctions && s.auctions[a.id] == a && a.status.Active?
    ensures
      var r := SettleOne(s, a, now);
      && (r.Ok? <==> Settleable(s, a))
      && (r.Err? ==> r == Err(WalletNotFound))
      && (r.Ok? ==> SettleEffect(s, a, now, r.value))
  {
    LeaderIsLast(a);
    LeadsAreCovered(s, a.id);
    assert Belongs(s.items, a);
    assert a.itemId in s.items && s.items[a.itemId].id == a.itemId;
    if a.bids != [] {
      assert a.seller in s.wallets ==> s.wallets[a.seller].guild == a.seller;
      SettleOneWithWinner(s, a, now);
    } else {
      SettleOneWithoutBids(s, a, now);
    }
  }

  /** All that a closing writes: without a bid, the statuses of item and auction; with one, the newest bid is paid by its
      guild out of its reservation to the seller, and both movements are logged. */
  lemma {:induction false} ClosingWrites(s: State, a: AuctionRow, now: Time)
    requires Sound(s) && a.id in s.auctions && s.auctions[a.id] == a && a.status.Active? && SettleOne(s, a, now).Ok?
    ensures ClosingWritten(s, a, now, SettleOne(s, a, now).value)
  {
    SettleOneOutcome(s, a, now);
    assert Orderly(a) && BiddersFunded(s.wallets, a.bids);
    SettleIsWritten(s, a, now, SettleOne(s, a, now).value);
  }

  lemma {:induction false} SettleIsWritten(s: State, a: AuctionRow, now: Time, s': State)
    requires SettleEffect(s, a, now, s') && Orderly(a) && BiddersFunded(s.wallets, a.bids)
    ensures ClosingWritten(s, a, now, s')
  {
    LeaderIsLast(a);
    if a.bids == [] {
      assert s'.ledger == s.ledger;
    } else {
      SettledWalletsWritten(s.wallets, a, s'.wallets);
    }
  }

  lemma {:induction false} SettledWalletsWritten(wallets: map<Id, WalletRow>, a: AuctionRow, after: map<Id, WalletRow>)
    requires Orderly(a) && a.status.Active? && a.bids != [] && BiddersFunded(wallets, a.bids) && a.seller in wallets
    requires after.Keys == wallets.Keys
    requires forall g :: g in wallets ==>
               after[g] == wallets[g].(total := wallets[g].total - LeadOf(g)(a) + SaleOf(g)(a),
                                       reserved := wallets[g].reserved - LeadOf(g)(a))
    ensures
      var b := a.bids[|a.bids| - 1];
      && b.guild in wallets && b.guild != a.seller
      && after == wallets[b.guild := wallets[b.guild].(total := wallets[b.guild].total - b.amount,
                                                       reserved := wallets[b.guild].reserved - b.amount)]
                         [a.seller := wallets[a.seller].(total := wallets[a.seller].total + b.amount)]
  {
    LeaderIsLast(a);
    var b := a.bids[|a.bids| - 1];
    assert b.guild in wallets && b.guild != a.seller;
  }

  ghost predicate ClosingWritten(s: State, a: AuctionRow, now: Time, s': State)
  {
    && a.itemId in s.items
    && s'.auctions == s.auctions[a.id := a.(status := Settled)]
    && s'.items == s.items[a.itemId := s.items[a.itemId].(status := if a.bids == [] then Available else SoldOut)]
    && if a.bids == [] then s'.wallets == s.wallets && s'.ledger == s.ledger
       else
         var b := a.bids[|a.bids| - 1];
         && b.guild in s.wallets && a.seller in s.wallets
         && s'.wallets == s.wallets[b.guild := s.wallets[b.guild].(total := s.wallets[b.guild].total - b.amount,
                                                                   reserved := s.wallets[b.guild].reserved - b.amount)]
                                   [a.seller := s.wallets[a.seller].(total := s.wallets[a.seller].total + b.amount)]
         && s'.ledger == s.ledger + [Entry(b.guild, LedgerSettle, b.amount, a.itemId, now),
                                     Entry(a.seller, LedgerCredit, b.amount, a.itemId, now)]
  }

  lemma SettleOneWithWinner(s: State, a: AuctionRow, now: Time)
    requires a.id in s.auctions && s.auctions[a.id] == a && a.status.Active? && a.HighestBid().Some?
    requires a.itemId in s.items && s.items[a.itemId].id == a.itemId
    requires a.seller in s.wallets ==> s.wallets[a.seller].guild == a.seller
    requires LeadCovered(s, a)
    ensures a.seller !in s.wallets ==> SettleOne(s, a, now) == Err(WalletNotFound)
    ensures a.seller in s.wallets ==> SettleOne(s, a, now).Ok? && SettleEffect(s, a, now, SettleOne(s, a, now).value)
  {
    PayOutcome(s, a);
  }

  lemma SettleOneWithoutBids(s: State, a: AuctionRow, now: Time)
    requires a.id in s.auctions && s.auctions[a.id] == a && a.status.Active? && a.HighestBid().None?
    requires a.itemId in s.items && s.items[a.itemId].id == a.itemId
    ensures SettleOne(s, a, now).Ok? && SettleEffect(s, a, now, SettleOne(s, a, now).value)
  {
    assert s.ledger + [] == s.ledger;
  }

  lemma {:induction false} SettleKeepsWallet(s: State, a: AuctionRow, now: Time, s': State, g: Id)
    requires g in s.wallets && s.wallets[g].Solvent() && s.wallets[g].reserved == Leads(s.auctions, g)
    requires Orderly(a) && LeadOf(g)(a) <= Leads(s.auctions, g)
    requires SettleEffect(s, a, now, s')
    ensures s'.wallets[g].Solvent() && s'.wallets[g].reserved == Leads(s'.auctions, g)
  {
    LeaderIsLast(a);
    MapSumUpdate(s.auctions, LeadOf(g), a.id, a.(status := Settled));
  }

  lemma {:induction false} SettleKeepsWallets(s: State, a: AuctionRow, now: Time, s': State)
    requires SolventWallets(s) && ReservedExactly(s) && OrderlyAuctions(s) && SettleEffect(s, a, now, s')
    ensures SolventWallets(s') && ReservedExactly(s')
  {
    forall g | g in s.wallets ensures s'.wallets[g].Solvent() && s'.wallets[g].reserved == Leads(s'.auctions, g) {
      LeadsNonNegative(s, g);
      SettleKeepsWallet(s, a, now, s', g);
    }
  }

  lemma SettleKeepsAuctions(s: State, a: AuctionRow, now: Time, s': State)
    requires Keyed(s) && OrderlyAuctions(s) && SettleEffect(s, a, now, s')
    ensures Keyed(s') && OrderlyAuctions(s')
  {
  }

  lemma {:induction false} SettleKeepsItems(s: State, a: AuctionRow, now: Time, s': State)
    requires ItemsInOrder(s.items, s.auctions) && Orderly(a) && SettleEffect(s, a, now, s')
    ensures ItemsInOrder(s'.items, s'.auctions)
  {
    LeaderIsLast(a);
    CloseAuctionKeepsItems(s.items, s.auctions, a.id);
  }

  lemma {:induction false} CloseAuctionKeepsItems(items: map<Id, ItemRow>, auctions: map<Id, AuctionRow>, k: Id)
    requires ItemsInOrder(items, auctions) && k in auctions
    ensures
      var closed := auctions[k].(status := Settled);
      && closed.itemId in items
      && ItemsInOrder(items[closed.itemId := items[closed.itemId].(status := ItemStatusFor(closed))], auctions[k := closed])
  {
    var closed := auctions[k].(status := Settled);
    assert Belongs(items, auctions[k]);
    var items', auctions' := items[closed.itemId := items[closed.itemId].(status := ItemStatusFor(closed))],
        auctions[k := closed];
    forall i | i in items' && items'[i].rarity.Legendary? ensures Auctioned(auctions', i) {
      var l :| l in auctions && auctions[l].itemId == i;
      assert l in auctions' && auctions'[l].itemId == i;
    }
    forall l | l in auctions' ensures Belongs(items', auctions'[l]) {
      assert Belongs(items, auctions[l]);
    }
  }

  lemma {:induction false} SettleEffectKeepsSound(s: State, a: AuctionRow, now: Time, s': State)
    requires Sound(s) && SettleEffect(s, a, now, s')
    ensures Sound(s')
  {
    SettleKeepsAuctions(s, a, now, s');
    SettleKeepsWallets(s, a, now, s');
    SettleKeepsItems(s, a, now, s');
  }

  /** The listed auctions are active and stored as listed. */
  ghost predicate Offered(s: State, due: seq<AuctionRow>)
  {
    && DistinctAuctions(due)
    && forall a :: a in due ==> a.id in s.auctions && s.auctions[a.id] == a && a.status.Active?
  }

  /** The auctions after the listed ones are closed. */
  ghost function Closed(auctions: map<Id, AuctionRow>, due: seq<AuctionRow>): map<Id, AuctionRow>
  {
    map k | k in auctions :: if auctions[k] in due then auctions[k].(status := Settled) else auctions[k]
  }

  /** Closing a list of auctions one by one keeps every invariant and closes exactly those listed. */
  lemma {:induction false} SettleAllOutcome(s: State, due: seq<AuctionRow>, now: Time)
    requires Sound(s) && Offered(s, due)
    ensures
      var r := SettleAll(s, due, now);
      && (r.Ok? <==> forall a :: a in due ==> Settleable(s, a))
      && (r.Err? ==> r == Err(WalletNotFound))
      && (r.Ok? ==> Sound(r.value) && r.value.wallets.Keys == s.wallets.Keys && r.value.auctions == Closed(s.auctions, due))
  {
    if due == [] {
      assert Closed(s.auctions, due) == s.auctions;
    } else {
      var front, last := due[..|due| - 1], due[|due| - 1];
      assert due == front + [last];
      SettleAllOutcome(s, front, now);
      var r := SettleAll(s, front, now);
      if r.Ok? {
        assert last !in front;
        ClosedPush(s.auctions, front, last);
        SettleOneMore(r.value, last, now);
      }
    }
  }

  lemma {:induction false} SettleOneMore(s: State, a: AuctionRow, now: Time)
    requires Sound(s) && a.id in s.auctions && s.auctions[a.id] == a && a.status.Active?
    ensures
      var r := SettleOne(s, a, now);
      && (r.Ok? <==> Settleable(s, a))
      && (r.Err? ==> r == Err(WalletNotFound))
      && (r.Ok? ==> Sound(r.value) && r.value.wallets.Keys == s.wallets.Keys
                    && r.value.auctions == s.auctions[a.id := a.(status := Settled)])
  {
    SettleOneOutcome(s, a, now);
    if SettleOne(s, a, now).Ok? {
      SettleEffectKeepsSound(s, a, now, SettleOne(s, a, now).value);
    }
  }

  lemma ClosedPush(auctions: map<Id, AuctionRow>, front: seq<AuctionRow>, last: AuctionRow)
    requires DistinctAuctions(front + [last])
    requires forall a :: a in front + [last] ==> a.id in auctions && auctions[a.id] == a
    requires forall k :: k in auctions ==> auctions[k].id == k
    ensures Closed(auctions, front + [last]) == Closed(auctions, front)[last.id := last.(status := Settled)]
    ensures Closed(auctions, front)[last.id] == last
  {
    var due := front + [last];
    assert due[|front|] == last;
    forall i | 0 <= i < |front| ensures front[i].id != last.id {
      assert due[i] == front[i];
    }
    assert forall a :: a in due <==> a in front || a == last;
  }

  /** The last closing of a list starts from a sound state that still holds the last auction as listed. */
  lemma {:induction false} SettleAllSplits(s: State, due: seq<AuctionRow>, now: Time)
    requires Sound(s) && Offered(s, due) && due != [] && SettleAll(s, due, now).Ok?
    ensures
      var front, last := due[..|due| - 1], due[|due| - 1];
      var r1 := SettleAll(s, front, now);
      && due == front + [last] && last in due
      && Offered(s, front) && r1.Ok? && Sound(r1.value)
      && last.id in r1.value.auctions && r1.value.auctions[last.id] == last && last.status.Active?
      && SettleOne(r1.value, last, now) == SettleAll(s, due, now)
  {
    var front, last := due[..|due| - 1], due[|due| - 1];
    assert due == front + [last];
    SettleAllOutcome(s, front, now);
    ClosedPush(s.auctions, front, last);
  }

  lemma {:induction false} ApplyKeepsSound(cfg: Config, s: State, op: Op)
    requires Sound(s) && Admissible(s, op)
    ensures Sound(Apply(cfg, s, op))
  {
    var r := Attempt(cfg, s, op);
    if r.Ok? {
      match op
      case ListItem(itemId, auctionId, rarity, seller, price, quantity, now) =>
        CreateItemHasEffect(cfg, s, itemId, auctionId, rarity, seller, price, quantity, now);
        CreateEffectKeepsSound(cfg, s, itemId, auctionId, seller, price, now, r.value);
      case Buy(itemId, buyer, qty, now) =>
        PurchaseHasEffect(s, itemId, buyer, qty, now);
        PurchaseEffectKeepsSound(s, itemId, buyer, qty, now, r.value);
      case PlaceBid(itemId, bidder, amount, bidId, now) =>
        BidOutcome(s, itemId, bidder, amount, bidId, now);
        BidEffectKeepsSound(s, ActiveAuction(s.auctions, itemId).value, bidder, amount, bidId, now, r.value);
      case Withdraw(itemId, bidId, guild) =>
        CancelHasEffect(s, itemId, bidId, guild);
        CancelEffectKeepsSound(s, ActiveAuction(s.auctions, itemId).value, bidId, guild, r.value);
      case SettleDue(due, now) =>
        SettleAllOutcome(s, due, now);
    }
  }

  /** Every state a run can reach satisfies every invariant. */
  lemma {:induction false} RunKeepsSound(cfg: Config, s: State, ops: seq<Op>)
    requires Sound(s) && Legal(cfg, s, ops)
    ensures Sound(Exec(cfg, s, ops))
  {
    if ops != [] {
      RunKeepsSound(cfg, s, ops[..|ops| - 1]);
      ApplyKeepsSound(cfg, Exec(cfg, s, ops[..|ops| - 1]), ops[|ops| - 1]);
    }
  }
}
