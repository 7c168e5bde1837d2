/** When the market's 64-bit arithmetic computes what unbounded arithmetic would (internal/domain/money.go). */
module Int64 {
  import opened Domain
  import opened Wallets
  import opened Items
  import opened Auctions
  import opened Sums
  import opened States
  import opened UseCases
  import opened Invariant
  import opened Histories
  import opened Conservation

  const MAX: int := 0x7FFF_FFFF_FFFF_FFFF

  predicate Fits(x: int) {
    -MAX - 1 <= x <= MAX
  }

  /** A result as a 64-bit two's-complement register holds it. */
  function Wrap(x: int): int {
    (x + MAX + 1) % (2 * MAX + 2) - MAX - 1
  }

  lemma WrapFits(x: int)
    ensures Fits(Wrap(x))
    ensures Wrap(x) == x <==> -9_223_372_036_854_775_808 <= x <= 9_223_372_036_854_775_807
    ensures Wrap(x) == x <==> Fits(x)
  {
  }

  // ------------------------------------------- the domain's arithmetic, wrapped at every operation

  function Increment64(high: Gold): Gold {
    var inc := Quotient(Wrap(Wrap(high * MIN_INCREMENT_PERCENT) + 99), 100);
    if inc > 1 then inc else 1
  }

  function MinNextBid64(a: AuctionRow): Gold {
    match a.HighestBid()
    case None => a.startPrice
    case Some(high) => Wrap(high.amount + Increment64(high.amount))
  }

  function SellTo64(it: ItemRow, buyer: Id, qty: int): Result<Sale> {
    if qty < 1 then Err(InvalidQuantity)
    else if it.rarity.Legendary? then Err(LegendaryNotLimit)
    else if it.seller == buyer then Err(CannotBuyOwnItem)
    else if !it.status.Available? then Err(ItemNotAvailable)
    else if qty > it.quantity then Err(InsufficientStock)
    else
      var left := Wrap(it.quantity - qty);
      Ok(Sale(it.(quantity := left, status := if left == 0 then SoldOut else Available), Wrap(it.price * qty)))
  }

  function Available64(w: WalletRow): Gold {
    Wrap(w.total - w.reserved)
  }

  function Reserve64(w: WalletRow, amount: Gold): Result<WalletRow> {
    if amount <= 0 then Err(NonPositiveAmount)
    else if amount > Available64(w) then Err(InsufficientFunds)
    else Ok(w.(reserved := Wrap(w.reserved + amount)))
  }

  function Release64(w: WalletRow, amount: Gold): Result<WalletRow> {
    if amount <= 0 then Err(NonPositiveAmount)
    else if amount > w.reserved then Err(ReserveTooLarge)
    else Ok(w.(reserved := Wrap(w.reserved - amount)))
  }

  function Settle64(w: WalletRow, amount: Gold): Result<WalletRow> {
    if amount <= 0 then Err(NonPositiveAmount)
    else if amount > w.reserved then Err(ReserveTooLarge)
    else Ok(w.(reserved := Wrap(w.reserved - amount), total := Wrap(w.total - amount)))
  }

  function Debit64(w: WalletRow, amount: Gold): Result<WalletRow> {
    if amount <= 0 then Err(NonPositiveAmount)
    else if amount > Available64(w) then Err(InsufficientFunds)
    else Ok(w.(total := Wrap(w.total - amount)))
  }

  function Credit64(w: WalletRow, amount: Gold): Result<WalletRow> {
    if amount <= 0 then Err(NonPositiveAmount)
    else Ok(w.(total := Wrap(w.total + amount)))
  }

  predicate WithinDailyCap64(w: WalletRow, spentToday: Gold, amount: Gold) {
    w.dailyCap <= 0 || Wrap(spentToday + amount) <= w.dailyCap
  }

  // ------------------------------------------- when the two agree

  /** On a solvent wallet within range, no operation but a credit can overflow, whatever the amount asked. */
  lemma WalletOpsAgree(w: WalletRow, amount: Gold)
    requires w.Solvent() && w.total <= MAX
    ensures Reserve64(w, amount) == w.Reserve(amount) && Release64(w, amount) == w.Release(amount)
    ensures Settle64(w, amount) == w.Settle(amount) && Debit64(w, amount) == w.Debit(amount)
  {
    WrapFits(w.total - w.reserved);
    WrapFits(w.reserved + amount);
    WrapFits(w.reserved - amount);
    WrapFits(w.total - amount);
  }

  lemma Increment64Agrees(high: Gold)
    requires 0 < high && 5 * high + 99 <= MAX
    ensures Increment64(high) == Increment(high) && high + Increment(high) <= MAX
  {
    IncrementIsCeiling(high);
    WrapFits(high * MIN_INCREMENT_PERCENT);
    WrapFits(high * MIN_INCREMENT_PERCENT + 99);
  }

  /** Past that bound the product wraps, and the increment comes out too small. */
  lemma Increment64FallsShort(high: Gold)
    requires 0 < high <= MAX && 5 * high + 99 > MAX
    ensures 1 <= Increment64(high) < Increment(high) <= MAX
  {
    var x := Wrap(Wrap(high * MIN_INCREMENT_PERCENT) + 99);
    IncrementIsCeiling(high);
    assert x <= 5 * high + 99 - 2 * MAX - 2;
    assert Increment64(high) <= if x >= 100 then x / 100 else 1;
  }

  lemma WrapDistinguishes(x: int, y: int)
    requires 0 < y - x <= MAX
    ensures Wrap(x) != y
  {
  }

  /** Over a positive leading bid the minimum next bid is exact if and only if five times that bid,
      plus the rounding, fits. */
  lemma MinNextBidAgreesIff(a: AuctionRow)
    requires a.HighestBid().Some? && 0 < a.HighestBid().value.amount <= MAX
    ensures MinNextBid64(a) == a.MinNextBid() <==> 5 * a.HighestBid().value.amount + 99 <= MAX
  {
    var high := a.HighestBid().value.amount;
    if 5 * high + 99 <= MAX {
      Increment64Agrees(high);
      WrapFits(high + Increment(high));
    } else {
      Increment64FallsShort(high);
      WrapDistinguishes(high + Increment64(high), high + Increment(high));
    }
  }

  lemma MinNextBidAgrees(a: AuctionRow)
    requires Orderly(a)
    requires AmountsWithin(a.bids, (MAX - 99) / 5)
    ensures MinNextBid64(a) == a.MinNextBid()
  {
    LeaderIsLast(a);
    if a.bids != [] {
      MinNextBidAgreesIff(a);
    }
  }

  /** Only the room for the cost of the whole stock is needed to price any sale from it. */
  lemma SellToAgrees(it: ItemRow, buyer: Id, qty: int)
    requires it.price >= 0 && 0 <= it.quantity <= MAX && it.price * it.quantity <= MAX
    ensures SellTo64(it, buyer, qty) == it.SellTo(buyer, qty)
  {
    if 1 <= qty <= it.quantity {
      assert 0 <= it.price * qty <= it.price * it.quantity by {
        assert it.price * it.quantity == it.price * qty + it.price * (it.quantity - qty);
      }
      WrapFits(it.price * qty);
      WrapFits(it.quantity - qty);
    }
  }

  /** The cap check alone can overflow. With a cap set and both sums in range, it decides as intended
      exactly when the day's spend and the new amount together fit. */
  lemma CapCheckAgreesIff(w: WalletRow, spentToday: Gold, amount: Gold)
    requires 0 <= spentToday <= MAX && 0 < amount <= MAX && w.dailyCap <= MAX
    ensures WithinDailyCap64(w, spentToday, amount) == w.WithinDailyCap(spentToday, amount)
       <==> (w.dailyCap <= 0 || spentToday + amount <= MAX)
  {
    var sum := spentToday + amount;
    if sum > MAX {
      assert Wrap(sum) == sum - 2 * MAX - 2;
    } else {
      WrapFits(sum);
    }
  }

  // ------------------------------------------- on every run

  /** Two different wallets never hold more than the gold there is. */
  lemma {:induction false} TwoWalletsWithinGold(s: State, g: Id, h: Id)
    requires SolventWallets(s) && g in s.wallets && h in s.wallets && g != h
    ensures s.wallets[g].total + s.wallets[h].total <= TotalGold(s)
  {
    MapSumTakeOut(s.wallets, TotalOf(), g);
    var rest := s.wallets - {g};
    MapSumBound(rest, TotalOf());
    assert TotalOf()(rest[h]) <= MapSum(rest, TotalOf());
  }

  ghost predicate ListingsFit(s: State) {
    forall i :: i in s.items ==> s.items[i].quantity <= MAX && s.items[i].price * s.items[i].quantity <= MAX
  }

  ghost predicate RequestsFit(ops: seq<Op>) {
    forall i :: 0 <= i < |ops| && ops[i].ListItem? ==> ops[i].quantity <= MAX && ops[i].price * ops[i].quantity <= MAX
  }

  lemma {:induction false} PurchaseKeepsFit(s: State, itemId: Id, buyer: Id, qty: int, now: Time, s': State)
    requires ListingsFit(s) && PurchaseEffect(s, itemId, buyer, qty, now, s') && s.items[itemId].price >= 0
    ensures ListingsFit(s')
  {
    var it := s.items[itemId];
    assert it.price * it.quantity == it.price * (it.quantity - qty) + it.price * qty;
  }

  lemma {:induction false} SettleKeepsFit(s: State, due: seq<AuctionRow>, now: Time)
    requires Sound(s) && Offered(s, due) && SettleAll(s, due, now).Ok? && ListingsFit(s)
    ensures ListingsFit(SettleAll(s, due, now).value)
    decreases |due|
  {
    if due != [] {
      var front, last := due[..|due| - 1], due[|due| - 1];
      SettleAllSplits(s, due, now);
      SettleKeepsFit(s, front, now);
      ClosingKeepsFit(SettleAll(s, front, now).value, last, now);
    }
  }

  lemma {:induction false} ClosingKeepsFit(s: State, a: AuctionRow, now: Time)
    requires Sound(s) && a.id in s.auctions && s.auctions[a.id] == a && a.status.Active? && ListingsFit(s)
    ensures SettleOne(s, a, now).Ok? ==> ListingsFit(SettleOne(s, a, now).value)
  {
    SettleOneOutcome(s, a, now);
  }

  lemma {:induction false} BidKeepsFit(s: State, itemId: Id, bidder: Id, amount: Gold, bidId: Id, now: Time)
    requires Sound(s) && ListingsFit(s) && BidOnItem(s, itemId, bidder, amount, bidId, now).Ok?
    ensures ListingsFit(BidOnItem(s, itemId, bidder, amount, bidId, now).value)
  {
    BidOutcome(s, itemId, bidder, amount, bidId, now);
  }

  lemma {:induction false} BuyKeepsFit(s: State, itemId: Id, buyer: Id, qty: int, now: Time)
    requires Sound(s) && ListingsFit(s) && Purchase(s, itemId, buyer, qty, now).Ok?
    ensures ListingsFit(Purchase(s, itemId, buyer, qty, now).value)
  {
    PurchaseHasEffect(s, itemId, buyer, qty, now);
    assert ListingInOrder(s.items[itemId]);
    PurchaseKeepsFit(s, itemId, buyer, qty, now, Purchase(s, itemId, buyer, qty, now).value);
  }

  lemma {:induction false} ApplyKeepsFit(cfg: Config, s: State, op: Op)
    requires Sound(s) && Admissible(s, op) && ListingsFit(s) && RequestsFit([op]) && Attempt(cfg, s, op).Ok?
    ensures ListingsFit(Attempt(cfg, s, op).value)
  {
    match op {
      case ListItem(itemId, auctionId, rarity, seller, price, quantity, now) =>
        assert [op][0] == op;
      case Buy(itemId, buyer, qty, now) => BuyKeepsFit(s, itemId, buyer, qty, now);
      case PlaceBid(itemId, bidder, amount, bidId, now) => BidKeepsFit(s, itemId, bidder, amount, bidId, now);
      case Withdraw(itemId, bidId, guild) => CancelHasEffect(s, itemId, bidId, guild);
      case SettleDue(due, now) => SettleKeepsFit(s, due, now);
    }
  }

  lemma {:induction false} RunKeepsFit(cfg: Config, s: State, ops: seq<Op>)
    requires Sound(s) && Legal(cfg, s, ops) && ListingsFit(s) && RequestsFit(ops)
    ensures ListingsFit(Exec(cfg, s, ops))
  {
    if ops != [] {
      var front, op := ops[..|ops| - 1], ops[|ops| - 1];
      RunKeepsFit(cfg, s, front);
      RunKeepsSound(cfg, s, front);
      if Attempt(cfg, Exec(cfg, s, front), op).Ok? {
        ApplyKeepsFit(cfg, Exec(cfg, s, front), op);
      }
    }
  }

  /** The 64-bit domain operations compute what the unbounded ones do, for every argument. */
  ghost predicate DomainAgrees(s: State)
  {
    && (forall k :: k in s.auctions ==> MinNextBid64(s.auctions[k]) == s.auctions[k].MinNextBid())
    && (forall i, buyer, qty :: i in s.items ==> SellTo64(s.items[i], buyer, qty) == s.items[i].SellTo(buyer, qty))
    && (forall g, amount :: g in s.wallets ==>
          && Reserve64(s.wallets[g], amount) == s.wallets[g].Reserve(amount)
          && Release64(s.wallets[g], amount) == s.wallets[g].Release(amount)
          && Settle64(s.wallets[g], amount) == s.wallets[g].Settle(amount)
          && Debit64(s.wallets[g], amount) == s.wallets[g].Debit(amount))
    && (forall g, h, amount :: g in s.wallets && h in s.wallets && g != h && amount <= s.wallets[h].total ==>
          Credit64(s.wallets[g], amount) == s.wallets[g].Credit(amount))
  }

  lemma {:induction false} WithinRangeAgrees(s: State)
    requires SolventWallets(s) && ItemsInOrder(s.items, s.auctions) && OrderlyAuctions(s)
    requires ListingsFit(s) && BidsWithin(s.auctions, TotalGold(s)) && 5 * TotalGold(s) + 99 <= MAX
    ensures DomainAgrees(s)
  {
    forall k | k in s.auctions ensures MinNextBid64(s.auctions[k]) == s.auctions[k].MinNextBid() {
      MinNextBidAgrees(s.auctions[k]);
    }
    forall i, buyer, qty | i in s.items ensures SellTo64(s.items[i], buyer, qty) == s.items[i].SellTo(buyer, qty) {
      assert ListingInOrder(s.items[i]);
      SellToAgrees(s.items[i], buyer, qty);
    }
    forall g, amount | g in s.wallets
      ensures Reserve64(s.wallets[g], amount) == s.wallets[g].Reserve(amount)
      ensures Release64(s.wallets[g], amount) == s.wallets[g].Release(amount)
      ensures Settle64(s.wallets[g], amount) == s.wallets[g].Settle(amount)
      ensures Debit64(s.wallets[g], amount) == s.wallets[g].Debit(amount)
    {
      WalletWithinGold(s, g);
      NoLessThanNothing(s);
      WalletOpsAgree(s.wallets[g], amount);
    }
    forall g, h, amount | g in s.wallets && h in s.wallets && g != h && amount <= s.wallets[h].total
      ensures Credit64(s.wallets[g], amount) == s.wallets[g].Credit(amount)
    {
      TwoWalletsWithinGold(s, g, h);
      NoLessThanNothing(s);
      WrapFits(s.wallets[g].total + amount);
    }
  }

  /** If five times the gold, plus rounding, fits in 64 bits, and so does the price of every listed stock, then on every
      run no minimum bid, sale or wallet update overflows. A credit always comes out of another wallet. */
  lemma {:induction false} Int64IsEnough(cfg: Config, s: State, ops: seq<Op>)
    requires Initial(s) && Legal(cfg, s, ops)
    requires 5 * TotalGold(s) + 99 <= MAX && RequestsFit(ops)
    ensures DomainAgrees(Exec(cfg, s, ops))
  {
    InitialIsSound(s);
    var h := RunHistory(cfg, s, ops);
    RunKeepsFit(cfg, s, ops);
    BidsWithinAlong(cfg, h);
    GoldAlong(cfg, h);
    WithinRangeAgrees(h.state);
  }
}
