/**
 The marketplace service (internal/service/market.go, internal/service/auction.go), run on the overlay of the in-memory
 store. Each use case is proved equal to its atomic form on plain maps; a refused one leaves the store as it was.
 */
module Markets {
  import opened Domain
  import opened Wallets
  import opened Items
  import opened Auctions
  import opened States
  import opened Stores
  import opened UseCases
  import opened Invariant
  import opened Settlement

  class Market {
    const cfg: Config
    const store: Store

    constructor (cfg: Config, store: Store)
      ensures this.cfg == cfg && this.store == store
    {
      this.cfg, this.store := cfg, store;
    }

    ghost predicate Valid()
      reads store
    {
      Sound(store.State())
    }

    method CreateItem(itemId: Id, auctionId: Id, rarity: Rarity, seller: Id, price: Gold, quantity: int, now: Time)
        returns (err: Option<Error>)
      requires Valid() && auctionId !in store.auctions
      modifies store
      ensures Becomes(old(store.State()),
                      old(UseCases.CreateItem(cfg, store.State(), itemId, auctionId, rarity, seller, price, quantity, now)),
                      store.State(), err)
      ensures Valid()
    {
      ghost var s := store.State();
      var made := NewItem(itemId, rarity, seller, price, quantity, now);
      if made.Err? {
        return Some(made.error);
      }
      if made.value.rarity.Legendary? && price <= 0 {
        return Some(NonPositiveAmount);
      }
      var tx := new TxRepo(store);
      var item := new Item(made.value);
      err := tx.CreateItem(item);
      if err.Some? {
        return;
      }
      if item.rarity.Legendary? {
        err := OpenAuction(tx, item, auctionId, price, now);
        if err.Some? {
          return;
        }
      }
      CreateItemHasEffect(cfg, s, itemId, auctionId, rarity, seller, price, quantity, now);
      CreateEffectKeepsSound(cfg, s, itemId, auctionId, seller, price, now, tx.View());
      tx.Commit();
    }

    method OpenAuction(tx: TxRepo, item: Item, auctionId: Id, startPrice: Gold, now: Time) returns (err: Option<Error>)
      requires tx.store == store && Keyed(tx.View())
      modifies tx, item
      ensures
        var r := old(UseCases.OpenAuction(cfg, tx.View(), item.Row(), auctionId, startPrice, now));
        && err == r.Failure()
        && (r.Ok? ==> tx.View() == r.value)
    {
      if startPrice <= 0 {
        return Some(NonPositiveAmount);
      }
      var active, notFound := tx.GetActiveAuctionByItem(item.id);
      if notFound.None? {
        return Some(AuctionExists);
      }
      var a := new Auction(AuctionRow(auctionId, item.id, item.seller, startPrice, now + cfg.window, cfg.extension,
          Active, [], now));
      tx.CreateAuction(a);
      item.status := InAuction;
      tx.UpdateItem(item);
      return None;
    }

    method Purchase(itemId: Id, buyer: Id, qty: int, now: Time) returns (cost: Gold, err: Option<Error>)
      requires Valid()
      modifies store
      ensures Becomes(old(store.State()), old(UseCases.Purchase(store.State(), itemId, buyer, qty, now)),
          store.State(), err)
      ensures err.None? ==> cost == old(store.State()).items[itemId].price * qty
      ensures Valid()
    {
      if qty < 1 {
        return 0, Some(InvalidQuantity);
      }
      ghost var s := store.State();
      var tx := new TxRepo(store);
      cost, err := PurchaseUnit(tx, itemId, buyer, qty, now);
      if err.None? {
        PurchaseHasEffect(s, itemId, buyer, qty, now);
        PurchaseEffectKeepsSound(s, itemId, buyer, qty, now, tx.View());
        tx.Commit();
      }
    }

    method PurchaseUnit(tx: TxRepo, itemId: Id, buyer: Id, qty: int, now: Time) returns (cost: Gold, err: Option<Error>)
      requires tx.store == store && tx.View() == store.State() && Keyed(store.State()) && qty >= 1
      modifies tx
      ensures
        var r := UseCases.Purchase(store.State(), itemId, buyer, qty, now);
        && err == r.Failure()
        && (r.Ok? ==> tx.View() == r.value && cost == store.State().items[itemId].price * qty)
    {
      ghost var s := store.State();
      var item, e1 := tx.GetItem(itemId);
      if e1.Some? {
        return 0, e1;
      }
      var buyerWallet, e2 := tx.GetWalletForUpdate(buyer);
      if e2.Some? {
        return 0, e2;
      }
      var sellerWallet, e3 := tx.GetWalletForUpdate(item.seller);
      if e3.Some? {
        return 0, e3;
      }
      cost, err := item.SellTo(buyer, qty);
      if err.Some? {
        return;
      }
      var spent := tx.SpentSince(buyer, StartOfUTCDay(now));
      if !buyerWallet.Row().WithinDailyCap(spent, cost) {
        return 0, Some(DailyCapExceeded);
      }
      err := buyerWallet.Debit(cost);
      if err.Some? {
        return;
      }
      err := sellerWallet.Credit(cost);
      if err.Some? {
        return;
      }
      assert tx.View() == s;
      StageSale(tx, item, buyerWallet, sellerWallet, cost, now);
    }

    method StageSale(tx: TxRepo, item: Item, buyerWallet: Wallet, sellerWallet: Wallet, cost: Gold, now: Time)
      modifies tx
      ensures tx.View()
          == old(Log(PutWallet(PutWallet(PutItem(tx.View(), item.Row()), buyerWallet.Row()), sellerWallet.Row()),
                                   [Entry(buyerWallet.guild, LedgerDebit, cost, item.id, now),
                                    Entry(item.seller, LedgerCredit, cost, item.id, now)]))
    {
      tx.UpdateItem(item);
      tx.UpdateWallet(buyerWallet);
      tx.UpdateWallet(sellerWallet);
      tx.AppendLedger(Entry(buyerWallet.guild, LedgerDebit, cost, item.id, now));
      tx.AppendLedger(Entry(item.seller, LedgerCredit, cost, item.id, now));
      assert tx.View().ledger == old(tx.View().ledger) + [Entry(buyerWallet.guild, LedgerDebit, cost, item.id, now),
                                                          Entry(item.seller, LedgerCredit, cost, item.id, now)];
    }

    method BidOnItem(itemId: Id, bidder: Id, amount: Gold, bidId: Id, now: Time) returns (err: Option<Error>)
      requires Valid()
      modifies store
      ensures Becomes(old(store.State()), old(UseCases.BidOnItem(store.State(), itemId, bidder, amount, bidId, now)),
          store.State(), err)
      ensures Valid()
    {
      if amount <= 0 {
        return Some(NonPositiveAmount);
      }
      ghost var s := store.State();
      var tx := new TxRepo(store);
      err := BidUnit(tx, itemId, bidder, amount, bidId, now);
      if err.None? {
        BidOutcome(s, itemId, bidder, amount, bidId, now);
        BidEffectKeepsSound(s, ActiveAuction(s.auctions, itemId).value, bidder, amount, bidId, now, tx.View());
        tx.Commit();
      }
    }

    method BidUnit(tx: TxRepo, itemId: Id, bidder: Id, amount: Gold, bidId: Id, now: Time) returns (err: Option<Error>)
      requires tx.store == store && tx.View() == store.State() && Keyed(store.State())
      requires OneAuctionPerItem(store.auctions) && amount > 0
      modifies tx
      ensures
        var r := UseCases.BidOnItem(store.State(), itemId, bidder, amount, bidId, now);
        && err == r.Failure()
        && (r.Ok? ==> tx.View() == r.value)
    {
      ghost var s := store.State();
      var active, e1 := tx.GetActiveAuctionByItem(itemId);
      assert tx.View() == s;
      if e1.Some? {
        return e1;
      }
      var a, e2 := tx.GetAuction(active.id);
      if e2.Some? {
        return e2;
      }
      ghost var before := a.Row();
      assert ActiveAuction(s.auctions, itemId) == Ok(a.id);
      var bidderWallet, e3 := tx.GetWalletForUpdate(bidder);
      if e3.Some? {
        return e3;
      }
      var unseated, e4 := a.PlaceBid(bidId, bidder, amount, now);
      if e4.Some? {
        return e4;
      }
      var spent := tx.SpentSince(bidder, StartOfUTCDay(now));
      if !bidderWallet.Row().WithinDailyCap(spent, amount) {
        return Some(DailyCapExceeded);
      }
      err := ReleaseUnseated(tx, bidderWallet, unseated, a.itemId, now, before);
      if err.Some? {
        return;
      }
      err := StageReserve(tx, bidderWallet, amount, a.itemId, now, before);
      if err.Some? {
        return;
      }
      tx.UpdateAuction(a);
    }

    /** Give the unseated leader its reservation back. A guild that raises its own bid keeps working on the one copy of
        its wallet, so that neither change is lost. */
    method ReleaseUnseated(tx: TxRepo, bidderWallet: Wallet, unseated: Option<Bid>, itemId: Id, now: Time,
                           ghost a: AuctionRow)
        returns (err: Option<Error>)
      requires unseated == a.HighestBid() && itemId == a.itemId && Keyed(tx.View())
      requires bidderWallet.guild in tx.View().wallets && bidderWallet.Row() == tx.View().wallets[bidderWallet.guild]
      modifies tx, bidderWallet
      ensures
        var r := old(ReleaseLeader(tx.View(), a, bidderWallet.guild, now));
        && err == r.Failure()
        && (r.Ok? ==> PutWallet(tx.View(), bidderWallet.Row()) == r.value)
    {
      ghost var s := tx.View();
      if unseated.None? {
        return None;
      }
      if unseated.value.guild == bidderWallet.guild {
        assert s.ledger + [] == s.ledger;
        err := bidderWallet.Release(unseated.value.amount);
        return;
      }
      err := StageRelease(tx, unseated.value, itemId, now);
    }

    method StageRelease(tx: TxRepo, unseated: Bid, itemId: Id, now: Time) returns (err: Option<Error>)
      requires Keyed(tx.View())
      modifies tx
      ensures
        var wallet := GetWallet(old(tx.View()), unseated.guild);
        if wallet.Err? then err == Some(wallet.error)
        else
          var freed := wallet.value.Release(unseated.amount);
          err == freed.Failure()
          && (freed.Ok? ==> tx.View() == Log(PutWallet(old(tx.View()), freed.value),
                                             [Entry(unseated.guild, LedgerRelease, unseated.amount, itemId, now)]))
    {
      var prevWallet, e1 := tx.GetWalletForUpdate(unseated.guild);
      if e1.Some? {
        return e1;
      }
      err := prevWallet.Release(unseated.amount);
      if err.Some? {
        return;
      }
      tx.UpdateWallet(prevWallet);
      tx.AppendLedger(Entry(unseated.guild, LedgerRelease, unseated.amount, itemId, now));
    }

    method StageReserve(tx: TxRepo, bidderWallet: Wallet, amount: Gold, itemId: Id, now: Time, ghost a: AuctionRow)
        returns (err: Option<Error>)
      requires itemId == a.itemId
      modifies tx, bidderWallet
      ensures
        var r := old(ReserveFunds(PutWallet(tx.View(), bidderWallet.Row()), a, bidderWallet.guild, amount, now));
        && err == r.Failure()
        && (r.Ok? ==> tx.View() == r.value)
    {
      err := bidderWallet.Reserve(amount);
      if err.Some? {
        return;
      }
      tx.UpdateWallet(bidderWallet);
      tx.AppendLedger(Entry(bidderWallet.guild, LedgerReserve, amount, itemId, now));
    }

    method CancelBidOnItem(itemId: Id, bidId: Id, guild: Id) returns (err: Option<Error>)
      requires Valid()
      modifies store
      ensures Becomes(old(store.State()), old(UseCases.CancelBidOnItem(store.State(), itemId, bidId, guild)),
          store.State(), err)
      ensures Valid()
    {
      ghost var s := store.State();
      var tx := new TxRepo(store);
      err := CancelUnit(tx, itemId, bidId, guild);
      if err.None? {
        CancelHasEffect(s, itemId, bidId, guild);
        CancelEffectKeepsSound(s, ActiveAuction(s.auctions, itemId).value, bidId, guild, tx.View());
        tx.Commit();
      }
    }

    method CancelUnit(tx: TxRepo, itemId: Id, bidId: Id, guild: Id) returns (err: Option<Error>)
      requires tx.store == store && tx.View() == store.State() && Keyed(store.State())
      requires OneAuctionPerItem(store.auctions)
      modifies tx
      ensures
        var r := UseCases.CancelBidOnItem(store.State(), itemId, bidId, guild);
        && err == r.Failure()
        && (r.Ok? ==> tx.View() == r.value)
    {
      ghost var s := store.State();
      var active, e1 := tx.GetActiveAuctionByItem(itemId);
      assert tx.View() == s;
      if e1.Some? {
        return e1;
      }
      var a, e2 := tx.GetAuction(active.id);
      if e2.Some? {
        return e2;
      }
      assert ActiveAuction(s.auctions, itemId) == Ok(a.id);
      err := a.CancelBid(bidId, guild);
      if err.Some? {
        return;
      }
      tx.UpdateAuction(a);
    }

    /** Settle every due auction, in the order the store yields them. On failure `settled` counts those closed before the
        first that could not be, and the store is left as it was. */
    method SettleDueAuctions(now: Time) returns (settled: nat, err: Option<Error>)
      requires Valid()
      modifies store
      ensures Valid()
      ensures exists due :: ListsDue(due, old(store.auctions), now)
                && Becomes(old(store.State()), SettleAll(old(store.State()), due, now), store.State(), err)
                && SettledUpTo(old(store.State()), due, now, settled, err)
    {
      ghost var s := store.State();
      var tx := new TxRepo(store);
      var due := tx.DueAuctions(now);
      settled, err := SettleUnit(tx, due, now);
      if err.None? {
        DueAreOffered(s, due, now);
        SettleAllOutcome(s, due, now);
        tx.Commit();
      }
      assert Becomes(s, SettleAll(s, due, now), store.State(), err);
    }

    method SettleUnit(tx: TxRepo, due: seq<AuctionRow>, now: Time) returns (settled: nat, err: Option<Error>)
      requires Sound(tx.View()) && ListsDue(due, tx.View().auctions, now)
      modifies tx
      ensures
        var r := SettleAll(old(tx.View()), due, now);
        && err == r.Failure()
        && (r.Ok? ==> tx.View() == r.value)
        && SettledUpTo(old(tx.View()), due, now, settled, err)
    {
      ghost var s := tx.View();
      settled := 0;
      for i := 0 to |due|
        invariant settled == i
        invariant SettleAll(s, due[..i], now) == Ok(tx.View())
      {
        assert due[..i + 1][..i] == due[..i];
        SoundPartWay(s, due, i, now);
        var a := new Auction(due[i]);
        err := SettleOneUnit(tx, a, now);
        if err.Some? {
          SettleAllFails(s, due, i + 1, now);
          return;
        }
        settled := settled + 1;
      }
      assert due[..|due|] == due;
      err := None;
    }

    method SettleOneUnit(tx: TxRepo, a: Auction, now: Time) returns (err: Option<Error>)
      requires Keyed(tx.View())
      modifies tx, a
      ensures
        var r := old(SettleOne(tx.View(), a.Row(), now));
        && err == r.Failure()
        && (r.Ok? ==> tx.View() == r.value)
    {
      var winner, e1 := a.Settle();
      if e1.Some? {
        return e1;
      }
      var item, e2 := tx.GetItem(a.itemId);
      if e2.Some? {
        return e2;
      }
      if winner.None? {
        item.status := Available;
        tx.UpdateItem(item);
        tx.UpdateAuction(a);
        return None;
      }
      err := StagePayment(tx, a.seller, winner.value);
      if err.Some? {
        return;
      }
      StageSold(tx, a, item, winner.value, now);
    }

    method StageSold(tx: TxRepo, a: Auction, item: Item, winner: Bid, now: Time)
      modifies tx, item
      ensures tx.View() ==
              old(PutAuction(PutItem(Log(tx.View(), [Entry(winner.guild, LedgerSettle, winner.amount, a.itemId, now),
                                                     Entry(a.seller, LedgerCredit, winner.amount, a.itemId, now)]),
                                     item.Row().(status := SoldOut)), a.Row()))
    {
      tx.AppendLedger(Entry(winner.guild, LedgerSettle, winner.amount, a.itemId, now));
      tx.AppendLedger(Entry(a.seller, LedgerCredit, winner.amount, a.itemId, now));
      assert tx.View().ledger == old(tx.View().ledger) + [Entry(winner.guild, LedgerSettle, winner.amount, a.itemId, now),
                                                          Entry(a.seller, LedgerCredit, winner.amount, a.itemId, now)];
      item.status := SoldOut;
      tx.UpdateItem(item);
      tx.UpdateAuction(a);
    }

    /** The seller's wallet is read after the winner's is written, so one guild could be both and lose nothing. */
    method StagePayment(tx: TxRepo, seller: Id, winner: Bid) returns (err: Option<Error>)
      modifies tx
      ensures tx.ledger == old(tx.ledger)
      ensures
        var r := old(Pay(tx.View(), seller, winner));
        && err == r.Failure()
        && (r.Ok? ==> tx.View() == r.value)
    {
      var winnerWallet, e1 := tx.GetWalletForUpdate(winner.guild);
      if e1.Some? {
        return e1;
      }
      err := winnerWallet.Settle(winner.amount);
      if err.Some? {
        return;
      }
      tx.UpdateWallet(winnerWallet);
      var sellerWallet, e2 := tx.GetWalletForUpdate(seller);
      if e2.Some? {
        return e2;
      }
      err := sellerWallet.Credit(winner.amount);
      if err.Some? {
        return;
      }
      tx.UpdateWallet(sellerWallet);
    }
  }

  /** How far a settlement run got: past all that it could close. */
  ghost predicate SettledUpTo(s: State, due: seq<AuctionRow>, now: Time, settled: nat, err: Option<Error>)
  {
    && settled <= |due|
    && SettleAll(s, due[..settled], now).Ok?
    && if err.None? then settled == |due|
       else settled < |due| && SettleAll(s, due[..settled + 1], now).Err?
  }

  /** Part-way through the due auctions the state is sound. */
  lemma {:induction false} SoundPartWay(s: State, due: seq<AuctionRow>, i: nat, now: Time)
    requires Sound(s) && ListsDue(due, s.auctions, now) && i <= |due| && SettleAll(s, due[..i], now).Ok?
    ensures Sound(SettleAll(s, due[..i], now).value)
  {
    assert forall a :: a in due[..i] ==> a in due;
    SettleAllOutcome(s, due[..i], now);
  }

  lemma {:induction false} SettleAllFails(s: State, due: seq<AuctionRow>, i: nat, now: Time)
    requires i <= |due| && SettleAll(s, due[..i], now).Err?
    ensures SettleAll(s, due, now) == SettleAll(s, due[..i], now)
    decreases |due|
  {
    if i == |due| {
      assert due[..i] == due;
    } else {
      var front := due[..|due| - 1];
      assert front[..i] == due[..i];
      SettleAllFails(s, front, i, now);
    }
  }
}
