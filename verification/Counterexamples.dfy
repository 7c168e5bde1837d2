/**
 Promises that the market does not keep, each with a short run that breaks it. Exactly when each is kept is proved
 elsewhere: Replay.ReservedReplaysIff, DailyCap.DayWithinCapIff, Settlement.SettlementOutcome,
 Stores.SpentSinceSeesOverlayIff and Stores.TxRepo.ListItems.
 */
module Counterexamples {
  import opened Domain
  import opened Wallets
  import opened Items
  import opened Auctions
  import opened Sums
  import opened States
  import opened Stores
  import opened UseCases
  import opened Invariant
  import opened Replay

  const CONFIG := Config(100, 10)
  const CAP: Gold := 105

  const SELLER := Id(1)
  const BUYER := Id(2)
  const SWORD := Id(3)
  const APPLE := Id(4)
  const AUCTION := Id(5)

  lemma Extend(s: State, ops: seq<Op>, t: State, op: Op, t': State)
    requires Legal(CONFIG, s, ops) && Exec(CONFIG, s, ops) == t
    requires Admissible(t, op) && Attempt(CONFIG, t, op) == Ok(t')
    ensures Legal(CONFIG, s, ops + [op]) && Exec(CONFIG, s, ops + [op]) == t'
  {
    assert (ops + [op])[..|ops + [op]| - 1] == ops;
  }

  lemma OnlyAuction(a: AuctionRow)
    requires a.status.Active?
    ensures ActiveAuction(map[a.id := a], a.itemId) == Ok(a.id)
  {
    assert ActiveFor(map[a.id := a][a.id], a.itemId);
  }

  // ---------------------------------------------------------------- a sword is listed and gets a bid

  /** A buyer with 1000 gold, so much of it reserved, and a seller with or without a wallet. */
  function Purses(sellerHasWallet: bool, reserved: Gold): map<Id, WalletRow> {
    var others := if sellerHasWallet then map[SELLER := WalletRow(SELLER, 0, 0, 0)] else map[];
    others[BUYER := WalletRow(BUYER, 1000, reserved, CAP)]
  }

  function Seeded(sellerHasWallet: bool): State {
    State(map[], Purses(sellerHasWallet, 0), map[], [])
  }

  function Sword(): ItemRow {
    ItemRow(SWORD, Legendary, SELLER, 0, 1, InAuction, 0)
  }

  function SwordAuction(bids: seq<Bid>): AuctionRow {
    AuctionRow(AUCTION, SWORD, SELLER, 100, 100, 10, Active, bids, 0)
  }

  function SwordListed(sellerHasWallet: bool): State {
    State(map[SWORD := Sword()], Purses(sellerHasWallet, 0), map[AUCTION := SwordAuction([])], [])
  }

  function FirstBid(): Bid {
    Bid(Id(6), BUYER, 100, true, 1)
  }

  function BidOnSword(sellerHasWallet: bool): State {
    State(map[SWORD := Sword()], Purses(sellerHasWallet, 100), map[AUCTION := SwordAuction([FirstBid()])],
          [Entry(BUYER, LedgerReserve, 100, SWORD, 1)])
  }

  function ListThenBid(): seq<Op> {
    [ListItem(SWORD, AUCTION, Legendary, SELLER, 100, 1, 0), PlaceBid(SWORD, BUYER, 100, Id(6), 1)]
  }

  lemma ListingTheSword(w: bool)
    ensures Attempt(CONFIG, Seeded(w), ListThenBid()[0]) == Ok(SwordListed(w))
  {
    var s0, item := Seeded(w), Sword().(status := Available);
    assert ActiveAuction(s0.auctions, SWORD).Err?;
    assert CreateItem(CONFIG, s0, SWORD, AUCTION, Legendary, SELLER, 100, 1, 0)
        == OpenAuction(CONFIG, PutItem(s0, item), item, AUCTION, 100, 0);
    assert PutItem(PutAuction(PutItem(s0, item), SwordAuction([])), Sword()) == SwordListed(w);
  }

  lemma BiddingOnTheSword(w: bool)
    ensures Attempt(CONFIG, SwordListed(w), ListThenBid()[1]) == Ok(BidOnSword(w))
  {
    var s, held := SwordListed(w), WalletRow(BUYER, 1000, 100, CAP);
    OnlyAuction(SwordAuction([]));
    assert [] + [FirstBid()] == [FirstBid()];
    assert SwordAuction([]).PlaceBid(Id(6), BUYER, 100, 1) == Ok(SwordAuction([FirstBid()]));
    assert ReleaseLeader(s, SwordAuction([]), BUYER, 1) == Ok(s);
    assert s.wallets[BUYER].Reserve(100) == Ok(held) && s.wallets[BUYER := held] == Purses(w, 100);
    assert s.ledger + BidOnSword(w).ledger == BidOnSword(w).ledger;
    assert ReserveFunds(s, SwordAuction([]), BUYER, 100, 1) == Ok(BidOnSword(w).(auctions := s.auctions));
    assert s.auctions[AUCTION := SwordAuction([FirstBid()])] == BidOnSword(w).auctions;
  }

  lemma {:induction false} SwordGetsABid(w: bool)
    ensures Initial(Seeded(w)) && Legal(CONFIG, Seeded(w), ListThenBid())
        && Exec(CONFIG, Seeded(w), ListThenBid()) == BidOnSword(w)
  {
    ListingTheSword(w);
    Extend(Seeded(w), [], Seeded(w), ListThenBid()[0], SwordListed(w));
    BiddingOnTheSword(w);
    Extend(Seeded(w), [ListThenBid()[0]], SwordListed(w), ListThenBid()[1], BidOnSword(w));
    assert [ListThenBid()[0]] + [ListThenBid()[1]] == ListThenBid();
  }

  lemma OnlyBidLeads(a: AuctionRow)
    requires a.bids == [FirstBid()]
    ensures a.HighestBid() == Some(FirstBid())
  {
    assert a.bids[..0] == [] && Highest([]) == None;
  }

  /** Closing one auction with a bid, in a state that a run reaches. */
  lemma {:induction false} Closing(s0: State, ops: seq<Op>, s: State, a: AuctionRow, now: Time)
    requires Initial(s0) && Legal(CONFIG, s0, ops) && Exec(CONFIG, s0, ops) == s
    requires s.auctions == map[a.id := a] && a.status.Active? && a.bids == [FirstBid()]
    ensures a.seller !in s.wallets ==> SettleAll(s, [a], now) == Err(WalletNotFound)
    ensures a.seller in s.wallets ==>
              && SettleAll(s, [a], now).Ok?
              && SettleAll(s, [a], now).value.ledger
                 == s.ledger + [Entry(BUYER, LedgerSettle, 100, a.itemId, now),
                     Entry(a.seller, LedgerCredit, 100, a.itemId, now)]
  {
    assert [a][..0] == [];
    OnlyBidLeads(a);
    ClosingReached(s0, ops, a, now);
  }

  lemma {:induction false} ClosingReached(s0: State, ops: seq<Op>, a: AuctionRow, now: Time)
    requires Initial(s0) && Legal(CONFIG, s0, ops)
    requires a.id in Exec(CONFIG, s0, ops).auctions && Exec(CONFIG, s0, ops).auctions[a.id] == a && a.status.Active?
        && a.bids != []
    ensures
      var s := Exec(CONFIG, s0, ops);
      var r := SettleOne(s, a, now);
      if a.seller in s.wallets then r.Ok? && r.value.ledger == s.ledger + SettleEntries(a, now)
      else r == Err(WalletNotFound)
  {
    InitialIsSound(s0);
    RunKeepsSound(CONFIG, s0, ops);
    SettleOneOutcome(Exec(CONFIG, s0, ops), a, now);
  }

  // ---------------------------------------------------------------- a seller without a wallet

  /** A guild without a wallet lists an item and gets a bid; at the closing time settlement fails. */
  lemma {:induction false} SellerWithoutWalletBlocksSettlement()
    ensures
      var s, ops, settle := Seeded(false), ListThenBid(), SettleDue([SwordAuction([FirstBid()])], 100);
      && Initial(s) && Legal(CONFIG, s, ops + [settle])
      && Attempt(CONFIG, Exec(CONFIG, s, ops), settle) == Err(WalletNotFound)
  {
    var a, s := SwordAuction([FirstBid()]), BidOnSword(false);
    SwordGetsABid(false);
    assert (ListThenBid() + [SettleDue([a], 100)])[..2] == ListThenBid();
    Closing(Seeded(false), ListThenBid(), s, a, 100);
  }

  // ---------------------------------------------------------------- a raise of one's own bid

  /** A guild that raises its own bid from 100 to 105 has 105 reserved, and a ledger that says 205. */
  lemma {:induction false} OwnRaiseUnbalancesTheLedger()
    ensures
      var ops := ListThenBid() + [PlaceBid(SWORD, BUYER, 105, Id(7), 2)];
      var t := Exec(CONFIG, Seeded(true), ops);
      && Initial(Seeded(true)) && Legal(CONFIG, Seeded(true), ops)
      && BUYER in t.wallets && t.wallets[BUYER].reserved == 105 && SeqSum(t.ledger, ReservedDelta(BUYER)) == 205
  {
    var s, raise := BidOnSword(true), PlaceBid(SWORD, BUYER, 105, Id(7), 2);
    SwordGetsABid(true);
    RaisingTheBid();
    Extend(Seeded(true), ListThenBid(), s, raise, Raised());
    TwoReserves();
  }

  lemma TwoReserves()
    ensures SeqSum(Raised().ledger, ReservedDelta(BUYER)) == 205
  {
    var x, y := Entry(BUYER, LedgerReserve, 100, SWORD, 1), Entry(BUYER, LedgerReserve, 105, SWORD, 2);
    SeqSumPush([], ReservedDelta(BUYER), x);
    SeqSumPush([x], ReservedDelta(BUYER), y);
    assert [] + [x] == [x];
  }

  function Raised(): State {
    var s := BidOnSword(true);
    s.(wallets := Purses(true, 105),
        auctions := map[AUCTION := SwordAuction([FirstBid(), Bid(Id(7), BUYER, 105, true, 2)])],
       ledger := s.ledger + [Entry(BUYER, LedgerReserve, 105, SWORD, 2)])
  }

  lemma {:induction false} RaisingTheBid()
    ensures Attempt(CONFIG, BidOnSword(true), PlaceBid(SWORD, BUYER, 105, Id(7), 2)) == Ok(Raised())
  {
    var s, a, a' := BidOnSword(true), SwordAuction([FirstBid()]), Raised().auctions[AUCTION];
    OnlyAuction(a);
    OnlyBidLeads(a);
    assert a.bids + [Bid(Id(7), BUYER, 105, true, 2)] == a'.bids;
    assert a.PlaceBid(Id(7), BUYER, 105, 2) == Ok(a');
    NothingSpent(s.ledger[0], BUYER, StartOfUTCDay(2));
    ReseatingTheBuyer(s, a);
    assert s.auctions[AUCTION := a'] == Raised().auctions;
  }

  lemma ReseatingTheBuyer(s: State, a: AuctionRow)
    requires s.wallets == Purses(true, 100) && a == SwordAuction([FirstBid()])
    ensures
      var freed := s.(wallets := Purses(true, 0));
      && ReleaseLeader(s, a, BUYER, 2) == Ok(freed)
      && ReserveFunds(freed, a, BUYER, 105, 2)
         == Ok(s.(wallets := Purses(true, 105), ledger := s.ledger + [Entry(BUYER, LedgerReserve, 105, SWORD, 2)]))
  {
    OnlyBidLeads(a);
    var free, held := WalletRow(BUYER, 1000, 0, CAP), WalletRow(BUYER, 1000, 105, CAP);
    assert s.wallets[BUYER].Release(100) == Ok(free) && s.wallets[BUYER := free] == Purses(true, 0);
    assert free.Reserve(105) == Ok(held) && Purses(true, 0)[BUYER := held] == Purses(true, 105);
    assert s.ledger + [] == s.ledger;
  }

  lemma NothingSpent(x: Entry, g: Id, since: Time)
    requires x.kind.LedgerReserve?
    ensures Spent([x], g, since) == 0
  {
    SeqSumPush([], SpendOf(g, since), x);
    assert [] + [x] == [x];
  }

  // ---------------------------------------------------------------- more than the daily cap

  function Apple(): ItemRow {
    ItemRow(APPLE, Common, SELLER, 100, 1, Available, 2)
  }

  function ThenListAndBuy(): seq<Op> {
    ListThenBid() + [ListItem(APPLE, Id(8), Common, SELLER, 100, 1, 2)] + [Buy(APPLE, BUYER, 1, 3)]
  }

  /** With a cap of 105, a bid of 100, a purchase of 100 and then the win of the auction all go through on one day:
      200 spent since midnight. */
  lemma {:induction false} CapIsExceeded()
    ensures
      var s, ops := Seeded(true), ThenListAndBuy() + [SettleDue([SwordAuction([FirstBid()])], 100)];
      && Initial(s) && Legal(CONFIG, s, ops) && s.wallets[BUYER].dailyCap == CAP
      && Spent(Exec(CONFIG, s, ops).ledger, BUYER, StartOfUTCDay(100)) == 200 > CAP
  {
    var s0, s := Seeded(true), BidOnSword(true);
    SwordGetsABid(true);
    var listed := PutItem(s, Apple());
    Extend(s0, ListThenBid(), s, ListItem(APPLE, Id(8), Common, SELLER, 100, 1, 2), listed);
    var bought := BuyingTheApple(s);
    Extend(s0, ListThenBid() + [ListItem(APPLE, Id(8), Common, SELLER, 100, 1, 2)], listed, Buy(APPLE, BUYER, 1, 3),
        bought);
    var a := SwordAuction([FirstBid()]);
    Closing(s0, ThenListAndBuy(), bought, a, 100);
    Extend(s0, ThenListAndBuy(), bought, SettleDue([a], 100), SettleAll(bought, [a], 100).value);
    SpentInAll();
  }

  function Bought(): Entry {
    Entry(BUYER, LedgerDebit, 100, APPLE, 3)
  }

  function Earned(item: Id, at: Time): Entry {
    Entry(SELLER, LedgerCredit, 100, item, at)
  }

  function Won(): Entry {
    Entry(BUYER, LedgerSettle, 100, SWORD, 100)
  }

  lemma {:induction false} BuyingTheApple(s: State) returns (t: State)
    requires s == BidOnSword(true)
    ensures Attempt(CONFIG, PutItem(s, Apple()), Buy(APPLE, BUYER, 1, 3)) == Ok(t)
    ensures t.ledger == s.ledger + [Bought(), Earned(APPLE, 3)] && t.auctions == s.auctions
        && t.wallets.Keys == s.wallets.Keys
  {
    NothingSpent(s.ledger[0], BUYER, StartOfUTCDay(3));
    t := Purchase(PutItem(s, Apple()), APPLE, BUYER, 1, 3).value;
  }

  lemma {:induction false} SpentInAll()
    ensures Spent(BidOnSword(true).ledger + [Bought(), Earned(APPLE, 3)] + [Won(), Earned(SWORD, 100)], BUYER, 0) == 200
    ensures StartOfUTCDay(100) == 0
  {
    var f, l := SpendOf(BUYER, 0), BidOnSword(true).ledger;
    NothingSpent(l[0], BUYER, 0);
    SeqSumPush(l, f, Bought());
    SeqSumPush(l + [Bought()], f, Earned(APPLE, 3));
    SeqSumPush(l + [Bought()] + [Earned(APPLE, 3)], f, Won());
    SeqSumPush(l + [Bought()] + [Earned(APPLE, 3)] + [Won()], f, Earned(SWORD, 100));
    assert l + [Bought(), Earned(APPLE, 3)] + [Won(), Earned(SWORD, 100)]
        == l + [Bought()] + [Earned(APPLE, 3)] + [Won()] + [Earned(SWORD, 100)];
  }

  // ---------------------------------------------------------------- reads that miss the unit's own writes

  /** A unit of work that stages an item and a debit sees neither in its list of items and its sum of spending,
      though both are in the state that its commit leaves. */
  method StagedRowsAreNotSeen() returns (spent: Gold, listed: seq<ItemRow>, left: Store)
    ensures spent == 0 && Spent(left.ledger, BUYER, 0) == 100
    ensures (forall it :: it in listed ==> it.id != APPLE) && left.items == map[APPLE := Apple()]
  {
    left := new Store();
    var tx := new TxRepo(left);
    var item := new Item(Apple());
    var _ := tx.CreateItem(item);
    tx.AppendLedger(Bought());
    ghost var view := tx.View();
    assert view.items == map[APPLE := Apple()] && view.ledger == [] + [Bought()];
    SeqSumPush([], SpendOf(BUYER, 0), Bought());
    spent := tx.SpentSince(BUYER, 0);
    listed := tx.ListItems();
    tx.Commit();
  }
}
