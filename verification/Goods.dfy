/** What happens to the things sold: stock is conserved, and a Legendary item is sold at most once. */
module Goods {
  import opened Domain
  import opened Auctions
  import opened Sums
  import opened States
  import opened UseCases
  import opened Invariant
  import opened Histories

  /** The gold an entry of this kind moved for an item. */
  ghost function AmountFor(kind: EntryKind, item: Id): Entry -> int {
    (e: Entry) => if e.item == item && e.kind == kind then e.amount else 0
  }

  ghost function Moved(ledger: seq<Entry>, kind: EntryKind, item: Id): Gold {
    SeqSum(ledger, AmountFor(kind, item))
  }

  ghost function OneFor(kind: EntryKind, item: Id): Entry -> int {
    (e: Entry) => if e.item == item && e.kind == kind then 1 else 0
  }

  /** How many entries of this kind an item has. */
  ghost function Count(ledger: seq<Entry>, kind: EntryKind, item: Id): int {
    SeqSum(ledger, OneFor(kind, item))
  }

  /** Entries for other items change neither sums nor counts. */
  lemma {:induction false} LogElsewhere(ledger: seq<Entry>, more: seq<Entry>, kind: EntryKind, item: Id)
    requires forall e :: e in more ==> e.item != item || e.kind != kind
    ensures Moved(ledger + more, kind, item) == Moved(ledger, kind, item)
    ensures Count(ledger + more, kind, item) == Count(ledger, kind, item)
  {
    SeqSumConcat(ledger, more, AmountFor(kind, item));
    SeqSumZero(more, AmountFor(kind, item));
    SeqSumConcat(ledger, more, OneFor(kind, item));
    SeqSumZero(more, OneFor(kind, item));
  }

  lemma {:induction false} LogSale(ledger: seq<Entry>, x: Entry, y: Entry, kind: EntryKind, item: Id)
    requires x.item == item && y.item == item && x.kind != y.kind && x.amount == y.amount
        && (kind == x.kind || kind == y.kind)
    ensures Moved(ledger + [x, y], kind, item) == Moved(ledger, kind, item) + x.amount
    ensures Count(ledger + [x, y], kind, item) == Count(ledger, kind, item) + 1
  {
    assert ledger + [x, y] == (ledger + [x]) + [y];
    SeqSumPush(ledger, AmountFor(kind, item), x);
    SeqSumPush(ledger + [x], AmountFor(kind, item), y);
    SeqSumPush(ledger, OneFor(kind, item), x);
    SeqSumPush(ledger + [x], OneFor(kind, item), y);
  }

  // ---------------------------------------------------------------- stock

  /** From `s` to `t`, the units of item `i` that left its stock are paid for, unit by unit, on both sides. */
  ghost predicate StockAccounted(s: State, t: State, i: Id)
    requires i in s.items
  {
    && i in t.items
    && t.items[i] == s.items[i].(quantity := t.items[i].quantity, status := t.items[i].status)
    && t.items[i].quantity <= s.items[i].quantity
    && s.items[i].price * (s.items[i].quantity - t.items[i].quantity)
         == Moved(t.ledger, LedgerDebit, i) - Moved(s.ledger, LedgerDebit, i)
         == Moved(t.ledger, LedgerCredit, i) - Moved(s.ledger, LedgerCredit, i)
  }

  lemma StockSteps(s: State, t: State, u: State, i: Id)
    requires i in s.items && StockAccounted(s, t, i) && StockAccounted(t, u, i)
    ensures StockAccounted(s, u, i)
  {
    var p, q, q', q'' := s.items[i].price, s.items[i].quantity, t.items[i].quantity, u.items[i].quantity;
    assert p * (q - q'') == p * (q - q') + p * (q' - q'');
  }

  lemma {:induction false} PurchaseAccounted(s: State, itemId: Id, buyer: Id, qty: int, now: Time, s': State, i: Id)
    requires PurchaseEffect(s, itemId, buyer, qty, now, s') && i in s.items
    ensures StockAccounted(s, s', i)
  {
    var cost, seller := s.items[itemId].price * qty, s.items[itemId].seller;
    var x, y := Entry(buyer, LedgerDebit, cost, itemId, now), Entry(seller, LedgerCredit, cost, itemId, now);
    if i == itemId {
      LogSale(s.ledger, x, y, LedgerDebit, i);
      LogSale(s.ledger, x, y, LedgerCredit, i);
    } else {
      LogElsewhere(s.ledger, [x, y], LedgerDebit, i);
      LogElsewhere(s.ledger, [x, y], LedgerCredit, i);
      assert s.items[i].price * 0 == 0;
    }
  }

  lemma {:induction false} ClosingAccounted(s: State, a: AuctionRow, now: Time, s': State, i: Id)
    requires ItemsInOrder(s.items, s.auctions) && SettleEffect(s, a, now, s') && i in s.items
        && !s.items[i].rarity.Legendary?
    ensures StockAccounted(s, s', i)
  {
    assert Belongs(s.items, a);
    LogElsewhere(s.ledger, SettleEntries(a, now), LedgerDebit, i);
    LogElsewhere(s.ledger, SettleEntries(a, now), LedgerCredit, i);
    assert s.items[i].price * 0 == 0;
  }

  lemma {:induction false} BidAccounted(s: State, k: Id, bidder: Id, amount: Gold, bidId: Id, now: Time, s': State, i: Id)
    requires BidEffect(s, k, bidder, amount, bidId, now, s') && i in s.items
    ensures StockAccounted(s, s', i)
  {
    LogElsewhere(s.ledger, BidEntries(s.auctions[k], bidder, amount, now), LedgerDebit, i);
    LogElsewhere(s.ledger, BidEntries(s.auctions[k], bidder, amount, now), LedgerCredit, i);
    NothingSold(s, s', i);
  }

  lemma NothingSold(s: State, s': State, i: Id)
    requires i in s.items && i in s'.items && s'.items[i] == s.items[i]
    requires Moved(s'.ledger, LedgerDebit, i) == Moved(s.ledger, LedgerDebit, i)
    requires Moved(s'.ledger, LedgerCredit, i) == Moved(s.ledger, LedgerCredit, i)
    ensures StockAccounted(s, s', i)
  {
    assert s.items[i].price * 0 == 0;
  }

  lemma {:induction false} ChangeAccounted(cfg: Config, s: State, c: Change, s': State, i: Id)
    requires ItemsInOrder(s.items, s.auctions) && Effect(cfg, s, c, s') && i in s.items && !s.items[i].rarity.Legendary?
    ensures StockAccounted(s, s', i)
  {
    match c {
      case Bought(itemId, buyer, qty, now) => PurchaseAccounted(s, itemId, buyer, qty, now, s', i);
      case Raised(k, bidder, amount, bidId, now) => BidAccounted(s, k, bidder, amount, bidId, now, s', i);
      case ClosedOne(a, now) => ClosingAccounted(s, a, now, s', i);
      case _ => NothingSold(s, s', i);
    }
  }

  lemma {:induction false} StockAlong(cfg: Config, h: History, i: Id)
    requires Valid(cfg, h) && i in First(h).items && !First(h).items[i].rarity.Legendary?
    ensures StockAccounted(First(h), h.state, i)
  {
    if h.Then? {
      StockAlong(cfg, h.before, i);
      ChangeAccounted(cfg, h.before.state, h.change, h.state, i);
      StockSteps(First(h), h.before.state, h.state, i);
    } else {
      assert First(h).items[i].price * 0 == 0;
    }
  }

  /** Over any run: what left the stock of a listing, times its price, is what buyers were debited for it and what its
      seller was credited for it; nothing is oversold; and it is sold out exactly when its stock is empty. */
  lemma StockIsConserved(cfg: Config, s: State, ops: seq<Op>, i: Id)
    requires Sound(s) && Legal(cfg, s, ops) && i in s.items && !s.items[i].rarity.Legendary?
    ensures
      var t := Exec(cfg, s, ops);
      && StockAccounted(s, t, i)
      && 0 <= t.items[i].quantity
      && (t.items[i].status.SoldOut? <==> t.items[i].quantity == 0)
  {
    var h := RunHistory(cfg, s, ops);
    StockAlong(cfg, h, i);
    assert ListingInOrder(h.state.items[i]);
  }

  // ---------------------------------------------------------------- the single copy

  /** The two entries that record the sale of an auctioned item. */
  ghost predicate SaleLogged(ledger: seq<Entry>, a: AuctionRow, winner: Bid, at: Time)
  {
    && Entry(winner.guild, LedgerSettle, winner.amount, a.itemId, at) in ledger
    && Entry(a.seller, LedgerCredit, winner.amount, a.itemId, at) in ledger
  }

  /** What the ledger says of an auctioned item: one settlement and one credit if its auction closed with a bid,
      not before its closing time and by someone other than the seller; none otherwise; and never a purchase. */
  ghost predicate SoldOnce(ledger: seq<Entry>, a: AuctionRow)
  {
    var sold := a.status.Settled? && a.bids != [];
    && Count(ledger, LedgerSettle, a.itemId) == Count(ledger, LedgerCredit, a.itemId) == (if sold then 1 else 0)
    && Count(ledger, LedgerDebit, a.itemId) == 0
    && (sold ==>
          var winner := a.bids[|a.bids| - 1];
          winner.guild != a.seller && exists at :: at >= a.endsAt && SaleLogged(ledger, a, winner, at))
  }

  ghost predicate Recorded(s: State)
  {
    && (forall e :: e in s.ledger ==> e.item in s.items)
    && forall k :: k in s.auctions ==> SoldOnce(s.ledger, s.auctions[k])
  }

  lemma {:induction false} SoldOnceElsewhere(ledger: seq<Entry>, more: seq<Entry>, a: AuctionRow)
    requires SoldOnce(ledger, a)
    requires forall e :: e in more ==> e.item != a.itemId || e.kind.LedgerReserve? || e.kind.LedgerRelease?
    ensures SoldOnce(ledger + more, a)
  {
    LogElsewhere(ledger, more, LedgerSettle, a.itemId);
    LogElsewhere(ledger, more, LedgerCredit, a.itemId);
    LogElsewhere(ledger, more, LedgerDebit, a.itemId);
    if a.status.Settled? && a.bids != [] {
      var winner := a.bids[|a.bids| - 1];
      var at :| at >= a.endsAt && SaleLogged(ledger, a, winner, at);
      assert SaleLogged(ledger + more, a, winner, at);
    }
  }

  lemma {:induction false} SoldNow(ledger: seq<Entry>, a: AuctionRow, now: Time)
    requires Orderly(a) && a.Due(now) && SoldOnce(ledger, a)
    ensures SoldOnce(ledger + SettleEntries(a, now), a.(status := Settled))
  {
    LeaderIsLast(a);
    var closed := a.(status := Settled);
    if a.bids == [] {
      assert ledger + SettleEntries(a, now) == ledger;
    } else {
      var winner := a.bids[|a.bids| - 1];
      var x, y := Entry(winner.guild, LedgerSettle, winner.amount, a.itemId, now),
          Entry(a.seller, LedgerCredit, winner.amount, a.itemId, now);
      var ledger' := ledger + [x, y];
      LogSale(ledger, x, y, LedgerSettle, a.itemId);
      LogSale(ledger, x, y, LedgerCredit, a.itemId);
      LogElsewhere(ledger, [x, y], LedgerDebit, a.itemId);
      assert x == ledger'[|ledger|] && y == ledger'[|ledger| + 1];
      assert SaleLogged(ledger', closed, winner, now);
    }
  }

  lemma {:induction false} PurchaseRecorded(s: State, itemId: Id, buyer: Id, qty: int, now: Time, s': State)
    requires ItemsInOrder(s.items, s.auctions) && Recorded(s) && PurchaseEffect(s, itemId, buyer, qty, now, s')
    ensures Recorded(s')
  {
    var cost, seller := s.items[itemId].price * qty, s.items[itemId].seller;
    var more := [Entry(buyer, LedgerDebit, cost, itemId, now), Entry(seller, LedgerCredit, cost, itemId, now)];
    forall k | k in s.auctions ensures SoldOnce(s'.ledger, s.auctions[k]) {
      assert Belongs(s.items, s.auctions[k]);
      SoldOnceElsewhere(s.ledger, more, s.auctions[k]);
    }
  }

  lemma {:induction false} CreateRecorded(cfg: Config, s: State, itemId: Id, auctionId: Id, seller: Id, price: Gold,
                                          now: Time, s': State)
    requires Recorded(s) && auctionId !in s.auctions && CreateEffect(cfg, s, itemId, auctionId, seller, price, now, s')
    ensures Recorded(s')
  {
    SeqSumZero(s.ledger, OneFor(LedgerSettle, itemId));
    SeqSumZero(s.ledger, OneFor(LedgerCredit, itemId));
    SeqSumZero(s.ledger, OneFor(LedgerDebit, itemId));
  }

  lemma {:induction false} HoldsKeepRecords(ledger: seq<Entry>, more: seq<Entry>, auctions: map<Id, AuctionRow>)
    requires forall k :: k in auctions ==> SoldOnce(ledger, auctions[k])
    requires forall e :: e in more ==> e.kind.LedgerReserve? || e.kind.LedgerRelease?
    ensures forall k :: k in auctions ==> SoldOnce(ledger + more, auctions[k])
  {
    forall k | k in auctions ensures SoldOnce(ledger + more, auctions[k]) {
      SoldOnceElsewhere(ledger, more, auctions[k]);
    }
  }

  lemma {:induction false} BidRecorded(s: State, k: Id, bidder: Id, amount: Gold, bidId: Id, now: Time, s': State)
    requires Recorded(s) && BidEffect(s, k, bidder, amount, bidId, now, s') && s.auctions[k].itemId in s.items
    ensures Recorded(s')
  {
    HoldsKeepRecords(s.ledger, BidEntries(s.auctions[k], bidder, amount, now), s.auctions);
    RecordsStay(s.auctions, s'.auctions, k, s'.ledger);
    BidEntriesOfItem(s.auctions[k], bidder, amount, now);
  }

  lemma BidEntriesOfItem(a: AuctionRow, bidder: Id, amount: Gold, now: Time)
    ensures forall e :: e in BidEntries(a, bidder, amount, now) ==> e.item == a.itemId
  {
  }

  lemma RecordsStay(auctions: map<Id, AuctionRow>, auctions': map<Id, AuctionRow>, k: Id, ledger: seq<Entry>)
    requires forall l :: l in auctions ==> SoldOnce(ledger, auctions[l])
    requires k in auctions && k in auctions' && auctions' == auctions[k := auctions'[k]]
    requires auctions[k].status.Active? && auctions'[k].status.Active? && auctions'[k].itemId == auctions[k].itemId
    ensures forall l :: l in auctions' ==> SoldOnce(ledger, auctions'[l])
  {
    forall l | l in auctions' ensures SoldOnce(ledger, auctions'[l]) {
      if l == k {
        SoldOnceActive(ledger, auctions[k], auctions'[k]);
      }
    }
  }

  /** While an auction is active its bids do not matter to the record. */
  lemma SoldOnceActive(ledger: seq<Entry>, a: AuctionRow, b: AuctionRow)
    requires a.status.Active? && b.status.Active? && a.itemId == b.itemId && SoldOnce(ledger, a)
    ensures SoldOnce(ledger, b)
  {
  }

  lemma {:induction false} ClosingRecorded(s: State, a: AuctionRow, now: Time, s': State)
    requires Recorded(s) && ItemsInOrder(s.items, s.auctions) && Orderly(a) && a.Due(now) && SettleEffect(s, a, now, s')
    ensures Recorded(s')
  {
    forall l | l in s'.auctions ensures SoldOnce(s'.ledger, s'.auctions[l]) {
      if l == a.id {
        SoldNow(s.ledger, a, now);
      } else {
        SoldOnceElsewhere(s.ledger, SettleEntries(a, now), s.auctions[l]);
      }
    }
  }

  lemma {:induction false} CancelRecorded(s: State, k: Id, bidId: Id, guild: Id, s': State)
    requires Recorded(s) && k in s.auctions && Orderly(s.auctions[k]) && CancelEffect(s, k, bidId, guild, s')
    ensures Recorded(s')
  {
    CancelKeepsLeader(s.auctions[k], bidId, guild);
    SoldOnceActive(s.ledger, s.auctions[k], s'.auctions[k]);
  }

  lemma {:induction false} RaisedRecorded(s: State, k: Id, bidder: Id, amount: Gold, bidId: Id, now: Time, s': State)
    requires Recorded(s) && ItemsInOrder(s.items, s.auctions) && BidEffect(s, k, bidder, amount, bidId, now, s')
    ensures Recorded(s')
  {
    assert Belongs(s.items, s.auctions[k]);
    BidRecorded(s, k, bidder, amount, bidId, now, s');
  }

  lemma {:induction false} ChangeRecorded(cfg: Config, s: State, c: Change, s': State)
    requires Recorded(s) && ItemsInOrder(s.items, s.auctions) && OrderlyAuctions(s) && Effect(cfg, s, c, s')
    ensures Recorded(s')
  {
    match c {
      case Listed(itemId, auctionId, seller, price, now) => CreateRecorded(cfg, s, itemId, auctionId, seller, price,
          now, s');
      case Bought(itemId, buyer, qty, now) => PurchaseRecorded(s, itemId, buyer, qty, now, s');
      case Raised(k, bidder, amount, bidId, now) => RaisedRecorded(s, k, bidder, amount, bidId, now, s');
      case Withdrawn(k, bidId, guild) => CancelRecorded(s, k, bidId, guild, s');
      case ClosedOne(a, now) => ClosingRecorded(s, a, now, s');
    }
  }

  lemma {:induction false} RecordedAlong(cfg: Config, h: History)
    requires Valid(cfg, h) && Recorded(First(h))
    ensures Recorded(h.state)
  {
    if h.Then? {
      RecordedAlong(cfg, h.before);
      ChangeRecorded(cfg, h.before.state, h.change, h.state);
    }
  }

  /** A Legendary item has exactly one auction. The item is in auction while that auction is active, sold out once it
      closed with a bid, available once it closed with none; and the ledger shows at most one sale of it, to a guild
      that is not its seller. */
  ghost predicate AuctionedOnce(t: State, i: Id, k: Id)
    requires i in t.items
  {
    && k in t.auctions && t.auctions[k].itemId == i
    && (forall l :: l in t.auctions && t.auctions[l].itemId == i ==> l == k)
    && (t.items[i].status.InAuction? <==> t.auctions[k].status.Active?)
    && (t.items[i].status.SoldOut? <==> t.auctions[k].status.Settled? && t.auctions[k].bids != [])
    && (t.items[i].status.Available? <==> t.auctions[k].status.Settled? && t.auctions[k].bids == [])
    && SoldOnce(t.ledger, t.auctions[k])
  }

  lemma {:induction false} HistoryAuctionsOnce(cfg: Config, h: History, i: Id) returns (k: Id)
    requires Valid(cfg, h) && Initial(First(h)) && i in h.state.items && h.state.items[i].rarity.Legendary?
    ensures AuctionedOnce(h.state, i, k)
  {
    RecordedAlong(cfg, h);
    assert Auctioned(h.state.auctions, i);
    k :| k in h.state.auctions && h.state.auctions[k].itemId == i;
    assert Belongs(h.state.items, h.state.auctions[k]);
  }

  /** Along any run from funded wallets a Legendary item is auctioned once and sold at most once. */
  lemma LegendaryIsUnique(cfg: Config, s: State, ops: seq<Op>, i: Id) returns (k: Id)
    requires Initial(s) && Legal(cfg, s, ops)
    requires i in Exec(cfg, s, ops).items && Exec(cfg, s, ops).items[i].rarity.Legendary?
    ensures AuctionedOnce(Exec(cfg, s, ops), i, k)
  {
    InitialIsSound(s);
    var h := RunHistory(cfg, s, ops);
    k := HistoryAuctionsOnce(cfg, h, i);
  }

  /** `b` is the same auction as `a`, at a later point of its life. */
  ghost predicate Later(a: AuctionRow, b: AuctionRow)
  {
    && b == a.(endsAt := b.endsAt, status := b.status, bids := b.bids)
    && b.endsAt >= a.endsAt
    && BidsKept(a.bids, b.bids)
    && (a.status.Settled? ==> b == a)
  }

  /** Each earlier bid is still where it was, as it was or withdrawn since; later bids come after them. */
  ghost predicate BidsKept(bids: seq<Bid>, later: seq<Bid>)
  {
    && |later| >= |bids|
    && forall i :: 0 <= i < |bids| ==> later[i] == bids[i] || later[i] == bids[i].(active := false)
  }

  lemma LaterIsTransitive(a: AuctionRow, b: AuctionRow, c: AuctionRow)
    requires Later(a, b) && Later(b, c)
    ensures Later(a, c)
  {
    forall i | 0 <= i < |a.bids| ensures c.bids[i] == a.bids[i] || c.bids[i] == a.bids[i].(active := false) {
      assert b.bids[i] == a.bids[i] || b.bids[i] == a.bids[i].(active := false);
    }
  }

  lemma BidIsLater(a: AuctionRow, bidId: Id, guild: Id, amount: Gold, now: Time)
    requires a.PlaceBid(bidId, guild, amount, now).Ok?
    ensures Later(a, a.PlaceBid(bidId, guild, amount, now).value)
  {
    EndAfterBidBounds(a, bidId, guild, amount, now);
  }

  lemma CancelIsLater(a: AuctionRow, bidId: Id, guild: Id)
    requires Orderly(a) && a.CancelBid(bidId, guild).Ok?
    ensures Later(a, a.CancelBid(bidId, guild).value)
  {
    CancelKeepsLeader(a, bidId, guild);
  }

  lemma {:induction false} ChangeKeepsAuction(cfg: Config, s: State, c: Change, s': State, k: Id)
    requires k in s.auctions && Orderly(s.auctions[k]) && Effect(cfg, s, c, s')
    ensures k in s'.auctions && Later(s.auctions[k], s'.auctions[k])
  {
    match c {
      case Raised(l, bidder, amount, bidId, now) => if l == k { BidIsLater(s.auctions[k], bidId, bidder, amount, now); }
      case Withdrawn(l, bidId, guild) => if l == k { CancelIsLater(s.auctions[k], bidId, guild); }
      case _ =>
    }
  }

  /** An auction, once opened, stays: same item, seller and start, every bid where it was placed, and final once it
      is closed. */
  lemma {:induction false} AuctionsStay(cfg: Config, h: History, k: Id)
    requires Valid(cfg, h) && k in First(h).auctions
    ensures k in h.state.auctions && Later(First(h).auctions[k], h.state.auctions[k])
  {
    if h.Then? {
      AuctionsStay(cfg, h.before, k);
      assert Orderly(h.before.state.auctions[k]);
      ChangeKeepsAuction(cfg, h.before.state, h.change, h.state, k);
      LaterIsTransitive(First(h).auctions[k], h.before.state.auctions[k], h.state.auctions[k]);
    }
  }

  // ---------------------------------------------------------------- from the listing on

  lemma {:induction false} ExecConcat(cfg: Config, s: State, ops: seq<Op>, more: seq<Op>)
    requires Legal(cfg, s, ops + more)
    ensures Legal(cfg, s, ops) && Legal(cfg, Exec(cfg, s, ops), more)
    ensures Exec(cfg, s, ops + more) == Exec(cfg, Exec(cfg, s, ops), more)
    decreases |more|
  {
    if more == [] {
      assert ops + more == ops;
    } else {
      assert (ops + more)[..|ops + more| - 1] == ops + more[..|more| - 1];
      ExecConcat(cfg, s, ops, more[..|more| - 1]);
    }
  }

  lemma {:induction false} NothingMovedYet(ledger: seq<Entry>, kind: EntryKind, i: Id)
    requires forall e :: e in ledger ==> e.item != i
    ensures Moved(ledger, kind, i) == 0
  {
    SeqSumZero(ledger, AmountFor(kind, i));
  }

  /** From funded wallets, whatever happened before a listing and whatever happens after it: the units sold since, at the
      listed price, are everything its buyers were ever debited for it and everything its seller was ever credited. */
  lemma {:induction false} EverySaleIsPaidFor(cfg: Config, s: State, ops: seq<Op>, listing: Op, more: seq<Op>)
    requires Initial(s) && Legal(cfg, s, ops + [listing] + more)
    requires listing.ListItem? && !listing.rarity.Legendary? && Attempt(cfg, Exec(cfg, s, ops), listing).Ok?
    ensures
      var t, i := Exec(cfg, s, ops + [listing] + more), listing.itemId;
      && i in t.items && t.items[i].price == listing.price && t.items[i].seller == listing.seller
      && 0 <= t.items[i].quantity <= listing.quantity
      && listing.price * (listing.quantity - t.items[i].quantity)
           == Moved(t.ledger, LedgerDebit, i) == Moved(t.ledger, LedgerCredit, i)
  {
    var i := listing.itemId;
    ExecConcat(cfg, s, ops + [listing], more);
    ListedUnsold(cfg, s, ops, listing);
    InitialIsSound(s);
    RunKeepsSound(cfg, s, ops + [listing]);
    StockIsConserved(cfg, Exec(cfg, s, ops + [listing]), more, i);
  }

  /** At the moment it is listed, an item has its full stock and no entry in the ledger. */
  lemma {:induction false} ListedUnsold(cfg: Config, s: State, ops: seq<Op>, listing: Op)
    requires Initial(s) && Legal(cfg, s, ops + [listing])
    requires listing.ListItem? && !listing.rarity.Legendary? && Attempt(cfg, Exec(cfg, s, ops), listing).Ok?
    ensures
      var s1, i := Exec(cfg, s, ops + [listing]), listing.itemId;
      && i in s1.items && !s1.items[i].rarity.Legendary?
      && s1.items[i].price == listing.price && s1.items[i].seller == listing.seller
          && s1.items[i].quantity == listing.quantity
      && Moved(s1.ledger, LedgerDebit, i) == 0 && Moved(s1.ledger, LedgerCredit, i) == 0
  {
    assert (ops + [listing])[..|ops + [listing]| - 1] == ops;
    InitialIsSound(s);
    var h := RunHistory(cfg, s, ops);
    RecordedAlong(cfg, h);
    NothingMovedYet(h.state.ledger, LedgerDebit, listing.itemId);
    NothingMovedYet(h.state.ledger, LedgerCredit, listing.itemId);
  }

  /** The state just after an item was listed. */
  ghost function ListedAt(h: History, i: Id): State
    requires i in h.state.items
  {
    if h.Then? && i in h.before.state.items then ListedAt(h.before, i) else h.state
  }

  /** In the state where it was listed the item had its full stock and no entry; since then every unit sold was paid for. */
  ghost predicate PaidSince(at: State, t: State, i: Id)
  {
    && i in at.items && i in t.items
    && t.items[i] == at.items[i].(quantity := t.items[i].quantity, status := t.items[i].status)
    && 0 <= t.items[i].quantity <= at.items[i].quantity
    && (t.items[i].status.SoldOut? <==> t.items[i].quantity == 0)
    && at.items[i].price * (at.items[i].quantity - t.items[i].quantity)
         == Moved(t.ledger, LedgerDebit, i) == Moved(t.ledger, LedgerCredit, i)
  }

  /** From funded wallets, along any history: since its listing every unit sold of an item was paid for, once. */
  lemma {:induction false} HistoryIsPaidFor(cfg: Config, h: History, i: Id)
    requires Valid(cfg, h) && Initial(First(h)) && i in h.state.items && !h.state.items[i].rarity.Legendary?
    ensures PaidSince(ListedAt(h, i), h.state, i)
  {
    assert ListingInOrder(h.state.items[i]);
    if i in h.before.state.items {
      ChangeAccounted(cfg, h.before.state, h.change, h.state, i);
      HistoryIsPaidFor(cfg, h.before, i);
      StockAdds(ListedAt(h, i), h.before.state, h.state, i);
    } else {
      RecordedAlong(cfg, h.before);
      NothingMovedYet(h.before.state.ledger, LedgerDebit, i);
      NothingMovedYet(h.before.state.ledger, LedgerCredit, i);
      ListedUnpaid(cfg, h.before.state, h.change, h.state, i);
    }
  }

  lemma StockAdds(at: State, t: State, u: State, i: Id)
    requires PaidSince(at, t, i) && StockAccounted(t, u, i) && 0 <= u.items[i].quantity
    requires u.items[i].status.SoldOut? <==> u.items[i].quantity == 0
    ensures PaidSince(at, u, i)
  {
    var p, q0, q1, q2 := at.items[i].price, at.items[i].quantity, t.items[i].quantity, u.items[i].quantity;
    assert p * (q0 - q2) == p * (q0 - q1) + p * (q1 - q2);
  }

  /** An item that appears was listed, with nothing moved for it. */
  lemma {:induction false} ListedUnpaid(cfg: Config, s: State, c: Change, t: State, i: Id)
    requires Effect(cfg, s, c, t) && i !in s.items && i in t.items && !t.items[i].rarity.Legendary?
    requires ListingInOrder(t.items[i])
    requires Moved(s.ledger, LedgerDebit, i) == 0 && Moved(s.ledger, LedgerCredit, i) == 0
    ensures PaidSince(t, t, i)
  {
    assert c.Listed?;
    assert t.items[i].price * 0 == 0;
  }
}
