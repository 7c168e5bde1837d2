/** The daily spending cap: what it really bounds (internal/service/market.go, internal/service/auction.go). */
module DailyCap {
  import opened Domain
  import opened Auctions
  import opened Sums
  import opened States
  import opened UseCases
  import opened Invariant
  import opened Histories

  /** The UTC day of a time contains it, and starts at a whole number of days of 86400 seconds. */
  lemma StartOfUTCDayContains(t: Time)
    ensures StartOfUTCDay(t) == t - t % 86_400_000_000_000
    ensures StartOfUTCDay(t) <= t < StartOfUTCDay(t) + DAY
    ensures forall d: int :: d * DAY <= t < (d + 1) * DAY <==> StartOfUTCDay(t) == d * DAY
  {
    forall d: int ensures d * DAY <= t < (d + 1) * DAY <==> t / DAY == d {
      DayOf(t, d);
    }
  }

  /** What the cap check sums: the guild's debits and settlements since midnight UTC, and nothing else. */
  lemma {:induction false} SpendIsSinceMidnight(ledger: seq<Entry>, g: Id, now: Time)
    ensures Spent(ledger, g, StartOfUTCDay(now)) == SeqSum(ledger, (e: Entry) =>
              if e.guild == g && e.at >= now - now % 86_400_000_000_000 && (e.kind == LedgerDebit || e.kind == LedgerSettle)
              then e.amount else 0)
  {
    if ledger != [] {
      SpendIsSinceMidnight(ledger[..|ledger| - 1], g, now);
    }
  }

  /** Read before the next midnight, that is the spending of the day: earlier entries add nothing. */
  lemma {:induction false} SpendIsOfTheDay(ledger: seq<Entry>, g: Id, d: int)
    requires forall e :: e in ledger ==> e.at < (d + 1) * 86_400_000_000_000
    ensures Spent(ledger, g, d * 86_400_000_000_000) == BoughtOn(ledger, g, d) + WonOn(ledger, g, d)
  {
    if ledger != [] {
      var front, e := ledger[..|ledger| - 1], ledger[|ledger| - 1];
      SpendIsOfTheDay(front, g, d);
      assert e in ledger;
      StartOfUTCDayContains(e.at);
    }
  }

  lemma DayOf(t: Time, d: int)
    ensures d * DAY <= t < (d + 1) * DAY <==> t / DAY == d
    ensures d * DAY == t / DAY * DAY <==> t / DAY == d
  {
  }

  predicate OnDay(at: Time, d: int) {
    StartOfUTCDay(at) == d * DAY
  }

  /** What an entry of this kind takes from a guild on a given day. */
  ghost function OutOn(kind: EntryKind, g: Id, d: int): Entry -> int {
    (e: Entry) => if e.guild == g && e.kind == kind && OnDay(e.at, d) then e.amount else 0
  }

  ghost function OneOn(kind: EntryKind, g: Id, d: int): Entry -> int {
    (e: Entry) => if e.guild == g && e.kind == kind && OnDay(e.at, d) then 1 else 0
  }

  ghost function BoughtOn(ledger: seq<Entry>, g: Id, d: int): Gold {
    SeqSum(ledger, OutOn(LedgerDebit, g, d))
  }

  ghost function WonOn(ledger: seq<Entry>, g: Id, d: int): Gold {
    SeqSum(ledger, OutOn(LedgerSettle, g, d))
  }

  ghost function WinsOn(ledger: seq<Entry>, g: Id, d: int): int {
    SeqSum(ledger, OneOn(LedgerSettle, g, d))
  }

  ghost predicate Positive(ledger: seq<Entry>) {
    forall e :: e in ledger ==> e.amount > 0
  }

  /** Purchases of one day are part of what the cap check sums. */
  lemma {:induction false} BoughtIsSpent(ledger: seq<Entry>, g: Id, d: int)
    requires Positive(ledger)
    ensures 0 <= BoughtOn(ledger, g, d) <= Spent(ledger, g, d * DAY)
  {
    if ledger != [] {
      var front, e := ledger[..|ledger| - 1], ledger[|ledger| - 1];
      BoughtIsSpent(front, g, d);
      StartOfUTCDayContains(e.at);
    }
  }

  /** What holds of one capped guild: every bid it placed and every auction it won is within the cap, and so is
      the sum of its purchases on each day. */
  ghost predicate Capped(s: State, g: Id, cap: Gold)
  {
    && BidsCapped(s.auctions, g, cap)
    && WinsCapped(s.ledger, g, cap)
    && BuysCapped(s.ledger, g, cap)
  }

  ghost predicate BidsCapped(auctions: map<Id, AuctionRow>, g: Id, cap: Gold) {
    forall k :: k in auctions ==> AllBidsCapped(auctions[k].bids, g, cap)
  }

  ghost predicate AllBidsCapped(bids: seq<Bid>, g: Id, cap: Gold) {
    forall i :: 0 <= i < |bids| && bids[i].guild == g ==> bids[i].amount <= cap
  }

  ghost predicate WinsCapped(ledger: seq<Entry>, g: Id, cap: Gold) {
    forall e :: e in ledger && e.guild == g && e.kind.LedgerSettle? ==> e.amount <= cap
  }

  ghost predicate BuysCapped(ledger: seq<Entry>, g: Id, cap: Gold) {
    forall d :: BoughtOn(ledger, g, d) <= cap
  }

  lemma {:induction false} NoPurchaseKeepsBuys(ledger: seq<Entry>, more: seq<Entry>, g: Id, cap: Gold)
    requires BuysCapped(ledger, g, cap)
    requires forall e :: e in more ==> e.guild != g || !e.kind.LedgerDebit?
    ensures BuysCapped(ledger + more, g, cap)
  {
    forall d ensures BoughtOn(ledger + more, g, d) <= cap {
      assert BoughtOn(ledger, g, d) <= cap;
      SeqSumConcat(ledger, more, OutOn(LedgerDebit, g, d));
      SeqSumZero(more, OutOn(LedgerDebit, g, d));
    }
  }

  lemma {:induction false} PurchaseKeepsBuys(ledger: seq<Entry>, x: Entry, y: Entry, g: Id, cap: Gold)
    requires BuysCapped(ledger, g, cap) && Positive(ledger)
    requires x.guild == g && x.kind.LedgerDebit? && (y.guild != g || !y.kind.LedgerDebit?)
    requires Spent(ledger, g, StartOfUTCDay(x.at)) + x.amount <= cap
    ensures BuysCapped(ledger + [x, y], g, cap)
  {
    forall d ensures BoughtOn(ledger + [x, y], g, d) <= cap {
      var f := OutOn(LedgerDebit, g, d);
      assert BoughtOn(ledger, g, d) <= cap;
      assert ledger + [x, y] == (ledger + [x]) + [y];
      SeqSumPush(ledger, f, x);
      SeqSumPush(ledger + [x], f, y);
      if OnDay(x.at, d) {
        BoughtIsSpent(ledger, g, d);
      }
    }
  }

  lemma {:induction false} PurchaseCapped(s: State, itemId: Id, buyer: Id, qty: int, now: Time, s': State, g: Id, cap: Gold)
    requires PurchaseEffect(s, itemId, buyer, qty, now, s') && g in s.wallets && s.wallets[g].dailyCap == cap > 0
    requires Positive(s.ledger) && Capped(s, g, cap)
    ensures Capped(s', g, cap)
  {
    var cost, seller := s.items[itemId].price * qty, s.items[itemId].seller;
    var x, y := Entry(buyer, LedgerDebit, cost, itemId, now), Entry(seller, LedgerCredit, cost, itemId, now);
    if g == buyer {
      PurchaseKeepsBuys(s.ledger, x, y, g, cap);
    } else {
      NoPurchaseKeepsBuys(s.ledger, [x, y], g, cap);
    }
  }

  lemma {:induction false} BidCapped(s: State, k: Id, bidder: Id, amount: Gold, bidId: Id, now: Time, s': State, g: Id,
                                     cap: Gold)
    requires BidEffect(s, k, bidder, amount, bidId, now, s') && g in s.wallets && s.wallets[g].dailyCap == cap > 0
    requires Positive(s.ledger) && Capped(s, g, cap)
    ensures Capped(s', g, cap)
  {
    NoPurchaseKeepsBuys(s.ledger, BidEntries(s.auctions[k], bidder, amount, now), g, cap);
    SeqSumBound(s.ledger, SpendOf(bidder, StartOfUTCDay(now)));
    assert g == bidder ==> amount <= cap;
  }

  lemma {:induction false} ClosingCapped(s: State, a: AuctionRow, now: Time, s': State, g: Id, cap: Gold)
    requires SettleEffect(s, a, now, s') && Orderly(a) && Capped(s, g, cap)
    ensures Capped(s', g, cap)
  {
    LeaderIsLast(a);
    NoPurchaseKeepsBuys(s.ledger, SettleEntries(a, now), g, cap);
  }

  lemma {:induction false} CancelCapped(s: State, k: Id, bidId: Id, guild: Id, s': State, g: Id, cap: Gold)
    requires CancelEffect(s, k, bidId, guild, s') && Orderly(s.auctions[k]) && Capped(s, g, cap)
    ensures Capped(s', g, cap)
  {
    CancelKeepsLeader(s.auctions[k], bidId, guild);
  }

  lemma {:induction false} ChangeCapped(cfg: Config, s: State, c: Change, s': State, g: Id, cap: Gold)
    requires OrderlyAuctions(s) && Effect(cfg, s, c, s') && g in s.wallets && s.wallets[g].dailyCap == cap > 0
    requires Positive(s.ledger) && Capped(s, g, cap)
    ensures Capped(s', g, cap)
  {
    match c {
      case Bought(itemId, buyer, qty, now) => PurchaseCapped(s, itemId, buyer, qty, now, s', g, cap);
      case Raised(k, bidder, amount, bidId, now) => BidCapped(s, k, bidder, amount, bidId, now, s', g, cap);
      case Withdrawn(k, bidId, guild) => CancelCapped(s, k, bidId, guild, s', g, cap);
      case ClosedOne(a, now) => ClosingCapped(s, a, now, s', g, cap);
      case Listed(_, _, _, _, _) =>
    }
  }

  lemma PurchaseKeepsPositive(s: State, itemId: Id, buyer: Id, qty: int, now: Time, s': State)
    requires PurchaseEffect(s, itemId, buyer, qty, now, s') && Positive(s.ledger)
    ensures Positive(s'.ledger)
  {
  }

  lemma {:induction false} BidKeepsPositive(s: State, k: Id, bidder: Id, amount: Gold, bidId: Id, now: Time, s': State)
    requires BidEffect(s, k, bidder, amount, bidId, now, s') && Orderly(s.auctions[k]) && Positive(s.ledger)
    ensures Positive(s'.ledger)
  {
    LeaderIsLast(s.auctions[k]);
    assert Positive(BidEntries(s.auctions[k], bidder, amount, now));
  }

  lemma {:induction false} ClosingKeepsPositive(s: State, a: AuctionRow, now: Time, s': State)
    requires SettleEffect(s, a, now, s') && Orderly(a) && Positive(s.ledger)
    ensures Positive(s'.ledger)
  {
    LeaderIsLast(a);
    assert Positive(SettleEntries(a, now));
  }

  lemma {:induction false} ChangeKeepsPositive(cfg: Config, s: State, c: Change, s': State)
    requires OrderlyAuctions(s) && Effect(cfg, s, c, s') && Positive(s.ledger)
    ensures Positive(s'.ledger)
  {
    match c {
      case Bought(itemId, buyer, qty, now) => PurchaseKeepsPositive(s, itemId, buyer, qty, now, s');
      case Raised(k, bidder, amount, bidId, now) => BidKeepsPositive(s, k, bidder, amount, bidId, now, s');
      case ClosedOne(a, now) => ClosingKeepsPositive(s, a, now, s');
      case _ =>
    }
  }

  lemma {:induction false} ChangeKeepsCaps(cfg: Config, s: State, c: Change, s': State, g: Id)
    requires Effect(cfg, s, c, s') && g in s.wallets
    ensures g in s'.wallets && s'.wallets[g].dailyCap == s.wallets[g].dailyCap
  {
  }

  lemma {:induction false} CappedAlong(cfg: Config, h: History, g: Id, cap: Gold)
    requires Valid(cfg, h) && Initial(First(h)) && g in First(h).wallets && First(h).wallets[g].dailyCap == cap > 0
    ensures Positive(h.state.ledger)
    ensures g in h.state.wallets && h.state.wallets[g].dailyCap == cap && Capped(h.state, g, cap)
  {
    if h.Then? {
      CappedAlong(cfg, h.before, g, cap);
      ChangeKeepsPositive(cfg, h.before.state, h.change, h.state);
      ChangeKeepsCaps(cfg, h.before.state, h.change, h.state, g);
      ChangeCapped(cfg, h.before.state, h.change, h.state, g, cap);
    }
  }

  lemma {:induction false} WinsBound(ledger: seq<Entry>, g: Id, d: int, cap: Gold)
    requires WinsCapped(ledger, g, cap)
    ensures WonOn(ledger, g, d) <= cap * WinsOn(ledger, g, d)
  {
    if ledger != [] {
      var front, e := ledger[..|ledger| - 1], ledger[|ledger| - 1];
      WinsBound(front, g, d, cap);
      assert e in ledger;
      var one := OneOn(LedgerSettle, g, d)(e);
      assert cap * (WinsOn(front, g, d) + one) == cap * WinsOn(front, g, d) + cap * one;
    }
  }

  /** What the cap guarantees on one day: purchases are within the cap, so is every single auction win, and so the whole
      spend is within the cap times one more than the auctions won that day. */
  ghost predicate DayBounded(ledger: seq<Entry>, g: Id, d: int, cap: Gold)
  {
    && BoughtOn(ledger, g, d) <= cap
    && WinsCapped(ledger, g, cap)
    && BoughtOn(ledger, g, d) + WonOn(ledger, g, d) <= cap * (1 + WinsOn(ledger, g, d))
  }

  lemma {:induction false} HistorySpendIsBounded(cfg: Config, h: History, g: Id, d: int)
    requires Valid(cfg, h) && Initial(First(h)) && g in First(h).wallets && First(h).wallets[g].dailyCap > 0
    ensures DayBounded(h.state.ledger, g, d, First(h).wallets[g].dailyCap)
  {
    CappedAlong(cfg, h, g, First(h).wallets[g].dailyCap);
    CappedIsBounded(h.state, g, d, First(h).wallets[g].dailyCap);
  }

  lemma {:induction false} CappedIsBounded(s: State, g: Id, d: int, cap: Gold)
    requires Capped(s, g, cap)
    ensures DayBounded(s.ledger, g, d, cap)
  {
    WinsBound(s.ledger, g, d, cap);
    assert cap * (1 + WinsOn(s.ledger, g, d)) == cap + cap * WinsOn(s.ledger, g, d);
  }

  /** What the cap guarantees on every run. */
  lemma {:induction false} DailySpendIsBounded(cfg: Config, s: State, ops: seq<Op>, g: Id, d: int)
    requires Initial(s) && Legal(cfg, s, ops) && g in s.wallets && s.wallets[g].dailyCap > 0
    ensures
      var ledger, cap := Exec(cfg, s, ops).ledger, s.wallets[g].dailyCap;
      && BoughtOn(ledger, g, d) <= cap
      && WinsCapped(ledger, g, cap)
      && BoughtOn(ledger, g, d) + WonOn(ledger, g, d) <= cap * (1 + WinsOn(ledger, g, d))
  {
    InitialIsSound(s);
    var h := RunHistory(cfg, s, ops);
    HistorySpendIsBounded(cfg, h, g, d);
  }

  /** Just after a purchase, everything the buyer spent since midnight UTC is within its cap. */
  lemma {:induction false} SpendAfterPurchase(s: State, itemId: Id, buyer: Id, qty: int, now: Time)
    requires Keyed(s) && Purchase(s, itemId, buyer, qty, now).Ok? && s.wallets[buyer].dailyCap > 0
    ensures Spent(Purchase(s, itemId, buyer, qty, now).value.ledger, buyer, StartOfUTCDay(now)) <= s.wallets[buyer].dailyCap
  {
    PurchaseHasEffect(s, itemId, buyer, qty, now);
    var cost, seller := s.items[itemId].price * qty, s.items[itemId].seller;
    var x, y := Entry(buyer, LedgerDebit, cost, itemId, now), Entry(seller, LedgerCredit, cost, itemId, now);
    SpentAfterTwo(s.ledger, x, y, buyer, StartOfUTCDay(now));
    StartOfUTCDayContains(now);
  }

  /** One closing leaves its winner within the cap exactly when the check made at the bid would pass again. */
  lemma {:induction false} ClosingWithinCapIff(s: State, a: AuctionRow, now: Time, s': State, winner: Bid)
    requires SettleEffect(s, a, now, s') && a.HighestBid() == Some(winner)
    requires winner.guild in s.wallets && s.wallets[winner.guild].dailyCap > 0
    ensures Spent(s'.ledger, winner.guild, StartOfUTCDay(now)) <= s.wallets[winner.guild].dailyCap
       <==> s.wallets[winner.guild].WithinDailyCap(Spent(s.ledger, winner.guild, StartOfUTCDay(now)), winner.amount)
  {
    var x := Entry(winner.guild, LedgerSettle, winner.amount, a.itemId, now);
    var y := Entry(a.seller, LedgerCredit, winner.amount, a.itemId, now);
    SpentAfterTwo(s.ledger, x, y, winner.guild, StartOfUTCDay(now));
    StartOfUTCDayContains(now);
  }

  lemma SpentAfterTwo(ledger: seq<Entry>, x: Entry, y: Entry, g: Id, since: Time)
    ensures Spent(ledger + [x, y], g, since) == Spent(ledger, g, since) + SpendOf(g, since)(x) + SpendOf(g, since)(y)
  {
    assert ledger + [x, y] == (ledger + [x]) + [y];
    SeqSumPush(ledger, SpendOf(g, since), x);
    SeqSumPush(ledger + [x], SpendOf(g, since), y);
  }

  // ---------------------------------------------------------------- when a day stays within the cap

  /** Everything a guild spent on one day: its purchases and the auctions it won. */
  ghost function SpentOn(ledger: seq<Entry>, g: Id, d: int): Gold {
    BoughtOn(ledger, g, d) + WonOn(ledger, g, d)
  }

  lemma {:induction false} DayIsSpent(ledger: seq<Entry>, g: Id, d: int)
    requires Positive(ledger)
    ensures 0 <= SpentOn(ledger, g, d) <= Spent(ledger, g, d * DAY)
  {
    if ledger != [] {
      var front, e := ledger[..|ledger| - 1], ledger[|ledger| - 1];
      DayIsSpent(front, g, d);
      StartOfUTCDayContains(e.at);
    }
  }

  /** What one entry adds to a guild's spending of a day. */
  function Adds(e: Entry, g: Id, d: int): Gold {
    if e.guild == g && (e.kind.LedgerDebit? || e.kind.LedgerSettle?) && OnDay(e.at, d) then e.amount else 0
  }

  lemma SpentOnPush(ledger: seq<Entry>, e: Entry, g: Id, d: int)
    ensures SpentOn(ledger + [e], g, d) == SpentOn(ledger, g, d) + Adds(e, g, d)
  {
    SeqSumPush(ledger, OutOn(LedgerDebit, g, d), e);
    SeqSumPush(ledger, OutOn(LedgerSettle, g, d), e);
  }

  lemma SpentOnPushTwo(ledger: seq<Entry>, x: Entry, y: Entry, g: Id, d: int)
    ensures SpentOn(ledger + [x, y], g, d) == SpentOn(ledger, g, d) + Adds(x, g, d) + Adds(y, g, d)
  {
    assert ledger + [x, y] == (ledger + [x]) + [y];
    SpentOnPush(ledger, x, g, d);
    SpentOnPush(ledger + [x], y, g, d);
  }

  lemma {:induction false} SpentOnUnchanged(ledger: seq<Entry>, more: seq<Entry>, g: Id, d: int)
    requires forall e :: e in more ==> Adds(e, g, d) == 0
    requires Positive(more)
    ensures SpentOn(ledger + more, g, d) == SpentOn(ledger, g, d)
  {
    SeqSumConcat(ledger, more, OutOn(LedgerDebit, g, d));
    SeqSumConcat(ledger, more, OutOn(LedgerSettle, g, d));
    SeqSumZero(more, OutOn(LedgerDebit, g, d));
    SeqSumZero(more, OutOn(LedgerSettle, g, d));
  }

  ghost predicate WonBy(a: AuctionRow, g: Id) {
    a.HighestBid().Some? && a.HighestBid().value.guild == g
  }

  /** At each closing of the day that the guild wins, the winning bid still fits under the cap. Nothing in the code asks
      for this: the check is made when the bid is placed. */
  ghost predicate ClosingsFit(h: History, g: Id, d: int, cap: Gold) {
    match h
    case Start(_) => true
    case Then(before, c, _) =>
      && ClosingsFit(before, g, d, cap)
      && (c.ClosedOne? && OnDay(c.now, d) && WonBy(c.a, g) ==>
            SpentOn(before.state.ledger, g, d) + c.a.HighestBid().value.amount <= cap)
  }

  /** A purchase on the day ends within the cap, so it started within the cap. */
  lemma {:induction false} PurchaseWithinCap(s: State, itemId: Id, buyer: Id, qty: int, now: Time, s': State, g: Id,
                                             d: int, cap: Gold)
    requires PurchaseEffect(s, itemId, buyer, qty, now, s') && g in s.wallets && s.wallets[g].dailyCap == cap > 0
        && Positive(s.ledger)
    ensures SpentOn(s'.ledger, g, d) <= cap <==> SpentOn(s.ledger, g, d) <= cap
  {
    var cost, seller := s.items[itemId].price * qty, s.items[itemId].seller;
    var x, y := Entry(buyer, LedgerDebit, cost, itemId, now), Entry(seller, LedgerCredit, cost, itemId, now);
    SpentOnPushTwo(s.ledger, x, y, g, d);
    if g == buyer && OnDay(now, d) {
      DayIsSpent(s.ledger, g, d);
    }
  }

  lemma {:induction false} BidSpendsNothing(s: State, k: Id, bidder: Id, amount: Gold, bidId: Id, now: Time, s': State,
                                            g: Id, d: int)
    requires BidEffect(s, k, bidder, amount, bidId, now, s') && Positive(s'.ledger)
    ensures SpentOn(s'.ledger, g, d) == SpentOn(s.ledger, g, d)
  {
    var more := BidEntries(s.auctions[k], bidder, amount, now);
    assert forall e :: e in more ==> e in s'.ledger;
    SpentOnUnchanged(s.ledger, more, g, d);
  }

  lemma {:induction false} ClosingSpends(s: State, a: AuctionRow, now: Time, s': State, g: Id, d: int)
    requires SettleEffect(s, a, now, s')
    ensures SpentOn(s'.ledger, g, d)
         == SpentOn(s.ledger, g, d) + if OnDay(now, d) && WonBy(a, g) then a.HighestBid().value.amount else 0
  {
    if a.HighestBid().Some? {
      var winner := a.HighestBid().value;
      SpentOnPushTwo(s.ledger, Entry(winner.guild, LedgerSettle, winner.amount, a.itemId, now),
                     Entry(a.seller, LedgerCredit, winner.amount, a.itemId, now), g, d);
    } else {
      assert s'.ledger == s.ledger;
    }
  }

  lemma {:induction false} ChangeWithinCap(cfg: Config, s: State, c: Change, s': State, g: Id, d: int, cap: Gold)
    requires OrderlyAuctions(s) && Effect(cfg, s, c, s') && g in s.wallets && s.wallets[g].dailyCap == cap > 0
    requires Positive(s.ledger) && Positive(s'.ledger)
    ensures SpentOn(s'.ledger, g, d) <= cap <==>
            && SpentOn(s.ledger, g, d) <= cap
            && (c.ClosedOne? && OnDay(c.now, d) && WonBy(c.a, g) ==>
                  SpentOn(s.ledger, g, d) + c.a.HighestBid().value.amount <= cap)
  {
    match c {
      case Bought(itemId, buyer, qty, now) => PurchaseWithinCap(s, itemId, buyer, qty, now, s', g, d, cap);
      case Raised(k, bidder, amount, bidId, now) => BidSpendsNothing(s, k, bidder, amount, bidId, now, s', g, d);
      case ClosedOne(a, now) =>
        LeaderIsLast(a);
        ClosingSpends(s, a, now, s', g, d);
      case _ =>
    }
  }

  /** When the cap is kept: over any history from funded wallets, what a capped guild spends on a day stays within its cap
      if and only if each auction it won that day still fitted under the cap when it closed. */
  lemma {:induction false} DayWithinCapIff(cfg: Config, h: History, g: Id, d: int, cap: Gold)
    requires Valid(cfg, h) && Initial(First(h)) && g in First(h).wallets && First(h).wallets[g].dailyCap == cap > 0
    ensures SpentOn(h.state.ledger, g, d) <= cap <==> ClosingsFit(h, g, d, cap)
  {
    if h.Then? {
      DayWithinCapIff(cfg, h.before, g, d, cap);
      CappedAlong(cfg, h.before, g, cap);
      CappedAlong(cfg, h, g, cap);
      ChangeWithinCap(cfg, h.before.state, h.change, h.state, g, d, cap);
    }
  }

  /** The same for a run of requests, whichever history it is broken into. */
  lemma {:induction false} RunWithinCapIff(cfg: Config, s: State, ops: seq<Op>, g: Id, d: int)
    requires Initial(s) && Legal(cfg, s, ops) && g in s.wallets && s.wallets[g].dailyCap > 0
    ensures exists h :: Spans(cfg, h, s, Exec(cfg, s, ops))
    ensures forall h :: Spans(cfg, h, s, Exec(cfg, s, ops)) ==>
              (SpentOn(Exec(cfg, s, ops).ledger, g, d) <= s.wallets[g].dailyCap
               <==> ClosingsFit(h, g, d, s.wallets[g].dailyCap))
  {
    InitialIsSound(s);
    var h0 := RunHistory(cfg, s, ops);
    forall h | Spans(cfg, h, s, Exec(cfg, s, ops))
      ensures SpentOn(Exec(cfg, s, ops).ledger, g, d) <= s.wallets[g].dailyCap
          <==> ClosingsFit(h, g, d, s.wallets[g].dailyCap)
    {
      DayWithinCapIff(cfg, h, g, d, s.wallets[g].dailyCap);
    }
  }
}
