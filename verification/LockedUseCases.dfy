/**
 The use cases as transactions under row locks, in the order in which the service takes them. Run alone, each does
 exactly what its atomic form does; so by Locking.EveryScheduleIsSerial, any interleaving of them does too.
 Finding the active auction of an item and listing the due auctions take no lock until a row is found, so what they find
 is only a candidate here: any candidate at all, checked again under its lock.
 */
module LockedUseCases {
  import opened Domain
  import opened Wallets
  import opened Items
  import opened Auctions
  import opened States
  import opened UseCases
  import opened Invariant
  import opened Locking

  // ---------------------------------------------------------------- programs

  /** `found` is what the search for an active auction of the item came up with: nothing, or one candidate. */
  ghost function ListProg(cfg: Config, found: Option<Id>, itemId: Id, auctionId: Id, rarity: Rarity, seller: Id,
                          price: Gold, quantity: int, now: Time): Prog
  {
    var made := NewItem(itemId, rarity, seller, price, quantity, now);
    if made.Err? then Fail(made.error)
    else if rarity.Legendary? && price <= 0 then Fail(NonPositiveAmount)
    else MadeProg(cfg, found, made.value, auctionId, price, now)
  }

  ghost function MadeProg(cfg: Config, found: Option<Id>, item: ItemRow, auctionId: Id, price: Gold, now: Time): Prog
  {
    LockItem(item.id, (known: Result<ItemRow>) =>
      if known.Ok? then Fail(ItemNotFound)
      else WriteItem(item, if item.rarity.Legendary? then SearchProg(cfg, found, item, auctionId, price, now) else Done))
  }

  /** A candidate counts only if it is still an active auction of the item when it is locked. */
  ghost function SearchProg(cfg: Config, found: Option<Id>, item: ItemRow, auctionId: Id, startPrice: Gold, now: Time): Prog
  {
    match found
    case None => OpenProg(cfg, item, auctionId, startPrice, now)
    case Some(k) => LockAuction(k, (a: Result<AuctionRow>) =>
      if a.Ok? && ActiveFor(a.value, item.id) then Fail(AuctionExists) else OpenProg(cfg, item, auctionId, startPrice, now))
  }

  ghost function OpenProg(cfg: Config, item: ItemRow, auctionId: Id, startPrice: Gold, now: Time): Prog
  {
    LockAuction(auctionId, (taken: Result<AuctionRow>) =>
      if taken.Ok? then Fail(AuctionExists)
      else WriteAuction(AuctionRow(auctionId, item.id, item.seller, startPrice, now + cfg.window, cfg.extension,
          Active, [], now),
             WriteItem(item.(status := InAuction), Done)))
  }

  ghost function BuyProg(itemId: Id, buyer: Id, qty: int, now: Time): Prog
  {
    if qty < 1 then Fail(InvalidQuantity)
    else LockItem(itemId, (item: Result<ItemRow>) =>
      if item.Err? then Fail(item.error)
      else LockWallet(buyer, (payer: Result<WalletRow>) =>
        if payer.Err? then Fail(payer.error)
        else LockWallet(item.value.seller, (payee: Result<WalletRow>) =>
          if payee.Err? then Fail(payee.error)
          else BuyPriced(item.value, payer.value, payee.value, buyer, qty, now))))
  }

  ghost function BuyPriced(item: ItemRow, payer: WalletRow, payee: WalletRow, buyer: Id, qty: int, now: Time): Prog
  {
    var sale := item.SellTo(buyer, qty);
    if sale.Err? then Fail(sale.error)
    else SumSpend(buyer, StartOfUTCDay(now), (spent: Gold) => BuyCapped(item, sale.value, payer, payee, buyer, spent, now))
  }

  ghost function BuyCapped(item: ItemRow, sale: Sale, payer: WalletRow, payee: WalletRow, buyer: Id, spent: Gold,
                           now: Time): Prog
  {
    if !payer.WithinDailyCap(spent, sale.cost) then Fail(DailyCapExceeded)
    else if payer.Debit(sale.cost).Err? then Fail(payer.Debit(sale.cost).error)
    else if payee.Credit(sale.cost).Err? then Fail(payee.Credit(sale.cost).error)
    else BuyWritten(item, sale, payer.Debit(sale.cost).value, payee.Credit(sale.cost).value, buyer, now)
  }

  ghost function BuyWritten(item: ItemRow, sale: Sale, paid: WalletRow, earned: WalletRow, buyer: Id, now: Time): Prog
  {
    WriteItem(sale.item,
      WriteWallet(paid,
        WriteWallet(earned,
          Append(Entry(buyer, LedgerDebit, sale.cost, item.id, now),
            Append(Entry(item.seller, LedgerCredit, sale.cost, item.id, now), Done)))))
  }

  /** `k` is the auction that the search for an active auction of the item came up with. */
  ghost function BidProg(k: Id, itemId: Id, bidder: Id, amount: Gold, bidId: Id, now: Time): Prog
  {
    if amount <= 0 then Fail(NonPositiveAmount)
    else LockAuction(k, (found: Result<AuctionRow>) =>
      if found.Err? || !ActiveFor(found.value, itemId) then Fail(AuctionNotFound)
      else LockWallet(bidder, (wallet: Result<WalletRow>) =>
        if wallet.Err? then Fail(wallet.error)
        else BidPlaced(found.value, wallet.value, bidder, amount, bidId, now)))
  }

  ghost function BidPlaced(a: AuctionRow, wallet: WalletRow, bidder: Id, amount: Gold, bidId: Id, now: Time): Prog
  {
    var placed := a.PlaceBid(bidId, bidder, amount, now);
    if placed.Err? then Fail(placed.error)
    else SumSpend(bidder, StartOfUTCDay(now), (spent: Gold) =>
      if !wallet.WithinDailyCap(spent, amount) then Fail(DailyCapExceeded)
      else BidRelease(a, placed.value, wallet, bidder, amount, now))
  }

  ghost function BidRelease(a: AuctionRow, placed: AuctionRow, wallet: WalletRow, bidder: Id, amount: Gold, now: Time): Prog
  {
    match a.HighestBid()
    case None => BidReserve(placed, wallet, bidder, amount, now)
    case Some(high) =>
      if high.guild == bidder then
        if wallet.Release(high.amount).Err? then Fail(wallet.Release(high.amount).error)
        else BidReserve(placed, wallet.Release(high.amount).value, bidder, amount, now)
      else LockWallet(high.guild, (prev: Result<WalletRow>) =>
        if prev.Err? then Fail(prev.error)
        else if prev.value.Release(high.amount).Err? then Fail(prev.value.Release(high.amount).error)
        else ReleaseWritten(prev.value.Release(high.amount).value, high, a.itemId,
            BidReserve(placed, wallet, bidder, amount, now), now))
  }

  ghost function ReleaseWritten(freed: WalletRow, high: Bid, itemId: Id, rest: Prog, now: Time): Prog
  {
    WriteWallet(freed, Append(Entry(high.guild, LedgerRelease, high.amount, itemId, now), rest))
  }

  ghost function BidReserve(placed: AuctionRow, wallet: WalletRow, bidder: Id, amount: Gold, now: Time): Prog
  {
    if wallet.Reserve(amount).Err? then Fail(wallet.Reserve(amount).error)
    else WriteWallet(wallet.Reserve(amount).value,
           Append(Entry(bidder, LedgerReserve, amount, placed.itemId, now),
             WriteAuction(placed, Done)))
  }

  ghost function CancelProg(k: Id, itemId: Id, bidId: Id, guild: Id): Prog
  {
    LockAuction(k, (found: Result<AuctionRow>) =>
      if found.Err? || !ActiveFor(found.value, itemId) then Fail(AuctionNotFound)
      else if found.value.CancelBid(bidId, guild).Err? then Fail(found.value.CancelBid(bidId, guild).error)
      else WriteAuction(found.value.CancelBid(bidId, guild).value, Done))
  }

  /** Lock each candidate, keep those still due, then close them one after another. */
  ghost function SettleProg(candidates: seq<Id>, due: seq<AuctionRow>, now: Time): Prog
    decreases |candidates|
  {
    if candidates == [] then CloseProg(due, now)
    else LockAuction(candidates[0], (found: Result<AuctionRow>) =>
      SettleProg(candidates[1..], WithDue(found, due, now), now))
  }

  function WithDue(found: Result<AuctionRow>, due: seq<AuctionRow>, now: Time): seq<AuctionRow> {
    if found.Ok? && found.value.Due(now) then due + [found.value] else due
  }

  ghost function CloseProg(due: seq<AuctionRow>, now: Time): Prog
    decreases |due|
  {
    if due == [] then Done
    else
      var a, rest := due[0], due[1..];
      if a.Settle().Err? then Fail(a.Settle().error)
      else LockItem(a.itemId, (item: Result<ItemRow>) =>
        if item.Err? then Fail(item.error)
        else match a.HighestBid()
          case None => WriteItem(item.value.(status := Available), WriteAuction(a.Settle().value, CloseProg(rest, now)))
          case Some(winner) => PayProg(a, winner, RecordProg(a, winner, item.value, CloseProg(rest, now), now)))
  }

  ghost function RecordProg(a: AuctionRow, winner: Bid, item: ItemRow, rest: Prog, now: Time): Prog
  {
    Append(Entry(winner.guild, LedgerSettle, winner.amount, a.itemId, now),
      Append(Entry(a.seller, LedgerCredit, winner.amount, a.itemId, now),
        WriteItem(item.(status := SoldOut),
          WriteAuction(a.(status := Settled), rest))))
  }

  ghost function PayProg(a: AuctionRow, winner: Bid, rest: Prog): Prog
  {
    LockWallet(winner.guild, (payer: Result<WalletRow>) =>
      if payer.Err? then Fail(payer.error)
      else if payer.value.Settle(winner.amount).Err? then Fail(payer.value.Settle(winner.amount).error)
      else WriteWallet(payer.value.Settle(winner.amount).value, EarnProg(a.seller, winner.amount, rest)))
  }

  ghost function EarnProg(seller: Id, amount: Gold, rest: Prog): Prog
  {
    LockWallet(seller, (payee: Result<WalletRow>) =>
      if payee.Err? then Fail(payee.error)
      else if payee.value.Credit(amount).Err? then Fail(payee.value.Credit(amount).error)
      else WriteWallet(payee.value.Credit(amount).value, rest))
  }

  // ---------------------------------------------------------------- running one alone

  /** Alone on `d`, the transaction gets from `l` to `l'`. */
  ghost predicate Goes(d: State, l: Local, l': Local) {
    exists n: nat :: Steps(d, l, n) == l'
  }

  lemma Stays(d: State, l: Local)
    ensures Goes(d, l, l)
  {
    assert Steps(d, l, 0) == l;
  }

  lemma GoesOn(d: State, l0: Local, l: Local)
    requires Goes(d, l0, l)
    ensures Goes(d, l0, Step(d, l))
  {
    var n: nat :| Steps(d, l0, n) == l;
    assert Steps(d, l0, n + 1) == Step(d, l);
  }

  lemma PutOnTop<K, V>(under: map<K, V>, over: map<K, V>, k: K, v: V)
    ensures under + over[k := v] == (under + over)[k := v]
  {
  }

  // A write takes effect in the transaction's own view, and nowhere else.

  lemma WritesItem(d: State, l0: Local, l: Local) returns (l': Local)
    requires Goes(d, l0, l) && l.prog.WriteItem? && ItemOf(l.prog.item.id) in l.held
    ensures Goes(d, l0, l') && l'.held == l.held && l'.prog == l.prog.rest
        && View(d, l') == PutItem(View(d, l), l.prog.item)
  {
    l' := Step(d, l);
    GoesOn(d, l0, l);
    PutOnTop(d.items, l.items, l.prog.item.id, l.prog.item);
  }

  lemma WritesWallet(d: State, l0: Local, l: Local) returns (l': Local)
    requires Goes(d, l0, l) && l.prog.WriteWallet? && WalletOf(l.prog.wallet.guild) in l.held
    ensures Goes(d, l0, l') && l'.held == l.held && l'.prog == l.prog.rest
        && View(d, l') == PutWallet(View(d, l), l.prog.wallet)
  {
    l' := Step(d, l);
    GoesOn(d, l0, l);
    PutOnTop(d.wallets, l.wallets, l.prog.wallet.guild, l.prog.wallet);
  }

  lemma WritesAuction(d: State, l0: Local, l: Local) returns (l': Local)
    requires Goes(d, l0, l) && l.prog.WriteAuction? && AuctionOf(l.prog.auction.id) in l.held
    ensures Goes(d, l0, l') && l'.held == l.held && l'.prog == l.prog.rest
        && View(d, l') == PutAuction(View(d, l), l.prog.auction)
  {
    l' := Step(d, l);
    GoesOn(d, l0, l);
    PutOnTop(d.auctions, l.auctions, l.prog.auction.id, l.prog.auction);
  }

  lemma Appends(d: State, l0: Local, l: Local) returns (l': Local)
    requires Goes(d, l0, l) && l.prog.Append? && Disciplined(l)
    ensures Goes(d, l0, l') && l'.held == l.held && l'.prog == l.prog.rest && View(d, l') == Log(View(d, l), [l.prog.entry])
  {
    l' := Step(d, l);
    GoesOn(d, l0, l);
    assert d.ledger + (l.ledger + [l.prog.entry]) == d.ledger + l.ledger + [l.prog.entry];
  }

  lemma LocksItem(d: State, l0: Local, l: Local) returns (l': Local)
    requires Goes(d, l0, l) && l.prog.LockItem?
    ensures Goes(d, l0, l') && l'.held == l.held + {ItemOf(l.prog.itemId)}
    ensures View(d, l') == View(d, l) && l'.prog == l.prog.onItem(GetItem(View(d, l), l.prog.itemId))
  {
    l' := Step(d, l);
    GoesOn(d, l0, l);
  }

  lemma LocksWallet(d: State, l0: Local, l: Local) returns (l': Local)
    requires Goes(d, l0, l) && l.prog.LockWallet?
    ensures Goes(d, l0, l') && l'.held == l.held + {WalletOf(l.prog.guild)}
    ensures View(d, l') == View(d, l) && l'.prog == l.prog.onWallet(GetWallet(View(d, l), l.prog.guild))
  {
    l' := Step(d, l);
    GoesOn(d, l0, l);
  }

  lemma LocksAuction(d: State, l0: Local, l: Local) returns (l': Local)
    requires Goes(d, l0, l) && l.prog.LockAuction?
    ensures Goes(d, l0, l') && l'.held == l.held + {AuctionOf(l.prog.auctionId)}
    ensures View(d, l') == View(d, l) && l'.prog == l.prog.onAuction(GetAuction(View(d, l), l.prog.auctionId))
  {
    l' := Step(d, l);
    GoesOn(d, l0, l);
  }

  lemma ReadsSpend(d: State, l0: Local, l: Local) returns (l': Local)
    requires Goes(d, l0, l) && l.prog.SumSpend? && Disciplined(l)
    ensures Goes(d, l0, l') && l'.held == l.held
    ensures View(d, l') == View(d, l) && l'.prog == l.prog.onSum(Spent(View(d, l).ledger, l.prog.spender, l.prog.since))
  {
    l' := Step(d, l);
    GoesOn(d, l0, l);
  }

  /** The transaction ends as the atomic use case says: committed with its effect, or failed with its error. */
  ghost predicate EndsAs(d: State, l0: Local, r: Result<State>) {
    exists l :: Goes(d, l0, l) && EndedWith(d, l, r)
  }

  ghost predicate EndedWith(d: State, l: Local, r: Result<State>) {
    match r
    case Ok(s) => l.prog.Done? && View(d, l) == s
    case Err(e) => l.prog == Fail(e)
  }

  lemma Ends(d: State, l0: Local, l: Local, r: Result<State>)
    requires Goes(d, l0, l) && EndedWith(d, l, r)
    ensures EndsAs(d, l0, r)
  {
  }

  lemma {:induction false} EndedStaysEnded(d: State, l: Local, n: nat, m: nat)
    requires n <= m && Ended(Steps(d, l, n).prog)
    ensures Steps(d, l, m) == Steps(d, l, n)
  {
    if n < m {
      EndedStaysEnded(d, l, n, m - 1);
    }
  }

  /** A transaction ends in one way only. */
  lemma {:induction false} EndsOneWay(d: State, p: Prog, r: Result<State>, d': State)
    requires EndsAs(d, Begin(p), r) && RunsAlone(d, p, d')
    ensures r == Ok(d')
  {
    var l :| Goes(d, Begin(p), l) && EndedWith(d, l, r);
    var n: nat :| Steps(d, Begin(p), n) == l;
    var m: nat :| RunsAloneIn(d, p, m, d');
    if n <= m {
      EndedStaysEnded(d, Begin(p), n, m);
    } else {
      EndedStaysEnded(d, Begin(p), m, n);
    }
  }

  // ---------------------------------------------------------------- listing

  ghost predicate AuctionsHaveItems(d: State)
  {
    forall k :: k in d.auctions ==> d.auctions[k].itemId in d.items
  }

  /** What the listing ends as: the atomic listing, unless the identifier of the new auction is taken. */
  ghost function Listing(cfg: Config, d: State, itemId: Id, auctionId: Id, rarity: Rarity, seller: Id, price: Gold,
                         quantity: int, now: Time): Result<State>
  {
    var r := CreateItem(cfg, d, itemId, auctionId, rarity, seller, price, quantity, now);
    if r.Ok? && rarity.Legendary? && auctionId in d.auctions then Err(AuctionExists) else r
  }

  /** Whatever candidate the search comes up with, the listing ends as the atomic listing. */
  lemma {:induction false} ListAlone(cfg: Config, d: State, found: Option<Id>, itemId: Id, auctionId: Id,
                                     rarity: Rarity, seller: Id, price: Gold, quantity: int, now: Time)
    requires AuctionsHaveItems(d)
    ensures EndsAs(d, Begin(ListProg(cfg, found, itemId, auctionId, rarity, seller, price, quantity, now)),
                   Listing(cfg, d, itemId, auctionId, rarity, seller, price, quantity, now))
  {
    var l0 := Begin(ListProg(cfg, found, itemId, auctionId, rarity, seller, price, quantity, now));
    Stays(d, l0);
    ListingAsWritten(cfg, d, itemId, auctionId, rarity, seller, price, quantity, now);
    var made := NewItem(itemId, rarity, seller, price, quantity, now);
    assert View(d, l0) == d;
    if l0.prog.Fail? {
      Ends(d, l0, l0, Err(l0.prog.error));
    } else {
      MadeAlone(cfg, d, l0, l0, found, made.value, auctionId, price, now);
    }
  }

  lemma {:induction false} MadeAlone(cfg: Config, d: State, l0: Local, l: Local, found: Option<Id>, item: ItemRow,
                                     auctionId: Id, price: Gold, now: Time)
    requires Goes(d, l0, l) && View(d, l) == d && AuctionsHaveItems(d)
    requires item.rarity.Legendary? ==> price > 0
    requires l.prog == MadeProg(cfg, found, item, auctionId, price, now)
    ensures EndsAs(d, l0, if item.id in d.items then Err(ItemNotFound) else ListedNew(cfg, d, item, auctionId, price, now))
  {
    var l1 := LocksItem(d, l0, l);
    if item.id in d.items {
      Ends(d, l0, l1, Err(ItemNotFound));
    } else {
      ListNewAlone(cfg, d, l0, l1, found, item, auctionId, price, now);
    }
  }

  /** The listing of an item that is not in the store. */
  ghost function ListedNew(cfg: Config, d: State, item: ItemRow, auctionId: Id, price: Gold, now: Time): Result<State>
  {
    if !item.rarity.Legendary? then Ok(PutItem(d, item))
    else if auctionId in d.auctions then Err(AuctionExists)
    else OpenAuction(cfg, PutItem(d, item), item, auctionId, price, now)
  }

  lemma {:induction false} ListingAsWritten(cfg: Config, d: State, itemId: Id, auctionId: Id, rarity: Rarity,
                                            seller: Id, price: Gold, quantity: int, now: Time)
    requires AuctionsHaveItems(d)
    ensures
      var made := NewItem(itemId, rarity, seller, price, quantity, now);
      Listing(cfg, d, itemId, auctionId, rarity, seller, price, quantity, now) ==
      if made.Err? then Err(made.error)
      else if rarity.Legendary? && price <= 0 then Err(NonPositiveAmount)
      else if itemId in d.items then Err(ItemNotFound)
      else ListedNew(cfg, d, made.value, auctionId, price, now)
  {
    if itemId !in d.items {
      NoAuctionOfNewItem(d, itemId);
    }
  }

  lemma {:induction false} ListNewAlone(cfg: Config, d: State, l0: Local, l: Local, found: Option<Id>, item: ItemRow,
                                        auctionId: Id, price: Gold, now: Time)
    requires Goes(d, l0, l) && View(d, l) == d && AuctionsHaveItems(d) && item.id !in d.items && ItemOf(item.id) in l.held
    requires item.rarity.Legendary? ==> price > 0
    requires l.prog == WriteItem(item,
        if item.rarity.Legendary? then SearchProg(cfg, found, item, auctionId, price, now) else Done)
    ensures EndsAs(d, l0, ListedNew(cfg, d, item, auctionId, price, now))
  {
    var l1 := WritesItem(d, l0, l);
    if item.rarity.Legendary? {
      NoAuctionOfNewItem(d, item.id);
      SearchAlone(cfg, d, l0, l1, found, item, auctionId, price, now);
    } else {
      Ends(d, l0, l1, Ok(PutItem(d, item)));
    }
  }

  lemma NoAuctionOfNewItem(d: State, itemId: Id)
    requires AuctionsHaveItems(d) && itemId !in d.items
    ensures ActiveAuction(d.auctions, itemId) == Err(AuctionNotFound)
  {
    assert ActiveAuction(d.auctions, itemId).Err?;
  }

  lemma {:induction false} SearchAlone(cfg: Config, d: State, l0: Local, l: Local, found: Option<Id>, item: ItemRow,
                                       auctionId: Id, startPrice: Gold, now: Time)
    requires Goes(d, l0, l) && l.prog == SearchProg(cfg, found, item, auctionId, startPrice, now)
        && ItemOf(item.id) in l.held
    requires startPrice > 0 && ActiveAuction(View(d, l).auctions, item.id).Err?
    ensures EndsAs(d, l0, if auctionId in View(d, l).auctions then Err(AuctionExists)
                          else OpenAuction(cfg, View(d, l), item, auctionId, startPrice, now))
  {
    if found.None? {
      OpenAlone(cfg, d, l0, l, item, auctionId, startPrice, now);
    } else {
      var l1 := LocksAuction(d, l0, l);
      OpenAlone(cfg, d, l0, l1, item, auctionId, startPrice, now);
    }
  }

  lemma {:induction false} OpenAlone(cfg: Config, d: State, l0: Local, l: Local, item: ItemRow, auctionId: Id,
                                     startPrice: Gold, now: Time)
    requires Goes(d, l0, l) && l.prog == OpenProg(cfg, item, auctionId, startPrice, now) && ItemOf(item.id) in l.held
    requires startPrice > 0 && ActiveAuction(View(d, l).auctions, item.id).Err?
    ensures EndsAs(d, l0, if auctionId in View(d, l).auctions then Err(AuctionExists)
                          else OpenAuction(cfg, View(d, l), item, auctionId, startPrice, now))
  {
    var l1 := LocksAuction(d, l0, l);
    if auctionId in View(d, l).auctions {
      Ends(d, l0, l1, Err(AuctionExists));
    } else {
      var l2 := WritesAuction(d, l0, l1);
      var l3 := WritesItem(d, l0, l2);
      Ends(d, l0, l3, OpenAuction(cfg, View(d, l), item, auctionId, startPrice, now));
    }
  }

  // ---------------------------------------------------------------- buying

  lemma {:induction false} BuyAlone(d: State, itemId: Id, buyer: Id, qty: int, now: Time)
    requires Keyed(d)
    ensures EndsAs(d, Begin(BuyProg(itemId, buyer, qty, now)), Purchase(d, itemId, buyer, qty, now))
  {
    var l0 := Begin(BuyProg(itemId, buyer, qty, now));
    var r := Purchase(d, itemId, buyer, qty, now);
    Stays(d, l0);
    assert View(d, l0) == d;
    if qty < 1 {
      Ends(d, l0, l0, r);
    } else {
      var l1 := LocksItem(d, l0, l0);
      if itemId !in d.items {
        Ends(d, l0, l1, r);
      } else {
        var l2 := LocksWallet(d, l0, l1);
        if buyer !in d.wallets {
          Ends(d, l0, l2, r);
        } else {
          var l3 := LocksWallet(d, l0, l2);
          if d.items[itemId].seller !in d.wallets {
            Ends(d, l0, l3, r);
          } else {
            PurchaseAsWritten(d, d.items[itemId], buyer, qty, now);
            BuyPricedAlone(d, l0, l3, d.items[itemId], buyer, qty, now);
          }
        }
      }
    }
  }

  lemma {:induction false} BuyPricedAlone(d: State, l0: Local, l: Local, item: ItemRow, buyer: Id, qty: int, now: Time)
    requires Goes(d, l0, l) && Keyed(d) && View(d, l) == d && buyer in d.wallets && item.seller in d.wallets
    requires {ItemOf(item.id), WalletOf(buyer), WalletOf(item.seller)} <= l.held
    requires l.prog == BuyPriced(item, d.wallets[buyer], d.wallets[item.seller], buyer, qty, now)
    ensures EndsAs(d, l0, Priced(d, item, buyer, qty, now))
  {
    var sale := item.SellTo(buyer, qty);
    if sale.Err? {
      Ends(d, l0, l, Err(sale.error));
    } else {
      var l1 := ReadsSpend(d, l0, l);
      BuyCappedAlone(d, l0, l1, item, sale.value, buyer, Spent(d.ledger, buyer, StartOfUTCDay(now)), now);
    }
  }

  lemma {:induction false} BuyCappedAlone(d: State, l0: Local, l: Local, item: ItemRow, sale: Sale, buyer: Id,
                                          spent: Gold, now: Time)
    requires Goes(d, l0, l) && Keyed(d) && View(d, l) == d && sale.item.id == item.id
    requires buyer in d.wallets && item.seller in d.wallets
    requires {ItemOf(item.id), WalletOf(buyer), WalletOf(item.seller)} <= l.held
    requires l.prog == BuyCapped(item, sale, d.wallets[buyer], d.wallets[item.seller], buyer, spent, now)
    ensures EndsAs(d, l0, Paid(d, item, sale, buyer, spent, now))
  {
    var paid, earned := d.wallets[buyer].Debit(sale.cost), d.wallets[item.seller].Credit(sale.cost);
    if l.prog.Fail? {
      Ends(d, l0, l, Err(l.prog.error));
    } else {
      BuyWrites(d, l0, l, item, sale, paid.value, earned.value, buyer, now);
    }
  }

  /** The rest of a purchase, with buyer and seller read before either is written. */
  ghost function Paid(d: State, item: ItemRow, sale: Sale, buyer: Id, spent: Gold, now: Time): Result<State>
    requires buyer in d.wallets && item.seller in d.wallets
  {
    var paid, earned := d.wallets[buyer].Debit(sale.cost), d.wallets[item.seller].Credit(sale.cost);
    if !d.wallets[buyer].WithinDailyCap(spent, sale.cost) then Err(DailyCapExceeded)
    else if paid.Err? then Err(paid.error)
    else if earned.Err? then Err(earned.error)
    else Ok(Log(PutWallet(PutWallet(PutItem(d, sale.item), paid.value), earned.value),
                [Entry(buyer, LedgerDebit, sale.cost, item.id, now),
                    Entry(item.seller, LedgerCredit, sale.cost, item.id, now)]))
  }

  ghost function Priced(d: State, item: ItemRow, buyer: Id, qty: int, now: Time): Result<State>
    requires buyer in d.wallets && item.seller in d.wallets
  {
    var sale := item.SellTo(buyer, qty);
    if sale.Err? then Err(sale.error) else Paid(d, item, sale.value, buyer, Spent(d.ledger, buyer, StartOfUTCDay(now)), now)
  }

  /** A purchase, with buyer and seller read before either is written. */
  lemma {:induction false} PurchaseAsWritten(d: State, item: ItemRow, buyer: Id, qty: int, now: Time)
    requires Keyed(d) && qty >= 1
    requires item.id in d.items && d.items[item.id] == item && buyer in d.wallets && item.seller in d.wallets
    ensures Purchase(d, item.id, buyer, qty, now) == Priced(d, item, buyer, qty, now)
  {
    if item.SellTo(buyer, qty).Ok? {
      assert buyer != item.seller;
    }
  }

  lemma {:induction false} BuyWrites(d: State, l0: Local, l: Local, item: ItemRow, sale: Sale, paid: WalletRow,
                                     earned: WalletRow, buyer: Id, now: Time)
    requires Goes(d, l0, l) && View(d, l) == d && paid.guild == buyer && sale.item.id == item.id
        && earned.guild == item.seller
    requires {ItemOf(item.id), WalletOf(buyer), WalletOf(item.seller)} <= l.held
    requires l.prog == BuyWritten(item, sale, paid, earned, buyer, now)
    ensures EndsAs(d, l0, Ok(Log(PutWallet(PutWallet(PutItem(d, sale.item), paid), earned),
                           [Entry(buyer, LedgerDebit, sale.cost, item.id, now),
                               Entry(item.seller, LedgerCredit, sale.cost, item.id, now)])))
  {
    var x, y := Entry(buyer, LedgerDebit, sale.cost, item.id, now),
        Entry(item.seller, LedgerCredit, sale.cost, item.id, now);
    var l1 := WritesItem(d, l0, l);
    var l2 := WritesWallet(d, l0, l1);
    var l3 := WritesWallet(d, l0, l2);
    EndsWithTwoEntries(d, l0, l3, x, y);
  }

  lemma {:induction false} EndsWithTwoEntries(d: State, l0: Local, l: Local, x: Entry, y: Entry)
    requires Goes(d, l0, l) && l.prog == Append(x, Append(y, Done))
    requires WalletOf(x.guild) in l.held && WalletOf(y.guild) in l.held
    ensures EndsAs(d, l0, Ok(Log(View(d, l), [x, y])))
  {
    var l1 := Appends(d, l0, l);
    var l2 := Appends(d, l0, l1);
    assert View(d, l).ledger + [x, y] == View(d, l).ledger + [x] + [y];
    Ends(d, l0, l2, Ok(Log(View(d, l), [x, y])));
  }

  // ---------------------------------------------------------------- bidding

  /** An auction found without a lock is checked again under its lock. If it is still the active one of the item, the bid
      does what the atomic bid does; if not, it is refused. */
  lemma {:induction false} BidAlone(d: State, k: Id, itemId: Id, bidder: Id, amount: Gold, bidId: Id, now: Time)
    requires Keyed(d) && OneAuctionPerItem(d.auctions)
    ensures EndsAs(d, Begin(BidProg(k, itemId, bidder, amount, bidId, now)),
              if amount <= 0 || (k in d.auctions && ActiveFor(d.auctions[k], itemId))
              then BidOnItem(d, itemId, bidder, amount, bidId, now) else Err(AuctionNotFound))
  {
    var l0 := Begin(BidProg(k, itemId, bidder, amount, bidId, now));
    Stays(d, l0);
    assert View(d, l0) == d;
    if amount <= 0 {
      Ends(d, l0, l0, Err(NonPositiveAmount));
    } else {
      var l1 := LocksAuction(d, l0, l0);
      if k !in d.auctions || !ActiveFor(d.auctions[k], itemId) {
        Ends(d, l0, l1, Err(AuctionNotFound));
      } else {
        BidOnFound(d, k, itemId, bidder, amount, bidId, now);
        var l2 := LocksWallet(d, l0, l1);
        if bidder !in d.wallets {
          Ends(d, l0, l2, Err(WalletNotFound));
        } else {
          BidPlacedAlone(d, l0, l2, d.auctions[k], bidder, amount, bidId, now);
        }
      }
    }
  }

  lemma {:induction false} BidOnFound(d: State, k: Id, itemId: Id, bidder: Id, amount: Gold, bidId: Id, now: Time)
    requires OneAuctionPerItem(d.auctions) && amount > 0 && k in d.auctions && ActiveFor(d.auctions[k], itemId)
    ensures BidOnItem(d, itemId, bidder, amount, bidId, now) ==
            if bidder !in d.wallets then Err(WalletNotFound) else BidOn(d, d.auctions[k], bidder, amount, bidId, now)
  {
    assert ActiveAuction(d.auctions, itemId) == Ok(k);
  }

  /** The rest of a bid once the auction and the bidder's wallet are at hand. */
  ghost function BidOn(s: State, a: AuctionRow, bidder: Id, amount: Gold, bidId: Id, now: Time): Result<State>
    requires bidder in s.wallets
  {
    var placed :- a.PlaceBid(bidId, bidder, amount, now);
    if !s.wallets[bidder].WithinDailyCap(Spent(s.ledger, bidder, StartOfUTCDay(now)), amount) then Err(DailyCapExceeded)
    else Reseat(s, a, placed, bidder, amount, now)
  }

  ghost function Reseat(s: State, a: AuctionRow, placed: AuctionRow, bidder: Id, amount: Gold, now: Time): Result<State>
  {
    var s1 :- ReleaseLeader(s, a, bidder, now);
    var s2 :- ReserveFunds(s1, a, bidder, amount, now);
    Ok(PutAuction(s2, placed))
  }

  lemma {:induction false} BidPlacedAlone(d: State, l0: Local, l: Local, a: AuctionRow, bidder: Id, amount: Gold,
                                          bidId: Id, now: Time)
    requires Goes(d, l0, l) && Keyed(d) && View(d, l) == d && bidder in d.wallets
    requires {AuctionOf(a.id), WalletOf(bidder)} <= l.held
    requires l.prog == BidPlaced(a, d.wallets[bidder], bidder, amount, bidId, now)
    ensures EndsAs(d, l0, BidOn(d, a, bidder, amount, bidId, now))
  {
    var placed := a.PlaceBid(bidId, bidder, amount, now);
    if placed.Err? {
      Ends(d, l0, l, Err(placed.error));
    } else {
      var l1 := ReadsSpend(d, l0, l);
      if l1.prog == Fail(DailyCapExceeded)
          && !d.wallets[bidder].WithinDailyCap(Spent(d.ledger, bidder, StartOfUTCDay(now)), amount) {
        Ends(d, l0, l1, Err(DailyCapExceeded));
      } else {
        BidReleaseAlone(d, l0, l1, a, placed.value, bidder, amount, now);
      }
    }
  }

  lemma {:induction false} BidReleaseAlone(d: State, l0: Local, l: Local, a: AuctionRow, placed: AuctionRow, bidder: Id,
                                           amount: Gold, now: Time)
    requires Goes(d, l0, l) && Keyed(d) && View(d, l) == d && bidder in d.wallets
    requires {AuctionOf(a.id), WalletOf(bidder)} <= l.held && placed.id == a.id && placed.itemId == a.itemId
    requires l.prog == BidRelease(a, placed, d.wallets[bidder], bidder, amount, now)
    ensures EndsAs(d, l0, Reseat(d, a, placed, bidder, amount, now))
  {
    match a.HighestBid() {
      case None => BidReserveAlone(d, l0, l, placed, d.wallets[bidder], bidder, amount, now);
      case Some(high) =>
        if high.guild == bidder {
          RaiseOwnAlone(d, l0, l, a, placed, bidder, amount, now);
        } else {
          OutbidAlone(d, l0, l, a, placed, bidder, amount, now);
        }
    }
  }

  lemma {:induction false} RaiseOwnAlone(d: State, l0: Local, l: Local, a: AuctionRow, placed: AuctionRow, bidder: Id,
                                         amount: Gold, now: Time)
    requires Goes(d, l0, l) && View(d, l) == d && bidder in d.wallets && d.wallets[bidder].guild == bidder
    requires {AuctionOf(a.id), WalletOf(bidder)} <= l.held && placed.id == a.id && placed.itemId == a.itemId
    requires l.prog == BidRelease(a, placed, d.wallets[bidder], bidder, amount, now)
    requires a.HighestBid().Some? && a.HighestBid().value.guild == bidder
    ensures EndsAs(d, l0, Reseat(d, a, placed, bidder, amount, now))
  {
    var freed := d.wallets[bidder].Release(a.HighestBid().value.amount);
    if freed.Err? {
      Ends(d, l0, l, Err(freed.error));
    } else {
      BidReserveAlone(d, l0, l, placed, freed.value, bidder, amount, now);
      var held := freed.value.Reserve(amount);
      if held.Ok? {
        assert d.wallets[bidder := freed.value][bidder := held.value] == d.wallets[bidder := held.value];
        assert PutWallet(Log(PutWallet(d, freed.value), []), held.value) == PutWallet(d, held.value);
      }
    }
  }

  lemma {:induction false} OutbidAlone(d: State, l0: Local, l: Local, a: AuctionRow, placed: AuctionRow, bidder: Id,
                                       amount: Gold, now: Time)
    requires Goes(d, l0, l) && View(d, l) == d && bidder in d.wallets && d.wallets[bidder].guild == bidder
    requires {AuctionOf(a.id), WalletOf(bidder)} <= l.held && placed.id == a.id && placed.itemId == a.itemId
    requires l.prog == BidRelease(a, placed, d.wallets[bidder], bidder, amount, now)
    requires a.HighestBid().Some? && a.HighestBid().value.guild != bidder
    requires var g := a.HighestBid().value.guild; g in d.wallets ==> d.wallets[g].guild == g
    ensures EndsAs(d, l0, Reseat(d, a, placed, bidder, amount, now))
  {
    var high := a.HighestBid().value;
    var l1 := LocksWallet(d, l0, l);
    if high.guild !in d.wallets {
      Ends(d, l0, l1, Err(WalletNotFound));
    } else {
      var freed := d.wallets[high.guild].Release(high.amount);
      if freed.Err? {
        Ends(d, l0, l1, Err(freed.error));
      } else {
        var l3 := ReleaseAlone(d, l0, l1, freed.value, high, a.itemId,
            BidReserve(placed, d.wallets[bidder], bidder, amount, now), now);
        assert ReleaseLeader(d, a, bidder, now) == Ok(View(d, l3));
        assert GetWallet(View(d, l3), bidder) == Ok(d.wallets[bidder]);
        BidReserveAlone(d, l0, l3, placed, d.wallets[bidder], bidder, amount, now);
      }
    }
  }

  lemma {:induction false} ReleaseAlone(d: State, l0: Local, l: Local, freed: WalletRow, high: Bid, itemId: Id,
                                        rest: Prog, now: Time)
    returns (l': Local)
    requires Goes(d, l0, l) && l.prog == ReleaseWritten(freed, high, itemId, rest, now) && WalletOf(freed.guild) in l.held
    ensures Goes(d, l0, l') && l'.held == l.held && l'.prog == rest
    ensures View(d, l') == Log(PutWallet(View(d, l), freed), [Entry(high.guild, LedgerRelease, high.amount, itemId, now)])
  {
    l' := WritesWallet(d, l0, l);
    l' := Appends(d, l0, l');
  }

  lemma {:induction false} BidReserveAlone(d: State, l0: Local, l: Local, placed: AuctionRow, wallet: WalletRow,
                                           bidder: Id, amount: Gold, now: Time)
    requires Goes(d, l0, l) && wallet.guild == bidder && {AuctionOf(placed.id), WalletOf(bidder)} <= l.held
    requires l.prog == BidReserve(placed, wallet, bidder, amount, now)
    ensures
      var held := wallet.Reserve(amount);
      EndsAs(d, l0, if held.Err? then Err(held.error)
                    else Ok(PutAuction(Log(PutWallet(View(d, l), held.value),
                        [Entry(bidder, LedgerReserve, amount, placed.itemId, now)]),
                                       placed)))
  {
    var held := wallet.Reserve(amount);
    if held.Err? {
      Ends(d, l0, l, Err(held.error));
    } else {
      var l1 := WritesWallet(d, l0, l);
      var l2 := Appends(d, l0, l1);
      var l3 := WritesAuction(d, l0, l2);
      Ends(d, l0, l3, Ok(View(d, l3)));
    }
  }

  lemma {:induction false} CancelAlone(d: State, k: Id, itemId: Id, bidId: Id, guild: Id)
    requires Keyed(d) && OneAuctionPerItem(d.auctions)
    ensures EndsAs(d, Begin(CancelProg(k, itemId, bidId, guild)),
              if k in d.auctions && ActiveFor(d.auctions[k], itemId)
              then CancelBidOnItem(d, itemId, bidId, guild) else Err(AuctionNotFound))
  {
    var l0 := Begin(CancelProg(k, itemId, bidId, guild));
    Stays(d, l0);
    assert View(d, l0) == d;
    var l1 := LocksAuction(d, l0, l0);
    if k !in d.auctions || !ActiveFor(d.auctions[k], itemId) {
      Ends(d, l0, l1, Err(AuctionNotFound));
    } else {
      var r := d.auctions[k].CancelBid(bidId, guild);
      if r.Err? {
        Ends(d, l0, l1, Err(r.error));
      } else {
        var l2 := WritesAuction(d, l0, l1);
        Ends(d, l0, l2, Ok(PutAuction(d, r.value)));
      }
    }
  }

  // ---------------------------------------------------------------- settling

  /** The rows of those candidates that are due in `d`, in the order of the candidates. */
  ghost function StillDue(d: State, candidates: seq<Id>, now: Time): seq<AuctionRow>
  {
    if candidates == [] then []
    else
      var k, rest := candidates[0], StillDue(d, candidates[1..], now);
      if k in d.auctions && d.auctions[k].Due(now) then [d.auctions[k]] + rest else rest
  }

  lemma {:induction false} StillDueMembers(d: State, candidates: seq<Id>, now: Time)
    requires Keyed(d) && (forall i, j :: 0 <= i < j < |candidates| ==> candidates[i] != candidates[j])
    ensures DistinctAuctions(StillDue(d, candidates, now))
    ensures forall a :: a in StillDue(d, candidates, now) <==>
              a.id in candidates && a.id in d.auctions && d.auctions[a.id] == a && a.Due(now)
  {
    if candidates != [] {
      var k, rest := candidates[0], candidates[1..];
      StillDueMembers(d, rest, now);
      assert forall i :: i in candidates <==> i == k || i in rest;
      assert k !in rest;
    }
  }

  /** Closing a list from its front is closing it in order. */
  ghost function SettleFromFront(s: State, due: seq<AuctionRow>, now: Time): Result<State>
    decreases |due|
  {
    if due == [] then Ok(s) else
    var s1 :- SettleOne(s, due[0], now);
    SettleFromFront(s1, due[1..], now)
  }

  lemma {:induction false} SettleFromFrontIsSettleAll(s: State, due: seq<AuctionRow>, now: Time)
    ensures SettleFromFront(s, due, now) == SettleAll(s, due, now)
    decreases |due|
  {
    if |due| == 1 {
      assert due[..0] == [] && due[1..] == [];
    } else if |due| > 1 {
      var n := |due| - 1;
      var s1 := SettleOne(s, due[0], now);
      SettleFromFrontIsSettleAll(s, due[..n], now);
      assert due[..n][1..] == due[1..][..n - 1];
      if s1.Ok? {
        SettleFromFrontIsSettleAll(s1.value, due[1..], now);
        SettleFromFrontIsSettleAll(s1.value, due[1..][..n - 1], now);
      }
    }
  }

  lemma {:induction false} SettleAlone(d: State, candidates: seq<Id>, now: Time)
    requires Keyed(d)
    ensures EndsAs(d, Begin(SettleProg(candidates, [], now)), SettleAll(d, StillDue(d, candidates, now), now))
  {
    var l0 := Begin(SettleProg(candidates, [], now));
    Stays(d, l0);
    assert View(d, l0) == d;
    assert [] + StillDue(d, candidates, now) == StillDue(d, candidates, now);
    SettleProgAlone(d, l0, l0, candidates, [], now);
    SettleFromFrontIsSettleAll(d, StillDue(d, candidates, now), now);
  }

  lemma {:induction false} SettleProgAlone(d: State, l0: Local, l: Local, candidates: seq<Id>, due: seq<AuctionRow>,
                                           now: Time)
    requires Goes(d, l0, l) && Keyed(d) && View(d, l) == d && l.prog == SettleProg(candidates, due, now)
    requires forall a :: a in due ==> AuctionOf(a.id) in l.held
    ensures EndsAs(d, l0, SettleFromFront(d, due + StillDue(d, candidates, now), now))
    decreases |candidates|
  {
    if candidates == [] {
      assert due + [] == due;
      CloseAlone(d, l0, l, due, now);
    } else {
      var l1, due1 := CandidateAlone(d, l0, l, candidates, due, now);
      SettleProgAlone(d, l0, l1, candidates[1..], due1, now);
    }
  }

  lemma {:induction false} CandidateAlone(d: State, l0: Local, l: Local, candidates: seq<Id>, due: seq<AuctionRow>,
                                          now: Time)
    returns (l': Local, due': seq<AuctionRow>)
    requires Goes(d, l0, l) && View(d, l) == d && candidates != [] && l.prog == SettleProg(candidates, due, now)
    requires Keyed(d) && forall a :: a in due ==> AuctionOf(a.id) in l.held
    ensures Goes(d, l0, l') && View(d, l') == d && l'.prog == SettleProg(candidates[1..], due', now)
    ensures forall a :: a in due' ==> AuctionOf(a.id) in l'.held
    ensures due' + StillDue(d, candidates[1..], now) == due + StillDue(d, candidates, now)
  {
    l' := LocksAuction(d, l0, l);
    due' := WithDue(GetAuction(d, candidates[0]), due, now);
    FirstStillDue(d, candidates, due, now);
  }

  lemma FirstStillDue(d: State, candidates: seq<Id>, due: seq<AuctionRow>, now: Time)
    requires candidates != []
    ensures WithDue(GetAuction(d, candidates[0]), due, now) + StillDue(d, candidates[1..], now)
        == due + StillDue(d, candidates, now)
  {
    var found, rest := GetAuction(d, candidates[0]), StillDue(d, candidates[1..], now);
    if found.Ok? && found.value.Due(now) {
      assert (due + [found.value]) + rest == due + ([found.value] + rest);
    }
  }

  lemma {:induction false} CloseAlone(d: State, l0: Local, l: Local, due: seq<AuctionRow>, now: Time)
    requires Goes(d, l0, l) && Keyed(View(d, l)) && l.prog == CloseProg(due, now)
    requires forall a :: a in due ==> AuctionOf(a.id) in l.held
    ensures EndsAs(d, l0, SettleFromFront(View(d, l), due, now))
    decreases |due|
  {
    if due == [] {
      Ends(d, l0, l, Ok(View(d, l)));
    } else {
      var a, rest := due[0], due[1..];
      assert a in due;
      var s := View(d, l);
      var r := SettleOne(s, a, now);
      var l1 := CloseOneAlone(d, l0, l, due, now);
      if r.Ok? {
        SettleOneKeepsKeys(s, a, now);
        CloseAlone(d, l0, l1, rest, now);
      } else {
        Ends(d, l0, l1, Err(r.error));
      }
    }
  }

  ghost function Earn(s: State, seller: Id, amount: Gold): Result<State>
  {
    var wallet :- GetWallet(s, seller);
    var earned :- wallet.Credit(amount);
    Ok(PutWallet(s, earned))
  }

  lemma {:induction false} EarnAlone(d: State, l0: Local, l: Local, seller: Id, amount: Gold, rest: Prog)
    returns (l': Local)
    requires Goes(d, l0, l) && Keyed(View(d, l)) && l.prog == EarnProg(seller, amount, rest)
    ensures Goes(d, l0, l') && l'.held == l.held + {WalletOf(seller)}
    ensures
      var r := Earn(View(d, l), seller, amount);
      if r.Ok? then View(d, l') == r.value && l'.prog == rest else l'.prog == Fail(r.error)
  {
    var payee := GetWallet(View(d, l), seller);
    l' := LocksWallet(d, l0, l);
    if payee.Ok? && payee.value.Credit(amount).Ok? {
      assert l'.prog == WriteWallet(payee.value.Credit(amount).value, rest) && payee.value.guild == seller;
      l' := WritesWallet(d, l0, l');
    }
  }

  lemma {:induction false} PayAlone(d: State, l0: Local, l: Local, a: AuctionRow, winner: Bid, rest: Prog)
    returns (l': Local)
    requires Goes(d, l0, l) && Keyed(View(d, l)) && l.prog == PayProg(a, winner, rest)
    ensures Goes(d, l0, l') && l.held <= l'.held
    ensures
      var r := Pay(View(d, l), a.seller, winner);
      if r.Ok? then View(d, l') == r.value && l'.prog == rest && {WalletOf(winner.guild), WalletOf(a.seller)} <= l'.held
      else l'.prog == Fail(r.error)
  {
    var payer := GetWallet(View(d, l), winner.guild);
    l' := TakeAlone(d, l0, l, a, winner, rest);
    if payer.Ok? && payer.value.Settle(winner.amount).Ok? {
      PutWalletKeepsKeys(View(d, l), payer.value.Settle(winner.amount).value);
      l' := EarnAlone(d, l0, l', a.seller, winner.amount, rest);
    }
  }

  lemma PutWalletKeepsKeys(s: State, w: WalletRow)
    requires Keyed(s)
    ensures Keyed(PutWallet(s, w))
  {
  }

  lemma {:induction false} TakeAlone(d: State, l0: Local, l: Local, a: AuctionRow, winner: Bid, rest: Prog)
    returns (l': Local)
    requires Goes(d, l0, l) && Keyed(View(d, l)) && l.prog == PayProg(a, winner, rest)
    ensures Goes(d, l0, l') && l'.held == l.held + {WalletOf(winner.guild)}
    ensures
      var payer := GetWallet(View(d, l), winner.guild);
      if payer.Err? then l'.prog == Fail(payer.error)
      else
        var paid := payer.value.Settle(winner.amount);
        if paid.Err? then l'.prog == Fail(paid.error)
        else l'.prog == EarnProg(a.seller, winner.amount, rest) && View(d, l') == PutWallet(View(d, l), paid.value)
  {
    var payer := GetWallet(View(d, l), winner.guild);
    l' := LocksWallet(d, l0, l);
    if payer.Ok? && payer.value.Settle(winner.amount).Ok? {
      assert l'.prog == WriteWallet(payer.value.Settle(winner.amount).value, EarnProg(a.seller, winner.amount, rest))
             && payer.value.guild == winner.guild;
      l' := WritesWallet(d, l0, l');
    }
  }

  lemma {:induction false} RecordAlone(d: State, l0: Local, l: Local, x: Entry, y: Entry, item: ItemRow,
                                       closed: AuctionRow, rest: Prog)
    returns (l': Local)
    requires Goes(d, l0, l) && l.prog == Append(x, Append(y, WriteItem(item, WriteAuction(closed, rest))))
    requires {WalletOf(x.guild), WalletOf(y.guild), ItemOf(item.id), AuctionOf(closed.id)} <= l.held
    ensures Goes(d, l0, l') && l'.held == l.held && l'.prog == rest
    ensures View(d, l') == PutAuction(PutItem(Log(View(d, l), [x, y]), item), closed)
  {
    var l1 := Appends(d, l0, l);
    var l2 := Appends(d, l0, l1);
    assert View(d, l).ledger + [x, y] == View(d, l).ledger + [x] + [y];
    var l3 := WritesItem(d, l0, l2);
    l' := WritesAuction(d, l0, l3);
  }

  /** The closing of an auction with a winner, up to the program that is left to run after it. */
  lemma {:induction false} CloseWonAlone(d: State, l0: Local, l: Local, a: AuctionRow, winner: Bid, item: ItemRow,
                                         rest: Prog, now: Time)
    returns (l': Local)
    requires Goes(d, l0, l) && Keyed(View(d, l)) && {ItemOf(item.id), AuctionOf(a.id)} <= l.held
    requires l.prog == PayProg(a, winner, RecordProg(a, winner, item, rest, now))
    ensures Goes(d, l0, l') && l.held <= l'.held
    ensures
      var r := Pay(View(d, l), a.seller, winner);
      if r.Ok?
      then l'.prog == rest &&
           View(d, l') == PutAuction(PutItem(Log(r.value, [Entry(winner.guild, LedgerSettle, winner.amount, a.itemId, now),
                                                           Entry(a.seller, LedgerCredit, winner.amount, a.itemId, now)]),
                                             item.(status := SoldOut)), a.(status := Settled))
      else l'.prog == Fail(r.error)
  {
    l' := PayAlone(d, l0, l, a, winner, RecordProg(a, winner, item, rest, now));
    if Pay(View(d, l), a.seller, winner).Ok? {
      l' := RecordAlone(d, l0, l', Entry(winner.guild, LedgerSettle, winner.amount, a.itemId, now),
                        Entry(a.seller, LedgerCredit, winner.amount, a.itemId, now),
                        item.(status := SoldOut), a.(status := Settled), rest);
    }
  }

  lemma {:induction false} CloseUnsoldAlone(d: State, l0: Local, l: Local, a: AuctionRow, item: ItemRow, rest: Prog)
    returns (l': Local)
    requires Goes(d, l0, l) && {ItemOf(item.id), AuctionOf(a.id)} <= l.held
    requires l.prog == WriteItem(item, WriteAuction(a, rest))
    ensures Goes(d, l0, l') && l.held <= l'.held && l'.prog == rest
    ensures View(d, l') == PutAuction(PutItem(View(d, l), item), a)
  {
    l' := WritesItem(d, l0, l);
    l' := WritesAuction(d, l0, l');
  }

  lemma SettleOneKeepsKeys(s: State, a: AuctionRow, now: Time)
    requires Keyed(s) && SettleOne(s, a, now).Ok?
    ensures Keyed(SettleOne(s, a, now).value)
  {
  }

  lemma {:induction false} CloseOneAlone(d: State, l0: Local, l: Local, due: seq<AuctionRow>, now: Time) returns (l': Local)
    requires Goes(d, l0, l) && Keyed(View(d, l)) && due != [] && l.prog == CloseProg(due, now)
        && AuctionOf(due[0].id) in l.held
    ensures Goes(d, l0, l') && l.held <= l'.held
    ensures
      var r := SettleOne(View(d, l), due[0], now);
      if r.Ok? then View(d, l') == r.value && l'.prog == CloseProg(due[1..], now) else l'.prog == Fail(r.error)
  {
    var a, s := due[0], View(d, l);
    l' := l;
    if a.Settle().Ok? {
      l' := LocksItem(d, l0, l);
      if a.itemId in s.items {
        var item, rest := s.items[a.itemId], CloseProg(due[1..], now);
        match a.HighestBid() {
          case None => l' := CloseUnsoldAlone(d, l0, l', a.(status := Settled), item.(status := Available), rest);
          case Some(winner) => l' := CloseWonAlone(d, l0, l', a, winner, item, rest, now);
        }
      }
    }
  }
}
