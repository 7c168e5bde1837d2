/**
 Runs of the market, broken into the changes they make. A request changes the state in one of five ways
 or not at all, except that settling several due auctions is several closings in a row.
 */
module Histories {
  import opened Domain
  import opened Auctions
  import opened States
  import opened UseCases
  import opened Invariant

  datatype Change =
    | Listed(itemId: Id, auctionId: Id, seller: Id, price: Gold, now: Time)
    | Bought(itemId: Id, buyer: Id, qty: int, now: Time)
    | Raised(k: Id, bidder: Id, amount: Gold, bidId: Id, now: Time)
    | Withdrawn(k: Id, bidId: Id, guild: Id)
    | ClosedOne(a: AuctionRow, now: Time)

  ghost predicate Effect(cfg: Config, s: State, c: Change, s': State)
  {
    match c
    case Listed(itemId, auctionId, seller, price, now) =>
      auctionId !in s.auctions && CreateEffect(cfg, s, itemId, auctionId, seller, price, now, s')
    case Bought(itemId, buyer, qty, now) => PurchaseEffect(s, itemId, buyer, qty, now, s')
    case Raised(k, bidder, amount, bidId, now) => NewBidId(s, bidId) && BidEffect(s, k, bidder, amount, bidId, now, s')
    case Withdrawn(k, bidId, guild) => CancelEffect(s, k, bidId, guild, s')
    case ClosedOne(a, now) => a.Due(now) && SettleEffect(s, a, now, s')
  }

  /** The changes a run makes, and the states between them. */
  datatype History = Start(state: State) | Then(before: History, change: Change, state: State)

  function First(h: History): State {
    match h
    case Start(s) => s
    case Then(before, _, _) => First(before)
  }

  ghost predicate Valid(cfg: Config, h: History)
  {
    && Sound(h.state)
    && (h.Then? ==> Valid(cfg, h.before) && Effect(cfg, h.before.state, h.change, h.state))
  }

  ghost predicate Spans(cfg: Config, h: History, first: State, last: State)
  {
    Valid(cfg, h) && First(h) == first && h.state == last
  }

  lemma {:induction false} ExtendHistory(cfg: Config, h: History, c: Change, s: State)
    requires Valid(cfg, h) && Sound(s) && Effect(cfg, h.state, c, s)
    ensures Spans(cfg, Then(h, c, s), First(h), s)
  {
    var h' := Then(h, c, s);
    assert h'.before == h && h'.change == c && h'.state == s;
    assert Valid(cfg, h');
  }

  lemma {:induction false} ClosingHasEffect(cfg: Config, s: State, a: AuctionRow, now: Time)
    requires Sound(s) && a.id in s.auctions && s.auctions[a.id] == a && a.Due(now) && SettleOne(s, a, now).Ok?
    ensures Sound(SettleOne(s, a, now).value)
    ensures Effect(cfg, s, ClosedOne(a, now), SettleOne(s, a, now).value)
  {
    SettleOneOutcome(s, a, now);
    SettleEffectKeepsSound(s, a, now, SettleOne(s, a, now).value);
  }

  lemma {:induction false} SettleHistory(cfg: Config, h: History, due: seq<AuctionRow>, now: Time) returns (h': History)
    requires Valid(cfg, h) && Offered(h.state, due) && SettleAll(h.state, due, now).Ok?
    requires forall a :: a in due ==> a.Due(now)
    ensures Spans(cfg, h', First(h), SettleAll(h.state, due, now).value)
    decreases |due|
  {
    if due == [] {
      h' := h;
    } else {
      var front, last := due[..|due| - 1], due[|due| - 1];
      SettleAllSplits(h.state, due, now);
      h' := SettleHistory(cfg, h, front, now);
      var s2 := SettleOne(h'.state, last, now).value;
      ClosingHasEffect(cfg, h'.state, last, now);
      ExtendHistory(cfg, h', ClosedOne(last, now), s2);
      h' := Then(h', ClosedOne(last, now), s2);
    }
  }

  /** Any accepted request but settlement makes one change. */
  lemma {:induction false} RequestHasEffect(cfg: Config, s: State, op: Op) returns (c: Change)
    requires Sound(s) && Admissible(s, op) && !op.SettleDue? && Attempt(cfg, s, op).Ok?
    ensures Effect(cfg, s, c, Attempt(cfg, s, op).value)
  {
    match op {
      case ListItem(itemId, auctionId, rarity, seller, price, quantity, now) =>
        CreateItemHasEffect(cfg, s, itemId, auctionId, rarity, seller, price, quantity, now);
        c := Listed(itemId, auctionId, seller, price, now);
      case Buy(itemId, buyer, qty, now) =>
        PurchaseHasEffect(s, itemId, buyer, qty, now);
        c := Bought(itemId, buyer, qty, now);
      case PlaceBid(itemId, bidder, amount, bidId, now) =>
        BidOutcome(s, itemId, bidder, amount, bidId, now);
        c := Raised(ActiveAuction(s.auctions, itemId).value, bidder, amount, bidId, now);
      case Withdraw(itemId, bidId, guild) =>
        CancelHasEffect(s, itemId, bidId, guild);
        c := Withdrawn(ActiveAuction(s.auctions, itemId).value, bidId, guild);
    }
  }

  lemma {:induction false} OpHistory(cfg: Config, h: History, op: Op) returns (h': History)
    requires Valid(cfg, h) && Admissible(h.state, op)
    ensures Spans(cfg, h', First(h), Apply(cfg, h.state, op))
  {
    if Attempt(cfg, h.state, op).Err? {
      h' := h;
    } else if op.SettleDue? {
      h' := SettleHistory(cfg, h, op.due, op.now);
    } else {
      ApplyKeepsSound(cfg, h.state, op);
      var c := RequestHasEffect(cfg, h.state, op);
      ExtendHistory(cfg, h, c, Apply(cfg, h.state, op));
      h' := Then(h, c, Apply(cfg, h.state, op));
    }
  }

  /** Every run from a sound state has a history, so what each change keeps, every run keeps. */
  lemma {:induction false} RunHistory(cfg: Config, s: State, ops: seq<Op>) returns (h: History)
    requires Sound(s) && Legal(cfg, s, ops)
    ensures Spans(cfg, h, s, Exec(cfg, s, ops))
  {
    if ops == [] {
      h := Start(s);
    } else {
      h := RunHistory(cfg, s, ops[..|ops| - 1]);
      h := OpHistory(cfg, h, ops[|ops| - 1]);
    }
  }
}
