/**
 Postgres re-reads an auction's bids ordered by their time only (internal/adapters/postgres/store.go), so bids may come
 back in another order than they were placed in. Nothing the market does depends on it.
 */
module BidOrder {
  import opened Domain
  import opened Items
  import opened Auctions
  import opened States
  import opened UseCases
  import opened Invariant
  import opened Histories

  /** The same auction with its bids in some other order. */
  ghost predicate Reordered(a: AuctionRow, b: AuctionRow)
  {
    b == a.(bids := b.bids) && multiset(a.bids) == multiset(b.bids)
  }

  lemma SameMembers<T>(s: seq<T>, t: seq<T>)
    requires multiset(s) == multiset(t)
    ensures |s| == |t|
    ensures forall x :: x in s <==> x in t
  {
    assert |s| == |multiset(s)| && |t| == |multiset(t)|;
    assert forall x :: x in s <==> x in multiset(s);
    assert forall x :: x in t <==> x in multiset(t);
  }

  /** The scan finds the same leader in any order, because no two amounts are equal. */
  lemma {:induction false} SameLeader(a: AuctionRow, b: AuctionRow)
    requires Orderly(a) && Reordered(a, b)
    ensures b.HighestBid() == a.HighestBid() && b.MinNextBid() == a.MinNextBid()
  {
    SameMembers(a.bids, b.bids);
    LeaderIsLast(a);
    HighestIsMaximal(b.bids);
    if a.bids != [] {
      var last := a.bids[|a.bids| - 1];
      assert last in b.bids;
      var high := b.HighestBid().value;
      assert high in a.bids;
      var i :| 0 <= i < |a.bids| && a.bids[i] == high;
      if i < |a.bids| - 1 {
        IncrementIsCeiling(high.amount);
      }
    }
  }

  lemma {:induction false} SamePlaceBid(a: AuctionRow, b: AuctionRow, bidId: Id, guild: Id, amount: Gold, now: Time)
    requires Orderly(a) && Reordered(a, b)
    ensures
      var r, q := a.PlaceBid(bidId, guild, amount, now), b.PlaceBid(bidId, guild, amount, now);
      if r.Ok? then q.Ok? && Reordered(r.value, q.value) else q == r
  {
    SameLeader(a, b);
  }

  lemma {:induction false} UniqueBid(bids: seq<Bid>, bidId: Id)
    requires DistinctIds(bids)
    ensures FindActive(bids, bidId) < |bids| <==> exists x :: x in bids && x.id == bidId && x.active
    ensures FindActive(bids, bidId) < |bids| ==> forall x :: x in bids && x.id == bidId ==>
        x == bids[FindActive(bids, bidId)]
  {
    var i := FindActive(bids, bidId);
    if i < |bids| {
      assert bids[i] in bids;
    }
  }

  lemma {:induction false} DistinctInAnyOrder(s: seq<Bid>, t: seq<Bid>)
    requires DistinctIds(s) && multiset(s) == multiset(t)
    ensures DistinctIds(t)
  {
    forall i, j | 0 <= i < j < |t| ensures t[i].id != t[j].id {
      SameMembers(s, t);
      if t[i].id == t[j].id {
        assert t[i] in s && t[j] in s;
        TwiceCounted(t, i, j);
        OnceCounted(s, t[i]);
      }
    }
  }

  lemma {:induction false} OnceCounted(s: seq<Bid>, x: Bid)
    requires DistinctIds(s)
    ensures multiset(s)[x] <= 1
  {
    if s != [] {
      var front, last := s[..|s| - 1], s[|s| - 1];
      assert s == front + [last];
      OnceCounted(front, x);
      if x == last {
        assert forall i :: 0 <= i < |front| ==> front[i] == s[i] && front[i].id != x.id;
        assert x !in front;
        assert multiset(front)[x] == 0;
      }
    }
  }

  lemma TwiceCounted(t: seq<Bid>, i: nat, j: nat)
    requires i < j < |t|
    ensures t[i] == t[j] ==> multiset(t)[t[i]] >= 2
  {
    assert t == t[..j] + [t[j]] + t[j + 1..];
    assert t[..j][i] == t[i];
    assert t[i] in multiset(t[..j]);
  }

  /** The bid an identifier names is the same in any order. */
  lemma {:induction false} SameFound(s: seq<Bid>, t: seq<Bid>, bidId: Id)
    requires DistinctIds(s) && multiset(s) == multiset(t)
    ensures
      var i, j := FindActive(s, bidId), FindActive(t, bidId);
      && (i < |s| <==> j < |t|)
      && (i < |s| ==> s[i] == t[j])
  {
    SameMembers(s, t);
    DistinctInAnyOrder(s, t);
    UniqueBid(s, bidId);
    UniqueBid(t, bidId);
    var i := FindActive(s, bidId);
    if i < |s| {
      assert s[i] in t;
    }
  }

  lemma SameUpdate(s: seq<Bid>, t: seq<Bid>, i: nat, j: nat, x: Bid)
    requires i < |s| && j < |t| && s[i] == t[j] && multiset(s) == multiset(t)
    ensures multiset(s[i := x]) == multiset(t[j := x])
  {
  }

  lemma {:induction false} SameCancelBid(a: AuctionRow, b: AuctionRow, bidId: Id, guild: Id)
    requires Orderly(a) && DistinctIds(a.bids) && Reordered(a, b)
    ensures
      var r, q := a.CancelBid(bidId, guild), b.CancelBid(bidId, guild);
      if r.Ok? then q.Ok? && Reordered(r.value, q.value) else q == r
  {
    SameLeader(a, b);
    SameFound(a.bids, b.bids, bidId);
    var i, j := FindActive(a.bids, bidId), FindActive(b.bids, bidId);
    if i < |a.bids| {
      SameUpdate(a.bids, b.bids, i, j, a.bids[i].(active := false));
    }
  }

  // ---------------------------------------------------------------- whole runs

  /** The same state, with the bids of each auction in some other order. */
  ghost predicate Same(s: State, t: State)
  {
    && t == s.(auctions := t.auctions)
    && t.auctions.Keys == s.auctions.Keys
    && forall k :: k in s.auctions ==> Reordered(s.auctions[k], t.auctions[k])
  }

  /** No two bids of an auction share an identifier. */
  ghost predicate DistinctBids(s: State)
  {
    forall k :: k in s.auctions ==> DistinctIds(s.auctions[k].bids)
  }

  ghost predicate SameOutcome(r: Result<State>, q: Result<State>)
  {
    if r.Ok? then q.Ok? && Same(r.value, q.value) else q == r
  }

  /** The same request; settlement reads its due auctions from reordered storage. */
  ghost predicate SameOp(op: Op, op': Op)
  {
    match op
    case SettleDue(due, now) => op'.SettleDue? && op'.now == now && SameRows(due, op'.due)
    case _ => op' == op
  }

  ghost predicate SameRows(due: seq<AuctionRow>, due': seq<AuctionRow>)
  {
    |due'| == |due| && forall i :: 0 <= i < |due| ==> Reordered(due[i], due'[i])
  }

  lemma {:induction false} SameActiveAuction(s: State, t: State, itemId: Id)
    requires OneAuctionPerItem(s.auctions) && Same(s, t)
    ensures ActiveAuction(t.auctions, itemId) == ActiveAuction(s.auctions, itemId)
  {
    var k, l := ActiveAuction(s.auctions, itemId), ActiveAuction(t.auctions, itemId);
    if k.Ok? {
      assert ActiveFor(t.auctions[k.value], itemId);
    }
    if l.Ok? {
      assert ActiveFor(s.auctions[l.value], itemId);
    }
  }

  lemma SamePut(s: State, t: State, a: AuctionRow, b: AuctionRow)
    requires Same(s, t) && Reordered(a, b)
    ensures Same(PutAuction(s, a), PutAuction(t, b))
  {
  }

  lemma {:induction false} SameCreate(cfg: Config, s: State, t: State, itemId: Id, auctionId: Id, rarity: Rarity,
                                      seller: Id, price: Gold, quantity: int, now: Time)
    requires OneAuctionPerItem(s.auctions) && Same(s, t)
    ensures SameOutcome(CreateItem(cfg, s, itemId, auctionId, rarity, seller, price, quantity, now),
                        CreateItem(cfg, t, itemId, auctionId, rarity, seller, price, quantity, now))
  {
    var made := NewItem(itemId, rarity, seller, price, quantity, now);
    if made.Ok? && rarity.Legendary? {
      SameOpen(cfg, PutItem(s, made.value), PutItem(t, made.value), made.value, auctionId, price, now);
    }
  }

  lemma {:induction false} SameOpen(cfg: Config, s: State, t: State, item: ItemRow, auctionId: Id, startPrice: Gold,
                                    now: Time)
    requires OneAuctionPerItem(s.auctions) && Same(s, t)
    ensures SameOutcome(OpenAuction(cfg, s, item, auctionId, startPrice, now),
        OpenAuction(cfg, t, item, auctionId, startPrice, now))
  {
    SameActiveAuction(s, t, item.id);
    var a := AuctionRow(auctionId, item.id, item.seller, startPrice, now + cfg.window, cfg.extension, Active, [], now);
    SamePut(s, t, a, a);
  }

  /** Both states see the same active auction, with its bids in some order. */
  ghost predicate SameView(s: State, t: State, itemId: Id)
  {
    && ActiveAuction(t.auctions, itemId) == ActiveAuction(s.auctions, itemId)
    && (ActiveAuction(s.auctions, itemId).Ok? ==>
          var k := ActiveAuction(s.auctions, itemId).value;
          Orderly(s.auctions[k]) && DistinctIds(s.auctions[k].bids) && Reordered(s.auctions[k], t.auctions[k]))
  }

  lemma {:induction false} SeesSame(s: State, t: State, itemId: Id)
    requires OneAuctionPerItem(s.auctions) && OrderlyAuctions(s) && DistinctBids(s) && Same(s, t)
    ensures SameView(s, t, itemId)
  {
    SameActiveAuction(s, t, itemId);
  }

  lemma {:induction false} SameBid(s: State, t: State, itemId: Id, bidder: Id, amount: Gold, bidId: Id, now: Time)
    requires SameView(s, t, itemId) && Same(s, t)
    ensures SameOutcome(BidOnItem(s, itemId, bidder, amount, bidId, now), BidOnItem(t, itemId, bidder, amount, bidId, now))
  {
    var k := ActiveAuction(s.auctions, itemId);
    if k.Ok? {
      var a, b := s.auctions[k.value], t.auctions[k.value];
      SameLeader(a, b);
      SamePlaceBid(a, b, bidId, bidder, amount, now);
      SameReservation(s, t, a, b, bidder, amount, now);
      var r1, q1 := ReleaseLeader(s, a, bidder, now), ReleaseLeader(t, b, bidder, now);
      if r1.Ok? && a.PlaceBid(bidId, bidder, amount, now).Ok? {
        var r2, q2 := ReserveFunds(r1.value, a, bidder, amount, now), ReserveFunds(q1.value, b, bidder, amount, now);
        if r2.Ok? {
          SamePut(r2.value, q2.value, a.PlaceBid(bidId, bidder, amount, now).value,
              b.PlaceBid(bidId, bidder, amount, now).value);
        }
      }
    }
  }

  /** Moving the reservations sees nothing of an auction but its leader. */
  lemma SameReservation(s: State, t: State, a: AuctionRow, b: AuctionRow, bidder: Id, amount: Gold, now: Time)
    requires Same(s, t) && Reordered(a, b) && a.HighestBid() == b.HighestBid()
    ensures SameOutcome(ReleaseLeader(s, a, bidder, now), ReleaseLeader(t, b, bidder, now))
    ensures ReleaseLeader(s, a, bidder, now).Ok? ==>
              SameOutcome(ReserveFunds(ReleaseLeader(s, a, bidder, now).value, a, bidder, amount, now),
                          ReserveFunds(ReleaseLeader(t, b, bidder, now).value, b, bidder, amount, now))
  {
  }

  lemma {:induction false} SameCancel(s: State, t: State, itemId: Id, bidId: Id, guild: Id)
    requires SameView(s, t, itemId) && Same(s, t)
    ensures SameOutcome(CancelBidOnItem(s, itemId, bidId, guild), CancelBidOnItem(t, itemId, bidId, guild))
  {
    var k := ActiveAuction(s.auctions, itemId);
    if k.Ok? {
      var a, b := s.auctions[k.value], t.auctions[k.value];
      SameCancelBid(a, b, bidId, guild);
      if a.CancelBid(bidId, guild).Ok? {
        SamePut(s, t, a.CancelBid(bidId, guild).value, b.CancelBid(bidId, guild).value);
      }
    }
  }

  lemma {:induction false} SameSettleOne(s: State, t: State, a: AuctionRow, b: AuctionRow, now: Time)
    requires Same(s, t) && Orderly(a) && Reordered(a, b)
    ensures SameOutcome(SettleOne(s, a, now), SettleOne(t, b, now))
  {
    SameLeader(a, b);
  }

  lemma {:induction false} SameSettleAll(s: State, t: State, due: seq<AuctionRow>, due': seq<AuctionRow>, now: Time)
    requires Same(s, t) && SameRows(due, due') && forall a :: a in due ==> Orderly(a)
    ensures SameOutcome(SettleAll(s, due, now), SettleAll(t, due', now))
  {
    if due != [] {
      var n := |due| - 1;
      SameSettleAll(s, t, due[..n], due'[..n], now);
      var r, q := SettleAll(s, due[..n], now), SettleAll(t, due'[..n], now);
      if r.Ok? {
        SameSettleOne(r.value, q.value, due[n], due'[n], now);
      }
    }
  }

  lemma {:induction false} CancelKeepsDistinct(a: AuctionRow, bidId: Id, guild: Id)
    requires Orderly(a) && DistinctIds(a.bids) && a.CancelBid(bidId, guild).Ok?
    ensures DistinctIds(a.CancelBid(bidId, guild).value.bids)
  {
    CancelKeepsLeader(a, bidId, guild);
  }

  lemma {:induction false} BidKeepsDistinct(s: State, k: Id, bidder: Id, amount: Gold, bidId: Id, now: Time, s': State)
    requires DistinctBids(s) && NewBidId(s, bidId) && BidEffect(s, k, bidder, amount, bidId, now, s')
    ensures DistinctBids(s')
  {
    NewIsDistinct(s.auctions[k].bids, Bid(bidId, bidder, amount, true, now));
  }

  lemma NewIsDistinct(bids: seq<Bid>, b: Bid)
    requires DistinctIds(bids) && forall i :: 0 <= i < |bids| ==> bids[i].id != b.id
    ensures DistinctIds(bids + [b])
  {
  }

  lemma {:induction false} ChangeKeepsDistinct(cfg: Config, s: State, c: Change, s': State)
    requires OrderlyAuctions(s) && DistinctBids(s) && Effect(cfg, s, c, s')
    ensures DistinctBids(s')
  {
    match c {
      case Raised(k, bidder, amount, bidId, now) => BidKeepsDistinct(s, k, bidder, amount, bidId, now, s');
      case Withdrawn(k, bidId, guild) => CancelKeepsDistinct(s.auctions[k], bidId, guild);
      case _ =>
    }
  }

  lemma {:induction false} DistinctAlong(cfg: Config, h: History)
    requires Valid(cfg, h) && DistinctBids(First(h))
    ensures DistinctBids(h.state)
  {
    if h.Then? {
      DistinctAlong(cfg, h.before);
      ChangeKeepsDistinct(cfg, h.before.state, h.change, h.state);
    }
  }

  lemma SameBuy(s: State, t: State, itemId: Id, buyer: Id, qty: int, now: Time)
    requires Same(s, t)
    ensures SameOutcome(Purchase(s, itemId, buyer, qty, now), Purchase(t, itemId, buyer, qty, now))
  {
  }

  /** On reordered storage each request has the same verdict and, up to order, the same effect. */
  lemma {:induction false} SameStep(cfg: Config, s: State, t: State, op: Op, op': Op)
    requires OneAuctionPerItem(s.auctions) && OrderlyAuctions(s) && DistinctBids(s)
    requires op.SettleDue? ==> Offered(s, op.due)
    requires Same(s, t) && SameOp(op, op')
    ensures SameOutcome(Attempt(cfg, s, op), Attempt(cfg, t, op'))
  {
    match op {
      case ListItem(itemId, auctionId, rarity, seller, price, quantity, now) =>
        SameCreate(cfg, s, t, itemId, auctionId, rarity, seller, price, quantity, now);
      case Buy(itemId, buyer, qty, now) => SameBuy(s, t, itemId, buyer, qty, now);
      case PlaceBid(itemId, bidder, amount, bidId, now) =>
        SeesSame(s, t, itemId);
        SameBid(s, t, itemId, bidder, amount, bidId, now);
      case Withdraw(itemId, bidId, guild) =>
        SeesSame(s, t, itemId);
        SameCancel(s, t, itemId, bidId, guild);
      case SettleDue(due, now) => SameSettleAll(s, t, due, op'.due, now);
    }
  }

  /** A run on storage that may reorder bids after every request. */
  datatype Shuffled = From(state: State) | Next(before: Shuffled, op: Op, state: State)

  ghost predicate Shuffles(cfg: Config, x: Shuffled, s: State, ops: seq<Op>)
  {
    match x
    case From(t) => ops == [] && Same(s, t)
    case Next(before, op, t) =>
      ops != [] && Shuffles(cfg, before, s, ops[..|ops| - 1]) && SameOp(ops[|ops| - 1], op)
          && Same(Apply(cfg, before.state, op), t)
  }

  lemma SameTransitive(s: State, t: State, u: State)
    requires Same(s, t) && Same(t, u)
    ensures Same(s, u)
  {
  }

  /** Whatever the storage does to the order of bids, a run ends as it would on storage that keeps it. */
  lemma {:induction false} ShuffledRunsAgree(cfg: Config, s: State, ops: seq<Op>, x: Shuffled)
    requires Sound(s) && DistinctBids(s) && Legal(cfg, s, ops) && Shuffles(cfg, x, s, ops)
    ensures Same(Exec(cfg, s, ops), x.state)
  {
    if x.Next? {
      var front := ops[..|ops| - 1];
      ShuffledRunsAgree(cfg, s, front, x.before);
      var h := RunHistory(cfg, s, front);
      DistinctAlong(cfg, h);
      SameStep(cfg, h.state, x.before.state, ops[|ops| - 1], x.op);
      SameTransitive(Exec(cfg, s, ops), Apply(cfg, x.before.state, x.op), x.state);
    }
  }
}
