/** Settling the due auctions: when it works, what it leaves, and why the order does not matter. */
module Settlement {
  import opened Domain
  import opened Wallets
  import opened Auctions
  import opened Sums
  import opened States
  import opened UseCases
  import opened Invariant
  import opened Histories

  lemma DueAreOffered(s: State, due: seq<AuctionRow>, now: Time)
    requires ListsDue(due, s.auctions, now)
    ensures Offered(s, due)
  {
  }

  lemma ListedAreDue(due: seq<AuctionRow>, auctions: map<Id, AuctionRow>, now: Time)
    requires ListsDue(due, auctions, now)
    ensures due != [] ==> exists k :: k in auctions && auctions[k].Due(now)
  {
    if due != [] {
      assert due[0] in due;
    }
  }

  /** Settlement succeeds exactly when the seller of every due auction that has a bid has a wallet; a missing wallet is
      the only thing that can stop it. It then closes exactly the due auctions, and a second run at the same time
      finds none and changes nothing. */
  lemma {:induction false} SettlementOutcome(s: State, due: seq<AuctionRow>, now: Time)
    requires Sound(s) && ListsDue(due, s.auctions, now)
    ensures
      var r := SettleAll(s, due, now);
      && (r.Ok? <==> forall k :: k in s.auctions && s.auctions[k].status.Active? && now >= s.auctions[k].endsAt ==>
                       s.auctions[k].bids != [] ==> s.auctions[k].seller in s.wallets)
      && (r.Err? ==> r == Err(WalletNotFound))
      && (r.Ok? ==>
            && r.value.auctions.Keys == s.auctions.Keys
            && (forall k :: k in s.auctions ==>
                  r.value.auctions[k] == if s.auctions[k].status.Active? && now >= s.auctions[k].endsAt
                                         then s.auctions[k].(status := Settled) else s.auctions[k])
            && forall again: seq<AuctionRow> :: ListsDue(again, r.value.auctions, now) ==>
                again == [] && SettleAll(r.value, again, now) == r)
  {
    DueAreOffered(s, due, now);
    SettleAllOutcome(s, due, now);
    DueAreListed(s, due, now);
    if SettleAll(s, due, now).Ok? {
      NothingLeftDue(s.auctions, due, now, SettleAll(s, due, now).value.auctions);
    }
  }

  lemma DueAreListed(s: State, due: seq<AuctionRow>, now: Time)
    requires Keyed(s) && ListsDue(due, s.auctions, now)
    ensures forall k :: k in s.auctions ==> (s.auctions[k].Due(now) <==> s.auctions[k] in due)
  {
    forall k | k in s.auctions ensures s.auctions[k].Due(now) <==> s.auctions[k] in due {
      assert s.auctions[k].id == k;
    }
  }

  lemma {:induction false} NothingLeftDue(auctions: map<Id, AuctionRow>, due: seq<AuctionRow>, now: Time,
                                          after: map<Id, AuctionRow>)
    requires after == Closed(auctions, due)
    requires forall k :: k in auctions ==> (auctions[k].Due(now) <==> auctions[k] in due)
    ensures forall again: seq<AuctionRow> :: ListsDue(again, after, now) ==> again == []
  {
    forall again: seq<AuctionRow> | ListsDue(again, after, now) ensures again == [] {
      ListedAreDue(again, after, now);
    }
  }

  // ---------------------------------------------------------------- order

  ghost function AllEntries(due: seq<AuctionRow>, now: Time): seq<Entry> {
    if due == [] then [] else AllEntries(due[..|due| - 1], now) + SettleEntries(due[|due| - 1], now)
  }

  /** The effect of settling a list, with every movement of gold summed up. */
  ghost predicate SettledInto(s: State, due: seq<AuctionRow>, now: Time, t: State)
  {
    && SettledWallets(s.wallets, due, t.wallets)
    && OnlyStatuses(s, t)
    && t.auctions == Closed(s.auctions, due)
    && t.ledger == s.ledger + AllEntries(due, now)
  }

  ghost predicate SettledWallets(before: map<Id, WalletRow>, due: seq<AuctionRow>, after: map<Id, WalletRow>)
  {
    && after.Keys == before.Keys
    && forall g :: g in before ==>
         after[g] == before[g].(total := before[g].total - SeqSum(due, LeadOf(g)) + SeqSum(due, SaleOf(g)),
                                reserved := before[g].reserved - SeqSum(due, LeadOf(g)))
  }

  /** Only the statuses of Legendary items may differ. */
  ghost predicate OnlyStatuses(s: State, t: State)
  {
    && t.items.Keys == s.items.Keys
    && forall i :: i in s.items ==>
         && t.items[i] == s.items[i].(status := t.items[i].status)
         && (!s.items[i].rarity.Legendary? ==> t.items[i] == s.items[i])
  }

  lemma {:induction false} SettleEffectOnTop(s: State, front: seq<AuctionRow>, last: AuctionRow, now: Time, s1: State,
                                             s2: State)
    requires SettledInto(s, front, now, s1) && SettleEffect(s1, last, now, s2)
    requires last.itemId in s1.items && s1.items[last.itemId].rarity.Legendary?
    requires s2.auctions == Closed(s.auctions, front + [last])
    ensures SettledInto(s, front + [last], now, s2)
  {
    EntriesOnTop(s.ledger, front, last, now);
    SettleWalletsOnTop(s.wallets, front, last, s1, now, s2);
    SettleItemsOnTop(s, last, s1, now, s2);
  }

  lemma EntriesOnTop(ledger: seq<Entry>, front: seq<AuctionRow>, last: AuctionRow, now: Time)
    ensures ledger + AllEntries(front, now) + SettleEntries(last, now) == ledger + AllEntries(front + [last], now)
  {
    assert (front + [last])[..|front + [last]| - 1] == front;
  }

  lemma SettleItemsOnTop(s: State, last: AuctionRow, s1: State, now: Time, s2: State)
    requires OnlyStatuses(s, s1) && SettleEffect(s1, last, now, s2)
    requires last.itemId in s1.items && s1.items[last.itemId].rarity.Legendary?
    ensures OnlyStatuses(s, s2)
  {
  }

  lemma {:induction false} SettleWalletsOnTop(before: map<Id, WalletRow>, front: seq<AuctionRow>, last: AuctionRow,
                                              s1: State, now: Time, s2: State)
    requires SettledWallets(before, front, s1.wallets) && SettleEffect(s1, last, now, s2)
    ensures SettledWallets(before, front + [last], s2.wallets)
  {
    forall g | g in before
      ensures SeqSum(front + [last], LeadOf(g)) == SeqSum(front, LeadOf(g)) + LeadOf(g)(last)
      ensures SeqSum(front + [last], SaleOf(g)) == SeqSum(front, SaleOf(g)) + SaleOf(g)(last)
    {
      SeqSumPush(front, LeadOf(g), last);
      SeqSumPush(front, SaleOf(g), last);
    }
  }

  lemma {:induction false} ClosingOneMore(s1: State, a: AuctionRow, now: Time)
    requires Sound(s1) && a.id in s1.auctions && s1.auctions[a.id] == a && a.status.Active? && SettleOne(s1, a, now).Ok?
    ensures SettleEffect(s1, a, now, SettleOne(s1, a, now).value)
    ensures a.itemId in s1.items && s1.items[a.itemId].rarity.Legendary?
  {
    SettleOneOutcome(s1, a, now);
    assert Belongs(s1.items, s1.auctions[a.id]);
  }

  lemma {:induction false} SettleAllSums(s: State, due: seq<AuctionRow>, now: Time)
    requires Sound(s) && Offered(s, due) && SettleAll(s, due, now).Ok?
    ensures SettledInto(s, due, now, SettleAll(s, due, now).value)
  {
    SettleAllOutcome(s, due, now);
    if due == [] {
      assert s.ledger + [] == s.ledger;
    } else {
      var front, last := due[..|due| - 1], due[|due| - 1];
      SettleAllSplits(s, due, now);
      SettleAllSums(s, front, now);
      var s1 := SettleAll(s, front, now).value;
      ClosingOneMore(s1, last, now);
      SettleEffectOnTop(s, front, last, now, s1, SettleAll(s, due, now).value);
    }
  }

  lemma {:induction false} DistinctCounts(due: seq<AuctionRow>, a: AuctionRow)
    requires DistinctAuctions(due)
    ensures multiset(due)[a] == if a in due then 1 else 0
  {
    if due != [] {
      var front, last := due[..|due| - 1], due[|due| - 1];
      DistinctCounts(front, a);
      assert due == front + [last];
      forall i | 0 <= i < |front| ensures front[i].id != last.id {
        assert due[i] == front[i];
      }
    }
  }

  /** Two listings of the same due auctions are permutations of each other. */
  lemma ListingsPermute(due1: seq<AuctionRow>, due2: seq<AuctionRow>, auctions: map<Id, AuctionRow>, now: Time)
    requires ListsDue(due1, auctions, now) && ListsDue(due2, auctions, now)
    ensures multiset(due1) == multiset(due2)
    ensures forall a :: a in due1 <==> a in due2
  {
    forall a ensures multiset(due1)[a] == multiset(due2)[a] {
      DistinctCounts(due1, a);
      DistinctCounts(due2, a);
    }
  }

  ghost function OccurrencesOf(e: Entry, now: Time): AuctionRow -> int {
    (a: AuctionRow) => multiset(SettleEntries(a, now))[e]
  }

  lemma {:induction false} EntriesCount(due: seq<AuctionRow>, now: Time, e: Entry)
    ensures multiset(AllEntries(due, now))[e] == SeqSum(due, OccurrencesOf(e, now))
  {
    if due != [] {
      EntriesCount(due[..|due| - 1], now, e);
    }
  }

  lemma {:induction false} EntriesPermute(due1: seq<AuctionRow>, due2: seq<AuctionRow>, now: Time)
    requires multiset(due1) == multiset(due2)
    ensures multiset(AllEntries(due1, now)) == multiset(AllEntries(due2, now))
  {
    forall e ensures multiset(AllEntries(due1, now))[e] == multiset(AllEntries(due2, now))[e] {
      EntriesCount(due1, now, e);
      EntriesCount(due2, now, e);
      SeqSumPermutation(due1, due2, OccurrencesOf(e, now));
    }
  }

  lemma {:induction false} SameSettledItems(s: State, due1: seq<AuctionRow>, due2: seq<AuctionRow>, now: Time,
                                            t1: State, t2: State)
    requires SettledInto(s, due1, now, t1) && SettledInto(s, due2, now, t2) && t1.auctions == t2.auctions
    requires ItemsInOrder(t1.items, t1.auctions) && ItemsInOrder(t2.items, t2.auctions)
    ensures t1.items == t2.items
  {
    forall i | i in s.items ensures t1.items[i] == t2.items[i] {
      if s.items[i].rarity.Legendary? {
        assert Auctioned(t1.auctions, i);
        var k :| k in t1.auctions && t1.auctions[k].itemId == i;
        assert Belongs(t1.items, t1.auctions[k]) && Belongs(t2.items, t2.auctions[k]);
      }
    }
  }

  lemma {:induction false} SameSettledWallets(s: State, due1: seq<AuctionRow>, due2: seq<AuctionRow>, now: Time,
                                              t1: State, t2: State)
    requires SettledInto(s, due1, now, t1) && SettledInto(s, due2, now, t2) && multiset(due1) == multiset(due2)
    ensures t1.wallets == t2.wallets
  {
    forall g | g in s.wallets ensures t1.wallets[g] == t2.wallets[g] {
      SeqSumPermutation(due1, due2, LeadOf(g));
      SeqSumPermutation(due1, due2, SaleOf(g));
    }
  }

  lemma SameClosed(auctions: map<Id, AuctionRow>, due1: seq<AuctionRow>, due2: seq<AuctionRow>)
    requires forall a :: a in due1 <==> a in due2
    ensures Closed(auctions, due1) == Closed(auctions, due2)
  {
  }

  lemma {:induction false} SameLogged(ledger: seq<Entry>, due1: seq<AuctionRow>, due2: seq<AuctionRow>, now: Time)
    requires multiset(due1) == multiset(due2)
    ensures multiset(ledger + AllEntries(due1, now)) == multiset(ledger + AllEntries(due2, now))
  {
    EntriesPermute(due1, due2, now);
  }

  /** The two states differ at most in the order of their ledgers. */
  ghost predicate SameUpToLedgerOrder(t1: State, t2: State)
  {
    && t1.wallets == t2.wallets && t1.items == t2.items && t1.auctions == t2.auctions
    && multiset(t1.ledger) == multiset(t2.ledger)
  }

  lemma {:induction false} SameSettled(s: State, due1: seq<AuctionRow>, due2: seq<AuctionRow>, now: Time, t1: State,
                                       t2: State)
    requires SettledInto(s, due1, now, t1) && SettledInto(s, due2, now, t2)
    requires multiset(due1) == multiset(due2) && forall a :: a in due1 <==> a in due2
    requires ItemsInOrder(t1.items, t1.auctions) && ItemsInOrder(t2.items, t2.auctions)
    ensures SameUpToLedgerOrder(t1, t2)
  {
    SameClosed(s.auctions, due1, due2);
    SameSettledWallets(s, due1, due2, now, t1, t2);
    SameSettledItems(s, due1, due2, now, t1, t2);
    SameLogged(s.ledger, due1, due2, now);
  }

  /** In whatever order the store yields the due auctions, settlement gives the same verdict, wallets, items and
      auctions, and a ledger that differs only in the order of its entries. */
  lemma {:induction false} SettlementOrderIsIrrelevant(s: State, due1: seq<AuctionRow>, due2: seq<AuctionRow>, now: Time)
    requires Sound(s) && ListsDue(due1, s.auctions, now) && ListsDue(due2, s.auctions, now)
    ensures
      var r1, r2 := SettleAll(s, due1, now), SettleAll(s, due2, now);
      && (r1.Err? || r2.Err? ==> r1 == r2)
      && (r1.Ok? ==> SameUpToLedgerOrder(r1.value, r2.value))
  {
    ListingsPermute(due1, due2, s.auctions, now);
    DueAreOffered(s, due1, now);
    DueAreOffered(s, due2, now);
    SettleAllOutcome(s, due1, now);
    SettleAllOutcome(s, due2, now);
    if SettleAll(s, due1, now).Ok? {
      SettleAllSums(s, due1, now);
      SettleAllSums(s, due2, now);
      SameSettled(s, due1, due2, now, SettleAll(s, due1, now).value, SettleAll(s, due2, now).value);
    }
  }

  // ---------------------------------------------------------------- a seller without a wallet

  /** An auction that has a bid and whose seller has no wallet. */
  ghost predicate Unpayable(s: State, k: Id)
  {
    k in s.auctions && s.auctions[k].status.Active? && s.auctions[k].bids != [] && s.auctions[k].seller !in s.wallets
  }

  lemma {:induction false} ChangeKeepsUnpayable(cfg: Config, s: State, c: Change, s': State, k: Id)
    requires k in s.auctions && Orderly(s.auctions[k]) && Effect(cfg, s, c, s') && Unpayable(s, k)
    ensures Unpayable(s', k)
  {
    LeaderIsLast(s.auctions[k]);
  }

  lemma {:induction false} UnpayableAlong(cfg: Config, h: History, k: Id)
    requires Valid(cfg, h) && Unpayable(First(h), k)
    ensures Unpayable(h.state, k)
  {
    if h.Then? {
      UnpayableAlong(cfg, h.before, k);
      assert Orderly(h.before.state.auctions[k]);
      ChangeKeepsUnpayable(cfg, h.before.state, h.change, h.state, k);
    }
  }

  /** Listing does not ask for a seller wallet, but settling does: once an auction of a seller without one has a bid,
      then whatever follows, settlement fails for every auction from the time that one is due. */
  lemma {:induction false} MissingSellerWalletBlocksSettlement(cfg: Config, s: State, ops: seq<Op>, k: Id,
                                                               due: seq<AuctionRow>, now: Time)
    requires Sound(s) && Legal(cfg, s, ops) && Unpayable(s, k)
    requires k in Exec(cfg, s, ops).auctions && now >= Exec(cfg, s, ops).auctions[k].endsAt
    requires ListsDue(due, Exec(cfg, s, ops).auctions, now)
    ensures SettleAll(Exec(cfg, s, ops), due, now) == Err(WalletNotFound)
  {
    var h := RunHistory(cfg, s, ops);
    UnpayableAlong(cfg, h, k);
    SettlementOutcome(h.state, due, now);
    assert h.state.auctions[k].Due(now) && !Settleable(h.state, h.state.auctions[k]);
  }
}
