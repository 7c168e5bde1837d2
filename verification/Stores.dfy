/** The in-memory store and its units of work (internal/adapters/memstore/store.go). */
module Stores {
  import opened Domain
  import opened Wallets
  import opened Items
  import opened Auctions
  import opened Sums
  import opened States

  /** The committed state. */
  class Store {
    var items: map<Id, ItemRow>
    var wallets: map<Id, WalletRow>
    var auctions: map<Id, AuctionRow>
    var ledger: seq<Entry>

    constructor ()
      ensures State() == States.State(map[], map[], map[], [])
    {
      items, wallets, auctions, ledger := map[], map[], map[], [];
    }

    ghost function State(): State
      reads this
    {
      States.State(items, wallets, auctions, ledger)
    }

    method SeedGuild(guild: Id, total: Gold, dailyCap: Gold)
      modifies this
      ensures State() == old(State()).(wallets := old(wallets)[guild := WalletRow(guild, total, 0, dailyCap)])
    {
      wallets := wallets[guild := WalletRow(guild, total, 0, dailyCap)];
    }

    /** A guild without a daily cap. */
    method SeedWallet(guild: Id, total: Gold)
      modifies this
      ensures State() == old(State()).(wallets := old(wallets)[guild := WalletRow(guild, total, 0, 0)])
    {
      SeedGuild(guild, total, 0);
    }
  }

  /** One unit of work: it reads through to the store and stages its writes until it commits. */
  class TxRepo {
    const store: Store
    var items: map<Id, ItemRow>
    var wallets: map<Id, WalletRow>
    var auctions: map<Id, AuctionRow>
    var ledger: seq<Entry>

    constructor (store: Store)
      ensures this.store == store && fresh(this)
      ensures View() == store.State()
      ensures ledger == []
    {
      this.store := store;
      items, wallets, auctions, ledger := map[], map[], map[], [];
    }

    /** The state that a commit would leave in the store. */
    ghost function View(): State
      reads this, store
    {
      States.State(store.items + items, store.wallets + wallets, store.auctions + auctions, store.ledger + ledger)
    }

    method Commit()
      modifies store
      ensures store.State() == old(View())
    {
      store.items := store.items + items;
      store.wallets := store.wallets + wallets;
      store.auctions := store.auctions + auctions;
      store.ledger := store.ledger + ledger;
    }

    /** Only the committed items are searched for a collision. */
    method CreateItem(item: Item) returns (err: Option<Error>)
      modifies this
      ensures err == if item.id in store.items then Some(ItemNotFound) else None
      ensures ledger == old(ledger)
      ensures View() == if err.Some? then old(View()) else old(View()).(items := old(View()).items[item.id := item.Row()])
    {
      if item.id in store.items {
        return Some(ItemNotFound);
      }
      items := items[item.id := item.Row()];
      return None;
    }

    method GetItem(id: Id) returns (item: Item?, err: Option<Error>)
      ensures err == States.GetItem(View(), id).Failure()
      ensures err.None? ==> item != null && fresh(item) && item.Row() == View().items[id]
    {
      if id in items {
        item := new Item(items[id]);
        return item, None;
      }
      if id !in store.items {
        return null, Some(ItemNotFound);
      }
      item := new Item(store.items[id]);
      return item, None;
    }

    method UpdateItem(item: Item)
      modifies this
      ensures ledger == old(ledger)
      ensures View() == old(View()).(items := old(View()).items[item.id := item.Row()])
    {
      items := items[item.id := item.Row()];
    }

    /** The list holds exactly the items that the store has after a commit. */
    ghost predicate ListsView(out: seq<ItemRow>)
      reads this, store
    {
      forall it :: it in out <==> it.id in View().items && it == View().items[it.id]
    }

    /** Staged rows replace committed ones, but an item that is only staged is not listed: the list is the one after
        commit exactly when the unit has staged no new item. */
    method ListItems() returns (out: seq<ItemRow>)
      requires Keyed(store.State()) && Keyed(View())
      ensures forall i, j :: 0 <= i < j < |out| ==> out[i].id != out[j].id
      ensures forall it :: it in out <==> it.id in store.items && it == View().items[it.id]
      ensures ListsView(out) <==> items.Keys <= store.items.Keys
    {
      out := [];
      var todo := store.items.Keys;
      while todo != {}
        invariant todo <= store.items.Keys
        invariant forall i, j :: 0 <= i < j < |out| ==> out[i].id != out[j].id
        invariant forall it :: it in out <==> it.id in store.items && it.id !in todo && it == View().items[it.id]
      {
        var id :| id in todo;
        todo := todo - {id};
        var it := if id in items then items[id] else store.items[id];
        assert View().items[id] == it && it.id == id;
        out := out + [it];
      }
      ListItemsSeesOverlayIff(store.items, items, out);
    }

    method GetWalletForUpdate(guild: Id) returns (w: Wallet?, err: Option<Error>)
      ensures err == GetWallet(View(), guild).Failure()
      ensures err.None? ==> w != null && fresh(w) && w.Row() == View().wallets[guild]
    {
      if guild in wallets {
        w := new Wallet(wallets[guild]);
        return w, None;
      }
      if guild !in store.wallets {
        return null, Some(WalletNotFound);
      }
      w := new Wallet(store.wallets[guild]);
      return w, None;
    }

    method UpdateWallet(w: Wallet)
      modifies this
      ensures ledger == old(ledger)
      ensures View() == old(View()).(wallets := old(View()).wallets[w.guild := w.Row()])
    {
      wallets := wallets[w.guild := w.Row()];
    }

    method AppendLedger(entry: Entry)
      modifies this
      ensures ledger == old(ledger) + [entry]
      ensures View() == old(View()).(ledger := old(View()).ledger + [entry])
    {
      ledger := ledger + [entry];
      assert store.ledger + ledger == (store.ledger + old(ledger)) + [entry];
    }

    method CreateAuction(a: Auction)
      modifies this
      ensures ledger == old(ledger)
      ensures View() == old(View()).(auctions := old(View()).auctions[a.id := a.Row()])
    {
      auctions := auctions[a.id := a.Row()];
    }

    method GetAuction(id: Id) returns (a: Auction?, err: Option<Error>)
      ensures err == if id in View().auctions then None else Some(AuctionNotFound)
      ensures err.None? ==> a != null && fresh(a) && a.Row() == View().auctions[id]
    {
      if id in auctions {
        a := new Auction(auctions[id]);
        return a, None;
      }
      if id !in store.auctions {
        return null, Some(AuctionNotFound);
      }
      a := new Auction(store.auctions[id]);
      return a, None;
    }

    /** Staged rows are searched first, then the committed rows they do not replace. */
    method GetActiveAuctionByItem(itemId: Id) returns (a: Auction?, err: Option<Error>)
      requires Keyed(View())
      ensures err.None? ==>
        && a != null && fresh(a)
        && a.id in View().auctions && a.Row() == View().auctions[a.id] && ActiveFor(a.Row(), itemId)
      ensures err.Some? ==>
        && err == Some(AuctionNotFound)
        && forall k :: k in View().auctions ==> !ActiveFor(View().auctions[k], itemId)
    {
      var todo := auctions.Keys;
      var seen: set<Id> := {};
      while todo != {}
        invariant seen + todo == auctions.Keys
        invariant forall k :: k in seen ==> k in auctions && !ActiveFor(auctions[k], itemId)
        decreases todo
      {
        var id :| id in todo;
        todo, seen := todo - {id}, seen + {id};
        assert View().auctions[id] == auctions[id];
        if ActiveFor(auctions[id], itemId) {
          a := new Auction(auctions[id]);
          return a, None;
        }
      }
      todo := store.auctions.Keys;
      while todo != {}
        invariant todo <= store.auctions.Keys
        invariant forall k :: k in store.auctions && k !in todo && k !in seen ==> !ActiveFor(store.auctions[k], itemId)
        decreases todo
      {
        var id :| id in todo;
        todo := todo - {id};
        if id !in seen && ActiveFor(store.auctions[id], itemId) {
          assert View().auctions[id] == store.auctions[id];
          a := new Auction(store.auctions[id]);
          return a, None;
        }
      }
      return null, Some(AuctionNotFound);
    }

    method UpdateAuction(a: Auction)
      modifies this
      ensures ledger == old(ledger)
      ensures View() == old(View()).(auctions := old(View()).auctions[a.id := a.Row()])
    {
      auctions := auctions[a.id := a.Row()];
    }

    method ListAuctions(activeOnly: bool) returns (out: seq<AuctionRow>)
      requires Keyed(View())
      ensures DistinctAuctions(out)
      ensures forall a :: a in out <==>
                a.id in View().auctions && a == View().auctions[a.id] && (activeOnly ==> a.status.Active?)
    {
      out := [];
      var merged := store.auctions + auctions;
      var todo := merged.Keys;
      while todo != {}
        invariant todo <= merged.Keys
        invariant DistinctAuctions(out)
        invariant forall a :: a in out <==>
                  a.id in merged && a.id !in todo && a == merged[a.id] && (activeOnly ==> a.status.Active?)
      {
        var id :| id in todo;
        todo := todo - {id};
        assert View().auctions[id].id == id;
        if !activeOnly || merged[id].status == Active {
          out := out + [merged[id]];
        }
      }
    }

    /** The due auctions, in whatever order the map yields them. */
    method DueAuctions(now: Time) returns (out: seq<AuctionRow>)
      requires Keyed(View())
      ensures ListsDue(out, View().auctions, now)
    {
      out := [];
      var merged := store.auctions + auctions;
      var todo := merged.Keys;
      while todo != {}
        invariant todo <= merged.Keys
        invariant DistinctAuctions(out)
        invariant forall a :: a in out <==> a.id in merged && a.id !in todo && a == merged[a.id] && a.Due(now)
      {
        var id :| id in todo;
        todo := todo - {id};
        assert View().auctions[id].id == id;
        if merged[id].Due(now) {
          out := out + [merged[id]];
        }
      }
    }

    method ListLedger(guild: Id) returns (out: seq<Entry>)
      ensures out == EntriesOf(View().ledger, guild)
    {
      out := [];
      for i := 0 to |store.ledger|
        invariant out == EntriesOf(store.ledger[..i], guild)
      {
        EntriesOfPush(store.ledger[..i], store.ledger[i], guild);
        assert store.ledger[..i + 1] == store.ledger[..i] + [store.ledger[i]];
        if store.ledger[i].guild == guild {
          out := out + [store.ledger[i]];
        }
      }
      assert store.ledger[..|store.ledger|] == store.ledger == store.ledger + ledger[..0];
      for i := 0 to |ledger|
        invariant out == EntriesOf(store.ledger + ledger[..i], guild)
      {
        EntriesOfPush(store.ledger + ledger[..i], ledger[i], guild);
        assert store.ledger + ledger[..i + 1] == store.ledger + ledger[..i] + [ledger[i]];
        if ledger[i].guild == guild {
          out := out + [ledger[i]];
        }
      }
      assert ledger[..|ledger|] == ledger;
    }

    /** Only the committed ledger is summed: staged entries do not count. */
    method SpentSince(guild: Id, since: Time) returns (total: Gold)
      ensures total == Spent(store.ledger, guild, since)
    {
      total := 0;
      for i := 0 to |store.ledger|
        invariant total == Spent(store.ledger[..i], guild, since)
      {
        var e := store.ledger[i];
        assert store.ledger[..i + 1][..i] == store.ledger[..i];
        if e.guild == guild && e.at >= since && (e.kind.LedgerDebit? || e.kind.LedgerSettle?) {
          total := total + e.amount;
        }
      }
      assert store.ledger[..|store.ledger|] == store.ledger;
    }
  }

  function EntriesOf(ledger: seq<Entry>, guild: Id): seq<Entry> {
    if ledger == [] then []
    else
      var front, e := ledger[..|ledger| - 1], ledger[|ledger| - 1];
      EntriesOf(front, guild) + if e.guild == guild then [e] else []
  }

  lemma EntriesOfPush(ledger: seq<Entry>, e: Entry, guild: Id)
    ensures EntriesOf(ledger + [e], guild) == EntriesOf(ledger, guild) + if e.guild == guild then [e] else []
  {
    assert (ledger + [e])[..|ledger|] == ledger;
  }

  /** The spend read inside a unit of work is the spend after its commit exactly when the unit has staged no
      debit and no settlement of that guild on or after that time. Amounts on the ledger are positive. */
  lemma SpentSinceSeesOverlayIff(committed: seq<Entry>, staged: seq<Entry>, guild: Id, since: Time)
    requires forall e :: e in staged ==> e.amount > 0
    ensures Spent(committed, guild, since) == Spent(committed + staged, guild, since)
       <==> forall e :: e in staged ==> !IsSpend(e, guild, since)
  {
    var f := SpendOf(guild, since);
    SeqSumConcat(committed, staged, f);
    SeqSumBound(staged, f);
    if forall e :: e in staged ==> !IsSpend(e, guild, since) {
      SeqSumZero(staged, f);
    }
  }

  /** A list of the committed items, as staged, is a list of all items exactly when every staged item is committed. */
  lemma ListItemsSeesOverlayIff(committed: map<Id, ItemRow>, staged: map<Id, ItemRow>, out: seq<ItemRow>)
    requires forall k :: k in staged ==> staged[k].id == k
    requires forall it :: it in out <==> it.id in committed && it == (committed + staged)[it.id]
    ensures (forall it :: it in out <==> it.id in committed + staged && it == (committed + staged)[it.id])
       <==> staged.Keys <= committed.Keys
  {
    if !(staged.Keys <= committed.Keys) {
      var k :| k in staged && k !in committed;
      assert staged[k].id in committed + staged && staged[k] == (committed + staged)[staged[k].id];
      assert staged[k] !in out;
    }
  }
}
