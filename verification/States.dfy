/** What the store holds, and the ledger it keeps (internal/domain/ledger.go). */
module States {
  import opened Domain
  import opened Wallets
  import opened Items
  import opened Auctions
  import opened Sums

  datatype EntryKind = LedgerDebit | LedgerCredit | LedgerReserve | LedgerRelease | LedgerSettle

  datatype Entry = Entry(guild: Id, kind: EntryKind, amount: Gold, item: Id, at: Time)

  datatype State = State(items: map<Id, ItemRow>, wallets: map<Id, WalletRow>,
                         auctions: map<Id, AuctionRow>, ledger: seq<Entry>)

  /** Every row is stored under its own identifier. */
  ghost predicate Keyed(s: State) {
    && (forall k :: k in s.items ==> s.items[k].id == k)
    && (forall k :: k in s.wallets ==> s.wallets[k].guild == k)
    && (forall k :: k in s.auctions ==> s.auctions[k].id == k)
  }

  function GetItem(s: State, id: Id): Result<ItemRow> {
    if id in s.items then Ok(s.items[id]) else Err(ItemNotFound)
  }

  function GetWallet(s: State, guild: Id): Result<WalletRow> {
    if guild in s.wallets then Ok(s.wallets[guild]) else Err(WalletNotFound)
  }

  predicate ActiveFor(a: AuctionRow, itemId: Id) {
    a.itemId == itemId && a.status.Active?
  }

  /** Some active auction of the item. The market keeps at most one. */
  ghost function ActiveAuction(auctions: map<Id, AuctionRow>, itemId: Id): Result<Id>
    ensures var r := ActiveAuction(auctions, itemId);
            if r.Ok? then r.value in auctions && ActiveFor(auctions[r.value], itemId)
            else r == Err(AuctionNotFound) && forall k :: k in auctions ==> !ActiveFor(auctions[k], itemId)
  {
    if k :| k in auctions && ActiveFor(auctions[k], itemId) then Ok(k) else Err(AuctionNotFound)
  }

  /** `due` lists, in some order and without repetition, exactly the auctions that are due at `now`. */
  ghost predicate ListsDue(due: seq<AuctionRow>, auctions: map<Id, AuctionRow>, now: Time) {
    && DistinctAuctions(due)
    && forall a :: a in due <==> a.id in auctions && auctions[a.id] == a && a.Due(now)
  }

  ghost predicate DistinctAuctions(rows: seq<AuctionRow>) {
    forall i, j :: 0 <= i < j < |rows| ==> rows[i].id != rows[j].id
  }

  predicate IsSpend(e: Entry, guild: Id, since: Time) {
    e.guild == guild && e.at >= since && (e.kind.LedgerDebit? || e.kind.LedgerSettle?)
  }

  /** What one ledger entry adds to a guild's spend since a given time. */
  ghost function SpendOf(guild: Id, since: Time): Entry -> int {
    (e: Entry) => if IsSpend(e, guild, since) then e.amount else 0
  }

  ghost function Spent(ledger: seq<Entry>, guild: Id, since: Time): Gold {
    SeqSum(ledger, SpendOf(guild, since))
  }
}
