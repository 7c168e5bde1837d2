/**
 Bid lists as they lie in memory (internal/adapters/memstore/store.go, cloneAuction): slices over arrays that several
 auction records could share. Because every read and every write of an auction copies its bids, nothing a caller does to
 an auction it was given shows in the store before UpdateAuction, and nothing shows outside the unit of work before commit.
 */
module Aliasing {
  import opened Domain
  import opened Auctions
  import opened States

  /** A slice header: the first `len` elements of an array that may have room for more. */
  datatype Slice = Slice(data: array<Bid>, len: nat) {
    predicate Valid() {
      len <= data.Length
    }

    function Bids(): seq<Bid>
      requires Valid()
      reads data
    {
      data[..len]
    }
  }

  /** Append in place while there is room, and otherwise to a larger copy. */
  method Append(s: Slice, b: Bid, spare: nat) returns (t: Slice)
    requires s.Valid()
    modifies s.data
    ensures t.Valid() && t.Bids() == old(s.Bids()) + [b]
    ensures t.data == s.data || fresh(t.data)
    ensures s.Bids() == old(s.Bids())
  {
    if s.len < s.data.Length {
      s.data[s.len] := b;
      return Slice(s.data, s.len + 1);
    }
    t := Copy(s, spare + 1);
    t.data[s.len] := b;
    t := Slice(t.data, s.len + 1);
  }

  /** The elements in a new array, with some room to spare. */
  method Copy(s: Slice, spare: nat) returns (t: Slice)
    requires s.Valid()
    ensures t.Valid() && fresh(t.data) && t.len == s.len && t.data.Length == s.len + spare && t.Bids() == s.Bids()
  {
    var data := new Bid[s.len + spare];
    forall i | 0 <= i < s.len {
      data[i] := s.data[i];
    }
    t := Slice(data, s.len);
    assert t.Bids() == s.Bids();
  }

  /** An auction record: its plain fields, and the header of its bid list. `fields.bids` is not used. */
  datatype Stored = Stored(fields: AuctionRow, bids: Slice) {
    function Row(): AuctionRow
      requires bids.Valid()
      reads bids.data
    {
      fields.(bids := bids.Bids())
    }
  }

  method CloneAuction(a: Stored, spare: nat) returns (cp: Stored)
    requires a.bids.Valid()
    ensures cp.bids.Valid() && fresh(cp.bids.data) && cp.Row() == a.Row()
  {
    var bids := Copy(a.bids, spare);
    cp := Stored(a.fields, bids);
  }

  /** An auction in a caller's hands. */
  class Handle {
    var a: Stored

    constructor (a: Stored)
      ensures this.a == a
    {
      this.a := a;
    }

    predicate Valid()
      reads this
    {
      a.bids.Valid()
    }

    function Row(): AuctionRow
      requires Valid()
      reads this, a.bids.data
    {
      a.Row()
    }

    method PlaceBid(bidId: Id, guild: Id, amount: Gold, now: Time, spare: nat) returns (err: Option<Error>)
      requires Valid()
      modifies this, a.bids.data
      ensures Valid() && (a.bids.data == old(a.bids.data) || fresh(a.bids.data))
      ensures Becomes(old(Row()), old(Row().PlaceBid(bidId, guild, amount, now)), Row(), err)
    {
      var row := Row();
      if row.status != Active || now >= row.endsAt {
        return Some(AuctionClosed);
      }
      if guild == row.seller {
        return Some(CannotBidOwnItem);
      }
      if amount < row.MinNextBid() {
        return Some(BidTooLow);
      }
      var bids := Append(a.bids, Bid(bidId, guild, amount, true, now), spare);
      a := Stored(a.fields.(endsAt := row.EndAfterBid(now)), bids);
      return None;
    }

    /** The withdrawn bid is marked where it lies. */
    method CancelBid(bidId: Id, guild: Id) returns (err: Option<Error>)
      requires Valid()
      modifies a.bids.data
      ensures Becomes(old(Row()), old(Row().CancelBid(bidId, guild)), Row(), err)
    {
      var row := Row();
      if row.status != Active {
        return Some(AuctionClosed);
      }
      if row.HighestBid().Some? && row.HighestBid().value.id == bidId {
        return Some(CannotCancelLeader);
      }
      ghost var found := FindActive(row.bids, bidId);
      for i := 0 to a.bids.len
        invariant forall k :: 0 <= k < i ==> !(row.bids[k].id == bidId && row.bids[k].active)
        invariant Row() == row
      {
        var b := a.bids.data[i];
        assert b == row.bids[i];
        if b.id == bidId && b.active {
          assert found == i;
          if b.guild != guild {
            return Some(BidNotFound);
          }
          a.bids.data[i] := b.(active := false);
          assert Row().bids == row.bids[i := b.(active := false)];
          return None;
        }
      }
      return Some(BidNotFound);
    }

    method Settle() returns (err: Option<Error>)
      requires Valid()
      modifies this
      ensures a.bids == old(a.bids)
      ensures Becomes(old(Row()), old(Row().Settle()), Row(), err)
    {
      if a.fields.status != Active {
        return Some(AuctionClosed);
      }
      a := Stored(a.fields.(status := Settled), a.bids);
      return None;
    }

    method Apply(e: Edit, spare: nat)
      requires Valid()
      modifies this, a.bids.data
      ensures Valid() && (a.bids.data == old(a.bids.data) || fresh(a.bids.data))
      ensures Row() == AfterEdit(old(Row()), e)
    {
      match e {
        case Bidding(bidId, guild, amount, now) => var _ := PlaceBid(bidId, guild, amount, now, spare);
        case Withdrawing(bidId, guild) => var _ := CancelBid(bidId, guild);
        case Closing => var _ := Settle();
      }
    }
  }

  /** One thing a caller may do to an auction in hand. */
  datatype Edit =
    | Bidding(bidId: Id, guild: Id, amount: Gold, now: Time)
    | Withdrawing(bidId: Id, guild: Id)
    | Closing

  /** The auction after an edit; a refused one leaves it as it was. */
  function AfterEdit(row: AuctionRow, e: Edit): AuctionRow {
    var r := match e
             case Bidding(bidId, guild, amount, now) => row.PlaceBid(bidId, guild, amount, now)
             case Withdrawing(bidId, guild) => row.CancelBid(bidId, guild)
             case Closing => row.Settle();
    if r.Ok? then r.value else row
  }

  function AfterEdits(row: AuctionRow, edits: seq<Edit>): AuctionRow {
    if edits == [] then row else AfterEdit(AfterEdits(row, edits[..|edits| - 1]), edits[|edits| - 1])
  }

  predicate AllValid(m: map<Id, Stored>) {
    forall k :: k in m ==> m[k].bids.Valid()
  }

  ghost function ArraysOf(m: map<Id, Stored>): set<array<Bid>> {
    set k | k in m :: m[k].bids.data
  }

  ghost function Rows(m: map<Id, Stored>): map<Id, AuctionRow>
    requires AllValid(m)
    reads ArraysOf(m)
  {
    map k | k in m :: m[k].Row()
  }

  lemma RowsOfPut(m: map<Id, Stored>, k: Id, a: Stored)
    requires AllValid(m) && a.bids.Valid()
    ensures Rows(m[k := a]) == Rows(m)[k := a.Row()]
    ensures ArraysOf(m[k := a]) <= ArraysOf(m) + {a.bids.data}
  {
  }

  /** Whether an auction is active or due is in its plain fields. */
  lemma RowFields(m: map<Id, Stored>)
    requires AllValid(m)
    ensures forall k :: k in m ==> Rows(m)[k].status == m[k].fields.status && Rows(m)[k].endsAt == m[k].fields.endsAt
  {
  }

  lemma PutOnTop(under: map<Id, AuctionRow>, over: map<Id, AuctionRow>, k: Id, row: AuctionRow)
    ensures under + over[k := row] == (under + over)[k := row]
  {
  }

  lemma RowsOfUnion(m: map<Id, Stored>, n: map<Id, Stored>)
    requires AllValid(m) && AllValid(n)
    ensures AllValid(m + n) && Rows(m + n) == Rows(m) + Rows(n)
    ensures ArraysOf(m + n) <= ArraysOf(m) + ArraysOf(n)
  {
  }

  /** Auctions in hand that are valid and share neither a handle nor an array. */
  ghost predicate HandedOut(hs: seq<Handle>)
    reads hs
  {
    && (forall h :: h in hs ==> h.Valid())
    && forall i, j :: 0 <= i < j < |hs| ==> hs[i] != hs[j] && hs[i].a.bids.data != hs[j].a.bids.data
  }

  ghost function RowsInHand(hs: seq<Handle>): (rows: seq<AuctionRow>)
    requires HandedOut(hs)
    reads hs, set h | h in hs :: h.a.bids.data
    ensures |rows| == |hs| && forall i :: 0 <= i < |hs| ==> rows[i] == hs[i].Row()
  {
    seq(|hs|, i requires 0 <= i < |hs| && hs[i].Valid() reads hs, set h | h in hs :: h.a.bids.data => hs[i].Row())
  }

  /** One more copy in hand. */
  method HandNext(hs: seq<Handle>, a: Stored, spare: nat) returns (more: seq<Handle>)
    requires HandedOut(hs) && a.bids.Valid()
    ensures HandedOut(more) && |more| == |hs| + 1 && more == hs + [more[|hs|]]
    ensures fresh(more[|hs|]) && fresh(more[|hs|].a.bids.data)
    ensures RowsInHand(more) == old(RowsInHand(hs)) + [a.Row()]
  {
    var cp := CloneAuction(a, spare);
    var h := new Handle(cp);
    more := hs + [h];
    assert forall i :: 0 <= i < |hs| ==> more[i] == hs[i];
    assert RowsInHand(hs) == old(RowsInHand(hs));
  }

  /** The rows are those of the named auctions, in the same order. */
  ghost predicate RowsOfIds(view: map<Id, AuctionRow>, ids: seq<Id>, rows: seq<AuctionRow>) {
    |ids| == |rows| && forall i :: 0 <= i < |ids| ==> ids[i] in view && rows[i] == view[ids[i]]
  }

  /** Copies of those auctions that pass a test of their plain fields. */
  method CopiesOf(merged: map<Id, Stored>, test: AuctionRow -> bool, spare: nat) returns (out: seq<Handle>, ids: seq<Id>)
    requires AllValid(merged)
    ensures HandedOut(out) && forall h :: h in out ==> fresh(h) && fresh(h.a.bids.data)
    ensures forall k :: k in ids <==> k in merged && test(merged[k].fields)
    ensures RowsOfIds(Rows(merged), ids, RowsInHand(out))
  {
    out, ids := [], [];
    ghost var rows := Rows(merged);
    var todo := merged.Keys;
    while todo != {}
      invariant todo <= merged.Keys && Rows(merged) == rows
      invariant HandedOut(out) && forall h :: h in out ==> fresh(h) && fresh(h.a.bids.data)
      invariant forall k :: k in ids <==> k in merged && k !in todo && test(merged[k].fields)
      invariant RowsOfIds(rows, ids, RowsInHand(out))
    {
      var k :| k in todo;
      todo := todo - {k};
      if test(merged[k].fields) {
        out := HandNext(out, merged[k], spare);
        ids := ids + [k];
      }
    }
  }

  /** The auctions of the store, and those staged by the unit of work. */
  class AuctionStore {
    var committed: map<Id, Stored>
    var staged: map<Id, Stored>

    constructor ()
      ensures Valid() && Committed() == map[] && View() == map[]
    {
      committed, staged := map[], map[];
    }

    predicate Valid()
      reads this
    {
      AllValid(committed) && AllValid(staged)
    }

    ghost function Arrays(): set<array<Bid>>
      reads this
    {
      ArraysOf(committed) + ArraysOf(staged)
    }

    /** What everyone else sees. */
    ghost function Committed(): map<Id, AuctionRow>
      requires Valid()
      reads this, Arrays()
    {
      Rows(committed)
    }

    /** What the unit of work sees. */
    ghost function View(): map<Id, AuctionRow>
      requires Valid()
      reads this, Arrays()
    {
      Rows(committed) + Rows(staged)
    }

    method GetAuction(id: Id, spare: nat) returns (r: Result<Handle>)
      requires Valid()
      ensures r.Ok? <==> id in View()
      ensures r.Ok? ==> fresh(r.value) && r.value.Valid() && fresh(r.value.a.bids.data) && r.value.Row() == View()[id]
      ensures r.Err? ==> r == Err(AuctionNotFound)
    {
      if id !in staged && id !in committed {
        return Err(AuctionNotFound);
      }
      r := Hand(if id in staged then staged[id] else committed[id], spare);
    }

    /** `key` names the auction that was found. */
    method GetActiveAuctionByItem(itemId: Id, spare: nat) returns (r: Result<Handle>, ghost key: Id)
      requires Valid()
      ensures r.Ok? ==> fresh(r.value) && r.value.Valid() && fresh(r.value.a.bids.data)
      ensures r.Ok? ==> key in View() && ActiveFor(View()[key], itemId) && r.value.Row() == View()[key]
      ensures r.Err? ==> r == Err(AuctionNotFound) && forall k :: k in View() ==> !ActiveFor(View()[k], itemId)
    {
      var todo := staged.Keys;
      while todo != {}
        invariant todo <= staged.Keys
        invariant forall k :: k in staged && k !in todo ==> !ActiveFor(staged[k].Row(), itemId)
      {
        var k :| k in todo;
        todo := todo - {k};
        if ActiveFor(staged[k].fields, itemId) {
          r := Hand(staged[k], spare);
          key := k;
          return;
        }
      }
      todo := committed.Keys - staged.Keys;
      while todo != {}
        invariant todo <= committed.Keys - staged.Keys
        invariant forall k :: k in committed && k !in staged && k !in todo ==> !ActiveFor(committed[k].Row(), itemId)
      {
        var k :| k in todo;
        todo := todo - {k};
        if ActiveFor(committed[k].fields, itemId) {
          r := Hand(committed[k], spare);
          key := k;
          return;
        }
      }
      r, key := Err(AuctionNotFound), itemId;
    }

    method Hand(a: Stored, spare: nat) returns (r: Result<Handle>)
      requires a.bids.Valid()
      ensures r.Ok? && fresh(r.value) && r.value.Valid() && fresh(r.value.a.bids.data) && r.value.Row() == a.Row()
    {
      var cp := CloneAuction(a, spare);
      var h := new Handle(cp);
      return Ok(h);
    }

    /** `ids` names the auctions handed out, in the same order. */
    method DueAuctions(now: Time, spare: nat) returns (out: seq<Handle>, ids: seq<Id>)
      requires Valid()
      ensures HandedOut(out) && forall h :: h in out ==> fresh(h) && fresh(h.a.bids.data)
      ensures forall k :: k in ids <==> k in View() && View()[k].Due(now)
      ensures RowsOfIds(View(), ids, RowsInHand(out))
    {
      out, ids := CopiesOf(committed + staged, (a: AuctionRow) => a.Due(now), spare);
      RowsOfUnion(committed, staged);
      RowFields(committed + staged);
    }

    method ListAuctions(activeOnly: bool, spare: nat) returns (out: seq<Handle>, ids: seq<Id>)
      requires Valid()
      ensures HandedOut(out) && forall h :: h in out ==> fresh(h) && fresh(h.a.bids.data)
      ensures forall k :: k in ids <==> k in View() && (activeOnly ==> View()[k].status.Active?)
      ensures RowsOfIds(View(), ids, RowsInHand(out))
    {
      out, ids := CopiesOf(committed + staged, (a: AuctionRow) => activeOnly ==> a.status.Active?, spare);
      RowsOfUnion(committed, staged);
      RowFields(committed + staged);
    }

    method UpdateAuction(h: Handle, spare: nat)
      requires Valid() && h.Valid()
      modifies `staged
      ensures Valid() && fresh(Arrays() - old(Arrays()))
      ensures View() == old(View())[h.a.fields.id := h.Row()] && Committed() == old(Committed())
    {
      var cp := CloneAuction(h.a, spare);
      assert Rows(staged) == old(Rows(staged)) && Rows(committed) == old(Rows(committed)) && h.Row() == cp.Row();
      RowsOfPut(staged, h.a.fields.id, cp);
      staged := staged[h.a.fields.id := cp];
      assert Rows(staged) == old(Rows(staged))[h.a.fields.id := cp.Row()];
      PutOnTop(Rows(committed), old(Rows(staged)), h.a.fields.id, cp.Row());
    }

    /** Staging a new auction copies it in the same way. */
    method CreateAuction(h: Handle, spare: nat)
      requires Valid() && h.Valid()
      modifies `staged
      ensures Valid() && fresh(Arrays() - old(Arrays()))
      ensures View() == old(View())[h.a.fields.id := h.Row()] && Committed() == old(Committed())
    {
      UpdateAuction(h, spare);
    }

    method Commit()
      requires Valid()
      modifies this
      ensures Valid() && Arrays() <= old(Arrays())
      ensures Committed() == old(View()) && staged == map[]
    {
      RowsOfUnion(committed, staged);
      committed, staged := committed + staged, map[];
    }
  }

  /** Any sequence of edits of an auction whose bids the store does not hold leaves the store as it was. */
  method EditApart(store: AuctionStore, h: Handle, edits: seq<Edit>, spare: nat)
    requires store.Valid() && h.Valid() && h.a.bids.data !in store.Arrays()
    modifies h, h.a.bids.data
    ensures h.Valid() && (h.a.bids.data == old(h.a.bids.data) || fresh(h.a.bids.data))
    ensures h.Row() == AfterEdits(old(h.Row()), edits)
    ensures store.View() == old(store.View()) && store.Committed() == old(store.Committed())
  {
    ghost var committed, staged, row := Rows(store.committed), Rows(store.staged), h.Row();
    for i := 0 to |edits|
      invariant h.Valid() && (h.a.bids.data == old(h.a.bids.data) || fresh(h.a.bids.data))
      invariant h.a.bids.data !in store.Arrays()
      invariant h.Row() == AfterEdits(row, edits[..i])
      invariant Rows(store.committed) == committed && Rows(store.staged) == staged
    {
      assert edits[..i + 1][..i] == edits[..i];
      h.Apply(edits[i], spare);
    }
    assert edits[..|edits|] == edits;
  }

  /** A caller that bids on, withdraws from and closes an auction it was given writes to nothing that existed before:
      the store is as it was, staged and committed. */
  method EditsStayPrivate(store: AuctionStore, id: Id, edits: seq<Edit>, spare: nat) returns (copy: Result<Handle>)
    requires store.Valid()
    ensures store.View() == old(store.View()) && store.Committed() == old(store.Committed())
    ensures copy.Ok? <==> id in store.View()
    ensures copy.Ok? ==>
      && copy.value.Valid() && fresh(copy.value) && fresh(copy.value.a.bids.data)
      && copy.value.Row() == AfterEdits(store.View()[id], edits)
  {
    copy := store.GetAuction(id, spare);
    assert store.View() == old(store.View()) && store.Committed() == old(store.Committed());
    if copy.Ok? {
      assert store.Arrays() == old(store.Arrays());
      EditApart(store, copy.value, edits, spare);
    }
  }

  /** The same for an auction found by its item. */
  method ActiveEditsStayPrivate(store: AuctionStore, itemId: Id, edits: seq<Edit>, spare: nat)
    returns (copy: Result<Handle>)
    requires store.Valid()
    ensures store.View() == old(store.View()) && store.Committed() == old(store.Committed())
    ensures copy.Ok? <==> exists k :: k in store.View() && ActiveFor(store.View()[k], itemId)
    ensures copy.Ok? ==>
      && copy.value.Valid() && fresh(copy.value) && fresh(copy.value.a.bids.data)
      && exists k :: k in store.View() && ActiveFor(store.View()[k], itemId)
          && copy.value.Row() == AfterEdits(store.View()[k], edits)
  {
    ghost var k: Id;
    copy, k := store.GetActiveAuctionByItem(itemId, spare);
    assert store.View() == old(store.View()) && store.Committed() == old(store.Committed());
    if copy.Ok? {
      assert store.Arrays() == old(store.Arrays());
      EditApart(store, copy.value, edits, spare);
    }
  }

  /** Editing one of several auctions in hand leaves the others, and the store, as they were. */
  method EditOne(store: AuctionStore, hs: seq<Handle>, n: nat, edits: seq<Edit>, spare: nat)
    requires store.Valid() && HandedOut(hs) && n < |hs| && Outside(store, hs)
    modifies hs[n], hs[n].a.bids.data
    ensures HandedOut(hs) && Outside(store, hs)
    ensures forall i :: 0 <= i < |hs| && i != n ==> hs[i].a == old(hs[i].a)
    ensures RowsInHand(hs) == old(RowsInHand(hs))[n := AfterEdits(old(hs[n].Row()), edits)]
    ensures store.View() == old(store.View()) && store.Committed() == old(store.Committed())
  {
    EditApart(store, hs[n], edits, spare);
    assert forall i :: 0 <= i < |hs| && i != n ==> hs[i] != hs[n] && hs[i].a == old(hs[i].a);
  }

  /** Editing each of several auctions in hand in its own way leaves the store as it was. */
  method EditAll(store: AuctionStore, hs: seq<Handle>, ids: seq<Id>, plan: Id -> seq<Edit>, spare: nat)
    requires store.Valid() && HandedOut(hs) && |ids| == |hs| && Outside(store, hs)
    modifies hs, set h | h in hs :: h.a.bids.data
    ensures HandedOut(hs)
    ensures RowsInHand(hs) == PlannedRows(old(RowsInHand(hs)), ids, plan, |hs|)
    ensures store.View() == old(store.View()) && store.Committed() == old(store.Committed())
  {
    ghost var view, committed, rows := store.View(), store.Committed(), RowsInHand(hs);
    for n := 0 to |hs|
      invariant HandedOut(hs) && Outside(store, hs)
      invariant forall i :: n <= i < |hs| ==> hs[i].a == old(hs[i].a)
      invariant store.View() == view && store.Committed() == committed
      invariant RowsInHand(hs) == PlannedRows(rows, ids, plan, n)
    {
      assert hs[n] in hs;
      EditOne(store, hs, n, plan(ids[n]), spare);
    }
  }

  ghost predicate Outside(store: AuctionStore, hs: seq<Handle>)
    reads store, hs
  {
    forall h :: h in hs ==> h.a.bids.data !in store.Arrays()
  }

  /** The first `n` rows after the edits planned for them, and the others as they are. */
  ghost function PlannedRows(rows: seq<AuctionRow>, ids: seq<Id>, plan: Id -> seq<Edit>, n: nat): seq<AuctionRow>
    requires |ids| == |rows| && n <= |rows|
  {
    seq(|rows|, i requires 0 <= i < |rows| => if i < n then AfterEdits(rows[i], plan(ids[i])) else rows[i])
  }

  /** And for all the due auctions at once: each can be edited in its own way without a trace in the store or in the
      others. */
  method DueEditsStayPrivate(store: AuctionStore, now: Time, plan: Id -> seq<Edit>, spare: nat)
    returns (out: seq<Handle>, ids: seq<Id>)
    requires store.Valid()
    ensures store.View() == old(store.View()) && store.Committed() == old(store.Committed())
    ensures forall k :: k in ids <==> k in store.View() && store.View()[k].Due(now)
    ensures HandedOut(out) && |ids| == |out|
    ensures forall i :: 0 <= i < |out| ==>
        ids[i] in ids && RowsInHand(out)[i] == AfterEdits(store.View()[ids[i]], plan(ids[i]))
  {
    out, ids := store.DueAuctions(now, spare);
    assert Outside(store, out);
    assert store.View() == old(store.View()) && store.Committed() == old(store.Committed());
    EditAll(store, out, ids, plan, spare);
  }

  /** And once the unit has staged the auction, further edits of the same copy still do not show. */
  method EditsAfterUpdateStayPrivate(store: AuctionStore, h: Handle, edits: seq<Edit>, spare: nat)
    requires store.Valid() && h.Valid() && h.a.bids.data !in store.Arrays()
    modifies store`staged, h, h.a.bids.data
    ensures store.Valid() && store.View() == old(store.View())[old(h.a.fields.id) := old(h.Row())]
    ensures store.Committed() == old(store.Committed())
    ensures h.Valid() && h.Row() == AfterEdits(old(h.Row()), edits)
  {
    store.UpdateAuction(h, spare);
    assert h.a.bids.data !in store.Arrays() && h.Row() == old(h.Row());
    EditApart(store, h, edits, spare);
  }

  /** Without the copy a withdrawal would show in the store at once, before any update and any commit. */
  method SharedBidsWouldLeak(store: AuctionStore, id: Id, bidId: Id, guild: Id) returns (err: Option<Error>)
    requires store.Valid() && id in store.committed && id !in store.staged
    requires store.committed[id].Row().CancelBid(bidId, guild).Ok?
    modifies store.committed[id].bids.data
    ensures store.Committed()[id] == old(store.Committed()[id]).CancelBid(bidId, guild).value != old(store.Committed()[id])
  {
    ghost var before := store.committed[id].Row();
    var shared := new Handle(store.committed[id]);
    err := shared.CancelBid(bidId, guild);
    ghost var i := FindActive(before.bids, bidId);
    assert before.bids[i].active && !store.committed[id].Row().bids[i].active;
  }
}
