/** The bidding rules of one auction (internal/domain/auction.go). */
module Auctions {
  import opened Domain

  const MIN_INCREMENT_PERCENT := 5

  datatype AuctionStatus = Active | Settled

  datatype Bid = Bid(id: Id, guild: Id, amount: Gold, active: bool, placedAt: Time)

  /** Integer division that truncates toward zero. */
  function Quotient(x: int, d: int): int
    requires d > 0
  {
    if x >= 0 then x / d else -((-x) / d)
  }

  /** What a new bid must add to a leading bid of `high`. */
  function Increment(high: Gold): Gold {
    var inc := Quotient(high * MIN_INCREMENT_PERCENT + 99, 100);
    if inc > 1 then inc else 1
  }

  /** The winner of a left-to-right scan that replaces its candidate only by a larger active bid. */
  function Highest(bids: seq<Bid>): Option<Bid> {
    if bids == [] then None
    else
      var best, b := Highest(bids[..|bids| - 1]), bids[|bids| - 1];
      if b.active && (best.None? || b.amount > best.value.amount) then Some(b) else best
  }

  /** The first bid with this identifier that has not been withdrawn. */
  function FindActive(bids: seq<Bid>, bidId: Id): (i: int)
    ensures 0 <= i <= |bids|
    ensures i < |bids| ==> bids[i].id == bidId && bids[i].active
    ensures forall k :: 0 <= k < i ==> !(bids[k].id == bidId && bids[k].active)
  {
    if bids == [] then 0
    else if bids[0].id == bidId && bids[0].active then 0
    else 1 + FindActive(bids[1..], bidId)
  }

  /** An auction as the store keeps it. */
  datatype AuctionRow = AuctionRow(id: Id, itemId: Id, seller: Id, startPrice: Gold, endsAt: Time, extension: Time,
                                   status: AuctionStatus, bids: seq<Bid>, createdAt: Time)
  {
    function HighestBid(): Option<Bid> {
      Highest(bids)
    }

    function MinNextBid(): Gold {
      match HighestBid()
      case None => startPrice
      case Some(high) => high.amount + Increment(high.amount)
    }

    /** Where a bid placed at `now` leaves the closing time. */
    function EndAfterBid(now: Time): Time {
      if extension > 0 && endsAt - now < extension then now + extension else endsAt
    }

    function PlaceBid(bidId: Id, guild: Id, amount: Gold, now: Time): Result<AuctionRow> {
      if !status.Active? || now >= endsAt then Err(AuctionClosed)
      else if guild == seller then Err(CannotBidOwnItem)
      else if amount < MinNextBid() then Err(BidTooLow)
      else Ok(this.(bids := bids + [Bid(bidId, guild, amount, true, now)], endsAt := EndAfterBid(now)))
    }

    function CancelBid(bidId: Id, guild: Id): Result<AuctionRow> {
      if !status.Active? then Err(AuctionClosed)
      else if HighestBid().Some? && HighestBid().value.id == bidId then Err(CannotCancelLeader)
      else
        var i := FindActive(bids, bidId);
        if i == |bids| || bids[i].guild != guild then Err(BidNotFound)
        else Ok(this.(bids := bids[i := bids[i].(active := false)]))
    }

    predicate Due(now: Time) {
      status.Active? && now >= endsAt
    }

    function Settle(): Result<AuctionRow> {
      if !status.Active? then Err(AuctionClosed) else Ok(this.(status := Settled))
    }
  }

  /** Without a positive leading bid to take a share of, the increment is one. */
  lemma IncrementIsOne(high: Gold)
    requires high <= 0
    ensures Increment(high) == 1
  {
  }

  /** For a positive leading bid the increment is the exact ceiling of five percent, so at least one. */
  lemma IncrementIsCeiling(high: Gold)
    requires high > 0
    ensures Increment(high) >= 1
    ensures 100 * (Increment(high) - 1) < 5 * high <= 100 * Increment(high)
    ensures Increment(high) == Quotient(high * MIN_INCREMENT_PERCENT + 99, 100)
  {
    var n := high * MIN_INCREMENT_PERCENT + 99;
    assert n == 100 * (n / 100) + n % 100;
  }

  /** The scan finds an active bid, no active bid beats it, and it finds one whenever there is one. */
  lemma {:induction false} HighestIsMaximal(bids: seq<Bid>)
    ensures Highest(bids).None? <==> forall b :: b in bids ==> !b.active
    ensures Highest(bids).Some? ==> Highest(bids).value in bids && Highest(bids).value.active
    ensures Highest(bids).Some? ==> forall b :: b in bids && b.active ==> b.amount <= Highest(bids).value.amount
  {
    if bids != [] {
      var front, last := bids[..|bids| - 1], bids[|bids| - 1];
      HighestIsMaximal(front);
      assert bids == front + [last];
      assert forall b :: b in bids <==> b in front || b == last;
    }
  }

  /** Of several active bids of the largest amount, the scan finds the first. */
  lemma {:induction false} HighestIsFirst(bids: seq<Bid>) returns (i: nat)
    requires exists b :: b in bids && b.active
    ensures i < |bids| && Highest(bids) == Some(bids[i]) && bids[i].active
    ensures forall j :: 0 <= j < i && bids[j].active ==> bids[j].amount < bids[i].amount
    ensures forall j :: i < j < |bids| && bids[j].active ==> bids[j].amount <= bids[i].amount
  {
    var front, last := bids[..|bids| - 1], bids[|bids| - 1];
    HighestIsMaximal(front);
    assert bids == front + [last];
    if exists b :: b in front && b.active {
      i := HighestIsFirst(front);
      if last.active && last.amount > front[i].amount {
        i := |front|;
      }
    } else {
      i := |front|;
      assert forall j :: 0 <= j < |front| ==> front[j] in front;
    }
  }

  /** What every auction the market creates keeps true of its bids: each one beats every earlier bid, withdrawn
      or not, by the full increment; the newest is never withdrawn; the seller never bids. */
  ghost predicate Orderly(a: AuctionRow) {
    && a.startPrice > 0
    && Rising(a.startPrice, a.bids)
    && (a.bids != [] ==> a.bids[|a.bids| - 1].active)
    && forall i :: 0 <= i < |a.bids| ==> a.bids[i].guild != a.seller
  }

  ghost predicate Rising(startPrice: Gold, bids: seq<Bid>) {
    && (forall i :: 0 <= i < |bids| ==> bids[i].amount >= startPrice)
    && (forall i, j :: 0 <= i < j < |bids| ==> bids[j].amount >= bids[i].amount + Increment(bids[i].amount))
  }

  ghost predicate DistinctIds(bids: seq<Bid>) {
    forall i, j :: 0 <= i < j < |bids| ==> bids[i].id != bids[j].id
  }

  /** The leader of an orderly auction is simply its newest bid. */
  lemma {:induction false} LeaderIsLast(a: AuctionRow)
    requires Orderly(a)
    ensures a.bids == [] ==> a.HighestBid() == None && a.MinNextBid() == a.startPrice
    ensures a.bids != [] ==>
      var last := a.bids[|a.bids| - 1];
      a.HighestBid() == Some(last) && a.MinNextBid() == last.amount + Increment(last.amount)
  {
    if a.bids != [] {
      var front, last := a.bids[..|a.bids| - 1], a.bids[|a.bids| - 1];
      HighestIsMaximal(front);
      if Highest(front).Some? {
        var i :| 0 <= i < |front| && front[i] == Highest(front).value;
        IncrementIsCeiling(a.bids[i].amount);
      }
    }
  }

  /** An accepted bid unseats the newest bid, becomes the leader itself, and keeps the auction orderly. */
  lemma {:induction false} PlaceBidKeepsOrder(a: AuctionRow, bidId: Id, guild: Id, amount: Gold, now: Time)
    requires Orderly(a) && a.PlaceBid(bidId, guild, amount, now).Ok?
    ensures
      var a' := a.PlaceBid(bidId, guild, amount, now).value;
      && Orderly(a')
      && a'.HighestBid() == Some(Bid(bidId, guild, amount, true, now))
      && amount >= a.startPrice
  {
    var a' := a.PlaceBid(bidId, guild, amount, now).value;
    BeatsEveryBid(a, amount);
    assert Rising(a.startPrice, a'.bids);
    LeaderIsLast(a');
  }

  /** An amount that reaches the minimum beats every earlier bid by that bid's own increment. */
  lemma {:induction false} BeatsEveryBid(a: AuctionRow, amount: Gold)
    requires Orderly(a) && amount >= a.MinNextBid()
    ensures amount >= a.startPrice
    ensures forall i :: 0 <= i < |a.bids| ==> amount >= a.bids[i].amount + Increment(a.bids[i].amount)
  {
    LeaderIsLast(a);
    var n := |a.bids|;
    forall i | 0 <= i < n ensures amount >= a.bids[n - 1].amount
        && amount >= a.bids[i].amount + Increment(a.bids[i].amount) {
      IncrementIsCeiling(a.bids[n - 1].amount);
    }
  }

  /** A withdrawn bid was never the leader, so withdrawing changes neither the leader nor the next minimum. */
  lemma {:induction false} CancelKeepsLeader(a: AuctionRow, bidId: Id, guild: Id)
    requires Orderly(a) && a.CancelBid(bidId, guild).Ok?
    ensures
      var a' := a.CancelBid(bidId, guild).value;
      && Orderly(a')
      && a'.HighestBid() == a.HighestBid()
      && a'.MinNextBid() == a.MinNextBid()
      && |a'.bids| == |a.bids|
      && forall i :: 0 <= i < |a.bids| ==>
          a'.bids[i] == a.bids[i] || (i < |a.bids| - 1 && a'.bids[i] == a.bids[i].(active := false))
  {
    var i := CancelMarks(a, bidId, guild);
    MarkedKeepsLeader(a, i);
  }

  lemma {:induction false} MarkedKeepsLeader(a: AuctionRow, i: nat)
    requires Orderly(a) && i < |a.bids| - 1
    ensures
      var a' := a.(bids := Marked(a.bids, i));
      Orderly(a') && a'.HighestBid() == a.HighestBid() && a'.MinNextBid() == a.MinNextBid()
  {
    MarkedStaysOrderly(a, i);
    LeaderIsLast(a);
    LeaderIsLast(a.(bids := Marked(a.bids, i)));
  }

  lemma {:induction false} CancelMarks(a: AuctionRow, bidId: Id, guild: Id) returns (i: nat)
    requires Orderly(a) && a.CancelBid(bidId, guild).Ok?
    ensures i < |a.bids| - 1 && a.CancelBid(bidId, guild) == Ok(a.(bids := Marked(a.bids, i)))
  {
    LeaderIsLast(a);
    i := FindActive(a.bids, bidId);
  }

  function Marked(bids: seq<Bid>, i: nat): seq<Bid>
    requires i < |bids|
  {
    bids[i := bids[i].(active := false)]
  }

  /** Withdrawing a bid that is not the newest keeps the auction orderly: no guild and no amount changes. */
  lemma MarkedStaysOrderly(a: AuctionRow, i: nat)
    requires Orderly(a) && i < |a.bids| - 1
    ensures Orderly(a.(bids := Marked(a.bids, i)))
  {
    var bids := Marked(a.bids, i);
    assert forall j :: 0 <= j < |bids| ==> bids[j].amount == a.bids[j].amount && bids[j].guild == a.bids[j].guild;
  }

  /** A closing time that is no earlier than before and leaves at least one extension after `now`. */
  predicate LeavesRoom(a: AuctionRow, now: Time, t: Time) {
    t >= a.endsAt && t - now >= a.extension
  }

  /** The anti-snipe rule never moves the closing time back, moves it by less than one extension, and leaves it at the
      least time that leaves one extension: an early bid moves nothing, a late one leaves exactly one. */
  lemma EndAfterBidBounds(a: AuctionRow, bidId: Id, guild: Id, amount: Gold, now: Time)
    requires a.PlaceBid(bidId, guild, amount, now).Ok?
    ensures
      var a' := a.PlaceBid(bidId, guild, amount, now).value;
      && a'.endsAt >= a.endsAt
      && (a'.endsAt == a.endsAt || a'.endsAt < a.endsAt + a.extension)
      && a'.endsAt - now >= a.extension
      && !a'.Due(now)
      && LeavesRoom(a, now, a'.endsAt)
      && forall t :: LeavesRoom(a, now, t) ==> a'.endsAt <= t
  {
    var a' := a.PlaceBid(bidId, guild, amount, now).value;
    assert a'.endsAt == a.endsAt || a'.endsAt == now + a.extension;
  }

  /** What becomes of a bid, cause by cause, and what an accepted one adds. */
  lemma {:induction false} PlaceBidVerdict(a: AuctionRow, bidId: Id, guild: Id, amount: Gold, now: Time)
    requires Orderly(a)
    ensures
      var r := a.PlaceBid(bidId, guild, amount, now);
      && r.Failure() == (
        if !(a.status.Active? && now < a.endsAt) then Some(AuctionClosed)
        else if guild == a.seller then Some(CannotBidOwnItem)
        else if a.bids == [] && amount < a.startPrice then Some(BidTooLow)
        else if a.bids != [] && 100 * (amount - a.bids[|a.bids| - 1].amount) < 5 * a.bids[|a.bids| - 1].amount
        then Some(BidTooLow)
        else None)
      && (r.Ok? ==>
            r.value == a.(bids := a.bids + [Bid(bidId, guild, amount, true, now)],
                          endsAt := if a.extension > 0 && a.endsAt - now < a.extension then now + a.extension
                                    else a.endsAt))
  {
    LeaderIsLast(a);
    if a.bids != [] {
      IncrementIsCeiling(a.bids[|a.bids| - 1].amount);
    }
  }

  /** What becomes of a withdrawal, cause by cause. */
  lemma {:induction false} CancelBidVerdict(a: AuctionRow, bidId: Id, guild: Id)
    requires Orderly(a) && DistinctIds(a.bids)
    ensures a.CancelBid(bidId, guild).Failure() == (
      if !a.status.Active? then Some(AuctionClosed)
      else if a.bids != [] && a.bids[|a.bids| - 1].id == bidId then Some(CannotCancelLeader)
      else if exists i :: 0 <= i < |a.bids| && a.bids[i].id == bidId && a.bids[i].guild == guild && a.bids[i].active
      then None
      else Some(BidNotFound))
  {
    LeaderIsLast(a);
    var i := FindActive(a.bids, bidId);
    assert forall j :: 0 <= j < |a.bids| && a.bids[j].id == bidId && a.bids[j].active ==> i == j;
  }

  /** A guild may withdraw exactly its own bids that have been outbid and are not withdrawn yet; doing so marks that
      one bid. */
  lemma {:induction false} CancelAcceptedIff(a: AuctionRow, bidId: Id, guild: Id)
    requires Orderly(a) && DistinctIds(a.bids) && a.status.Active?
    ensures a.CancelBid(bidId, guild).Ok? <==>
            exists i :: 0 <= i < |a.bids| - 1 && a.bids[i].id == bidId && a.bids[i].guild == guild && a.bids[i].active
    ensures forall i :: 0 <= i < |a.bids| - 1 && a.bids[i].id == bidId && a.bids[i].guild == guild && a.bids[i].active ==>
              a.CancelBid(bidId, guild) == Ok(a.(bids := a.bids[i := a.bids[i].(active := false)]))
  {
    LeaderIsLast(a);
    var i := FindActive(a.bids, bidId);
    assert forall j :: 0 <= j < |a.bids| && a.bids[j].id == bidId && a.bids[j].active ==> i == j;
  }

  /** An auction in memory: the copy that a unit of work changes and writes back. */
  class Auction {
    const id: Id
    const itemId: Id
    const seller: Id
    const startPrice: Gold
    var endsAt: Time
    const extension: Time
    var status: AuctionStatus
    var bids: seq<Bid>
    const createdAt: Time

    constructor (row: AuctionRow)
      ensures Row() == row
    {
      id, itemId, seller, startPrice := row.id, row.itemId, row.seller, row.startPrice;
      endsAt, extension, status, bids, createdAt := row.endsAt, row.extension, row.status, row.bids, row.createdAt;
    }

    function Row(): AuctionRow
      reads this
    {
      AuctionRow(id, itemId, seller, startPrice, endsAt, extension, status, bids, createdAt)
    }

    method HighestBid() returns (best: Option<Bid>)
      ensures best == Row().HighestBid()
    {
      best := None;
      for i := 0 to |bids|
        invariant best == Highest(bids[..i])
      {
        var b := bids[i];
        assert bids[..i + 1][..i] == bids[..i];
        if b.active && (best.None? || b.amount > best.value.amount) {
          best := Some(b);
        }
      }
      assert bids[..|bids|] == bids;
    }

    method MinNextBid() returns (min: Gold)
      ensures min == Row().MinNextBid()
    {
      var high := HighestBid();
      if high.None? {
        return startPrice;
      }
      var inc := Quotient(high.value.amount * MIN_INCREMENT_PERCENT + 99, 100);
      inc := if inc > 1 then inc else 1;
      return high.value.amount + inc;
    }

    method PlaceBid(bidId: Id, guild: Id, amount: Gold, now: Time) returns (unseated: Option<Bid>, err: Option<Error>)
      modifies this
      ensures Becomes(old(Row()), old(Row().PlaceBid(bidId, guild, amount, now)), Row(), err)
      ensures unseated == if err.None? then old(Row().HighestBid()) else None
      ensures err ==
        if old(status) != Active || now >= old(endsAt) then Some(AuctionClosed)
        else if guild == seller then Some(CannotBidOwnItem)
        else if amount < old(Row().MinNextBid()) then Some(BidTooLow)
        else None
      ensures status == old(status)
      ensures err.Some? ==> bids == old(bids) && endsAt == old(endsAt)
      ensures err.None? ==> bids == old(bids) + [Bid(bidId, guild, amount, true, now)]
      ensures err.None? ==>
        endsAt == if extension > 0 && old(endsAt) - now < extension then now + extension else old(endsAt)
    {
      if status != Active || now >= endsAt {
        return None, Some(AuctionClosed);
      }
      if guild == seller {
        return None, Some(CannotBidOwnItem);
      }
      var min := MinNextBid();
      if amount < min {
        return None, Some(BidTooLow);
      }
      var prev := HighestBid();
      bids := bids + [Bid(bidId, guild, amount, true, now)];
      if extension > 0 && endsAt - now < extension {
        endsAt := now + extension;
      }
      return prev, None;
    }

    method CancelBid(bidId: Id, guild: Id) returns (err: Option<Error>)
      modifies this
      ensures Becomes(old(Row()), old(Row().CancelBid(bidId, guild)), Row(), err)
      ensures old(status) != Active ==> err == Some(AuctionClosed)
      ensures status == old(status) && endsAt == old(endsAt)
      ensures err.Some? ==> bids == old(bids)
      ensures err.None? ==>
        var i := FindActive(old(bids), bidId);
        i < |old(bids)| && old(bids)[i].guild == guild && bids == old(bids)[i := old(bids)[i].(active := false)]
    {
      if status != Active {
        return Some(AuctionClosed);
      }
      var high := HighestBid();
      if high.Some? && high.value.id == bidId {
        return Some(CannotCancelLeader);
      }
      ghost var found := FindActive(bids, bidId);
      for i := 0 to |bids|
        invariant forall k :: 0 <= k < i ==> !(bids[k].id == bidId && bids[k].active)
        invariant Row() == old(Row())
      {
        var b := bids[i];
        if b.id == bidId && b.active {
          assert found == i;
          if b.guild != guild {
            return Some(BidNotFound);
          }
          bids := bids[i := b.(active := false)];
          return None;
        }
      }
      return Some(BidNotFound);
    }

    method Settle() returns (winner: Option<Bid>, err: Option<Error>)
      modifies this
      ensures Becomes(old(Row()), old(Row().Settle()), Row(), err)
      ensures winner == if err.None? then old(Row().HighestBid()) else None
      ensures err == if old(status) == Active then None else Some(AuctionClosed)
      ensures status == Settled && bids == old(bids) && endsAt == old(endsAt)
    {
      if status != Active {
        return None, Some(AuctionClosed);
      }
      status := Settled;
      winner := HighestBid();
      return winner, None;
    }
  }
}
