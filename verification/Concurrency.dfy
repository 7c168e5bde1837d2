/**
 The whole market under concurrent use: any interleaving of any number of use cases, each a transaction under row locks
 on storage that may reorder bids, is a serial run of the atomic requests that committed, so it keeps every invariant.
 */
module Concurrency {
  import opened Domain
  import opened Items
  import opened Auctions
  import opened States
  import opened UseCases
  import opened Invariant
  import opened Histories
  import opened Conservation
  import opened BidOrder
  import opened Locking
  import opened LockedUseCases

  /** A request, and what its unlocked search for auctions came up with: for a listing, a bid or a withdrawal at most one
      candidate for the active auction of the item, for a settlement any candidates for the due auctions. */
  datatype Job = Job(op: Op, found: seq<Id>) {
    function Candidate(): Option<Id> {
      if found == [] then None else Some(found[0])
    }
  }

  ghost function Program(cfg: Config, job: Job): Prog
  {
    match job.op
    case ListItem(itemId, auctionId, rarity, seller, price, quantity, now) =>
      ListProg(cfg, job.Candidate(), itemId, auctionId, rarity, seller, price, quantity, now)
    case Buy(itemId, buyer, qty, now) => BuyProg(itemId, buyer, qty, now)
    case PlaceBid(itemId, bidder, amount, bidId, now) =>
      if amount <= 0 then Fail(NonPositiveAmount)
      else if job.found == [] then Fail(AuctionNotFound)
      else BidProg(job.found[0], itemId, bidder, amount, bidId, now)
    case Withdraw(itemId, bidId, guild) =>
      if job.found == [] then Fail(AuctionNotFound) else CancelProg(job.found[0], itemId, bidId, guild)
    case SettleDue(_, now) => SettleProg(job.found, [], now)
  }

  ghost function Programs(cfg: Config, jobs: seq<Job>): seq<Prog>
  {
    seq(|jobs|, t requires 0 <= t < |jobs| => Program(cfg, jobs[t]))
  }

  /** The atomic request that a job amounts to when it runs on `s`: settlement closes those candidates that are due. */
  ghost function Atomic(s: State, job: Job): Op
  {
    match job.op
    case SettleDue(_, now) => SettleDue(StillDue(s, job.found, now), now)
    case op => op
  }

  /** A search returns no auction twice. */
  predicate NoRepeats(job: Job)
  {
    forall i, j :: 0 <= i < j < |job.found| ==> job.found[i] != job.found[j]
  }

  /** The identifier generator has not handed out this request's new identifier before. */
  ghost predicate Fresh(s: State, op: Op)
  {
    match op
    case ListItem(_, auctionId, _, _, _, _, _) => auctionId !in s.auctions
    case PlaceBid(_, _, _, bidId, _) => NewBidId(s, bidId)
    case _ => true
  }

  ghost predicate Apart(op: Op, other: Op)
  {
    && (op.ListItem? && other.ListItem? ==> op.auctionId != other.auctionId)
    && (op.PlaceBid? && other.PlaceBid? ==> op.bidId != other.bidId)
  }

  ghost predicate FreshJobs(s: State, jobs: seq<Job>)
  {
    && (forall t :: 0 <= t < |jobs| ==> Fresh(s, jobs[t].op) && NoRepeats(jobs[t]))
    && (forall t, u :: 0 <= t < u < |jobs| ==> Apart(jobs[t].op, jobs[u].op))
  }

  /** What storage that may reorder bids still keeps. */
  ghost predicate Stored(d: State) {
    Keyed(d) && ItemsInOrder(d.items, d.auctions)
  }

  lemma {:induction false} SameIsStored(s: State, d: State)
    requires Sound(s) && Same(s, d)
    ensures Stored(d)
  {
    SameStatuses(s, d);
    SameItemsInOrder(d.items, s.auctions, d.auctions);
  }

  lemma {:induction false} SameStatuses(s: State, d: State)
    requires Same(s, d)
    ensures forall k :: k in s.auctions ==> ItemStatusFor(d.auctions[k]) == ItemStatusFor(s.auctions[k])
  {
    forall k | k in s.auctions ensures ItemStatusFor(d.auctions[k]) == ItemStatusFor(s.auctions[k]) {
      SameMembers(s.auctions[k].bids, d.auctions[k].bids);
    }
  }

  lemma {:induction false} SameItemsInOrder(items: map<Id, ItemRow>, auctions: map<Id, AuctionRow>,
                                            auctions': map<Id, AuctionRow>)
    requires ItemsInOrder(items, auctions) && auctions'.Keys == auctions.Keys
    requires forall k :: k in auctions ==>
               && auctions'[k] == auctions[k].(bids := auctions'[k].bids)
               && ItemStatusFor(auctions'[k]) == ItemStatusFor(auctions[k])
    ensures ItemsInOrder(items, auctions')
  {
    forall i | i in items && items[i].rarity.Legendary? ensures Auctioned(auctions', i) {
      var k :| k in auctions && auctions[k].itemId == i;
      assert auctions'[k].itemId == i;
    }
    forall k | k in auctions' ensures Belongs(items, auctions'[k]) {
      assert Belongs(items, auctions[k]);
    }
  }

  lemma OfItems(d: State)
    requires Stored(d)
    ensures AuctionsHaveItems(d)
  {
    forall k | k in d.auctions ensures d.auctions[k].itemId in d.items {
      assert Belongs(d.items, d.auctions[k]);
    }
  }

  /** How a job ends that runs alone. */
  lemma {:induction false} JobEnds(cfg: Config, d: State, job: Job) returns (r: Result<State>)
    requires Stored(d)
    ensures EndsAs(d, Begin(Program(cfg, job)), r)
    ensures r.Ok? ==> Attempt(cfg, d, Atomic(d, job)) == r
  {
    var p := Program(cfg, job);
    if p.Fail? {
      r := Err(p.error);
      Stays(d, Begin(p));
      Ends(d, Begin(p), Begin(p), r);
    } else {
      match job.op {
        case ListItem(itemId, auctionId, rarity, seller, price, quantity, now) =>
          OfItems(d);
          ListAlone(cfg, d, job.Candidate(), itemId, auctionId, rarity, seller, price, quantity, now);
          r := Listing(cfg, d, itemId, auctionId, rarity, seller, price, quantity, now);
        case Buy(itemId, buyer, qty, now) =>
          BuyAlone(d, itemId, buyer, qty, now);
          r := Purchase(d, itemId, buyer, qty, now);
        case PlaceBid(itemId, bidder, amount, bidId, now) =>
          var k := job.found[0];
          BidAlone(d, k, itemId, bidder, amount, bidId, now);
          r := if k in d.auctions && ActiveFor(d.auctions[k], itemId)
               then BidOnItem(d, itemId, bidder, amount, bidId, now) else Err(AuctionNotFound);
        case Withdraw(itemId, bidId, guild) =>
          var k := job.found[0];
          CancelAlone(d, k, itemId, bidId, guild);
          r := if k in d.auctions && ActiveFor(d.auctions[k], itemId)
               then CancelBidOnItem(d, itemId, bidId, guild) else Err(AuctionNotFound);
        case SettleDue(_, now) =>
          SettleAlone(d, job.found, now);
          r := SettleAll(d, StillDue(d, job.found, now), now);
      }
    }
  }

  /** The search came up with the right candidates: the active auction of the item if there is one, and no identifier of a
      new auction is taken. */
  ghost predicate RightlyFound(d: State, job: Job)
  {
    match job.op
    case ListItem(_, auctionId, _, _, _, _, _) => auctionId !in d.auctions
    case PlaceBid(itemId, _, _, _, _) => FoundActive(d, job.Candidate(), itemId)
    case Withdraw(itemId, _, _) => FoundActive(d, job.Candidate(), itemId)
    case _ => true
  }

  ghost predicate FoundActive(d: State, found: Option<Id>, itemId: Id)
  {
    if exists k :: k in d.auctions && ActiveFor(d.auctions[k], itemId)
    then found.Some? && found.value in d.auctions && ActiveFor(d.auctions[found.value], itemId)
    else true
  }

  /** With the right candidates, a job that runs alone ends exactly as its atomic request does: it commits with the same
      state, or it fails with the same error. */
  lemma {:induction false} JobIsRequest(cfg: Config, d: State, job: Job)
    requires Stored(d) && RightlyFound(d, job)
    ensures EndsAs(d, Begin(Program(cfg, job)), Attempt(cfg, d, Atomic(d, job)))
    ensures forall d' :: RunsAlone(d, Program(cfg, job), d') <==> Attempt(cfg, d, Atomic(d, job)) == Ok(d')
  {
    var p, r := Program(cfg, job), Attempt(cfg, d, Atomic(d, job));
    if p.Fail? {
      Stays(d, Begin(p));
      Ends(d, Begin(p), Begin(p), Err(p.error));
      FailingIsRefused(cfg, d, job);
    } else {
      match job.op {
        case ListItem(itemId, auctionId, rarity, seller, price, quantity, now) =>
          OfItems(d);
          ListAlone(cfg, d, job.Candidate(), itemId, auctionId, rarity, seller, price, quantity, now);
        case Buy(itemId, buyer, qty, now) => BuyAlone(d, itemId, buyer, qty, now);
        case PlaceBid(itemId, bidder, amount, bidId, now) =>
          BidAlone(d, job.found[0], itemId, bidder, amount, bidId, now);
        case Withdraw(itemId, bidId, guild) => CancelAlone(d, job.found[0], itemId, bidId, guild);
        case SettleDue(_, now) => SettleAlone(d, job.found, now);
      }
    }
    forall d' ensures RunsAlone(d, p, d') <==> r == Ok(d') {
      EndsAsRunsAlone(d, p, r, d');
    }
  }

  /** A program that fails at once belongs to a request that is refused, with the same error. */
  lemma {:induction false} FailingIsRefused(cfg: Config, d: State, job: Job)
    requires RightlyFound(d, job) && Program(cfg, job).Fail?
    ensures Attempt(cfg, d, Atomic(d, job)) == Err(Program(cfg, job).error)
  {
  }

  lemma {:induction false} EndsAsRunsAlone(d: State, p: Prog, r: Result<State>, d': State)
    requires EndsAs(d, Begin(p), r)
    ensures RunsAlone(d, p, d') <==> r == Ok(d')
  {
    if r == Ok(d') {
      var l :| Goes(d, Begin(p), l) && EndedWith(d, l, r);
      var n: nat :| Steps(d, Begin(p), n) == l;
      assert RunsAloneIn(d, p, n, d');
    }
    if RunsAlone(d, p, d') {
      EndsOneWay(d, p, r, d');
    }
  }

  /** A job that runs alone to its commit has done what the atomic request does, and that request was accepted. */
  lemma {:induction false} CommitIsRequest(cfg: Config, d: State, job: Job, d': State)
    requires Stored(d) && RunsAlone(d, Program(cfg, job), d')
    ensures Attempt(cfg, d, Atomic(d, job)) == Ok(d')
  {
    var r := JobEnds(cfg, d, job);
    EndsOneWay(d, Program(cfg, job), r, d');
  }

  lemma {:induction false} SameStillDue(s: State, d: State, candidates: seq<Id>, now: Time)
    requires Same(s, d)
    ensures SameRows(StillDue(s, candidates, now), StillDue(d, candidates, now))
  {
    if candidates != [] {
      SameStillDue(s, d, candidates[1..], now);
    }
  }

  /** The same commit, on storage that keeps the order of bids. */
  lemma {:induction false} CommitInOrder(cfg: Config, s: State, d: State, job: Job, d': State) returns (s': State)
    requires Sound(s) && DistinctBids(s) && Same(s, d) && NoRepeats(job) && Attempt(cfg, d, Atomic(d, job)) == Ok(d')
    ensures Attempt(cfg, s, Atomic(s, job)) == Ok(s') && Same(s', d')
  {
    if job.op.SettleDue? {
      SameStillDue(s, d, job.found, job.op.now);
      StillDueMembers(s, job.found, job.op.now);
    }
    SameStep(cfg, s, d, Atomic(s, job), Atomic(d, job));
    s' := Attempt(cfg, s, Atomic(s, job)).value;
  }

  // ---------------------------------------------------------------- serial runs of requests

  /** The committed jobs, as atomic requests one after another, each accepted, lead from `s` to `s'`. */
  ghost predicate SerialRequests(cfg: Config, s: State, jobs: seq<Job>, order: seq<nat>, s': State)
    decreases |order|
  {
    if order == [] then s' == s
    else
      var t := order[|order| - 1];
      t < |jobs| && exists mid :: SerialRequests(cfg, s, jobs, order[..|order| - 1], mid)
                                   && Attempt(cfg, mid, Atomic(mid, jobs[t])) == Ok(s')
  }

  lemma {:induction false} AcceptedKeepsFresh(cfg: Config, s: State, job: Job, s': State, other: Op)
    requires Sound(s) && Attempt(cfg, s, Atomic(s, job)) == Ok(s') && NoRepeats(job)
    requires Fresh(s, job.op) && Fresh(s, other) && Apart(job.op, other)
    ensures Fresh(s', other)
  {
    if job.op.SettleDue? {
      StillDueMembers(s, job.found, job.op.now);
      ClosingKeepsFresh(s, StillDue(s, job.found, job.op.now), job.op.now, s', other);
    } else {
      RequestKeepsFresh(cfg, s, job.op, s', other);
    }
  }

  lemma {:induction false} ClosingKeepsFresh(s: State, due: seq<AuctionRow>, now: Time, s': State, other: Op)
    requires Sound(s) && Offered(s, due) && SettleAll(s, due, now) == Ok(s') && Fresh(s, other)
    ensures Fresh(s', other)
  {
    SettleAllOutcome(s, due, now);
  }

  lemma {:induction false} RequestKeepsFresh(cfg: Config, s: State, op: Op, s': State, other: Op)
    requires Sound(s) && Attempt(cfg, s, op) == Ok(s') && !op.SettleDue?
    requires Fresh(s, op) && Fresh(s, other) && Apart(op, other)
    ensures Fresh(s', other)
  {
    match op {
      case ListItem(itemId, auctionId, rarity, seller, price, quantity, now) =>
        CreateItemHasEffect(cfg, s, itemId, auctionId, rarity, seller, price, quantity, now);
        ListingKeepsFresh(cfg, s, itemId, auctionId, seller, price, now, s', other);
      case Buy(itemId, buyer, qty, now) => BuyKeepsFresh(s, itemId, buyer, qty, now, s', other);
      case PlaceBid(itemId, bidder, amount, bidId, now) => RaiseKeepsFresh(s, itemId, bidder, amount, bidId, now, s',
          other);
      case Withdraw(itemId, bidId, guild) => WithdrawKeepsFresh(s, itemId, bidId, guild, s', other);
    }
  }

  lemma {:induction false} BuyKeepsFresh(s: State, itemId: Id, buyer: Id, qty: int, now: Time, s': State, other: Op)
    requires Keyed(s) && Purchase(s, itemId, buyer, qty, now) == Ok(s') && Fresh(s, other)
    ensures Fresh(s', other)
  {
    PurchaseHasEffect(s, itemId, buyer, qty, now);
  }

  lemma {:induction false} RaiseKeepsFresh(s: State, itemId: Id, bidder: Id, amount: Gold, bidId: Id, now: Time,
                                           s': State, other: Op)
    requires Sound(s) && BidOnItem(s, itemId, bidder, amount, bidId, now) == Ok(s')
    requires Fresh(s, other) && (other.PlaceBid? ==> other.bidId != bidId)
    ensures Fresh(s', other)
  {
    BidOutcome(s, itemId, bidder, amount, bidId, now);
    BidKeepsFresh(s, ActiveAuction(s.auctions, itemId).value, bidder, amount, bidId, now, s', other);
  }

  lemma {:induction false} WithdrawKeepsFresh(s: State, itemId: Id, bidId: Id, guild: Id, s': State, other: Op)
    requires Keyed(s) && CancelBidOnItem(s, itemId, bidId, guild) == Ok(s') && Fresh(s, other)
    ensures Fresh(s', other)
  {
    CancelHasEffect(s, itemId, bidId, guild);
    CancelKeepsFresh(s, ActiveAuction(s.auctions, itemId).value, bidId, guild, s', other);
  }

  lemma ListingKeepsFresh(cfg: Config, s: State, itemId: Id, auctionId: Id, seller: Id, price: Gold, now: Time,
                          s': State, other: Op)
    requires CreateEffect(cfg, s, itemId, auctionId, seller, price, now, s')
    requires Fresh(s, other) && (other.ListItem? ==> other.auctionId != auctionId)
    ensures Fresh(s', other)
  {
  }

  lemma BidKeepsFresh(s: State, k: Id, bidder: Id, amount: Gold, bidId: Id, now: Time, s': State, other: Op)
    requires BidEffect(s, k, bidder, amount, bidId, now, s')
    requires Fresh(s, other) && (other.PlaceBid? ==> other.bidId != bidId)
    ensures Fresh(s', other)
  {
  }

  lemma CancelKeepsFresh(s: State, k: Id, bidId: Id, guild: Id, s': State, other: Op)
    requires CancelEffect(s, k, bidId, guild, s') && Fresh(s, other)
    ensures Fresh(s', other)
  {
  }

  lemma AcceptedIsAdmissible(cfg: Config, s: State, op: Op)
    requires Attempt(cfg, s, op).Ok? && Fresh(s, op) && !op.SettleDue?
    ensures Admissible(s, op)
  {
  }

  /** One committed job extends a history. */
  lemma {:induction false} JobHistory(cfg: Config, h: History, job: Job, s': State) returns (h': History)
    requires Valid(cfg, h) && Attempt(cfg, h.state, Atomic(h.state, job)) == Ok(s') && NoRepeats(job)
        && Fresh(h.state, job.op)
    ensures Spans(cfg, h', First(h), s')
  {
    if job.op.SettleDue? {
      StillDueMembers(h.state, job.found, job.op.now);
      h' := SettleHistory(cfg, h, StillDue(h.state, job.found, job.op.now), job.op.now);
    } else {
      AcceptedIsAdmissible(cfg, h.state, job.op);
      h' := OpHistory(cfg, h, job.op);
    }
  }

  ghost predicate NoneTwice(order: seq<nat>)
  {
    forall i, j :: 0 <= i < j < |order| ==> order[i] != order[j]
  }

  /** Jobs that have not committed yet still have fresh identifiers. */
  ghost predicate StillFresh(s: State, jobs: seq<Job>, order: seq<nat>)
  {
    forall t: nat :: t < |jobs| && t !in order ==> Fresh(s, jobs[t].op)
  }

  /** The last commit, between reorderings of stored bids. */
  lemma {:induction false} LastRun(cfg: Config, d: State, jobs: seq<Job>, front: seq<nat>, t: nat, d': State)
    returns (mid: State, left: State)
    requires RunsSerially(d, Programs(cfg, jobs), front + [t], d')
    ensures t < |jobs| && RunsSerially(d, Programs(cfg, jobs), front, mid)
    ensures RunsAlone(mid, Program(cfg, jobs[t]), left) && Same(left, d')
  {
    var order := front + [t];
    assert order[..|order| - 1] == front;
    mid, left :| RunsSerially(d, Programs(cfg, jobs), front, mid) && LastOf(mid, Programs(cfg, jobs)[t], left, d');
  }

  lemma {:induction false} LastRequest(cfg: Config, d: State, jobs: seq<Job>, front: seq<nat>, t: nat, mid: State,
                                       d': State)
    requires t < |jobs| && SerialRequests(cfg, d, jobs, front, mid) && Attempt(cfg, mid, Atomic(mid, jobs[t])) == Ok(d')
    ensures SerialRequests(cfg, d, jobs, front + [t], d')
  {
    var order := front + [t];
    assert order[..|order| - 1] == front;
  }

  /** A history that goes through the committed requests, and ends where storage that keeps the order of bids would. */
  ghost predicate Tells(cfg: Config, h: History, d: State, jobs: seq<Job>, order: seq<nat>, d': State)
  {
    && Spans(cfg, h, d, h.state)
    && SerialRequests(cfg, d, jobs, order, h.state)
    && DistinctBids(h.state)
    && Same(h.state, d')
  }

  lemma {:induction false} SerialHistory(cfg: Config, d: State, jobs: seq<Job>, order: seq<nat>, d': State)
    returns (h: History)
    requires Sound(d) && DistinctBids(d) && FreshJobs(d, jobs) && NoneTwice(order)
    requires RunsSerially(d, Programs(cfg, jobs), order, d')
    ensures Tells(cfg, h, d, jobs, order, d') && StillFresh(h.state, jobs, order)
    decreases |order|, 1
  {
    if order == [] {
      h := NothingYet(cfg, d, jobs, d');
    } else {
      var front, t := order[..|order| - 1], order[|order| - 1];
      assert order == front + [t];
      EachOnce(front, t);
      h := SerialPush(cfg, d, jobs, front, t, d');
    }
  }

  lemma EachOnce(front: seq<nat>, t: nat)
    requires NoneTwice(front + [t])
    ensures NoneTwice(front) && t !in front
  {
    var order := front + [t];
    assert order[|front|] == t;
    assert forall i :: 0 <= i < |front| ==> order[i] == front[i];
  }

  lemma NothingYet(cfg: Config, d: State, jobs: seq<Job>, d': State) returns (h: History)
    requires Sound(d) && DistinctBids(d) && FreshJobs(d, jobs) && Same(d, d')
    ensures Tells(cfg, h, d, jobs, [], d') && StillFresh(h.state, jobs, [])
  {
    h := Start(d);
  }

  lemma {:induction false} SerialPush(cfg: Config, d: State, jobs: seq<Job>, front: seq<nat>, t: nat, d': State)
    returns (h: History)
    requires Sound(d) && DistinctBids(d) && FreshJobs(d, jobs) && NoneTwice(front) && t !in front
    requires RunsSerially(d, Programs(cfg, jobs), front + [t], d')
    ensures Tells(cfg, h, d, jobs, front + [t], d') && StillFresh(h.state, jobs, front + [t])
    decreases |front|, 2
  {
    var mid, left := LastRun(cfg, d, jobs, front, t, d');
    h := SerialHistory(cfg, d, jobs, front, mid);
    h := SerialStep(cfg, h, d, jobs, front, t, mid, left);
    SameTransitive(h.state, left, d');
  }

  lemma {:induction false} SerialStep(cfg: Config, h: History, d: State, jobs: seq<Job>, front: seq<nat>, t: nat,
                                      mid: State, left: State)
    returns (h': History)
    requires Tells(cfg, h, d, jobs, front, mid) && FreshJobs(d, jobs) && DistinctBids(d) && t < |jobs| && t !in front
    requires StillFresh(h.state, jobs, front) && RunsAlone(mid, Program(cfg, jobs[t]), left)
    ensures Tells(cfg, h', d, jobs, front + [t], left) && StillFresh(h'.state, jobs, front + [t])
  {
    assert Fresh(h.state, jobs[t].op);
    var s' := NextRequest(cfg, h.state, mid, jobs[t], left);
    LastRequest(cfg, d, jobs, front, t, h.state, s');
    CommitKeepsFresh(cfg, h.state, jobs, front, t, s');
    h' := JobHistory(cfg, h, jobs[t], s');
    DistinctFrom(cfg, h', d);
  }

  lemma {:induction false} NextRequest(cfg: Config, s: State, mid: State, job: Job, left: State) returns (s': State)
    requires Sound(s) && DistinctBids(s) && Same(s, mid) && NoRepeats(job) && RunsAlone(mid, Program(cfg, job), left)
    ensures Attempt(cfg, s, Atomic(s, job)) == Ok(s') && Same(s', left)
  {
    SameIsStored(s, mid);
    CommitIsRequest(cfg, mid, job, left);
    s' := CommitInOrder(cfg, s, mid, job, left);
  }

  lemma {:induction false} DistinctFrom(cfg: Config, h: History, d: State)
    requires Valid(cfg, h) && First(h) == d && DistinctBids(d)
    ensures DistinctBids(h.state)
  {
    DistinctAlong(cfg, h);
  }

  lemma {:induction false} CommitKeepsFresh(cfg: Config, s: State, jobs: seq<Job>, front: seq<nat>, t: nat, s': State)
    requires Sound(s) && t < |jobs| && t !in front && StillFresh(s, jobs, front) && NoRepeats(jobs[t])
    requires forall i, j :: 0 <= i < j < |jobs| ==> Apart(jobs[i].op, jobs[j].op)
    requires Attempt(cfg, s, Atomic(s, jobs[t])) == Ok(s')
    ensures StillFresh(s', jobs, front + [t])
  {
    forall u: nat | u < |jobs| && u !in front + [t] ensures Fresh(s', jobs[u].op) {
      assert t in front + [t];
      assert Apart(jobs[t].op, jobs[u].op);
      AcceptedKeepsFresh(cfg, s, jobs[t], s', jobs[u].op);
    }
  }

  /** Each transaction commits at most once. */
  lemma {:induction false} CommitsOnce(x: Schedule, d: State, progs: seq<Prog>)
    requires Feasible(x, d, progs)
    ensures NoneTwice(x.system.order)
    ensures forall t :: t in x.system.order ==> t < |x.system.txs| && x.system.txs[t].Committed?
  {
    if x.Moved? {
      CommitsOnce(x.before, d, progs);
    }
  }

  /** Any interleaving of any number of use cases, started on a sound database, with any aborts and with stored bids
      reordered at any time, leaves the database that the committed requests would have left had they been accepted one
      after another in the order of their commits, up to the order of bids. That run is sound and holds all the gold. */
  lemma {:induction false} ConcurrentMarketIsSerial(cfg: Config, d: State, jobs: seq<Job>, x: Schedule) returns (h: History)
    requires Sound(d) && DistinctBids(d) && FreshJobs(d, jobs) && Feasible(x, d, Programs(cfg, jobs))
    ensures SerialRequests(cfg, d, jobs, x.system.order, h.state) && Same(h.state, x.system.db)
    ensures Spans(cfg, h, d, h.state)
    ensures Sound(h.state) && TotalGold(x.system.db) == TotalGold(d)
  {
    EveryScheduleIsSerial(x, d, Programs(cfg, jobs));
    CommitsOnce(x, d, Programs(cfg, jobs));
    h := SerialHistory(cfg, d, jobs, x.system.order, x.system.db);
    GoldAlong(cfg, h);
  }

  lemma {:induction false} EndedIsNotStuck(d: State, p: Prog, r: Result<State>, n: nat)
    requires EndsAs(d, Begin(p), r)
    ensures !Steps(d, Begin(p), n).prog.Stuck?
  {
    var l :| Goes(d, Begin(p), l) && EndedWith(d, l, r);
    var m: nat :| Steps(d, Begin(p), m) == l;
    if n <= m {
      if Ended(Steps(d, Begin(p), n).prog) {
        EndedStaysEnded(d, Begin(p), n, m);
      }
    } else {
      EndedStaysEnded(d, Begin(p), m, n);
    }
  }

  /** The use cases keep to the discipline: under no interleaving does one write a row, or read or add to a guild's spend,
      without the lock that covers it. */
  lemma {:induction false} NoJobIsEverStuck(cfg: Config, d: State, jobs: seq<Job>, x: Schedule, t: nat)
    requires Sound(d) && DistinctBids(d) && FreshJobs(d, jobs) && Feasible(x, d, Programs(cfg, jobs))
    requires IsRunning(x.system, t)
    ensures t < |jobs| && !x.system.txs[t].local.prog.Stuck?
  {
    var y := x.system;
    EveryScheduleIsSerial(x, d, Programs(cfg, jobs));
    var h := ConcurrentMarketIsSerial(cfg, d, jobs, x);
    SameIsStored(h.state, y.db);
    var r := JobEnds(cfg, y.db, jobs[t]);
    EndedIsNotStuck(y.db, Program(cfg, jobs[t]), r, y.txs[t].steps);
  }
}
