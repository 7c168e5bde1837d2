/**
 What holds over whole runs holds under concurrent use: every theorem about histories, carried over to any interleaving of
 the use cases as transactions.
 */
module ConcurrentRuns {
  import opened Domain
  import opened States
  import opened UseCases
  import opened Invariant
  import opened Histories
  import opened Conservation
  import opened Closing
  import opened Replay
  import opened Goods
  import opened DailyCap
  import opened Int64
  import opened Int64UseCases
  import opened BidOrder
  import opened Locking
  import opened LockedUseCases
  import opened Concurrency

  /** Over a history from funded wallets: the ledger replays, auctions close in time, Legendary items are auctioned once,
      every unit sold is paid for, and the caps bound each day as they do, and are kept exactly when they are. */
  ghost predicate Keeps(cfg: Config, h: History)
  {
    && Sound(h.state)
    && TotalGold(h.state) == TotalGold(First(h))
    && (forall g :: g in First(h).wallets ==> Replays(First(h).wallets[g].total, h.state, g))
    && AllClose(cfg, h.state, TotalGold(First(h)))
    && Recorded(h.state)
    && (forall i :: i in h.state.items ==> SoldRight(h, i))
    && (forall g, d :: g in First(h).wallets && First(h).wallets[g].dailyCap > 0 ==> DayKept(h, g, d))
  }

  ghost predicate SoldRight(h: History, i: Id)
    requires i in h.state.items
  {
    if h.state.items[i].rarity.Legendary? then exists k :: AuctionedOnce(h.state, i, k)
    else PaidSince(ListedAt(h, i), h.state, i)
  }

  ghost predicate DayKept(h: History, g: Id, d: int)
    requires g in First(h).wallets
  {
    var ledger, cap := h.state.ledger, First(h).wallets[g].dailyCap;
    && DayBounded(ledger, g, d, cap)
    && (SpentOn(ledger, g, d) <= cap <==> ClosingsFit(h, g, d, cap))
  }

  lemma {:induction false} SoldRightAlong(cfg: Config, h: History, i: Id)
    requires Valid(cfg, h) && Initial(First(h)) && i in h.state.items
    ensures SoldRight(h, i)
  {
    if h.state.items[i].rarity.Legendary? {
      var k := HistoryAuctionsOnce(cfg, h, i);
    } else {
      HistoryIsPaidFor(cfg, h, i);
    }
  }

  lemma {:induction false} DayKeptAlong(cfg: Config, h: History, g: Id, d: int)
    requires Valid(cfg, h) && Initial(First(h)) && g in First(h).wallets && First(h).wallets[g].dailyCap > 0
    ensures DayKept(h, g, d)
  {
    HistorySpendIsBounded(cfg, h, g, d);
    DayWithinCapIff(cfg, h, g, d, First(h).wallets[g].dailyCap);
  }

  lemma {:induction false} HistoryKeeps(cfg: Config, h: History)
    requires Valid(cfg, h) && Initial(First(h))
    ensures Keeps(cfg, h)
  {
    GoldAlong(cfg, h);
    HistoryCloses(cfg, h);
    RecordedAlong(cfg, h);
    forall g | g in First(h).wallets ensures Replays(First(h).wallets[g].total, h.state, g) {
      HistoryReplays(cfg, h, g);
    }
    forall i | i in h.state.items ensures SoldRight(h, i) {
      SoldRightAlong(cfg, h, i);
    }
    forall g, d | g in First(h).wallets && First(h).wallets[g].dailyCap > 0 ensures DayKept(h, g, d) {
      DayKeptAlong(cfg, h, g, d);
    }
  }

  /** The same over any sequence of requests, one after another. */
  lemma {:induction false} RunKeeps(cfg: Config, s: State, ops: seq<Op>) returns (h: History)
    requires Initial(s) && Legal(cfg, s, ops)
    ensures Spans(cfg, h, s, Exec(cfg, s, ops)) && Keeps(cfg, h)
  {
    InitialIsSound(s);
    h := RunHistory(cfg, s, ops);
    HistoryKeeps(cfg, h);
  }

  /** And over any interleaving of any number of transactions, with any aborts and with stored bids reordered at any time.
      The database has the wallets, the items and the ledger of the history's last state, and its auctions up to the order
      of bids. */
  lemma {:induction false} ConcurrentMarketKeeps(cfg: Config, d: State, jobs: seq<Job>, x: Schedule) returns (h: History)
    requires Initial(d) && FreshJobs(d, jobs) && Feasible(x, d, Programs(cfg, jobs))
    ensures First(h) == d && Keeps(cfg, h) && Same(h.state, x.system.db)
    ensures SerialRequests(cfg, d, jobs, x.system.order, h.state)
  {
    InitialIsSound(d);
    h := ConcurrentMarketIsSerial(cfg, d, jobs, x);
    HistoryKeeps(cfg, h);
  }

  // ---------------------------------------------------------------- 64 bits

  /** The committed jobs, one after another, in 64-bit arithmetic. */
  ghost predicate SerialRequests64(cfg: Config, s: State, jobs: seq<Job>, order: seq<nat>, s': State)
    decreases |order|
  {
    if order == [] then s' == s
    else
      var t := order[|order| - 1];
      t < |jobs| && exists mid :: SerialRequests64(cfg, s, jobs, order[..|order| - 1], mid)
                                   && Attempt64(cfg, mid, Atomic(mid, jobs[t])) == Ok(s')
  }

  ghost predicate JobsFit(jobs: seq<Job>)
  {
    forall t :: 0 <= t < |jobs| ==> RequestsFit([jobs[t].op])
  }

  lemma {:induction false} SecondToLast(cfg: Config, d: State, jobs: seq<Job>, front: seq<nat>, t: nat, s: State)
    returns (mid: State)
    requires SerialRequests(cfg, d, jobs, front + [t], s)
    ensures t < |jobs| && SerialRequests(cfg, d, jobs, front, mid) && Attempt(cfg, mid, Atomic(mid, jobs[t])) == Ok(s)
  {
    var order := front + [t];
    assert order[..|order| - 1] == front;
    mid :| SerialRequests(cfg, d, jobs, front, mid) && Attempt(cfg, mid, Atomic(mid, jobs[t])) == Ok(s);
  }

  lemma {:induction false} LastRequest64(cfg: Config, d: State, jobs: seq<Job>, front: seq<nat>, t: nat, mid: State,
                                         s: State)
    requires t < |jobs| && SerialRequests64(cfg, d, jobs, front, mid) && Attempt64(cfg, mid, Atomic(mid, jobs[t])) == Ok(s)
    ensures SerialRequests64(cfg, d, jobs, front + [t], s)
  {
    var order := front + [t];
    assert order[..|order| - 1] == front;
  }

  lemma {:induction false} JobKeepsFit(cfg: Config, s: State, job: Job, s': State)
    requires Sound(s) && ListingsFit(s) && Attempt(cfg, s, Atomic(s, job)) == Ok(s') && NoRepeats(job) && Fresh(s, job.op)
    requires RequestsFit([job.op])
    ensures ListingsFit(s')
  {
    if job.op.SettleDue? {
      StillDueMembers(s, job.found, job.op.now);
      SettleKeepsFit(s, StillDue(s, job.found, job.op.now), job.op.now);
    } else {
      AcceptedIsAdmissible(cfg, s, job.op);
      ApplyKeepsFit(cfg, s, job.op);
    }
  }

  /** Every state between the committed requests is in range. */
  lemma {:induction false} SerialInRange(cfg: Config, d: State, jobs: seq<Job>, order: seq<nat>, s: State)
    requires Initial(d) && 5 * TotalGold(d) + 99 <= MAX && JobsFit(jobs)
    requires FreshJobs(d, jobs) && NoneTwice(order) && SerialRequests(cfg, d, jobs, order, s)
    ensures InRange(s) && Positive(s.ledger) && StillFresh(s, jobs, order)
    decreases |order|
  {
    if order == [] {
      InitialInRange(d);
    } else {
      var front, t := order[..|order| - 1], order[|order| - 1];
      assert order == front + [t];
      EachOnce(front, t);
      var mid := SecondToLast(cfg, d, jobs, front, t, s);
      SerialInRange(cfg, d, jobs, front, mid);
      StepInRange(cfg, d, jobs, front, t, mid, s);
    }
  }

  lemma {:induction false} StepInRange(cfg: Config, d: State, jobs: seq<Job>, front: seq<nat>, t: nat, mid: State, s: State)
    requires t < |jobs| && t !in front && FreshJobs(d, jobs) && JobsFit(jobs)
    requires InRange(mid) && Positive(mid.ledger) && StillFresh(mid, jobs, front)
    requires Attempt(cfg, mid, Atomic(mid, jobs[t])) == Ok(s)
    ensures InRange(s) && Positive(s.ledger) && StillFresh(s, jobs, front + [t])
  {
    assert Fresh(mid, jobs[t].op) && NoRepeats(jobs[t]);
    JobInRange(cfg, mid, jobs[t], s);
    CommitKeepsFresh(cfg, mid, jobs, front, t, s);
  }

  lemma {:induction false} JobInRange(cfg: Config, s: State, job: Job, s': State)
    requires InRange(s) && Positive(s.ledger) && Attempt(cfg, s, Atomic(s, job)) == Ok(s') && NoRepeats(job)
        && Fresh(s, job.op)
    requires RequestsFit([job.op])
    ensures InRange(s') && Positive(s'.ledger)
  {
    var h := JobHistory(cfg, Start(s), job, s');
    JobKeepsFit(cfg, s, job, s');
    RangeAlong(cfg, h);
    LedgerGrows(cfg, h);
  }

  lemma {:induction false} JobAgrees(cfg: Config, s: State, job: Job, s': State)
    requires InRange(s) && Positive(s.ledger) && Attempt(cfg, s, Atomic(s, job)) == Ok(s') && NoRepeats(job)
        && Fresh(s, job.op)
    requires CapSumsFit(s')
    ensures Attempt64(cfg, s, Atomic(s, job)) == Ok(s') && CapSumsFit(s)
  {
    var h := JobHistory(cfg, Start(s), job, s');
    CapSumsFitBefore(cfg, h);
    if job.op.SettleDue? {
      StillDueMembers(s, job.found, job.op.now);
    }
    AttemptAgrees(cfg, s, Atomic(s, job));
  }

  /** A serial run of accepted requests is the same run in 64-bit arithmetic. */
  lemma {:induction false} SerialRunFits(cfg: Config, d: State, jobs: seq<Job>, order: seq<nat>, s: State)
    requires Initial(d) && 5 * TotalGold(d) + 99 <= MAX && JobsFit(jobs)
    requires FreshJobs(d, jobs) && NoneTwice(order) && SerialRequests(cfg, d, jobs, order, s) && CapSumsFit(s)
    ensures SerialRequests64(cfg, d, jobs, order, s)
    decreases |order|
  {
    if order != [] {
      var front, t := order[..|order| - 1], order[|order| - 1];
      assert order == front + [t];
      EachOnce(front, t);
      var mid := SecondToLast(cfg, d, jobs, front, t, s);
      SerialInRange(cfg, d, jobs, front, mid);
      assert Fresh(mid, jobs[t].op) && NoRepeats(jobs[t]);
      JobAgrees(cfg, mid, jobs[t], s);
      SerialRunFits(cfg, d, jobs, front, mid);
      LastRequest64(cfg, d, jobs, front, t, mid, s);
    }
  }

  lemma SameCapSums(s: State, d: State)
    requires Same(s, d) && CapSumsFit(d)
    ensures CapSumsFit(s)
  {
    assert s.wallets == d.wallets && s.ledger == d.ledger;
    forall g, since | g in s.wallets && s.wallets[g].dailyCap > 0 ensures HasRoom(s, g, since) {
      assert HasRoom(d, g, since);
    }
  }

  /** Any interleaving is a serial run of requests in 64-bit arithmetic, under the same bounds as a run without
      concurrency. */
  lemma {:induction false} ConcurrentMarketFits(cfg: Config, d: State, jobs: seq<Job>, x: Schedule) returns (t: State)
    requires Initial(d) && FreshJobs(d, jobs) && Feasible(x, d, Programs(cfg, jobs))
    requires 5 * TotalGold(d) + 99 <= MAX && JobsFit(jobs) && CapSumsFit(x.system.db)
    ensures SerialRequests64(cfg, d, jobs, x.system.order, t) && Same(t, x.system.db)
  {
    InitialIsSound(d);
    var h := ConcurrentMarketIsSerial(cfg, d, jobs, x);
    t := h.state;
    CommitsOnce(x, d, Programs(cfg, jobs));
    SameCapSums(t, x.system.db);
    SerialRunFits(cfg, d, jobs, x.system.order, t);
  }
}
