/**
 The Postgres adapter's row locks (internal/adapters/postgres/store.go), as abstract steps. A transaction reads a row only
 by locking it (SELECT ... FOR UPDATE), holds every lock until it ends, and shows its writes only when it commits.
 Any interleaving of such transactions leaves the database as if those that committed had run one after another.
 */
module Locking {
  import opened Domain
  import opened Wallets
  import opened Items
  import opened Auctions
  import opened Sums
  import opened States
  import opened BidOrder

  datatype Row = ItemOf(item: Id) | WalletOf(guild: Id) | AuctionOf(auction: Id)

  /** What a transaction still has to do. `Stuck` is where a step against the discipline leads. */
  datatype Prog =
    | Done
    | Fail(error: Error)
    | Stuck
    | LockItem(itemId: Id, onItem: Result<ItemRow> -> Prog)
    | LockWallet(guild: Id, onWallet: Result<WalletRow> -> Prog)
    | LockAuction(auctionId: Id, onAuction: Result<AuctionRow> -> Prog)
    | SumSpend(spender: Id, since: Time, onSum: Gold -> Prog)
    | WriteItem(item: ItemRow, rest: Prog)
    | WriteWallet(wallet: WalletRow, rest: Prog)
    | WriteAuction(auction: AuctionRow, rest: Prog)
    | Append(entry: Entry, rest: Prog)

  predicate Ended(p: Prog) {
    p.Done? || p.Fail? || p.Stuck?
  }

  /** A running transaction: the rest of its program, the rows it holds, and its writes, which only it sees. */
  datatype Local = Local(prog: Prog, held: set<Row>, items: map<Id, ItemRow>, wallets: map<Id, WalletRow>,
                         auctions: map<Id, AuctionRow>, ledger: seq<Entry>)

  function Begin(p: Prog): Local {
    Local(p, {}, map[], map[], map[], [])
  }

  /** The database as the transaction sees it, and as its commit would leave it. */
  function View(d: State, l: Local): State {
    State(d.items + l.items, d.wallets + l.wallets, d.auctions + l.auctions, d.ledger + l.ledger)
  }

  function GetAuction(s: State, id: Id): Result<AuctionRow> {
    if id in s.auctions then Ok(s.auctions[id]) else Err(AuctionNotFound)
  }

  /** The row that the next step must lock, if any. */
  function Wants(p: Prog): Option<Row> {
    match p
    case LockItem(id, _) => Some(ItemOf(id))
    case LockWallet(g, _) => Some(WalletOf(g))
    case LockAuction(k, _) => Some(AuctionOf(k))
    case _ => None
  }

  /** The discipline: a row is written only under its lock, and a guild's spend is read, and added to,
      only under the lock of that guild's wallet. */
  predicate Disciplined(l: Local) {
    match l.prog
    case SumSpend(g, _, _) => WalletOf(g) in l.held
    case WriteItem(it, _) => ItemOf(it.id) in l.held
    case WriteWallet(w, _) => WalletOf(w.guild) in l.held
    case WriteAuction(a, _) => AuctionOf(a.id) in l.held
    case Append(e, _) => e.kind.LedgerDebit? || e.kind.LedgerSettle? ==> WalletOf(e.guild) in l.held
    case _ => true
  }

  /** One step of a transaction while the committed database is `d`. */
  ghost function Step(d: State, l: Local): Local {
    if Ended(l.prog) then l
    else if !Disciplined(l) then l.(prog := Stuck)
    else
      match l.prog
      case LockItem(id, next) => l.(held := l.held + {ItemOf(id)}, prog := next(GetItem(View(d, l), id)))
      case LockWallet(g, next) => l.(held := l.held + {WalletOf(g)}, prog := next(GetWallet(View(d, l), g)))
      case LockAuction(k, next) => l.(held := l.held + {AuctionOf(k)}, prog := next(GetAuction(View(d, l), k)))
      case SumSpend(g, since, next) => l.(prog := next(Spent(View(d, l).ledger, g, since)))
      case WriteItem(it, rest) => l.(items := l.items[it.id := it], prog := rest)
      case WriteWallet(w, rest) => l.(wallets := l.wallets[w.guild := w], prog := rest)
      case WriteAuction(a, rest) => l.(auctions := l.auctions[a.id := a], prog := rest)
      case Append(e, rest) => l.(ledger := l.ledger + [e], prog := rest)
  }

  ghost function Steps(d: State, l: Local, n: nat): Local {
    if n == 0 then l else Step(d, Steps(d, l, n - 1))
  }

  /** The writes of a transaction are covered by its locks. */
  ghost predicate Covered(l: Local) {
    && (forall i :: i in l.items ==> ItemOf(i) in l.held)
    && (forall g :: g in l.wallets ==> WalletOf(g) in l.held)
    && (forall k :: k in l.auctions ==> AuctionOf(k) in l.held)
    && SpendCovered(l.ledger, l.held)
  }

  /** Every entry that counts as spending belongs to a guild whose wallet is held. */
  ghost predicate SpendCovered(ledger: seq<Entry>, held: set<Row>) {
    forall e :: e in ledger && (e.kind.LedgerDebit? || e.kind.LedgerSettle?) ==> WalletOf(e.guild) in held
  }

  lemma SpendStaysCovered(ledger: seq<Entry>, held: set<Row>, x: Entry)
    requires SpendCovered(ledger, held) && (x.kind.LedgerDebit? || x.kind.LedgerSettle? ==> WalletOf(x.guild) in held)
    ensures SpendCovered(ledger + [x], held)
  {
  }

  lemma StepKeepsCovered(d: State, l: Local)
    requires Covered(l)
    ensures Covered(Step(d, l))
    ensures l.held <= Step(d, l).held
  {
    if l.prog.Append? && Disciplined(l) {
      SpendStaysCovered(l.ledger, l.held, l.prog.entry);
    }
  }

  lemma {:induction false} StepsCovered(d: State, p: Prog, n: nat)
    ensures Covered(Steps(d, Begin(p), n))
    ensures n > 0 ==> Steps(d, Begin(p), n - 1).held <= Steps(d, Begin(p), n).held
  {
    if n > 0 {
      StepsCovered(d, p, n - 1);
      StepKeepsCovered(d, Steps(d, Begin(p), n - 1));
    }
  }

  /** The two databases cannot be told apart by a transaction that holds only these rows. */
  ghost predicate Agree(d: State, d': State, held: set<Row>) {
    && (forall i :: ItemOf(i) in held ==> GetItem(d, i) == GetItem(d', i))
    && (forall g :: WalletOf(g) in held ==> GetWallet(d, g) == GetWallet(d', g))
    && (forall k :: AuctionOf(k) in held ==> GetAuction(d, k) == GetAuction(d', k))
    && (forall g, since :: WalletOf(g) in held ==> Spent(d.ledger, g, since) == Spent(d'.ledger, g, since))
  }

  lemma {:induction false} SpendAgrees(d: State, d': State, l: Local, g: Id, since: Time)
    requires Spent(d.ledger, g, since) == Spent(d'.ledger, g, since)
    ensures Spent(View(d, l).ledger, g, since) == Spent(View(d', l).ledger, g, since)
  {
    SeqSumConcat(d.ledger, l.ledger, SpendOf(g, since));
    SeqSumConcat(d'.ledger, l.ledger, SpendOf(g, since));
  }

  lemma RowsAgree(d: State, d': State, l: Local, r: Row)
    requires Agree(d, d', {r})
    ensures match r
            case ItemOf(i) => GetItem(View(d, l), i) == GetItem(View(d', l), i)
            case WalletOf(g) => GetWallet(View(d, l), g) == GetWallet(View(d', l), g)
            case AuctionOf(k) => GetAuction(View(d, l), k) == GetAuction(View(d', l), k)
  {
    assert r in {r};
  }

  lemma AgreeOnFewer(d: State, d': State, held: set<Row>, fewer: set<Row>)
    requires Agree(d, d', held) && fewer <= held
    ensures Agree(d, d', fewer)
  {
  }

  lemma {:induction false} StepAgrees(d: State, d': State, l: Local)
    requires Agree(d, d', Step(d, l).held)
    ensures Step(d', l) == Step(d, l)
  {
    match l.prog {
      case SumSpend(g, since, _) =>
        if Disciplined(l) {
          SpendAgrees(d, d', l, g, since);
        }
      case LockItem(i, _) => LockAgrees(d, d', l, ItemOf(i));
      case LockWallet(g, _) => LockAgrees(d, d', l, WalletOf(g));
      case LockAuction(k, _) => LockAgrees(d, d', l, AuctionOf(k));
      case _ =>
    }
  }

  lemma LockAgrees(d: State, d': State, l: Local, r: Row)
    requires Wants(l.prog) == Some(r) && Agree(d, d', Step(d, l).held)
    ensures Step(d', l) == Step(d, l)
  {
    AgreeOnFewer(d, d', Step(d, l).held, {r});
    RowsAgree(d, d', l, r);
  }

  /** So a transaction would have done the same on any database that agrees on the rows it holds. */
  lemma {:induction false} StepsAgree(d: State, d': State, p: Prog, n: nat)
    requires Agree(d, d', Steps(d, Begin(p), n).held)
    ensures Steps(d', Begin(p), n) == Steps(d, Begin(p), n)
  {
    if n > 0 {
      StepsCovered(d, p, n);
      StepsAgree(d, d', p, n - 1);
      StepAgrees(d, d', Steps(d, Begin(p), n - 1));
    }
  }

  /** A commit changes nothing that the rows of others can show. */
  lemma {:induction false} CommitAgrees(d: State, l: Local, held: set<Row>)
    requires Covered(l) && held !! l.held
    ensures Agree(d, View(d, l), held)
  {
    var d' := View(d, l);
    forall g, since | WalletOf(g) in held ensures Spent(d.ledger, g, since) == Spent(d'.ledger, g, since) {
      SeqSumConcat(d.ledger, l.ledger, SpendOf(g, since));
      SeqSumZero(l.ledger, SpendOf(g, since));
    }
  }

  // ---------------------------------------------------------------- interleavings

  /** `steps` counts the steps a running transaction has taken. */
  datatype Status = Running(local: Local, steps: nat) | Committed | Aborted

  /** The committed database, the transactions, and the order in which those that committed did. */
  datatype System = System(db: State, txs: seq<Status>, order: seq<nat>)

  /** `Reorder` is no step of a transaction: Postgres re-reads bids ordered by time only, so a row that nobody holds may
      come back with its bids in another order. */
  datatype Move = Advance(t: nat) | Commit(t: nat) | Abort(t: nat) | Reorder(k: Id, bids: seq<Bid>)

  function Held(st: Status): set<Row> {
    if st.Running? then st.local.held else {}
  }

  /** A lock is granted only while no other transaction holds it. Any transaction may be aborted at any time:
      it failed, it lost its connection, or it was chosen to break a deadlock. */
  ghost predicate Possible(y: System, m: Move) {
    match m
    case Advance(t) =>
      && IsRunning(y, t)
      && var want := Wants(y.txs[t].local.prog);
      want.Some? ==> forall u :: 0 <= u < |y.txs| && u != t ==> want.value !in Held(y.txs[u])
    case Commit(t) => IsRunning(y, t) && y.txs[t].local.prog.Done?
    case Abort(t) => IsRunning(y, t)
    case Reorder(k, bids) =>
      && k in y.db.auctions && multiset(bids) == multiset(y.db.auctions[k].bids)
      && forall u :: 0 <= u < |y.txs| ==> AuctionOf(k) !in Held(y.txs[u])
  }

  predicate IsRunning(y: System, t: nat) {
    t < |y.txs| && y.txs[t].Running?
  }

  ghost function Take(y: System, m: Move): System
    requires Possible(y, m)
  {
    match m
    case Advance(t) => y.(txs := y.txs[t := Running(Step(y.db, y.txs[t].local), y.txs[t].steps + 1)])
    case Commit(t) => System(View(y.db, y.txs[t].local), y.txs[t := Committed], y.order + [t])
    case Abort(t) => y.(txs := y.txs[t := Aborted])
    case Reorder(k, bids) => y.(db := Shuffle(y.db, k, bids))
  }

  function Shuffle(d: State, k: Id, bids: seq<Bid>): State
    requires k in d.auctions
  {
    d.(auctions := d.auctions[k := d.auctions[k].(bids := bids)])
  }

  function Launch(d: State, progs: seq<Prog>): System {
    System(d, seq(|progs|, i requires 0 <= i < |progs| => Running(Begin(progs[i]), 0)), [])
  }

  /** A schedule: the systems reached by possible moves, newest last. */
  datatype Schedule = Started(system: System) | Moved(before: Schedule, move: Move, system: System)

  ghost predicate Feasible(x: Schedule, d: State, progs: seq<Prog>) {
    match x
    case Started(y) => y == Launch(d, progs)
    case Moved(before, m, y) => Feasible(before, d, progs) && Possible(before.system, m) && y == Take(before.system, m)
  }

  /** Running a program alone on `d` commits, and leaves `d'`. */
  ghost predicate RunsAlone(d: State, p: Prog, d': State) {
    exists n: nat :: RunsAloneIn(d, p, n, d')
  }

  ghost predicate RunsAloneIn(d: State, p: Prog, n: nat, d': State) {
    Steps(d, Begin(p), n).prog.Done? && d' == View(d, Steps(d, Begin(p), n))
  }

  /** Running these programs one after another from `d`, each to its commit, leaves `d'`,
      where stored bids may change their order before, between and after them. */
  ghost predicate RunsSerially(d: State, progs: seq<Prog>, order: seq<nat>, d': State)
    decreases |order|
  {
    if order == [] then Same(d, d')
    else
      var t := order[|order| - 1];
      t < |progs| && exists mid, left ::
                       RunsSerially(d, progs, order[..|order| - 1], mid) && LastOf(mid, progs[t], left, d')
  }

  ghost predicate LastOf(mid: State, p: Prog, left: State, d': State) {
    RunsAlone(mid, p, left) && Same(left, d')
  }

  lemma {:induction false} ReorderedAfterwards(d: State, progs: seq<Prog>, order: seq<nat>, d1: State, d2: State)
    requires RunsSerially(d, progs, order, d1) && Same(d1, d2)
    ensures RunsSerially(d, progs, order, d2)
  {
    if order == [] {
      SameTransitive(d, d1, d2);
    } else {
      var t := order[|order| - 1];
      var mid, left :| RunsSerially(d, progs, order[..|order| - 1], mid) && LastOf(mid, progs[t], left, d1);
      SameTransitive(left, d1, d2);
      assert LastOf(mid, progs[t], left, d2);
    }
  }

  lemma ShuffleIsSame(d: State, k: Id, bids: seq<Bid>)
    requires k in d.auctions && multiset(bids) == multiset(d.auctions[k].bids)
    ensures Same(d, Shuffle(d, k, bids))
  {
  }

  /** Each running transaction stands where it would if it had run alone on the database as it is now,
      and no two hold the same row. */
  ghost predicate Isolated(y: System, progs: seq<Prog>) {
    && |y.txs| == |progs|
    && (forall t :: 0 <= t < |progs| && y.txs[t].Running? ==>
          y.txs[t].local == Steps(y.db, Begin(progs[t]), y.txs[t].steps))
    && (forall t, u :: 0 <= t < u < |progs| ==> Held(y.txs[t]) !! Held(y.txs[u]))
  }

  lemma {:induction false} AdvanceKeepsIsolated(y: System, progs: seq<Prog>, t: nat)
    requires Isolated(y, progs) && Possible(y, Advance(t))
    ensures Isolated(Take(y, Advance(t)), progs)
  {
    var y' := Take(y, Advance(t));
    var l := y.txs[t].local;
    assert Held(y'.txs[t]) <= Held(y.txs[t]) + if Wants(l.prog).Some? then {Wants(l.prog).value} else {};
    forall u, v | 0 <= u < v < |progs| ensures Held(y'.txs[u]) !! Held(y'.txs[v]) {
      assert Held(y.txs[u]) !! Held(y.txs[v]);
    }
  }

  lemma {:induction false} CommitKeepsIsolated(y: System, progs: seq<Prog>, t: nat)
    requires Isolated(y, progs) && Possible(y, Commit(t))
    ensures Isolated(Take(y, Commit(t)), progs)
  {
    var y' := Take(y, Commit(t));
    var l := y.txs[t].local;
    StepsCovered(y.db, progs[t], y.txs[t].steps);
    forall u | 0 <= u < |progs| && y'.txs[u].Running?
      ensures y'.txs[u].local == Steps(y'.db, Begin(progs[u]), y'.txs[u].steps)
    {
      assert Held(y.txs[u]) !! Held(y.txs[t]) by {
        if u < t { assert Held(y.txs[u]) !! Held(y.txs[t]); } else { assert Held(y.txs[t]) !! Held(y.txs[u]); }
      }
      CommitAgrees(y.db, l, y.txs[u].local.held);
      StepsAgree(y.db, y'.db, progs[u], y.txs[u].steps);
    }
  }

  lemma {:induction false} ReorderKeepsIsolated(y: System, progs: seq<Prog>, k: Id, bids: seq<Bid>)
    requires Isolated(y, progs) && Possible(y, Reorder(k, bids))
    ensures Isolated(Take(y, Reorder(k, bids)), progs)
  {
    var d' := Shuffle(y.db, k, bids);
    forall u | 0 <= u < |progs| && y.txs[u].Running?
      ensures y.txs[u].local == Steps(d', Begin(progs[u]), y.txs[u].steps)
    {
      assert AuctionOf(k) !in Held(y.txs[u]);
      assert Agree(y.db, d', y.txs[u].local.held);
      StepsAgree(y.db, d', progs[u], y.txs[u].steps);
    }
  }

  lemma {:induction false} CommitRunsLast(d: State, progs: seq<Prog>, y: System, t: nat)
    requires Isolated(y, progs) && Possible(y, Commit(t)) && RunsSerially(d, progs, y.order, y.db)
    ensures RunsSerially(d, progs, y.order + [t], Take(y, Commit(t)).db)
  {
    var d' := Take(y, Commit(t)).db;
    assert RunsAloneIn(y.db, progs[t], y.txs[t].steps, d');
    assert LastOf(y.db, progs[t], d', d');
    RunsLast(d, progs, y.order, t, y.db, d');
  }

  lemma RunsLast(d: State, progs: seq<Prog>, front: seq<nat>, t: nat, mid: State, d': State)
    requires t < |progs| && RunsSerially(d, progs, front, mid) && LastOf(mid, progs[t], d', d')
    ensures RunsSerially(d, progs, front + [t], d')
  {
    var order := front + [t];
    assert order[..|order| - 1] == front && order[|order| - 1] == t;
    assert RunsSerially(d, progs, order[..|order| - 1], mid) && LastOf(mid, progs[t], d', d');
  }

  /** Every interleaving of any number of transactions, with any aborts, leaves the database that running the committed
      ones alone, in the order of their commits, would have left, up to the order of stored bids. */
  lemma {:induction false} EveryScheduleIsSerial(x: Schedule, d: State, progs: seq<Prog>)
    requires Feasible(x, d, progs)
    ensures Isolated(x.system, progs)
    ensures RunsSerially(d, progs, x.system.order, x.system.db)
  {
    if x.Moved? {
      var y, y' := x.before.system, x.system;
      EveryScheduleIsSerial(x.before, d, progs);
      match x.move {
        case Advance(t) => AdvanceKeepsIsolated(y, progs, t);
        case Commit(t) =>
          CommitKeepsIsolated(y, progs, t);
          CommitRunsLast(d, progs, y, t);
        case Abort(t) =>
        case Reorder(k, bids) =>
          ReorderKeepsIsolated(y, progs, k, bids);
          ShuffleIsSame(y.db, k, bids);
          ReorderedAfterwards(d, progs, y.order, y.db, y'.db);
      }
    }
  }

  // ---------------------------------------------------------------- serial runs are schedules

  /** Transactions that have not been scheduled yet. */
  ghost predicate Waiting(y: System, progs: seq<Prog>, order: seq<nat>) {
    && |y.txs| == |progs|
    && (forall t :: 0 <= t < |progs| && t !in order ==> y.txs[t] == Running(Begin(progs[t]), 0))
    && (forall t :: 0 <= t < |progs| && t in order ==> y.txs[t].Committed?)
  }

  /** Running one transaction after those that have committed, while the others wait. */
  lemma {:induction false} AdvanceAlone(x: Schedule, d: State, progs: seq<Prog>, t: nat, n: nat) returns (x': Schedule)
    requires Feasible(x, d, progs) && Waiting(x.system, progs, x.system.order) && t < |progs| && t !in x.system.order
    ensures Feasible(x', d, progs) && x'.system.db == x.system.db && x'.system.order == x.system.order
    ensures x'.system.txs == x.system.txs[t := Running(Steps(x.system.db, Begin(progs[t]), n), n)]
  {
    if n == 0 {
      x' := x;
      assert x.system.txs[t := x.system.txs[t]] == x.system.txs;
    } else {
      var x1 := AdvanceAlone(x, d, progs, t, n - 1);
      assert Possible(x1.system, Advance(t));
      x' := Moved(x1, Advance(t), Take(x1.system, Advance(t)));
    }
  }

  /** Once those before it have committed, a transaction that commits alone can be run to its commit. */
  lemma {:induction false} RunsNext(x: Schedule, d: State, progs: seq<Prog>, t: nat, d': State) returns (x': Schedule)
    requires Feasible(x, d, progs) && Waiting(x.system, progs, x.system.order) && t < |progs| && t !in x.system.order
    requires RunsAlone(x.system.db, progs[t], d')
    ensures Feasible(x', d, progs) && x'.system.db == d' && x'.system.order == x.system.order + [t]
    ensures Waiting(x'.system, progs, x'.system.order)
  {
    var n: nat :| RunsAloneIn(x.system.db, progs[t], n, d');
    var x1 := AdvanceAlone(x, d, progs, t, n);
    assert Possible(x1.system, Commit(t));
    x' := Moved(x1, Commit(t), Take(x1.system, Commit(t)));
    assert t in x'.system.order;
  }

  /** Running these programs one after another, each to its commit. */
  ghost predicate RunsInOrder(d: State, progs: seq<Prog>, order: seq<nat>, d': State)
    decreases |order|
  {
    if order == [] then d' == d
    else
      var t := order[|order| - 1];
      && t < |progs| && t !in order[..|order| - 1]
      && exists mid :: RunsInOrder(d, progs, order[..|order| - 1], mid) && RunsAlone(mid, progs[t], d')
  }

  lemma NothingScheduled(d: State, progs: seq<Prog>) returns (x: Schedule)
    ensures Feasible(x, d, progs) && x.system.db == d && x.system.order == [] && Waiting(x.system, progs, [])
  {
    x := Started(Launch(d, progs));
  }

  lemma RunsFirst(d: State, progs: seq<Prog>, order: seq<nat>, d': State) returns (mid: State)
    requires order != [] && RunsInOrder(d, progs, order, d')
    ensures
      var front, t := order[..|order| - 1], order[|order| - 1];
      t < |progs| && t !in front && RunsInOrder(d, progs, front, mid) && RunsAlone(mid, progs[t], d')
  {
    mid :| RunsInOrder(d, progs, order[..|order| - 1], mid) && RunsAlone(mid, progs[order[|order| - 1]], d');
  }

  /** Every serial run is a schedule: what interleavings may do includes running the transactions one after another. */
  lemma {:induction false} SerialIsFeasible(d: State, progs: seq<Prog>, order: seq<nat>, d': State) returns (x: Schedule)
    requires RunsInOrder(d, progs, order, d')
    ensures Feasible(x, d, progs) && x.system.db == d' && x.system.order == order && Waiting(x.system, progs, order)
    decreases |order|
  {
    if order == [] {
      x := NothingScheduled(d, progs);
    } else {
      var front, t := order[..|order| - 1], order[|order| - 1];
      var mid := RunsFirst(d, progs, order, d');
      x := SerialIsFeasible(d, progs, front, mid);
      x := RunsNext(x, d, progs, t, d');
      assert front + [t] == order;
    }
  }
}
