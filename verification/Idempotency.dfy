/** Replaying requests that carry an idempotency key (internal/adapters/httpapi/idempotency.go). */
module Idempotency {
  import opened Domain

  datatype Response = Response(status: int, body: string)

  datatype Request = Request(guild: string, verb: string, path: string, key: string)

  /** The cache key of a request. */
  function Scope(r: Request): string {
    r.guild + "|" + r.verb + "|" + r.path + "|" + r.key
  }

  predicate Succeeded(resp: Response) {
    200 <= resp.status < 300
  }

  // ---------------------------------------------------------------- scopes

  /** Where the first bar of a string is. */
  function FirstBar(s: string): nat {
    if s == "" || s[0] == '|' then 0 else 1 + FirstBar(s[1..])
  }

  lemma {:induction false} FirstBarAfter(a: string, x: string)
    requires '|' !in a
    ensures FirstBar(a + "|" + x) == |a|
  {
    var s := a + "|" + x;
    if a != "" {
      assert s[0] == a[0];
      assert s[1..] == a[1..] + "|" + x;
      FirstBarAfter(a[1..], x);
    }
  }

  lemma {:induction false} FirstBarSplits(a: string, x: string, b: string, y: string)
    requires '|' !in a && '|' !in b && a + "|" + x == b + "|" + y
    ensures a == b && x == y
  {
    FirstBarAfter(a, x);
    FirstBarAfter(b, y);
    assert a == (a + "|" + x)[..|a|] && b == (b + "|" + y)[..|b|];
    assert x == (a + "|" + x)[|a| + 1..] && y == (b + "|" + y)[|b| + 1..];
  }

  predicate Plain(r: Request) {
    '|' !in r.guild && '|' !in r.verb && '|' !in r.path
  }

  /** Requests whose guild, method and path are free of bars have the same scope only if they are the same request. */
  lemma {:induction false} ScopeIsInjective(r: Request, q: Request)
    requires Plain(r) && Plain(q) && Scope(r) == Scope(q)
    ensures r == q
  {
    var r2, q2 := r.path + "|" + r.key, q.path + "|" + q.key;
    var r1, q1 := r.verb + "|" + r2, q.verb + "|" + q2;
    assert Scope(r) == r.guild + "|" + r1;
    assert Scope(q) == q.guild + "|" + q1;
    FirstBarSplits(r.guild, r1, q.guild, q1);
    FirstBarSplits(r.verb, r2, q.verb, q2);
    FirstBarSplits(r.path, r.key, q.path, q.key);
  }

  /** Guilds whose names are free of bars never share a scope, whatever else is in their requests. */
  lemma {:induction false} GuildsApart(r: Request, q: Request)
    requires '|' !in r.guild && '|' !in q.guild && Scope(r) == Scope(q)
    ensures r.guild == q.guild
  {
    var r1, q1 := r.verb + "|" + r.path + "|" + r.key, q.verb + "|" + q.path + "|" + q.key;
    assert Scope(r) == r.guild + "|" + r1;
    assert Scope(q) == q.guild + "|" + q1;
    FirstBarSplits(r.guild, r1, q.guild, q1);
  }

  function Bars(s: string): nat {
    if s == "" then 0 else (if s[0] == '|' then 1 else 0) + Bars(s[1..])
  }

  lemma {:induction false} BarsConcat(a: string, b: string)
    ensures Bars(a + b) == Bars(a) + Bars(b)
  {
    if a == "" {
      assert a + b == b;
    } else {
      assert (a + b)[1..] == a[1..] + b;
      BarsConcat(a[1..], b);
    }
  }

  lemma {:induction false} NoBars(s: string)
    ensures Bars(s) == 0 <==> '|' !in s
  {
    if s != "" {
      NoBars(s[1..]);
      assert s == [s[0]] + s[1..];
    }
  }

  lemma {:induction false} ScopeBars(r: Request)
    ensures Bars(Scope(r)) == Bars(r.guild) + Bars(r.verb) + Bars(r.path) + Bars(r.key) + 3
  {
    assert Bars("|") == 1 by {
      assert "|"[1..] == "";
    }
    BarsConcat(r.guild, "|");
    BarsConcat(r.guild + "|", r.verb);
    BarsConcat(r.guild + "|" + r.verb, "|");
    BarsConcat(r.guild + "|" + r.verb + "|", r.path);
    BarsConcat(r.guild + "|" + r.verb + "|" + r.path, "|");
    BarsConcat(r.guild + "|" + r.verb + "|" + r.path + "|", r.key);
  }

  /** No other request, however it is made up, has the same scope. */
  ghost predicate OwnsScope(r: Request) {
    forall q: Request :: Scope(q) == Scope(r) ==> q == r
  }

  predicate BarFree(r: Request) {
    Plain(r) && '|' !in r.key
  }

  lemma {:induction false} BarFreeOwnsScope(r: Request, q: Request)
    requires BarFree(r) && Scope(q) == Scope(r)
    ensures q == r
  {
    ScopeBars(r);
    ScopeBars(q);
    NoBars(r.guild);
    NoBars(r.verb);
    NoBars(r.path);
    NoBars(r.key);
    NoBars(q.guild);
    NoBars(q.verb);
    NoBars(q.path);
    ScopeIsInjective(r, q);
  }

  /** A string with a bar, cut at its first bar. */
  lemma {:induction false} CutAtBar(s: string) returns (a: string, b: string)
    requires '|' in s
    ensures s == a + "|" + b
  {
    var i :| 0 <= i < |s| && s[i] == '|';
    a, b := s[..i], s[i + 1..];
  }

  /** Another request with the same scope: the bar in one part is read as the end of that part. */
  lemma {:induction false} BarLetsAnotherIn(r: Request) returns (q: Request)
    requires !BarFree(r)
    ensures q != r && Scope(q) == Scope(r)
  {
    if '|' in r.guild {
      var a, b := CutAtBar(r.guild);
      q := Request(a, b, r.verb + "|" + r.path, r.key);
      assert Scope(q) == a + "|" + b + "|" + r.verb + "|" + r.path + "|" + r.key;
      assert |q.guild| < |r.guild|;
    } else if '|' in r.verb {
      var a, b := CutAtBar(r.verb);
      q := Request(r.guild, a, b + "|" + r.path, r.key);
      assert Scope(q) == r.guild + "|" + a + "|" + b + "|" + r.path + "|" + r.key;
      assert |q.verb| < |r.verb|;
    } else if '|' in r.path {
      var a, b := CutAtBar(r.path);
      q := Request(r.guild, r.verb, a, b + "|" + r.key);
      assert Scope(q) == r.guild + "|" + r.verb + "|" + a + "|" + b + "|" + r.key;
      assert |q.path| < |r.path|;
    } else {
      var a, b := CutAtBar(r.key);
      q := Request(r.guild + "|" + r.verb, r.path, a, b);
      assert Scope(q) == r.guild + "|" + r.verb + "|" + r.path + "|" + a + "|" + b;
      assert |q.guild| > |r.guild|;
    }
  }

  /** A request is the only one with its scope exactly when none of its guild, method, path and key has a bar. */
  lemma {:induction false} OwnsScopeIff(r: Request)
    ensures OwnsScope(r) <==> BarFree(r)
  {
    if BarFree(r) {
      forall q: Request | Scope(q) == Scope(r) ensures q == r {
        BarFreeOwnsScope(r, q);
      }
    } else {
      var q := BarLetsAnotherIn(r);
    }
  }

  /** Two requests that the service can receive, of different guilds and for different routes, with one scope: a bid of any
      guild on any item, and a listing by a guild whose name has bars. */
  lemma {:induction false} ScopesCollide(guild: string, item: string, key: string)
    ensures
      var bid := "/items/" + item + "/bid";
      var r, q := Request(guild + "|" + "POST" + "|" + bid, "POST", "/items", key),
          Request(guild, "POST", bid, "POST|/items|" + key);
      r.guild != q.guild && Scope(r) == Scope(q)
  {
    var bid, list := "/items/" + item + "/bid", "POST" + "|" + "/items" + "|";
    assert list == "POST|/items|";
    var r, q := Request(guild + "|" + "POST" + "|" + bid, "POST", "/items", key), Request(guild, "POST", bid, list + key);
    assert |r.guild| > |q.guild|;
    SameScope(guild, "POST", bid, "POST", "/items", key);
  }

  lemma SameScope(guild: string, verb: string, path: string, verb': string, path': string, key: string)
    ensures Scope(Request(guild + "|" + verb + "|" + path, verb', path', key))
         == Scope(Request(guild, verb, path, verb' + "|" + path' + "|" + key))
  {
  }

  // ---------------------------------------------------------------- the store

  function Remember(entries: map<string, Response>, scope: string, resp: Response): map<string, Response> {
    if Succeeded(resp) then entries[scope := resp] else entries
  }

  /** The cache. Each method is one critical section under its mutex. */
  class IdempotencyStore {
    var entries: map<string, Response>

    constructor ()
      ensures entries == map[]
    {
      entries := map[];
    }

    method Lookup(r: Request) returns (prev: Option<Response>)
      ensures prev == if Scope(r) in entries then Some(entries[Scope(r)]) else None
    {
      var scope := Scope(r);
      if scope in entries {
        return Some(entries[scope]);
      }
      return None;
    }

    /** Only a response that reports success is kept. */
    method Record(r: Request, resp: Response)
      modifies this
      ensures entries == Remember(old(entries), Scope(r), resp)
      ensures 200 <= resp.status < 300 ==> entries == old(entries)[Scope(r) := resp]
      ensures resp.status < 200 || resp.status >= 300 ==> entries == old(entries)
    {
      if resp.status >= 200 && resp.status < 300 {
        entries := entries[Scope(r) := resp];
      }
    }

    /** One request handled alone; `next` is the answer the handler would give. A replay never reaches the handler. */
    method Serve(r: Request, next: Response) returns (resp: Response, applied: bool)
      modifies this
      ensures r.key == "" ==> resp == next && applied && entries == old(entries)
      ensures r.key != "" && Scope(r) in old(entries) ==>
          resp == old(entries)[Scope(r)] && !applied && entries == old(entries)
      ensures r.key != "" && Scope(r) !in old(entries) ==>
          resp == next && applied
          && entries == if 200 <= next.status < 300 then old(entries)[Scope(r) := next] else old(entries)
    {
      if r.key == "" {
        return next, true;
      }
      var prev := Lookup(r);
      if prev.Some? {
        return prev.value, false;
      }
      Record(r, next);
      return next, true;
    }
  }

  // ---------------------------------------------------------------- interleavings

  /** Where a request is between its lookup and its end. */
  datatype Phase = LookedUp(scope: string) | Answered(scope: string, resp: Response)

  /** `replayed` holds the responses that were answered from the cache, by request. */
  datatype System = System(entries: map<string, Response>, running: map<int, Phase>, seen: set<int>,
      replayed: map<int, Response>)

  /** The steps of concurrent requests that carry a key. `n` numbers the requests, each once. */
  datatype Step = Arrive(n: int, request: Request) | Apply(n: int, resp: Response) | Finish(n: int)

  predicate Enabled(y: System, st: Step) {
    match st
    case Arrive(n, r) => n !in y.seen && r.key != ""
    case Apply(n, resp) => n in y.running && y.running[n].LookedUp?
    case Finish(n) => n in y.running && y.running[n].Answered?
  }

  function Take(y: System, st: Step): System {
    if !Enabled(y, st) then y
    else
      match st
      case Arrive(n, r) =>
        if Scope(r) in y.entries then y.(seen := y.seen + {n}, replayed := y.replayed[n := y.entries[Scope(r)]])
        else y.(seen := y.seen + {n}, running := y.running[n := LookedUp(Scope(r))])
      case Apply(n, resp) => y.(running := y.running[n := Answered(y.running[n].scope, resp)])
      case Finish(n) =>
        y.(entries := Remember(y.entries, y.running[n].scope, y.running[n].resp), running := y.running - {n})
  }

  function After(steps: seq<Step>): System {
    if steps == [] then System(map[], map[], {}, map[]) else Take(After(steps[..|steps| - 1]), steps[|steps| - 1])
  }

  /** Every step was possible when it was taken. */
  predicate Runs(steps: seq<Step>) {
    steps != [] ==> Runs(steps[..|steps| - 1]) && Enabled(After(steps[..|steps| - 1]), steps[|steps| - 1])
  }

  lemma RunsPush(steps: seq<Step>, st: Step)
    requires Runs(steps) && Enabled(After(steps), st)
    ensures Runs(steps + [st]) && After(steps + [st]) == Take(After(steps), st)
  {
    assert (steps + [st])[..|steps|] == steps;
  }

  lemma {:induction false} RunsPrefix(steps: seq<Step>, i: nat)
    requires Runs(steps) && i <= |steps|
    ensures Runs(steps[..i])
    ensures i < |steps| ==> Enabled(After(steps[..i]), steps[i])
    decreases |steps|
  {
    if i == |steps| {
      assert steps[..i] == steps;
    } else {
      var front := steps[..|steps| - 1];
      RunsPrefix(front, i);
      assert front[..i] == steps[..i];
    }
  }

  /** Step `i` is an arrival that finds nothing recorded for its scope, and so will be applied. */
  ghost predicate Misses(steps: seq<Step>, i: int, scope: string) {
    && 0 <= i < |steps| && steps[i].Arrive? && Scope(steps[i].request) == scope
    && scope !in After(steps[..i]).entries
  }

  /** Step `i` records `resp` for the scope. */
  ghost predicate Records(steps: seq<Step>, i: int, scope: string, resp: Response) {
    && 0 <= i < |steps| && steps[i].Finish? && Succeeded(resp)
    && steps[i].n in After(steps[..i]).running
    && After(steps[..i]).running[steps[i].n] == Answered(scope, resp)
  }

  /** A recorded scope stays recorded. */
  lemma {:induction false} EntriesStay(steps: seq<Step>, i: nat)
    requires i <= |steps|
    ensures After(steps[..i]).entries.Keys <= After(steps).entries.Keys
    decreases |steps|
  {
    if i == |steps| {
      assert steps[..i] == steps;
    } else {
      var front := steps[..|steps| - 1];
      assert front[..i] == steps[..i];
      EntriesStay(front, i);
    }
  }

  /** No request that looks up after a success was recorded for its scope is applied: every request that is applied
      looked up before the first record. */
  lemma {:induction false} NothingAppliedAfterRecord(steps: seq<Step>, i: nat, j: nat, scope: string, resp: Response)
    requires Runs(steps) && Records(steps, i, scope, resp) && Misses(steps, j, scope)
    ensures j < i
  {
    if i < j {
      RunsPrefix(steps, i + 1);
      assert steps[..i + 1][..i] == steps[..i];
      assert scope in After(steps[..i + 1]).entries;
      assert steps[..j][..i + 1] == steps[..i + 1];
      EntriesStay(steps[..j], i + 1);
    }
  }

  /** A request of this scope ends at step `i` with an answer of this status. */
  ghost predicate EndsWith(steps: seq<Step>, i: int, scope: string, status: int) {
    && 0 <= i < |steps| && steps[i].Finish? && steps[i].n in After(steps[..i]).running
    && var p := After(steps[..i]).running[steps[i].n];
    p.Answered? && p.scope == scope && p.resp.status == status
  }

  /** After a request was answered with 2xx, every later request of its scope is answered from the cache. */
  lemma {:induction false} SuccessStopsRetries(steps: seq<Step>, i: nat, m: nat, scope: string, status: int)
    requires Runs(steps) && EndsWith(steps, i, scope, status) && 200 <= status < 300
    requires i < m < |steps| && steps[m].Arrive? && Scope(steps[m].request) == scope
    ensures scope in After(steps[..m]).entries && !Misses(steps, m, scope)
    ensures After(steps[..m + 1]).replayed == After(steps[..m]).replayed[steps[m].n := After(steps[..m]).entries[scope]]
  {
    if Misses(steps, m, scope) {
      NothingAppliedAfterRecord(steps, i, m, scope, After(steps[..i]).running[steps[i].n].resp);
    }
    RunsPrefix(steps, m);
    assert steps[..m + 1][..m] == steps[..m];
  }

  /** An answer with any other status is not kept: what the cache holds stays as it was. */
  lemma {:induction false} FailuresAreNotKept(steps: seq<Step>, i: nat, scope: string, status: int)
    requires Runs(steps) && EndsWith(steps, i, scope, status) && (status < 200 || status >= 300)
    ensures After(steps[..i + 1]).entries == After(steps[..i]).entries
  {
    RunsPrefix(steps, i);
    assert steps[..i + 1][..i] == steps[..i];
  }

  /** What a running request went through: it arrived and found nothing, and if it has an answer, its handler ran. */
  ghost predicate CameFrom(steps: seq<Step>, n: int, p: Phase) {
    && (exists m :: Misses(steps, m, p.scope) && steps[m].n == n)
    && (p.Answered? ==> exists a :: 0 <= a < |steps| && steps[a] == Apply(n, p.resp))
  }

  lemma {:induction false} CameFromLater(steps: seq<Step>, n: int, p: Phase)
    requires steps != [] && CameFrom(steps[..|steps| - 1], n, p)
    ensures CameFrom(steps, n, p)
  {
    var front := steps[..|steps| - 1];
    var m :| Misses(front, m, p.scope) && front[m].n == n;
    assert front[..m] == steps[..m];
    assert Misses(steps, m, p.scope) && steps[m].n == n;
    if p.Answered? {
      var a :| 0 <= a < |front| && front[a] == Apply(n, p.resp);
      assert steps[a] == Apply(n, p.resp);
    }
  }

  lemma {:induction false} RunningAreSeen(steps: seq<Step>)
    ensures After(steps).running.Keys <= After(steps).seen
  {
    if steps != [] {
      RunningAreSeen(steps[..|steps| - 1]);
    }
  }

  lemma {:induction false} RunningCameFrom(steps: seq<Step>, n: int)
    requires Runs(steps) && n in After(steps).running
    ensures CameFrom(steps, n, After(steps).running[n])
  {
    var front, st := steps[..|steps| - 1], steps[|steps| - 1];
    var i := |front|;
    var y := After(front);
    RunningAreSeen(front);
    if n in y.running {
      RunningCameFrom(front, n);
      CameFromLater(steps, n, y.running[n]);
    }
    if st.n == n {
      if st.Arrive? {
        assert Misses(steps, i, Scope(st.request)) && steps[i].n == n;
      } else {
        assert steps[i] == st;
      }
    }
  }

  /** Whatever the cache holds for a scope is the successful answer of a request of that scope
      that was really applied and then recorded. */
  lemma {:induction false} EntriesAreGenuine(steps: seq<Step>, scope: string) returns (i: nat)
    requires Runs(steps) && scope in After(steps).entries
    ensures Recorded(steps, i, scope, After(steps).entries[scope])
  {
    var front, st := steps[..|steps| - 1], steps[|steps| - 1];
    var y, resp := After(front), After(steps).entries[scope];
    if st.Finish? && y.running[st.n] == Answered(scope, resp) && Succeeded(resp) {
      i := |front|;
      RunningCameFrom(front, st.n);
      var a :| 0 <= a < |front| && front[a] == Apply(st.n, resp);
      assert steps[a] == Apply(steps[i].n, resp);
    } else {
      i := EntriesAreGenuine(front, scope);
      RecordedLater(steps, |front|, i, scope, resp);
    }
  }

  /** Step `i` records `resp` for the scope, and `resp` is what the handler answered to that request before. */
  ghost predicate Recorded(steps: seq<Step>, i: int, scope: string, resp: Response) {
    Records(steps, i, scope, resp) && exists a :: 0 <= a < i && steps[a] == Apply(steps[i].n, resp)
  }

  lemma {:induction false} RecordedLater(steps: seq<Step>, m: nat, i: int, scope: string, resp: Response)
    requires m <= |steps| && Recorded(steps[..m], i, scope, resp)
    ensures Recorded(steps, i, scope, resp)
  {
    assert steps[..m][..i] == steps[..i];
    var a :| 0 <= a < i && steps[..m][a] == Apply(steps[..m][i].n, resp);
    assert steps[a] == Apply(steps[i].n, resp);
  }

  /** Step `m` is an arrival of request `n` that is answered from the cache with `resp`. */
  ghost predicate Hits(steps: seq<Step>, m: int, n: int, resp: Response) {
    && 0 <= m < |steps| && steps[m].Arrive? && steps[m].n == n
    && var scope := Scope(steps[m].request);
    scope in After(steps[..m]).entries && After(steps[..m]).entries[scope] == resp
  }

  lemma {:induction false} ReplayedHit(steps: seq<Step>, n: int) returns (m: nat)
    requires Runs(steps) && n in After(steps).replayed
    ensures Hits(steps, m, n, After(steps).replayed[n])
  {
    var front, st := steps[..|steps| - 1], steps[|steps| - 1];
    if st.Arrive? && st.n == n && Scope(st.request) in After(front).entries {
      m := |front|;
    } else {
      m := ReplayedHit(front, n);
      assert front[..m] == steps[..m];
    }
  }

  /** Whatever a request is answered from the cache is the successful answer of a request of the same scope that was really
      applied, and recorded before the replayed request looked up. */
  lemma {:induction false} ReplaysAreGenuine(steps: seq<Step>, n: int) returns (m: nat, i: nat)
    requires Runs(steps) && n in After(steps).replayed
    ensures i < m && Hits(steps, m, n, After(steps).replayed[n])
    ensures Recorded(steps, i, Scope(steps[m].request), After(steps).replayed[n])
  {
    m := ReplayedHit(steps, n);
    RunsPrefix(steps, m);
    var scope, resp := Scope(steps[m].request), After(steps).replayed[n];
    i := EntriesAreGenuine(steps[..m], scope);
    RecordedLater(steps, m, i, scope, resp);
  }

  ghost predicate RecordedBefore(steps: seq<Step>, m: int, scope: string) {
    exists i, resp :: i < m && Records(steps, i, scope, resp)
  }

  /** A retry is applied again exactly when no success of its scope was recorded before it looked up. */
  lemma {:induction false} MissesIff(steps: seq<Step>, m: nat)
    requires Runs(steps) && m < |steps| && steps[m].Arrive?
    ensures Misses(steps, m, Scope(steps[m].request)) <==> !RecordedBefore(steps, m, Scope(steps[m].request))
  {
    var scope := Scope(steps[m].request);
    if Misses(steps, m, scope) {
      if RecordedBefore(steps, m, scope) {
        var i, resp :| i < m && Records(steps, i, scope, resp);
        NothingAppliedAfterRecord(steps, i, m, scope, resp);
      }
    } else {
      RunsPrefix(steps, m);
      var i := EntriesAreGenuine(steps[..m], scope);
      RecordedLater(steps, m, i, scope, After(steps[..m]).entries[scope]);
    }
  }

  /** Two successes are recorded for one scope only if the later one had looked up before the earlier was recorded,
      that is, if the two requests overlapped. */
  lemma {:induction false} TwoRecordsOverlap(steps: seq<Step>, i: nat, j: nat, scope: string, resp: Response,
                                             resp': Response)
      returns (m: nat)
    requires Runs(steps) && i < j && Records(steps, i, scope, resp) && Records(steps, j, scope, resp')
    ensures m < i && Misses(steps, m, scope) && steps[m].n == steps[j].n
  {
    RunsPrefix(steps, j);
    RunningCameFrom(steps[..j], steps[j].n);
    m :| Misses(steps[..j], m, scope) && steps[..j][m].n == steps[j].n;
    assert steps[..j][..m] == steps[..m];
    NothingAppliedAfterRecord(steps, i, m, scope, resp);
  }

  /** Two copies of one request that overlap are both applied: the key does not prevent it. */
  lemma OverlappingRetriesBothApply(r: Request)
    requires r.key != ""
    ensures
      var ok := Response(200, "");
      var steps := [Arrive(1, r), Arrive(2, r), Apply(1, ok), Apply(2, ok), Finish(1), Finish(2)];
      Runs(steps) && Records(steps, 4, Scope(r), ok) && Records(steps, 5, Scope(r), ok)
  {
    var ok, k := Response(200, ""), Scope(r);
    var s1 := [] + [Arrive(1, r)];
    RunsPush([], Arrive(1, r));
    var s2 := s1 + [Arrive(2, r)];
    RunsPush(s1, Arrive(2, r));
    var s3 := s2 + [Apply(1, ok)];
    RunsPush(s2, Apply(1, ok));
    var s4 := s3 + [Apply(2, ok)];
    RunsPush(s3, Apply(2, ok));
    var s5 := s4 + [Finish(1)];
    RunsPush(s4, Finish(1));
    var s6 := s5 + [Finish(2)];
    RunsPush(s5, Finish(2));
    assert s6[..5] == s5 && s6[..4] == s4;
    assert s6 == [Arrive(1, r), Arrive(2, r), Apply(1, ok), Apply(2, ok), Finish(1), Finish(2)];
  }
}
