/** The children of a race: which can be driven, what each comes to, what settles the race,
    and what the session leaves behind when the race is settled. */
module Races {
  import opened Text
  import opened Ir
  import opened Kernel
  import opened Lanes
  import opened Journal
  import opened RunPlan
  import opened PlanIndex
  import opened Engine
  import opened EngineRecord
  import opened EngineInvariant
  import opened DriverPlan
  import opened Replaying
  import opened Settling

  const EmptyRace := Fail(HostError("race([]) called with empty expression list", "RuntimeBugError"))

  /** The children of a race. Only the plans of those that end need be what a run of them does. */
  ghost predicate Runners(c: Id, branches: seq<Node>, first: nat, env: Env, plans: seq<Plan>)
  {
    |plans| == |branches| && forall i :: 0 <= i < |plans| ==>
      plans[i].id == ChildId(c, first + i) && plans[i].expr == branches[i] && plans[i].env == env
  }

  lemma {:induction false} RunnerCount(c: Id, branches: seq<Node>, first: nat, env: Env, plans: seq<Plan>)
    requires Runners(c, branches, first, env, plans)
    ensures |plans| == |branches|
  {
  }

  lemma {:induction false} RunnerAt(c: Id, branches: seq<Node>, first: nat, env: Env, plans: seq<Plan>, i: nat)
    requires Runners(c, branches, first, env, plans) && i < |plans|
    ensures plans[i].id == ChildId(c, first + i)
    ensures i < |branches| && plans[i].expr == branches[i] && plans[i].env == env
  {
    hide ChildId;
  }

  /** The tree of a child that runs; one that was cancelled is alone. */
  ghost function TreeOf(w: World, p: Plan): (ps: Plans)
    ensures p.id in ps && ps[p.id] == p
  {
    if Valid(w, p) then
      RootIndexed(w, IndexOf(w, p), p);
      IndexOf(w, p)
    else map[p.id := p]
  }

  /** The session has recorded nothing of the coroutine `c`. */
  ghost predicate Unstarted(r: Record, c: Id)
  {
    Untouched(r.journal, c) && Proj(r.stream, c) == Proj(r.stored, c)
  }

  /** A child that an earlier session has cancelled, or whose tree has stored what fits. */
  ghost predicate Startable(w: World, r: Record, p: Plan)
  {
    CloseOf(r.stored, p.id) == Some(Cancelled) || (Valid(w, p) && TreeFits(TreeOf(w, p), r))
  }

  /** A child that the session has driven to its end. */
  ghost predicate RanToEnd(w: World, r: Record, p: Plan)
  {
    if CloseOf(r.stored, p.id) == Some(Cancelled) then CloseOf(r.stream, p.id) == Some(Cancelled)
    else Valid(w, p) && forall d :: d in TreeOf(w, p) ==> Proj(r.stream, d) == Planned(TreeOf(w, p), d)
  }

  // ----- driving one child -----

  lemma {:induction false} RunnerStarts(w: World, r: Record, p: Plan)
    requires Startable(w, r, p) && Unstarted(r, p.id)
    ensures Untouched(r.journal, p.id)
    ensures CloseOf(r.stored, p.id) == Some(Cancelled) || (Indexed(w, TreeOf(w, p), p) && TreeFits(TreeOf(w, p), r))
  {
    hide Valid, TreeFits, CloseOf, Untouched;
  }

  lemma {:induction false} RunnerEnds(w: World, r: Record, r': Record, p: Plan)
    requires Startable(w, r, p) && Unstarted(r, p.id) && r'.stored == r.stored
    requires CloseOf(r.stored, p.id) == Some(Cancelled) ==> r'.stream == r.stream
    requires CloseOf(r.stored, p.id) != Some(Cancelled) ==> Complete(TreeOf(w, p), r'.stream, p)
    ensures RanToEnd(w, r', p)
  {
    hide Valid, TreeFits, Untouched, Subplans;
    YieldsOfProj(r.stored, p.id);
    YieldsOfProj(r.stream, p.id);
    if CloseOf(r.stored, p.id) != Some(Cancelled) {
      var ps := TreeOf(w, p);
      forall d | d in ps ensures Proj(r'.stream, d) == Planned(ps, d) {
        assert ps[d] in Subplans(p) && ps[d].id == d;
      }
    }
  }

  /** What one child records does not touch another. */
  lemma {:induction false} OtherRunner(w: World, r: Record, r': Record, c: Id, m: nat, n: nat, p: Plan, q: Plan)
    requires p.id == ChildId(c, m) && q.id == ChildId(c, n) && m != n
    requires OnlyBelow(TreeOf(w, p), r, r', p.id)
    ensures Unstarted(r, q.id) ==> Unstarted(r', q.id)
    ensures Startable(w, r, q) ==> Startable(w, r', q)
    ensures RanToEnd(w, r, q) ==> RanToEnd(w, r', q)
  {
    hide Valid, CloseOf, FitsAt, SameAt, ChildId, TreeOf, Planned, Below, Proj;
    forall d | Below(d, q.id) ensures SameAt(r, r', d) {
      if Below(d, p.id) {
        SiblingsApart(d, c, m, n);
      }
    }
    SameBelow(w, r, r', q);
  }

  lemma {:induction false} SameBelow(w: World, r: Record, r': Record, q: Plan)
    requires r'.stored == r.stored && forall d :: Below(d, q.id) ==> SameAt(r, r', d)
    ensures Unstarted(r, q.id) ==> Unstarted(r', q.id)
    ensures Startable(w, r, q) ==> Startable(w, r', q)
    ensures RanToEnd(w, r, q) ==> RanToEnd(w, r', q)
  {
    hide Valid, CloseOf, FitsAt, SameAt, TreeOf, Planned, Proj;
    forall d | Below(d, q.id)
      ensures Proj(r'.journal, d) == Proj(r.journal, d) && Proj(r'.stream, d) == Proj(r.stream, d)
    {
      SameThere(r, r', d);
    }
    BelowItself(q.id);
    YieldsOfProj(r.stream, q.id);
    YieldsOfProj(r'.stream, q.id);
    if Valid(w, q) {
      var ps := TreeOf(w, q);
      forall d | d in ps
        ensures Below(d, q.id) && (FitsAt(ps, r, d) ==> FitsAt(ps, r', d))
      {
        TreeBelow(w, q, d);
        if FitsAt(ps, r, d) {
          SameFits(ps, r, r', d);
        }
      }
    }
  }

  lemma {:induction false} BelowItself(c: Id)
    ensures Below(c, c)
  {
  }

  lemma {:induction false} SameThere(r: Record, r': Record, d: Id)
    requires SameAt(r, r', d)
    ensures Proj(r'.journal, d) == Proj(r.journal, d) && Proj(r'.stream, d) == Proj(r.stream, d)
  {
  }

  lemma {:induction false} TreeBelow(w: World, q: Plan, d: Id)
    requires Valid(w, q) && d in TreeOf(w, q)
    ensures Below(d, q.id)
  {
    hide Valid;
    var ps := TreeOf(w, q);
    SubplansValid(w, q, ps[d]);
    IndexedAt(w, ps, q, d);
  }

  // ----- what settles the race -----

  predicate IsOrder(order: seq<nat>, n: nat)
  {
    && (forall i :: 0 <= i < |order| ==> order[i] < n)
    && (forall i, j :: 0 <= i < j < |order| ==> order[i] != order[j])
  }

  /** Each of `n` children is in one of the two, once. */
  predicate IsSplit(ended: seq<nat>, unended: seq<nat>, n: nat)
  {
    && IsOrder(ended, n) && IsOrder(unended, n) && |ended| + |unended| == n
    && forall i, j :: 0 <= i < |ended| && 0 <= j < |unended| ==> ended[i] != unended[j]
  }

  /** What the children come to when they are driven. */
  function Comes(stored: seq<Event>, plans: seq<Plan>): (results: seq<EventResult>)
    ensures |results| == |plans|
    ensures forall i :: 0 <= i < |plans| ==> results[i] == Completed(stored, plans[i].id, plans[i].result)
  {
    ReplayedResults(stored, seq(|plans|, i requires 0 <= i < |plans| => plans[i].id),
                    seq(|plans|, i requires 0 <= i < |plans| => plans[i].result))
  }

  function Arrivals(order: seq<nat>, results: seq<EventResult>): (arrivals: seq<Completion>)
    requires IsOrder(order, |results|)
    ensures |arrivals| == |order|
    ensures forall i :: 0 <= i < |order| ==> arrivals[i] == Completion(order[i], results[order[i]])
  {
    seq(|order|, i requires 0 <= i < |order| => Completion(order[i], results[order[i]]))
  }

  /** The race came to `settled` with the child that was the first `k`-th to end, no sooner. */
  ghost predicate SettledBy(settled: Option<Answer>, ended: seq<nat>, results: seq<EventResult>, k: nat)
  {
    && IsOrder(ended, |results|) && k <= |ended|
    && settled == RaceAfter(|results|, Arrivals(ended[..k], results)).settled
    && (k > 0 ==> RaceAfter(|results|, Arrivals(ended[..k - 1], results)).settled.None?)
    && (settled.None? ==> k == |ended|)
  }

  lemma {:induction false} NoArrivals(order: seq<nat>, results: seq<EventResult>)
    requires IsOrder(order, |results|)
    ensures RaceAfter(|results|, Arrivals(order[..0], results)) == RaceState(map[], false, None)
  {
  }

  lemma {:induction false} ArrivalsNext(order: seq<nat>, results: seq<EventResult>, k: nat)
    requires IsOrder(order, |results|) && k < |order|
    ensures Arrivals(order[..k + 1], results)
         == Arrivals(order[..k], results) + [Completion(order[k], results[order[k]])]
    ensures var n := |results|;
            RaceAfter(n, Arrivals(order[..k + 1], results)) ==
            RaceNext(RaceAfter(n, Arrivals(order[..k], results)), Completion(order[k], results[order[k]]), n)
  {
    var now, before := Arrivals(order[..k + 1], results), Arrivals(order[..k], results);
    assert now == before + [Completion(order[k], results[order[k]])];
    assert now[..k] == before;
  }

  /** Once settled, a race stays so. */
  lemma {:induction false} SettledStays(n: nat, order: seq<nat>, results: seq<EventResult>, k: nat)
    requires IsOrder(order, |results|) && n == |results| && k <= |order|
    requires k == |order| || RaceAfter(n, Arrivals(order[..k], results)).settled.Some?
    ensures RaceAfter(n, Arrivals(order[..k], results)).settled == RaceAfter(n, Arrivals(order, results)).settled
    decreases |order| - k
  {
    if k == |order| {
      assert order[..k] == order;
    } else {
      ArrivalsNext(order, results, k);
      SettledStays(n, order, results, k + 1);
    }
  }

  lemma {:induction false} WonAgain(ended: seq<nat>, results: seq<EventResult>, winner: nat, v: Node)
    requires IsOrder(ended, |results|) && winner in ended && results[winner] == OkResult(v)
    requires forall i :: i in ended && results[i].OkResult? ==> results[i].value == v
    ensures RaceAfter(|results|, Arrivals(ended, results)).settled == Some(Ok(v))
  {
    hide RaceAfter, FirstOk;
    var order := Arrivals(ended, results);
    var i :| 0 <= i < |ended| && ended[i] == winner;
    assert order[i].result.OkResult?;
    RaceWon(|results|, order);
    var j := FirstOkAt(order);
    assert ended[j] in ended;
  }

  /** A race without a winner is settled only when every child has failed. */
  lemma {:induction false} AllFailed(n: nat, order: seq<Completion>)
    requires |order| <= n && |RaceAfter(n, order).errors| == |order|
    ensures forall i :: 0 <= i < |order| ==> order[i].result.ErrorResult?
    decreases |order|
  {
    if order != [] {
      var m := |order| - 1;
      RaceSoFar(n, order[..m]);
      AllFailed(n, order[..m]);
      assert forall i :: 0 <= i < m ==> order[..m][i] == order[i];
    }
  }

  lemma {:induction false} LostRace(n: nat, order: seq<Completion>)
    requires |order| <= n && RaceAfter(n, order).settled.Some? && FirstOk(order).None?
    ensures |order| == n && forall i :: 0 <= i < n ==> order[i].result.ErrorResult?
  {
    RaceSoFar(n, order);
    var m := n - 1;
    if order != [] {
      RaceSoFar(n, order[..m]);
      assert RaceAfter(n, order[..m]).settled.None?;
      AllFailed(n, order);
    }
  }

  // ----- halting the losers -----

  /** The children that are halted write their Closes. */
  function HaltAll(r: Record, c: Id, first: nat, losers: seq<nat>): (r': Record)
    ensures r'.stored == r.stored
  {
    if losers == [] then r
    else
      var m := |losers| - 1;
      RecordClose(HaltAll(r, c, first, losers[..m]), ChildId(c, first + losers[m]), Cancelled)
  }

  lemma {:induction false} HaltOthers(r: Record, c: Id, first: nat, losers: seq<nat>, d: Id)
    requires forall j :: 0 <= j < |losers| ==> d != ChildId(c, first + losers[j])
    ensures Proj(HaltAll(r, c, first, losers).stream, d) == Proj(r.stream, d)
  {
    hide Proj, CloseOf, ChildId;
    if losers != [] {
      var m := |losers| - 1;
      assert forall j :: 0 <= j < m ==> losers[..m][j] == losers[j];
      HaltOthers(r, c, first, losers[..m], d);
      ProjAppend(HaltAll(r, c, first, losers[..m]).stream, Close(ChildId(c, first + losers[m]), Cancelled), d);
    }
  }

  /** A halted child is cancelled in the stream, unless an earlier session has closed it. */
  lemma {:induction false} HaltedClose(r: Record, c: Id, first: nat, losers: seq<nat>, i: nat)
    requires i < |losers| && forall j, k :: 0 <= j < k < |losers| ==> losers[j] != losers[k]
    requires Proj(r.stream, ChildId(c, first + losers[i])) == Proj(r.stored, ChildId(c, first + losers[i]))
    ensures var d := ChildId(c, first + losers[i]);
            CloseOf(HaltAll(r, c, first, losers).stream, d) ==
            if CloseOf(r.stored, d).None? then Some(Cancelled) else CloseOf(r.stored, d)
  {
    hide Proj, CloseOf, ChildId;
    var m, d := |losers| - 1, ChildId(c, first + losers[i]);
    var before := HaltAll(r, c, first, losers[..m]);
    ChildrenApart(c, first, losers, m);
    if i < m {
      HaltedClose(r, c, first, losers[..m], i);
      CloseNext(before.stream, Close(ChildId(c, first + losers[m]), Cancelled), d);
    } else {
      HaltOthers(r, c, first, losers[..m], d);
      YieldsOfProj(before.stream, d);
      YieldsOfProj(r.stored, d);
      CloseNext(before.stream, Close(d, Cancelled), d);
    }
  }

  lemma {:induction false} ChildrenApart(c: Id, first: nat, losers: seq<nat>, m: nat)
    requires m < |losers| && forall j, k :: 0 <= j < k < |losers| ==> losers[j] != losers[k]
    ensures forall j :: 0 <= j < m ==> ChildId(c, first + losers[j]) != ChildId(c, first + losers[m])
  {
    hide ChildId;
    forall j | 0 <= j < m ensures ChildId(c, first + losers[j]) != ChildId(c, first + losers[m]) {
      SameChild(c, first + losers[j], first + losers[m]);
    }
  }

  lemma {:induction false} SameChild(c: Id, m: nat, n: nat)
    requires m != n
    ensures ChildId(c, m) != ChildId(c, n)
  {
    hide ChildId, Below;
    if ChildId(c, m) == ChildId(c, n) {
      BelowItself(ChildId(c, m));
      SiblingsApart(ChildId(c, m), c, m, n);
    }
  }

  lemma {:induction false} CloseNext(events: seq<Event>, e: Event, c: Id)
    ensures CloseOf(events + [e], c) == if e.Close? && e.co == c then Some(e.result) else CloseOf(events, c)
  {
    assert (events + [e])[..|events|] == events;
  }

  /** The halted children do not touch what the others have done. */
  lemma {:induction false} EndedAfterHalts(w: World, r: Record, c: Id, first: nat, losers: seq<nat>, m: nat, p: Plan)
    requires RanToEnd(w, r, p) && p.id == ChildId(c, m)
    requires forall j :: 0 <= j < |losers| ==> first + losers[j] != m
    ensures RanToEnd(w, HaltAll(r, c, first, losers), p)
  {
    hide Valid, CloseOf, Planned, Proj, TreeOf, ChildId, HaltAll, Below;
    var r' := HaltAll(r, c, first, losers);
    forall d | Below(d, p.id) ensures Proj(r'.stream, d) == Proj(r.stream, d) {
      forall j | 0 <= j < |losers| ensures d != ChildId(c, first + losers[j]) {
        if d == ChildId(c, first + losers[j]) {
          BelowItself(d);
          SiblingsApart(d, c, m, first + losers[j]);
        }
      }
      HaltOthers(r, c, first, losers, d);
    }
    BelowItself(p.id);
    YieldsOfProj(r.stream, p.id);
    YieldsOfProj(r'.stream, p.id);
    if Valid(w, p) {
      forall d | d in TreeOf(w, p) ensures Below(d, p.id) {
        TreeBelow(w, p, d);
      }
    }
  }

  // ----- the next session -----

  lemma {:induction false} AllUnstarted(events: seq<Event>, plans: seq<Plan>)
    ensures forall i :: 0 <= i < |plans| ==> Unstarted(FreshRecord(events), plans[i].id)
  {
    hide Below;
  }

  /** A child that has ended can be driven again and comes to the same. */
  lemma {:induction false} EndsAgain(w: World, r: Record, p: Plan)
    requires RanToEnd(w, r, p)
    ensures Startable(w, FreshRecord(r.stream), p)
    ensures Completed(r.stream, p.id, p.result) == Completed(r.stored, p.id, p.result)
  {
    if CloseOf(r.stored, p.id) != Some(Cancelled) {
      var ps := TreeOf(w, p);
      FitsAgain(ps, r.stream);
      RootNotCancelled(w, ps, p, FreshRecord(r.stream));
    }
  }

  lemma {:induction false} FitsAgain(ps: Plans, events: seq<Event>)
    requires forall d :: d in ps ==> Proj(events, d) == Planned(ps, d)
    ensures TreeFits(ps, FreshRecord(events))
  {
    hide Proj, Planned, YieldsOf;
    forall d | d in ps ensures FitsAt(ps, FreshRecord(events), d) {
      Nothing(d);
    }
  }

  lemma {:induction false} Nothing(d: Id)
    ensures Proj([], d) == [] && YieldsOf([], d) == []
  {
  }

  lemma {:induction false} SplitCovers(ended: seq<nat>, unended: seq<nat>, n: nat, i: nat)
    requires IsSplit(ended, unended, n) && i < n
    ensures i in ended || i in unended
  {
    var order := ended + unended;
    assert IsOrder(order, n);
    var x := Covers(Arrivals(order, seq(n, _ => Cancelled)), n, i);
    assert order[x] == i;
  }

  /** In the stream of a settled race each child can be driven: one that has ended comes to
      the same again, another one is cancelled. */
  lemma {:induction false} LeftAt(w: World, r: Record, c: Id, branches: seq<Node>, first: nat, env: Env,
                                  ended: seq<nat>, losers: seq<nat>, plans: seq<Plan>, i: nat)
    requires Runners(c, branches, first, env, plans) && IsSplit(ended, losers, |plans|) && i < |plans|
    requires CloseOf(r.stored, plans[i].id) in {None, Some(Cancelled)}
    requires i in ended ==> RanToEnd(w, r, plans[i])
    requires i in losers ==> Unstarted(r, plans[i].id)
    ensures var events := HaltAll(r, c, first, losers).stream;
            && Startable(w, FreshRecord(events), plans[i])
            && Comes(events, plans)[i] == if i in ended then Comes(r.stored, plans)[i] else Cancelled
  {
    hide RanToEnd, CloseOf, Startable, ChildId, HaltAll, Untouched, Proj, Runners;
    RunnerAt(c, branches, first, env, plans, i);
    if i in ended {
      EndedAfterHalts(w, r, c, first, losers, first + i, plans[i]);
      EndsAgain(w, HaltAll(r, c, first, losers), plans[i]);
    } else {
      SplitCovers(ended, losers, |plans|, i);
      var x :| 0 <= x < |losers| && losers[x] == i;
      HaltedClose(r, c, first, losers, x);
      CancelledStarts(w, HaltAll(r, c, first, losers).stream, plans[i]);
    }
  }

  lemma {:induction false} CancelledStarts(w: World, events: seq<Event>, p: Plan)
    requires CloseOf(events, p.id) == Some(Cancelled)
    ensures Startable(w, FreshRecord(events), p)
  {
    hide CloseOf, TreeFits, TreeOf, Valid;
  }

  lemma {:induction false} SplitAt(ended: seq<nat>, unended: seq<nat>, n: nat, k: nat)
    requires IsSplit(ended, unended, n) && k <= |ended|
    ensures IsSplit(ended[..k], ended[k..] + unended, n)
  {
  }

  lemma {:induction false} LeftBehind(w: World, r: Record, c: Id, branches: seq<Node>, first: nat, env: Env,
                                      ended: seq<nat>, unended: seq<nat>, k: nat, plans: seq<Plan>)
    requires Runners(c, branches, first, env, plans) && IsSplit(ended, unended, |plans|) && k <= |ended|
    requires forall i :: 0 <= i < |plans| ==> CloseOf(r.stored, plans[i].id) in {None, Some(Cancelled)}
    requires forall j :: 0 <= j < k ==> RanToEnd(w, r, plans[ended[j]])
    requires forall j :: k <= j < |ended| ==> Unstarted(r, plans[ended[j]].id)
    requires forall j :: 0 <= j < |unended| ==> Unstarted(r, plans[unended[j]].id)
    ensures var events := HaltAll(r, c, first, ended[k..] + unended).stream;
            && (forall i :: 0 <= i < |plans| ==> Startable(w, FreshRecord(events), plans[i]))
            && (forall i :: 0 <= i < |plans| ==>
                  Comes(events, plans)[i] == if i in ended[..k] then Comes(r.stored, plans)[i] else Cancelled)
  {
    hide RanToEnd, CloseOf, Startable, HaltAll, Unstarted, Runners, IsSplit;
    var losers := ended[k..] + unended;
    SplitAt(ended, unended, |plans|, k);
    var events := HaltAll(r, c, first, losers).stream;
    forall i | 0 <= i < |plans|
      ensures Startable(w, FreshRecord(events), plans[i])
      ensures Comes(events, plans)[i] == if i in ended[..k] then Comes(r.stored, plans)[i] else Cancelled
    {
      LeftAt(w, r, c, branches, first, env, ended[..k], losers, plans, i);
    }
  }

  /** With the children that have ended coming to the same and the others to nothing, the race
      is settled as before, in whatever order the children complete now. */
  lemma {:induction false} SettledAgain(settled: Option<Answer>, ended: seq<nat>, order: seq<nat>,
                                        results: seq<EventResult>, results': seq<EventResult>, k: nat)
    requires SettledBy(settled, ended, results, k) && settled.Some?
    requires |results'| == |results| && IsSplit(order, [], |results|)
    requires forall i :: 0 <= i < |results| ==> results'[i] == if i in ended[..k] then results[i] else Cancelled
    ensures RaceAfter(|results|, Arrivals(order, results')).settled == settled
  {
    hide RaceAfter, FirstOk;
    var n := |results|;
    var before, now := Arrivals(ended[..k], results), Arrivals(order, results');
    DistinctSize(before, n);
    RaceSoFar(n, before);
    if FirstOk(before).Some? {
      var x := FirstOkAt(before);
      LastWins(ended, results, k, x);
      var y := Covers(now, n, ended[x]);
      assert now[y].result.OkResult?;
      RaceWon(n, now);
      var z := FirstOkAt(now);
      var x' :| 0 <= x' < k && ended[x'] == order[z];
      LastWins(ended, results, k, x');
    } else {
      LostRace(n, before);
      forall i | 0 <= i < n ensures results'[i] == results[i] && results[i].ErrorResult? {
        var x := Covers(before, n, i);
        assert ended[..k][x] == i;
      }
      if n > 0 {
        RaceLost(n, before, results);
        RaceLost(n, now, results');
      }
    }
  }

  /** Of the children that have ended only the last can have succeeded. */
  lemma {:induction false} LastWins(ended: seq<nat>, results: seq<EventResult>, k: nat, x: nat)
    requires IsOrder(ended, |results|) && x < k <= |ended|
    requires RaceAfter(|results|, Arrivals(ended[..k - 1], results)).settled.None?
    requires results[ended[x]].OkResult?
    ensures x == k - 1
  {
    hide RaceAfter;
    if x < k - 1 {
      var before := Arrivals(ended[..k - 1], results);
      assert before[x].result.OkResult?;
      RaceWon(|results|, before);
    }
  }
}
