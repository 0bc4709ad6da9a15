/** Coroutine ids: every construct that starts coroutines takes numbers from one counter of the
    coroutine that asks, so that no id is given twice. */
module Allocation {
  import opened Text
  import opened Journal
  import opened RunPlan

  /** What starts coroutines. An accepted inline call starts a lane with a counter of its own. */
  datatype Construct =
    | Scope | Spawn | Resource | Invoke | InvokeInline | Timebox
    | AllOf(branches: nat) | RaceOf(branches: nat)

  function Width(k: Construct): nat
  {
    match k
    case Timebox => 2
    case AllOf(n) => n
    case RaceOf(n) => n
    case _ => 1
  }

  /** The coroutines so far, with the numbers each has given out. */
  type Counters = map<Id, nat>

  /** The ids that a construct gives out in the coroutine `c`. */
  function NewIds(counters: Counters, c: Id, k: Construct): seq<Id>
    requires c in counters
  {
    seq(Width(k), i requires 0 <= i < Width(k) => ChildId(c, counters[c] + i))
  }

  function Allocate(counters: Counters, c: Id, k: Construct): Counters
    requires c in counters
  {
    var ids := NewIds(counters, c, k);
    counters[c := counters[c] + Width(k)] + map d | d in ids :: 0
  }

  /** An invocation is refused when it is made from outside its dispatch or with malformed
      arguments; a refused one takes no number. */
  datatype Request = Request(asker: Id, kind: Construct, accepted: bool)

  /** The coroutines after a history of requests; only coroutines make requests. */
  function After(root: Id, history: seq<Request>): Counters
  {
    if history == [] then map[root := 0]
    else
      var n := |history| - 1;
      var before := After(root, history[..n]);
      if history[n].asker in before && history[n].accepted then
        Allocate(before, history[n].asker, history[n].kind)
      else before
  }

  // ----- uniqueness -----

  /** Every id but the root's was given out by a coroutine that is there, and ids get longer. */
  ghost predicate Accounted(root: Id, counters: Counters)
  {
    forall d :: d in counters ==> d == root || GivenOut(root, counters, d)
  }

  ghost predicate GivenOut(root: Id, counters: Counters, d: Id)
  {
    |d| > |root| && exists p, n: nat :: p in counters && n < counters[p] && d == ChildId(p, n)
  }

  lemma {:induction false} AllocateFresh(root: Id, counters: Counters, c: Id, k: Construct)
    requires Accounted(root, counters) && c in counters && |c| >= |root|
    ensures var ids := NewIds(counters, c, k);
            Distinct(ids) && forall d :: d in ids ==> d !in counters && |d| > |root|
  {
    hide ChildId;
    var ids := NewIds(counters, c, k);
    forall i, j | 0 <= i < j < |ids| ensures ids[i] != ids[j] {
      if ids[i] == ids[j] {
        ChildIdInjective(c, counters[c] + i, c, counters[c] + j);
      }
    }
    forall d | d in ids ensures d !in counters && |d| > |root| {
      var i :| 0 <= i < |ids| && ids[i] == d;
      ChildLonger(c, counters[c] + i);
      if d in counters {
        var p, n: nat :| p in counters && n < counters[p] && d == ChildId(p, n);
        ChildIdInjective(p, n, c, counters[c] + i);
      }
    }
  }

  lemma {:induction false} ChildLonger(c: Id, n: nat)
    ensures |ChildId(c, n)| > |c|
  {
  }

  lemma {:induction false} StaysGiven(root: Id, counters: Counters, after: Counters, d: Id)
    requires GivenOut(root, counters, d)
    requires forall p :: p in counters ==> p in after && counters[p] <= after[p]
    ensures GivenOut(root, after, d)
  {
    hide ChildId;
    var p, n: nat :| p in counters && n < counters[p] && d == ChildId(p, n);
    assert p in after && n < after[p];
  }

  /** What an allocation does to the counters. */
  lemma {:induction false} AllocateAdds(root: Id, counters: Counters, c: Id, k: Construct)
    requires Accounted(root, counters) && c in counters && |c| >= |root|
    ensures var ids, after := NewIds(counters, c, k), Allocate(counters, c, k);
            && after.Keys == counters.Keys + (set d | d in ids)
            && (forall p :: p in counters ==> counters[p] <= after[p])
            && after[c] == counters[c] + Width(k)
  {
    hide ChildId, Accounted, NewIds;
    AllocateFresh(root, counters, c, k);
  }

  lemma {:induction false} AllocateAccounted(root: Id, counters: Counters, c: Id, k: Construct)
    requires Accounted(root, counters) && c in counters && |c| >= |root|
    ensures Accounted(root, Allocate(counters, c, k))
  {
    hide ChildId, Allocate, GivenOut;
    AllocateFresh(root, counters, c, k);
    AllocateAdds(root, counters, c, k);
    var ids, after := NewIds(counters, c, k), Allocate(counters, c, k);
    forall d | d in after && d != root ensures GivenOut(root, after, d) {
      if d in counters {
        StaysGiven(root, counters, after, d);
      } else {
        var i :| 0 <= i < |ids| && ids[i] == d;
        NowGiven(root, after, c, counters[c] + i);
      }
    }
  }

  lemma {:induction false} NowGiven(root: Id, after: Counters, c: Id, n: nat)
    requires c in after && n < after[c] && |c| >= |root|
    ensures GivenOut(root, after, ChildId(c, n))
  {
    ChildLonger(c, n);
  }

  lemma {:induction false} AlwaysAccounted(root: Id, history: seq<Request>)
    ensures Accounted(root, After(root, history))
    ensures forall d :: d in After(root, history) ==> |d| >= |root|
    decreases |history|
  {
    hide Accounted, Allocate;
    if history == [] {
      OnlyRoot(root);
    } else {
      var n := |history| - 1;
      AlwaysAccounted(root, history[..n]);
      var before := After(root, history[..n]);
      if history[n].asker in before && history[n].accepted {
        AllocateAccounted(root, before, history[n].asker, history[n].kind);
      }
      IdsLonger(root, After(root, history));
    }
  }

  lemma {:induction false} OnlyRoot(root: Id)
    ensures Accounted(root, map[root := 0])
  {
  }

  lemma {:induction false} IdsLonger(root: Id, counters: Counters)
    requires Accounted(root, counters)
    ensures forall d :: d in counters ==> |d| >= |root|
  {
  }

  /** However scopes, spawned tasks, resources, invocations, lanes, timeboxes, `all` and `race`
      are mixed, and whichever coroutines they nest in, an id that is given out is new. */
  lemma {:induction false} IdsUnique(root: Id, history: seq<Request>, r: Request)
    requires r.asker in After(root, history)
    ensures var ids := NewIds(After(root, history), r.asker, r.kind);
            Distinct(ids) && forall d :: d in ids ==> d !in After(root, history)
  {
    hide After, Accounted;
    AlwaysAccounted(root, history);
    AllocateFresh(root, After(root, history), r.asker, r.kind);
  }
}
