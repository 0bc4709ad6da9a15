/** How `all` and `race` settle: the children complete in any order, and each completion is
    handled by a callback that may settle the whole once. */
module Settling {
  import opened Text
  import opened Ir
  import opened Kernel
  import opened Lanes
  import opened Journal

  /** Child number `child` has completed with `result`. */
  datatype Completion = Completion(child: nat, result: EventResult)

  /** Completions of some of `n` children, no child twice. Children that are halted when the
      whole settles do not complete. */
  predicate DistinctChildren(order: seq<Completion>, n: nat)
  {
    && (forall i :: 0 <= i < |order| ==> order[i].child < n)
    && (forall i, j :: 0 <= i < j < |order| ==> order[i].child != order[j].child)
  }

  /** An order in which all `n` children complete. */
  predicate EachOnce(order: seq<Completion>, n: nat)
  {
    |order| == n && DistinctChildren(order, n)
  }

  /** The children complete with the results given for them. */
  predicate CompletesWith(order: seq<Completion>, results: seq<EventResult>)
  {
    forall i :: 0 <= i < |order| ==>
      order[i].child < |results| && order[i].result == results[order[i].child]
  }

  predicate HasError(order: seq<Completion>)
  {
    exists i :: 0 <= i < |order| && order[i].result.ErrorResult?
  }

  predicate HasOk(order: seq<Completion>)
  {
    exists i :: 0 <= i < |order| && order[i].result.OkResult?
  }

  function ErrorOf(r: EventResult): Answer
    requires r.ErrorResult?
  {
    Fail(EffectError(r.text, r.name))
  }

  function ValueOf(r: EventResult): Node { if r.OkResult? then r.value else Null }

  // ----- all -----

  /** The results so far, and what the promise was settled with. */
  datatype AllState = AllState(results: seq<Option<EventResult>>, completed: nat, settled: Option<Answer>)

  function AllStart(n: nat): AllState { AllState(seq(n, _ => None), 0, None) }

  function ValuesOf(results: seq<Option<EventResult>>): seq<Node>
  {
    seq(|results|, i requires 0 <= i < |results| => if results[i].Some? then ValueOf(results[i].value) else Null)
  }

  function AllNext(s: AllState, c: Completion): AllState
    requires c.child < |s.results|
  {
    var results := s.results[c.child := Some(c.result)];
    var s' := AllState(results, s.completed + 1, s.settled);
    if s.settled.Some? then s'
    else if c.result.ErrorResult? then s'.(settled := Some(ErrorOf(c.result)))
    else if s.completed + 1 == |results| then s'.(settled := Some(Ok(Arr(ValuesOf(results)))))
    else s'
  }

  class AllJoin {
    var results: seq<Option<EventResult>>
    var completed: nat
    var settled: Option<Answer>

    ghost function Now(): AllState
      reads this
    {
      AllState(results, completed, settled)
    }

    constructor (n: nat)
      ensures Now() == AllStart(n)
    {
      results, completed, settled := seq(n, _ => None), 0, None;
    }

    /** A promise settles once: later calls of `resolve` and `reject` do nothing. */
    method Settle(a: Answer)
      modifies this`settled
      ensures settled == if old(settled).Some? then old(settled) else Some(a)
    {
      if settled.None? {
        settled := Some(a);
      }
    }

    method Complete(c: Completion)
      requires c.child < |results|
      modifies this
      ensures Now() == AllNext(old(Now()), c)
    {
      results := results[c.child := Some(c.result)];
      completed := completed + 1;
      if c.result.ErrorResult? {
        Settle(ErrorOf(c.result));
        return;
      }
      if completed == |results| {
        Settle(Ok(Arr(ValuesOf(results))));
      }
    }
  }

  function AllAfter(n: nat, order: seq<Completion>): (s: AllState)
    requires forall i :: 0 <= i < |order| ==> order[i].child < n
    ensures |s.results| == n && s.completed == |order|
    decreases |order|
  {
    if order == [] then AllStart(n)
    else AllNext(AllAfter(n, order[..|order| - 1]), order[|order| - 1])
  }

  /** The first error in the order, if there is one. */
  function FirstError(order: seq<Completion>): Option<Answer>
  {
    if order == [] then None
    else
      var before := FirstError(order[..|order| - 1]);
      if before.Some? then before
      else if order[|order| - 1].result.ErrorResult? then Some(ErrorOf(order[|order| - 1].result))
      else None
  }

  /** While not all have completed, only an error settles an `all`; the results so far stand
      at their places. */
  lemma {:induction false} AllSoFar(n: nat, order: seq<Completion>)
    requires |order| <= n && DistinctChildren(order, n)
    ensures var s := AllAfter(n, order);
            && (FirstError(order).Some? || |order| < n ==> s.settled == FirstError(order))
            && (FirstError(order).None? && |order| == n > 0 ==> s.settled == Some(Ok(Arr(ValuesOf(s.results)))))
            && (forall i :: 0 <= i < |order| ==> s.results[order[i].child] == Some(order[i].result))
    decreases |order|
  {
    if order != [] {
      var m := |order| - 1;
      AllSoFar(n, order[..m]);
      assert forall i :: 0 <= i < m ==> order[..m][i] == order[i];
    }
  }

  /** Whatever the order, an `all` without a failing child settles with the values of the
      children in source order. */
  lemma {:induction false} AllSucceeds(n: nat, order: seq<Completion>, results: seq<EventResult>)
    requires n > 0 && EachOnce(order, n) && |results| == n && CompletesWith(order, results)
    requires forall i :: 0 <= i < n ==> results[i].OkResult?
    ensures var s := AllAfter(n, order).settled;
            && s.Some? && s.value.Ok? && s.value.value.Arr? && |s.value.value.items| == n
            && forall i :: 0 <= i < n ==> results[i] == OkResult(s.value.value.items[i])
  {
    hide AllAfter, FirstError;
    AllSoFar(n, order);
    NoError(order);
    var s := AllAfter(n, order);
    forall k | 0 <= k < n ensures s.results[k] == Some(results[k]) {
      var i := Covers(order, n, k);
    }
    assert ValuesOf(s.results) == seq(n, i requires 0 <= i < n => ValueOf(results[i]));
  }

  lemma {:induction false} NoError(order: seq<Completion>)
    requires forall i :: 0 <= i < |order| ==> !order[i].result.ErrorResult?
    ensures FirstError(order).None?
    decreases |order|
  {
    if order != [] {
      NoError(order[..|order| - 1]);
    }
  }

  /** An order in which each of `n` children completes once has every child in it. */
  lemma {:induction false} Covers(order: seq<Completion>, n: nat, k: nat) returns (i: nat)
    requires EachOnce(order, n) && k < n
    ensures i < n && order[i].child == k
  {
    var seen := set i | 0 <= i < n :: order[i].child;
    SizeOfSeen(order, n);
    assert seen <= Numbers(n);
    SameSize(seen, Numbers(n));
    assert k in seen;
    i :| 0 <= i < n && order[i].child == k;
  }

  function Numbers(n: nat): (r: set<nat>)
    ensures |r| == n && forall x: nat :: x in r <==> x < n
  {
    if n == 0 then {} else Numbers(n - 1) + {n - 1}
  }

  lemma {:induction false} SizeOfSeen(order: seq<Completion>, m: nat)
    requires m <= |order| && forall i, j :: 0 <= i < j < m ==> order[i].child != order[j].child
    ensures |set i | 0 <= i < m :: order[i].child| == m
  {
    if m > 0 {
      SizeOfSeen(order, m - 1);
      var before := set i | 0 <= i < m - 1 :: order[i].child;
      assert (set i | 0 <= i < m :: order[i].child) == before + {order[m - 1].child};
    }
  }

  /** No more completions than children. */
  lemma {:induction false} DistinctSize(order: seq<Completion>, n: nat)
    requires DistinctChildren(order, n)
    ensures |order| <= n
  {
    var seen := set i | 0 <= i < |order| :: order[i].child;
    SizeOfSeen(order, |order|);
    assert seen <= Numbers(n);
    assert Numbers(n) == seen + (Numbers(n) - seen);
  }

  lemma {:induction false} SameSize(a: set<nat>, b: set<nat>)
    requires a <= b && |a| == |b|
    ensures a == b
  {
    assert b == a + (b - a);
    assert |b - a| == 0;
  }

  /** Once a child has failed an `all` is settled with the error that completed first,
      whichever children complete before or after it, or not at all. */
  lemma {:induction false} AllFails(n: nat, order: seq<Completion>)
    requires DistinctChildren(order, n) && HasError(order)
    ensures FirstError(order).Some? && AllAfter(n, order).settled == FirstError(order)
    ensures exists i :: 0 <= i < |order| && order[i].result.ErrorResult? &&
              (forall j :: 0 <= j < i ==> !order[j].result.ErrorResult?) &&
              AllAfter(n, order).settled == Some(Fail(EffectError(order[i].result.text, order[i].result.name)))
  {
    hide AllAfter, FirstError;
    var i :| 0 <= i < |order| && order[i].result.ErrorResult?;
    ErrorAmong(order, i);
    DistinctSize(order, n);
    AllSoFar(n, order);
    var first := FirstErrorAt(order);
  }

  lemma {:induction false} ErrorAmong(order: seq<Completion>, i: nat)
    requires i < |order| && order[i].result.ErrorResult?
    ensures FirstError(order).Some?
    decreases |order|
  {
    if i < |order| - 1 {
      ErrorAmong(order[..|order| - 1], i);
    }
  }

  lemma {:induction false} NoneSooner(order: seq<Completion>)
    requires FirstError(order).None?
    ensures forall j :: 0 <= j < |order| ==> !order[j].result.ErrorResult?
    decreases |order|
  {
    if order != [] {
      var m := |order| - 1;
      NoneSooner(order[..m]);
      assert forall j :: 0 <= j < m ==> order[..m][j] == order[j];
    }
  }

  lemma {:induction false} FirstErrorAt(order: seq<Completion>) returns (i: nat)
    requires FirstError(order).Some?
    ensures i < |order| && order[i].result.ErrorResult? && FirstError(order) == Some(ErrorOf(order[i].result))
    ensures forall j :: 0 <= j < i ==> !order[j].result.ErrorResult?
    decreases |order|
  {
    var m := |order| - 1;
    if FirstError(order[..m]).Some? {
      i := FirstErrorAt(order[..m]);
      assert forall j :: 0 <= j < i ==> order[..m][j] == order[j];
    } else {
      i := m;
      NoneSooner(order[..m]);
      assert forall j :: 0 <= j < m ==> order[..m][j] == order[j];
    }
  }

  /** The error the source's comment promises: that of the first failing child in source order. */
  predicate IsFirstFailing(results: seq<EventResult>, low: nat)
  {
    low < |results| && results[low].ErrorResult? && forall i :: 0 <= i < low ==> !results[i].ErrorResult?
  }

  /** Every way in which all children complete settles the `all` with the error of child `low`. */
  ghost predicate AlwaysSettles(results: seq<EventResult>, low: nat)
    requires low < |results| && results[low].ErrorResult?
  {
    forall order :: EachOnce(order, |results|) && CompletesWith(order, results) ==>
      AllAfter(|results|, order).settled == Some(Fail(EffectError(results[low].text, results[low].name)))
  }

  predicate FailAlike(results: seq<EventResult>, low: nat)
    requires low < |results| && results[low].ErrorResult?
  {
    forall i :: 0 <= i < |results| && results[i].ErrorResult? ==> results[i] == results[low]
  }

  /** All children complete, number `k` before the others. */
  function Foremost(results: seq<EventResult>, k: nat): (order: seq<Completion>)
    requires k < |results|
    ensures EachOnce(order, |results|) && CompletesWith(order, results) && order[0] == Completion(k, results[k])
  {
    seq(|results|, i requires 0 <= i < |results| =>
      if i == 0 then Completion(k, results[k])
      else if i <= k then Completion(i - 1, results[i - 1])
      else Completion(i, results[i]))
  }

  lemma {:induction false} FirstIsFirst(order: seq<Completion>)
    requires order != [] && order[0].result.ErrorResult?
    ensures FirstError(order) == Some(ErrorOf(order[0].result))
    decreases |order|
  {
    if |order| > 1 {
      FirstIsFirst(order[..|order| - 1]);
    }
  }

  /** The comment's lowest-index error is what an `all` comes to under every completion order
      exactly when all failing children fail alike. */
  lemma {:induction false} AllErrorFollowsOrder(results: seq<EventResult>, low: nat)
    requires IsFirstFailing(results, low)
    ensures AlwaysSettles(results, low) <==> FailAlike(results, low)
  {
    hide AllAfter, FirstError;
    var n := |results|;
    if FailAlike(results, low) {
      forall order | EachOnce(order, n) && CompletesWith(order, results)
        ensures AllAfter(n, order).settled == Some(Fail(EffectError(results[low].text, results[low].name)))
      {
        var j := Covers(order, n, low);
        AllFails(n, order);
        var i := FirstErrorAt(order);
      }
    }
    if AlwaysSettles(results, low) {
      forall i | 0 <= i < n && results[i].ErrorResult? ensures results[i] == results[low] {
        var order := Foremost(results, i);
        FirstIsFirst(order);
        AllFails(n, order);
      }
    }
  }

  /** The same for orders that end early: when the failing children fail alike, any
      completions with an error among them settle the `all` with that error. */
  lemma {:induction false} AllErrorAlike(results: seq<EventResult>, low: nat, order: seq<Completion>)
    requires IsFirstFailing(results, low) && FailAlike(results, low)
    requires DistinctChildren(order, |results|) && CompletesWith(order, results) && HasError(order)
    ensures AllAfter(|results|, order).settled == Some(Fail(EffectError(results[low].text, results[low].name)))
  {
    hide AllAfter, FirstError;
    AllFails(|results|, order);
    var i := FirstErrorAt(order);
  }

  // ----- race -----

  datatype RaceState = RaceState(errors: map<nat, Answer>, hasWinner: bool, settled: Option<Answer>)

  predicate IsLowest(m: nat, s: set<nat>) { m in s && forall x :: x in s ==> m <= x }

  /** The least number of a non-empty set. */
  function Lowest(s: set<nat>): (m: nat)
    requires s != {}
    ensures IsLowest(m, s)
  {
    LowestExists(s);
    var m :| m in s && IsLowest(m, s);
    m
  }

  lemma {:induction false} LowestExists(s: set<nat>)
    requires s != {}
    ensures exists m :: m in s && IsLowest(m, s)
  {
    var x :| x in s;
    if s == {x} {
      assert IsLowest(x, s);
    } else {
      LowestExists(s - {x});
      var m :| m in s - {x} && IsLowest(m, s - {x});
      LowestOf(s, x, m);
    }
  }

  lemma {:induction false} LowestOf(s: set<nat>, x: nat, m: nat)
    requires x in s && IsLowest(m, s - {x})
    ensures IsLowest(if x < m then x else m, s)
  {
    forall y | y in s ensures (if x < m then x else m) <= y {
      assert y == x || y in s - {x};
    }
  }

  function RaceNext(s: RaceState, c: Completion, n: nat): RaceState
  {
    if c.result.OkResult? then
      if s.hasWinner then s
      else RaceState(s.errors, true, if s.settled.Some? then s.settled else Some(Ok(c.result.value)))
    else if c.result.ErrorResult? then
      var errors := s.errors[c.child := ErrorOf(c.result)];
      var s' := s.(errors := errors);
      if |errors| == n && s.settled.None? then s'.(settled := Some(errors[Lowest(errors.Keys)])) else s'
    else s
  }

  class RaceJoin {
    const children: nat
    var errors: map<nat, Answer>
    var hasWinner: bool
    var settled: Option<Answer>

    ghost function Now(): RaceState
      reads this
    {
      RaceState(errors, hasWinner, settled)
    }

    constructor (n: nat)
      ensures children == n && Now() == RaceState(map[], false, None)
    {
      children, errors, hasWinner, settled := n, map[], false, None;
    }

    method Complete(c: Completion)
      modifies this
      ensures Now() == RaceNext(old(Now()), c, children)
    {
      if c.result.OkResult? && !hasWinner {
        hasWinner := true;
        if settled.None? {
          settled := Some(Ok(c.result.value));
        }
      } else if c.result.ErrorResult? {
        errors := errors[c.child := ErrorOf(c.result)];
        if |errors| == children {
          var lowestIdx := Lowest(errors.Keys);
          if settled.None? {
            settled := Some(errors[lowestIdx]);
          }
        }
      }
    }
  }

  function RaceAfter(n: nat, order: seq<Completion>): RaceState
    decreases |order|
  {
    if order == [] then RaceState(map[], false, None)
    else RaceNext(RaceAfter(n, order[..|order| - 1]), order[|order| - 1], n)
  }

  /** The first success in the order. */
  function FirstOk(order: seq<Completion>): Option<Answer>
  {
    if order == [] then None
    else
      var before := FirstOk(order[..|order| - 1]);
      if before.Some? then before
      else if order[|order| - 1].result.OkResult? then Some(Ok(order[|order| - 1].result.value))
      else None
  }

  /** Until a child succeeds only the failure of all settles a race; a first success settles
      it for good. */
  lemma {:induction false} RaceSoFar(n: nat, order: seq<Completion>)
    requires |order| <= n
    ensures var s := RaceAfter(n, order);
            && |s.errors| <= |order| && (s.hasWinner <==> FirstOk(order).Some?)
            && (FirstOk(order).Some? ==> |s.errors| < |order| && s.settled == FirstOk(order))
            && (FirstOk(order).None? && |order| < n ==> s.settled == None)
    decreases |order|
  {
    if order != [] {
      RaceSoFar(n, order[..|order| - 1]);
    }
  }

  /** Once a child has succeeded a race is settled with the first success, whichever
      children complete before or after it, or not at all. */
  lemma {:induction false} RaceWon(n: nat, order: seq<Completion>)
    requires DistinctChildren(order, n) && HasOk(order)
    ensures FirstOk(order).Some? && RaceAfter(n, order).settled == FirstOk(order)
    ensures exists i :: 0 <= i < |order| && order[i].result.OkResult? &&
              (forall j :: 0 <= j < i ==> !order[j].result.OkResult?) &&
              RaceAfter(n, order).settled == Some(Ok(order[i].result.value))
  {
    hide RaceAfter, FirstOk;
    var i :| 0 <= i < |order| && order[i].result.OkResult?;
    OkAmong(order, i);
    DistinctSize(order, n);
    RaceSoFar(n, order);
    var first := FirstOkAt(order);
  }

  lemma {:induction false} NoWinnerSooner(order: seq<Completion>)
    requires FirstOk(order).None?
    ensures forall j :: 0 <= j < |order| ==> !order[j].result.OkResult?
    decreases |order|
  {
    if order != [] {
      var m := |order| - 1;
      NoWinnerSooner(order[..m]);
      assert forall j :: 0 <= j < m ==> order[..m][j] == order[j];
    }
  }

  lemma {:induction false} OkAmong(order: seq<Completion>, i: nat)
    requires i < |order| && order[i].result.OkResult?
    ensures FirstOk(order).Some?
    decreases |order|
  {
    if i < |order| - 1 {
      OkAmong(order[..|order| - 1], i);
    }
  }

  lemma {:induction false} FirstOkAt(order: seq<Completion>) returns (i: nat)
    requires FirstOk(order).Some?
    ensures i < |order| && order[i].result.OkResult? && FirstOk(order) == Some(Ok(order[i].result.value))
    ensures forall j :: 0 <= j < i ==> !order[j].result.OkResult?
    decreases |order|
  {
    var m := |order| - 1;
    if FirstOk(order[..m]).Some? {
      i := FirstOkAt(order[..m]);
      assert forall j :: 0 <= j < i ==> order[..m][j] == order[j];
    } else {
      i := m;
      NoWinnerSooner(order[..m]);
      assert forall j :: 0 <= j < m ==> order[..m][j] == order[j];
    }
  }

  lemma {:induction false} FirstOkIsFirst(order: seq<Completion>)
    requires order != [] && order[0].result.OkResult?
    ensures FirstOk(order) == Some(Ok(order[0].result.value))
    decreases |order|
  {
    if |order| > 1 {
      FirstOkIsFirst(order[..|order| - 1]);
    }
  }

  // ----- a race on a stream that a crash left behind -----

  /** What the children of a race come to in a session on `stored`, where `planned` is what
      they come to when they are driven. */
  function ReplayedResults(stored: seq<Event>, ids: seq<Id>, planned: seq<EventResult>): (results: seq<EventResult>)
    requires |ids| == |planned|
    ensures |results| == |ids|
  {
    seq(|ids|, i requires 0 <= i < |ids| => Completed(stored, ids[i], planned[i]))
  }

  /** Every way in which the children complete settles the race with `v`. */
  ghost predicate AlwaysWon(results: seq<EventResult>, v: Node)
  {
    forall order :: DistinctChildren(order, |results|) && CompletesWith(order, results) && HasOk(order) ==>
      RaceAfter(|results|, order).settled == Some(Ok(v))
  }

  /** A crash may come after the Close of the winner and before the losers' cancelled Closes.
      The stored winner is kept, in whatever order the next session's children complete,
      exactly when no child without a cancelled Close would succeed with another value. */
  lemma {:induction false} StoredRaceWinner(stored: seq<Event>, ids: seq<Id>, planned: seq<EventResult>,
                                            winner: nat, v: Node)
    requires |ids| == |planned| && winner < |ids|
    requires planned[winner] == OkResult(v) && CloseOf(stored, ids[winner]) == Some(OkResult(v))
    ensures AlwaysWon(ReplayedResults(stored, ids, planned), v) <==>
            forall i :: 0 <= i < |ids| && planned[i].OkResult? && planned[i].value != v ==>
              CloseOf(stored, ids[i]) == Some(Cancelled)
  {
    hide RaceAfter, FirstOk, CloseOf;
    var results := ReplayedResults(stored, ids, planned);
    var n := |results|;
    if forall i :: 0 <= i < n && planned[i].OkResult? && planned[i].value != v ==>
         CloseOf(stored, ids[i]) == Some(Cancelled) {
      forall order | DistinctChildren(order, n) && CompletesWith(order, results) && HasOk(order)
        ensures RaceAfter(n, order).settled == Some(Ok(v))
      {
        RaceWon(n, order);
        var i := FirstOkAt(order);
      }
    }
    if AlwaysWon(results, v) {
      forall i | 0 <= i < n && planned[i].OkResult? && planned[i].value != v
        ensures CloseOf(stored, ids[i]) == Some(Cancelled)
      {
        var order := Foremost(results, i);
        if results[i].OkResult? {
          FirstOkIsFirst(order);
          assert HasOk(order);
          RaceWon(n, order);
        }
      }
    }
  }

  predicate HasChild(order: seq<Completion>, k: nat)
  {
    exists i :: 0 <= i < |order| && order[i].child == k
  }

  predicate AllErrors(order: seq<Completion>)
  {
    && (forall i :: 0 <= i < |order| ==> order[i].result.ErrorResult?)
    && (forall i, j :: 0 <= i < j < |order| ==> order[i].child != order[j].child)
  }

  /** The errors of children that have all failed. */
  function ErrorsOf(order: seq<Completion>): (errors: map<nat, Answer>)
    requires AllErrors(order)
    ensures forall k :: k in errors <==> HasChild(order, k)
    decreases |order|
  {
    if order == [] then map[]
    else
      var m := |order| - 1;
      HasChildNext(order);
      ErrorsOf(order[..m])[order[m].child := ErrorOf(order[m].result)]
  }

  lemma {:induction false} HasChildNext(order: seq<Completion>)
    requires order != []
    ensures forall k :: HasChild(order, k) <==> HasChild(order[..|order| - 1], k) || k == order[|order| - 1].child
  {
    var m := |order| - 1;
    forall k ensures HasChild(order, k) <==> HasChild(order[..m], k) || k == order[m].child {
      if HasChild(order[..m], k) {
        var i :| 0 <= i < m && order[..m][i].child == k;
        assert order[i].child == k;
      }
      if i :| 0 <= i < |order| && order[i].child == k {
        assert i < m ==> order[..m][i].child == k;
      }
    }
  }

  lemma {:induction false} ErrorsOfSize(order: seq<Completion>)
    requires AllErrors(order)
    ensures |ErrorsOf(order)| == |order|
    decreases |order|
  {
    hide HasChild;
    if order != [] {
      ErrorsOfSize(order[..|order| - 1]);
      NewChild(order);
    }
  }

  lemma {:induction false} ErrorsOfAt(order: seq<Completion>, i: nat)
    requires AllErrors(order) && i < |order|
    ensures order[i].child in ErrorsOf(order) && ErrorsOf(order)[order[i].child] == ErrorOf(order[i].result)
    decreases |order|
  {
    hide HasChild;
    var m := |order| - 1;
    if i < m {
      ErrorsOfAt(order[..m], i);
    }
  }

  lemma {:induction false} NewChild(order: seq<Completion>)
    requires order != [] && forall i, j :: 0 <= i < j < |order| ==> order[i].child != order[j].child
    ensures !HasChild(order[..|order| - 1], order[|order| - 1].child)
  {
  }

  lemma {:induction false} ErrorsSoFar(n: nat, order: seq<Completion>)
    requires AllErrors(order) && |order| <= n
    ensures var s := RaceAfter(n, order);
            && s.errors == ErrorsOf(order) && !s.hasWinner
            && (|order| < n ==> s.settled == None)
            && (|order| == n > 0 ==> |s.errors| > 0 && s.settled == Some(s.errors[Lowest(s.errors.Keys)]))
    decreases |order|
  {
    hide Lowest, ErrorOf, HasChild;
    ErrorsOfSize(order);
    if order != [] {
      ErrorsSoFar(n, order[..|order| - 1]);
    }
  }

  /** Whatever the order, a race whose children all fail settles with the error of the first
      child in source order. */
  lemma {:induction false} RaceLost(n: nat, order: seq<Completion>, results: seq<EventResult>)
    requires n > 0 && EachOnce(order, n) && |results| == n && CompletesWith(order, results)
    requires forall i :: 0 <= i < n ==> results[i].ErrorResult?
    ensures RaceAfter(n, order).settled == Some(Fail(EffectError(results[0].text, results[0].name)))
  {
    ErrorsSoFar(n, order);
    ErrorsOfSize(order);
    var i := Covers(order, n, 0);
    ErrorsOfAt(order, i);
    assert order[i].child == 0;
    assert Lowest(RaceAfter(n, order).errors.Keys) == 0;
  }
}
