/** Where the driver of a coroutine stands in the uninterrupted run, and how each thing it
    does moves it on. */
module DriverPlan {
  import opened Text
  import opened Ir
  import opened Kernel
  import opened Generator
  import opened Lanes
  import opened Journal
  import opened RunPlan
  import opened PlanIndex
  import opened Engine
  import opened EngineRecord
  import opened EngineInvariant

  /** All coroutines of the tree `p` have their whole event sequence in the journal. */
  ghost predicate Complete(ps: Plans, journal: seq<Event>, p: Plan)
  {
    forall q :: q in Subplans(p) ==> Proj(journal, q.id) == Planned(ps, q.id)
  }

  ghost predicate Untouched(journal: seq<Event>, c: Id)
  {
    forall d :: Below(d, c) ==> Proj(journal, d) == []
  }

  /** The coroutine `c` has done `k` moves and, of the next, `i` children. */
  ghost predicate At(w: World, ps: Plans, root: Plan, r: Record, c: Id, k: nat, i: nat)
  {
    && Indexed(w, ps, root) && TreeFits(ps, r) && c in ps && k <= |ps[c].moves|
    && |Proj(r.journal, c)| == Effects(ps[c].moves, k)
    && (i > 0 ==> k < |ps[c].moves| && ps[c].moves[k].ForkMove? && i <= |ps[c].moves[k].children|)
    && (forall j: nat, m: nat, d :: IsChild(ps[c], j, m, d) && (j < k || (j == k && m < i)) ==>
          Complete(ps, r.journal, d))
    && (forall n: nat :: n >= Forks(ps[c].moves, k) + i ==> Untouched(r.journal, ChildId(c, n)))
  }

  /** Only coroutines of the tree that are below `c` recorded anything. */
  ghost predicate OnlyBelow(ps: Plans, before: Record, after: Record, c: Id)
  {
    after.stored == before.stored && forall d :: d !in ps || !Below(d, c) ==> SameAt(before, after, d)
  }

  lemma {:induction false} AtStart(w: World, ps: Plans, root: Plan, r: Record, c: Id)
    requires Indexed(w, ps, root) && TreeFits(ps, r) && c in ps && Untouched(r.journal, c)
    ensures At(w, ps, root, r, c, 0, 0)
  {
    hide Valid, TreeFits, Indexed;
    forall n: nat ensures Untouched(r.journal, ChildId(c, n)) {
      forall d | Below(d, ChildId(c, n)) ensures Proj(r.journal, d) == [] {
        ChildBelow(c, n);
        BelowTransitive(d, ChildId(c, n), c);
      }
    }
    assert Below(c, c);
  }

  /** A complete tree stays complete while only coroutines outside it record. */
  lemma {:induction false} CompleteStays(w: World, ps: Plans, d: Plan, before: seq<Event>, after: seq<Event>)
    requires Complete(ps, before, d) && Valid(w, d)
    requires forall x :: Below(x, d.id) ==> Proj(after, x) == Proj(before, x)
    ensures Complete(ps, after, d)
  {
    hide Valid, Subplans;
    forall q | q in Subplans(d) ensures Proj(after, q.id) == Planned(ps, q.id) {
      SubplansValid(w, d, q);
    }
  }

  /** The children of `c` do not see what `c` itself records. */
  lemma {:induction false} OwnEvent(w: World, ps: Plans, root: Plan, r: Record, r': Record, c: Id, k: nat, i: nat)
    requires At(w, ps, root, r, c, k, i)
    requires forall d :: d != c ==> SameAt(r, r', d)
    ensures forall j: nat, m: nat, d :: IsChild(ps[c], j, m, d) && (j < k || (j == k && m < i)) ==>
              Complete(ps, r'.journal, d)
    ensures forall n: nat :: n >= Forks(ps[c].moves, k) + i ==> Untouched(r'.journal, ChildId(c, n))
  {
    hide Valid, Complete, TreeFits, Untouched, ChildId, Indexed, IsChild;
    JournalSame(r, r', c);
    forall j: nat, m: nat, d | IsChild(ps[c], j, m, d) && (j < k || (j == k && m < i))
      ensures Complete(ps, r'.journal, d)
    {
      IndexedAt(w, ps, root, c);
      ChildFacts(w, ps[c], j, m, d);
      ChildBelow(c, Forks(ps[c].moves, j) + m);
      NotBelowChild(c, d.id);
      CompleteStays(w, ps, d, r.journal, r'.journal);
    }
    forall n: nat | n >= Forks(ps[c].moves, k) + i ensures Untouched(r'.journal, ChildId(c, n)) {
      UntouchedStays(r.journal, r'.journal, c, n);
    }
  }

  lemma {:induction false} JournalSame(r: Record, r': Record, c: Id)
    requires forall d :: d != c ==> SameAt(r, r', d)
    ensures forall d :: d != c ==> Proj(r'.journal, d) == Proj(r.journal, d)
  {
    forall d | d != c ensures Proj(r'.journal, d) == Proj(r.journal, d) {
      assert SameAt(r, r', d);
    }
  }

  lemma {:induction false} NotBelowChild(c: Id, d: Id)
    requires !Below(c, d)
    ensures forall x :: Below(x, d) ==> x != c
  {
  }

  lemma {:induction false} UntouchedStays(before: seq<Event>, after: seq<Event>, c: Id, n: nat)
    requires Untouched(before, ChildId(c, n)) && forall d :: d != c ==> Proj(after, d) == Proj(before, d)
    ensures Untouched(after, ChildId(c, n))
  {
    ChildBelow(c, n);
  }

  lemma {:induction false} AtEffect(w: World, ps: Plans, root: Plan, r: Record, r': Record, c: Id, k: nat)
    requires At(w, ps, root, r, c, k, 0)
    requires k < |ps[c].moves| && ps[c].moves[k].EffectMove?
    requires Records(r, r', c, Yield(c, ps[c].moves[k].entry))
    ensures At(w, ps, root, r', c, k + 1, 0) && OnlyBelow(ps, r, r', c)
  {
    hide Valid, Indexed, Records, TreeFits, Complete, EventsOf;
    IndexedAt(w, ps, root, c);
    EffectAt(ps[c], k);
    TreeNext(ps, r, r', c, Yield(c, ps[c].moves[k].entry));
    OwnEvent(w, ps, root, r, r', c, k, 0);
  }

  /** The dispatch of the effect at move `k`, live or replayed, records its event. */
  lemma {:induction false} EffectRecorded(w: World, ps: Plans, root: Plan, r: Record, c: Id, k: nat, id: string,
                                          data: Node)
    requires At(w, ps, root, r, c, k, 0) && k < |ps[c].moves|
    requires GenAt(ps[c], k).control == YieldC(Standard(id, data))
    ensures ps[c].moves[k].EffectMove?
    ensures w.handler(c, |YieldsOf(r.journal, c)|) == w.handler(c, Effects(ps[c].moves, k))
    ensures var entry := ps[c].moves[k].entry;
            var d := DispatchOf(w, r, c, id, data);
            && d.Some? && !d.value.Diverged? && d.value.entry == entry
            && (d.value.Live? ==> Records(r, RecordLive(r, c, entry), c, Yield(c, entry)))
            && (d.value.Replayed? ==> Records(r, RecordReplay(r, c, entry), c, Yield(c, entry)))
  {
    hide Valid, Indexed, GenAt, TreeFits, FitsAt, Complete, EventsOf, Dispatch;
    var p := ps[c];
    IndexedAt(w, ps, root, c);
    ValidMove(w, p, k);
    FitsHere(ps, r, c);
    DispatchPlanned(w, ps, r, c, k, id, data);
    PositionIs(ps, r, c, k);
  }

  lemma {:induction false} FitsHere(ps: Plans, r: Record, c: Id)
    requires TreeFits(ps, r) && c in ps
    ensures FitsAt(ps, r, c)
  {
  }

  lemma {:induction false} PositionIs(ps: Plans, r: Record, c: Id, k: nat)
    requires TreeFits(ps, r) && c in ps && ps[c].id == c && k < |ps[c].moves| && ps[c].moves[k].EffectMove?
    requires |Proj(r.journal, c)| == Effects(ps[c].moves, k)
    ensures |YieldsOf(r.journal, c)| == Effects(ps[c].moves, k)
  {
    assert FitsAt(ps, r, c);
    EffectAt(ps[c], k);
    RecordYields(ps, c, r.journal);
  }

  /** The fork at move `k` and its children. */
  lemma {:induction false} ForkAt(w: World, ps: Plans, root: Plan, c: Id, k: nat)
    requires Indexed(w, ps, root) && c in ps && k < |ps[c].moves|
    requires GenAt(ps[c], k).control.YieldC? && GenAt(ps[c], k).control.request.Fork?
    ensures var req := GenAt(ps[c], k).control.request;
            && req.kind == All && ps[c].moves[k].ForkMove?
            && |ps[c].moves[k].children| == |req.branches|
            && (forall i :: 0 <= i < |req.branches| ==>
                  var d := ps[c].moves[k].children[i];
                  && d.id in ps && ps[d.id] == d && d.result.OkResult?
                  && d.id == ChildId(c, Forks(ps[c].moves, k) + i)
                  && d.expr == req.branches[i] && d.env == req.env)
  {
    hide Valid, GenAt, ChildId, Forks, RunOn, Dispatch, EventsOf, Effects;
    IndexedAt(w, ps, root, c);
    ValidMove(w, ps[c], k);
    var cs := ps[c].moves[k].children;
    forall i | 0 <= i < |cs| ensures cs[i].id in ps && ps[cs[i].id] == cs[i] {
      assert IsChild(ps[c], k, i, cs[i]);
    }
  }

  lemma {:induction false} AtChild(w: World, ps: Plans, root: Plan, r: Record, r': Record, c: Id, k: nat, i: nat)
    requires At(w, ps, root, r, c, k, i)
    requires k < |ps[c].moves| && ps[c].moves[k].ForkMove? && i < |ps[c].moves[k].children|
    requires TreeFits(ps, r') && Complete(ps, r'.journal, ps[c].moves[k].children[i])
    requires OnlyBelow(ps, r, r', ps[c].moves[k].children[i].id)
    ensures At(w, ps, root, r', c, k, i + 1) && OnlyBelow(ps, r, r', c)
  {
    hide Valid, TreeFits, Complete, Subplans, OnlyBelow, SameAt, ChildId, Untouched, Indexed;
    var p, e := ps[c], ps[c].moves[k].children[i];
    IndexedAt(w, ps, root, c);
    assert IsChild(p, k, i, e);
    ChildFacts(w, p, k, i, e);
    var n0 := Forks(p.moves, k) + i;
    ChildBelow(c, n0);
    OthersSame(ps, r, r', e.id);
    WiderBelow(ps, r, r', e.id, c);
    assert |Proj(r'.journal, c)| == Effects(p.moves, k);
    forall j: nat, m: nat, d | IsChild(p, j, m, d) && (j < k || (j == k && m < i + 1))
      ensures Complete(ps, r'.journal, d)
    {
      if j < k || m < i {
        ChildFacts(w, p, j, m, d);
        forall x | Below(x, d.id) ensures Proj(r'.journal, x) == Proj(r.journal, x) {
          OtherChild(p.moves, x, c, j, m, k, i);
        }
        CompleteStays(w, ps, d, r.journal, r'.journal);
      }
    }
    forall n: nat | n >= n0 + 1 ensures Untouched(r'.journal, ChildId(c, n)) {
      assert Untouched(r.journal, ChildId(c, n));
      SiblingUntouched(r, r', c, n, n0);
    }
  }

  lemma {:induction false} OthersSame(ps: Plans, r: Record, r': Record, c: Id)
    requires OnlyBelow(ps, r, r', c)
    ensures forall x :: !Below(x, c) ==> Proj(r'.journal, x) == Proj(r.journal, x)
  {
    forall x | !Below(x, c) ensures Proj(r'.journal, x) == Proj(r.journal, x) {
      assert SameAt(r, r', x);
    }
  }

  lemma {:induction false} WiderBelow(ps: Plans, r: Record, r': Record, d: Id, c: Id)
    requires OnlyBelow(ps, r, r', d) && Below(d, c)
    ensures OnlyBelow(ps, r, r', c)
  {
    forall x | x !in ps || !Below(x, c) ensures SameAt(r, r', x) {
      if Below(x, d) {
        BelowTransitive(x, d, c);
      }
    }
  }

  lemma {:induction false} SiblingUntouched(r: Record, r': Record, c: Id, n: nat, n0: nat)
    requires Untouched(r.journal, ChildId(c, n)) && n != n0
    requires forall x :: !Below(x, ChildId(c, n0)) ==> Proj(r'.journal, x) == Proj(r.journal, x)
    ensures Untouched(r'.journal, ChildId(c, n))
  {
    hide ChildId;
    forall x | Below(x, ChildId(c, n)) ensures Proj(r'.journal, x) == [] {
      if Below(x, ChildId(c, n0)) {
        SiblingsApart(x, c, n, n0);
      }
    }
  }

  lemma {:induction false} OtherChild(moves: seq<Move>, x: Id, c: Id, j: nat, m: nat, k: nat, i: nat)
    requires j < |moves| && moves[j].ForkMove? && m < |moves[j].children|
    requires k < |moves| && moves[k].ForkMove? && i < |moves[k].children|
    requires j != k || m != i
    requires Below(x, ChildId(c, Forks(moves, j) + m))
    ensures !Below(x, ChildId(c, Forks(moves, k) + i))
  {
    if Below(x, ChildId(c, Forks(moves, k) + i)) {
      SiblingsApart(x, c, Forks(moves, j) + m, Forks(moves, k) + i);
      ChildNumber(moves, j, m, k, i);
    }
  }

  /** With its children done the fork is done. */
  lemma {:induction false} AtJoin(w: World, ps: Plans, root: Plan, r: Record, c: Id, k: nat)
    requires c in ps && k < |ps[c].moves| && ps[c].moves[k].ForkMove?
    requires At(w, ps, root, r, c, k, |ps[c].moves[k].children|)
    ensures At(w, ps, root, r, c, k + 1, 0)
  {
    hide Valid, Indexed, TreeFits, Complete, Untouched;
  }

  lemma {:induction false} AtEnd(w: World, ps: Plans, root: Plan, r: Record, c: Id)
    requires c in ps && At(w, ps, root, r, c, |ps[c].moves|, 0)
    ensures var r' := RecordClose(r, c, ps[c].result);
            TreeFits(ps, r') && Complete(ps, r'.journal, ps[c]) && OnlyBelow(ps, r, r', c)
  {
    hide Valid, TreeFits, Subplans, EventsOf, RecordClose, Records;
    var p, n := ps[c], |ps[c].moves|;
    var r' := RecordClose(r, c, p.result);
    IndexedAt(w, ps, root, c);
    FitsHere(ps, r, c);
    ClosePlanned(ps, r, c);
    TreeNext(ps, r, r', c, Close(c, p.result));
    OwnEvent(w, ps, root, r, r', c, n, 0);
    OwnComplete(ps, r', c);
    forall q | q in Subplans(p) ensures Proj(r'.journal, q.id) == Planned(ps, q.id) {
      SubplanCases(p, q);
      if q != p {
        var j: nat, i: nat, d :| IsChild(p, j, i, d) && q in Subplans(d);
        assert Complete(ps, r'.journal, d);
      }
    }
  }

  lemma {:induction false} OwnComplete(ps: Plans, r: Record, c: Id)
    requires TreeFits(ps, r) && c in ps && |Proj(r.journal, c)| == Effects(ps[c].moves, |ps[c].moves|) + 1
    ensures Proj(r.journal, c) == Planned(ps, c)
  {
    assert FitsAt(ps, r, c);
    PlannedShape(ps[c]);
    assert Planned(ps, c) == EventsOf(ps[c]);
  }

  /** A plan of the tree has its own subplans in the index. */
  lemma {:induction false} SubplanIndexed(w: World, ps: Plans, root: Plan, c: Id, q: Plan)
    requires Indexed(w, ps, root) && c in ps && q in Subplans(ps[c])
    ensures q.id in ps && ps[q.id] == q
    decreases ps[c]
  {
    hide Valid, Subplans;
    IndexedAt(w, ps, root, c);
    SubplanCases(ps[c], q);
    if q != ps[c] {
      var j: nat, i: nat, d :| IsChild(ps[c], j, i, d) && q in Subplans(d);
      assert d.id in ps && ps[d.id] == d;
      SubplanIndexed(w, ps, root, d.id, q);
    }
  }

  /** What is complete in the journal is complete in the stream. */
  lemma {:induction false} StreamComplete(w: World, ps: Plans, root: Plan, r: Record, c: Id)
    requires Indexed(w, ps, root) && c in ps
    requires TreeFits(ps, r) && Complete(ps, r.journal, ps[c])
    ensures Complete(ps, r.stream, ps[c])
  {
    hide Valid, Subplans, Planned, Indexed;
    forall q | q in Subplans(ps[c]) ensures Proj(r.stream, q.id) == Planned(ps, q.id) {
      SubplanIndexed(w, ps, root, c, q);
      assert FitsAt(ps, r, q.id);
    }
  }

  lemma {:induction false} OnlyBelowItself(ps: Plans, a: Record, c: Id)
    ensures OnlyBelow(ps, a, a, c)
  {
  }

  lemma {:induction false} OnlyBelowTransitive(ps: Plans, a: Record, b: Record, d: Record, c: Id)
    requires OnlyBelow(ps, a, b, c) && OnlyBelow(ps, b, d, c)
    ensures OnlyBelow(ps, a, d, c)
  {
  }

  // ----- the generator along the plan -----

  lemma {:induction false} Begins(w: World, ps: Plans, root: Plan, c: Id)
    requires Indexed(w, ps, root) && c in ps
    ensures RunOn(Start(ps[c].expr, ps[c].env)) == GenAt(ps[c], 0) && Halted(GenAt(ps[c], 0))
    ensures Forks(ps[c].moves, 0) == 0 && ps[c].id == c
  {
    hide Valid, RunOn;
    IndexedAt(w, ps, root, c);
    ValidMove(w, ps[c], 0);
  }

  /** A generator that has not ended has yielded, and one more move of the plan is there. */
  lemma {:induction false} GoesOn(w: World, ps: Plans, root: Plan, c: Id, k: nat)
    requires Indexed(w, ps, root) && c in ps && k <= |ps[c].moves| && !GenAt(ps[c], k).control.OutC?
    ensures k < |ps[c].moves| && GenAt(ps[c], k).control.YieldC?
    ensures RunOn(Resume(GenAt(ps[c], k), AnswerOf(ps[c].moves[k]))) == GenAt(ps[c], k + 1)
    ensures Halted(GenAt(ps[c], k + 1))
  {
    hide Valid, RunOn;
    IndexedAt(w, ps, root, c);
    ValidMove(w, ps[c], k);
    if k < |ps[c].moves| {
      ValidMove(w, ps[c], k + 1);
    }
  }

  lemma {:induction false} Finishes(w: World, ps: Plans, root: Plan, c: Id, k: nat)
    requires Indexed(w, ps, root) && c in ps && k <= |ps[c].moves| && GenAt(ps[c], k).control.OutC?
    ensures k == |ps[c].moves| && ps[c].result == Settle(GenAt(ps[c], k).control.answer)
  {
    hide Valid, GenAt;
    IndexedAt(w, ps, root, c);
    ValidMove(w, ps[c], k);
  }

  // ----- the Close of the root -----

  lemma {:induction false} PlannedClose(p: Plan, pre: seq<Event>)
    requires pre <= EventsOf(p)
    ensures CloseOf(pre, p.id) == None || CloseOf(pre, p.id) == Some(p.result)
  {
    PlannedShape(p);
    if pre != [] {
      var m := |pre| - 1;
      assert pre[..m] <= EventsOf(p);
      PlannedClose(p, pre[..m]);
      assert pre[m] == EventsOf(p)[m];
    }
  }

  /** The root's result is no cancellation, and its Close in a fitting stream is none either. */
  lemma {:induction false} RootNotCancelled(w: World, ps: Plans, root: Plan, r: Record)
    requires Indexed(w, ps, root) && TreeFits(ps, r)
    ensures CloseOf(r.stored, root.id) != Some(Cancelled)
  {
    hide TreeFits, CloseOf, GenAt;
    assert Valid(w, root) && !root.result.Cancelled?;
    hide Valid;
    FitsHere(ps, r, root.id);
    YieldsOfProj(r.stored, root.id);
    PlannedClose(root, Proj(r.stored, root.id));
  }
}
