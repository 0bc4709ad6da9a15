/** How the stream, the stored events and the session's journal stay prefixes of what each
    coroutine does in the uninterrupted run. */
module EngineRecord {
  import opened Text
  import opened Ir
  import opened Kernel
  import opened Lanes
  import opened Journal
  import opened RunPlan
  import opened PlanIndex
  import opened Engine

  function Min(a: nat, b: nat): nat { if a < b then a else b }

  function Max(a: nat, b: nat): nat { if a < b then b else a }

  /** All events of a coroutine in the uninterrupted run. */
  ghost function Planned(ps: Plans, c: Id): seq<Event>
  {
    if c in ps then EventsOf(ps[c]) else []
  }

  /** Of every coroutine, the stored events, the journal and the stream are prefixes of the
      uninterrupted run; the stream has the longer of the other two; the cursor stands
      where the replay of the stored events has come to. */
  ghost predicate RecordFits(ps: Plans, r: Record)
  {
    forall c :: FitsAt(ps, r, c)
  }

  /** The same of the coroutines of one tree, whatever else the stream holds. */
  ghost predicate TreeFits(ps: Plans, r: Record)
  {
    forall c :: c in ps ==> FitsAt(ps, r, c)
  }

  ghost predicate FitsAt(ps: Plans, r: Record, c: Id)
  {
    && Proj(r.stored, c) <= Planned(ps, c)
    && Proj(r.journal, c) <= Planned(ps, c)
    && Proj(r.stream, c) <= Planned(ps, c)
    && |Proj(r.stream, c)| == Max(|Proj(r.stored, c)|, |Proj(r.journal, c)|)
    && Cursor(r.cursors, c) == Min(|YieldsOf(r.stored, c)|, |YieldsOf(r.journal, c)|)
  }

  // ----- prefixes of a coroutine's events -----

  lemma {:induction false} PlannedShape(p: Plan)
    ensures var n := Effects(p.moves, |p.moves|);
            && |EventsOf(p)| == n + 1
            && EventsOf(p)[n] == Close(p.id, p.result)
            && (forall i :: 0 <= i < n ==> EventsOf(p)[i].Yield? && EventsOf(p)[i].co == p.id)
  {
    YieldEventsLength(p, |p.moves|);
  }

  /** What a prefix of the events says: its yields in order, a Close only at the end. */
  lemma {:induction false} PrefixYields(p: Plan, pre: seq<Event>)
    requires pre <= EventsOf(p)
    ensures var n := Effects(p.moves, |p.moves|);
            && |YieldsOf(pre, p.id)| == Min(|pre|, n)
            && (forall i :: 0 <= i < |YieldsOf(pre, p.id)| ==>
                  EventsOf(p)[i].Yield? && YieldsOf(pre, p.id)[i] == EventsOf(p)[i].entry)
            && (CloseOf(pre, p.id).Some? <==> |pre| == n + 1)
  {
    PlannedShape(p);
    if pre != [] {
      var m := |pre| - 1;
      assert pre[..m] <= EventsOf(p);
      PrefixYields(p, pre[..m]);
      assert pre[m] == EventsOf(p)[m];
    }
  }

  lemma {:induction false} RecordYields(ps: Plans, c: Id, events: seq<Event>)
    requires c in ps && ps[c].id == c && Proj(events, c) <= Planned(ps, c)
    ensures var p := ps[c];
            var n := Effects(p.moves, |p.moves|);
            && |YieldsOf(events, c)| == Min(|Proj(events, c)|, n)
            && (forall i :: 0 <= i < |YieldsOf(events, c)| ==>
                  i < |EventsOf(p)| && EventsOf(p)[i].Yield? && YieldsOf(events, c)[i] == EventsOf(p)[i].entry)
            && (CloseOf(events, c).Some? <==> |Proj(events, c)| == n + 1)
  {
    YieldsOfProj(events, c);
    PrefixYields(ps[c], Proj(events, c));
    PlannedShape(ps[c]);
  }

  /** The event of an effect move stands at the move's journal position. */
  lemma {:induction false} EffectAt(p: Plan, k: nat)
    requires k < |p.moves| && p.moves[k].EffectMove?
    ensures Effects(p.moves, k) < Effects(p.moves, |p.moves|)
    ensures Effects(p.moves, k) < |EventsOf(p)|
    ensures EventsOf(p)[Effects(p.moves, k)] == Yield(p.id, p.moves[k].entry)
  {
    YieldEventsLength(p, k);
    YieldEventsLength(p, |p.moves|);
    YieldEventsPrefix(p, k + 1, |p.moves|);
    PlannedShape(p);
    assert YieldEvents(p, k + 1) == YieldEvents(p, k) + [Yield(p.id, p.moves[k].entry)];
    assert YieldEvents(p, |p.moves|)[Effects(p.moves, k)] == YieldEvents(p, k + 1)[Effects(p.moves, k)];
  }

  // ----- recording the next event -----

  lemma {:induction false} PrefixNext<T>(a: seq<T>, b: seq<T>)
    requires a <= b && |a| < |b|
    ensures a + [b[|a|]] <= b
  {
  }

  /** The next event of `c`: it goes to the journal, and to the stream unless it is there. */
  ghost predicate Records(r: Record, r': Record, c: Id, e: Event)
  {
    var n := |Proj(r.journal, c)|;
    && e.co == c
    && r'.stored == r.stored
    && r'.journal == r.journal + [e]
    && r'.stream == (if |Proj(r.stored, c)| <= n then r.stream + [e] else r.stream)
    && r'.cursors == (if e.Yield? && |Proj(r.stored, c)| > n
                      then r.cursors[c := Cursor(r.cursors, c) + 1] else r.cursors)
  }

  /** Of a coroutine `d` that records nothing everything stands as it was. */
  ghost predicate SameAt(r: Record, r': Record, d: Id)
  {
    && Proj(r'.journal, d) == Proj(r.journal, d)
    && Proj(r'.stream, d) == Proj(r.stream, d)
    && Cursor(r'.cursors, d) == Cursor(r.cursors, d)
    && YieldsOf(r'.journal, d) == YieldsOf(r.journal, d)
    && r'.stored == r.stored
  }

  lemma {:induction false} SameFits(ps: Plans, r: Record, r': Record, d: Id)
    requires FitsAt(ps, r, d) && SameAt(r, r', d)
    ensures FitsAt(ps, r', d)
  {
  }

  lemma {:induction false} RecordNext(ps: Plans, r: Record, r': Record, c: Id, e: Event)
    requires RecordFits(ps, r) && Records(r, r', c, e)
    requires c in ps && ps[c].id == c
    requires |Proj(r.journal, c)| < |Planned(ps, c)| && Planned(ps, c)[|Proj(r.journal, c)|] == e
    ensures RecordFits(ps, r')
    ensures |Proj(r'.journal, c)| == |Proj(r.journal, c)| + 1
    ensures forall d :: d != c ==> Proj(r'.journal, d) == Proj(r.journal, d)
  {
    hide FitsAt, Records, Planned, Proj, SameAt;
    forall d ensures FitsAt(ps, r', d) {
      assert FitsAt(ps, r, d);
      FitsNext(ps, r, r', c, e, d);
    }
    RecordedOne(r, r', c, e);
  }

  lemma {:induction false} TreeNext(ps: Plans, r: Record, r': Record, c: Id, e: Event)
    requires TreeFits(ps, r) && Records(r, r', c, e)
    requires c in ps && ps[c].id == c
    requires |Proj(r.journal, c)| < |Planned(ps, c)| && Planned(ps, c)[|Proj(r.journal, c)|] == e
    ensures TreeFits(ps, r')
    ensures |Proj(r'.journal, c)| == |Proj(r.journal, c)| + 1
    ensures r'.stored == r.stored && forall d :: d != c ==> SameAt(r, r', d)
  {
    hide FitsAt, Records, Planned, Proj, SameAt;
    forall d | d in ps ensures FitsAt(ps, r', d) {
      assert FitsAt(ps, r, d);
      FitsNext(ps, r, r', c, e, d);
    }
    RecordedOne(r, r', c, e);
  }

  lemma {:induction false} FitsNext(ps: Plans, r: Record, r': Record, c: Id, e: Event, d: Id)
    requires FitsAt(ps, r, d) && Records(r, r', c, e)
    requires c in ps && ps[c].id == c
    requires |Proj(r.journal, c)| < |Planned(ps, c)| && Planned(ps, c)[|Proj(r.journal, c)|] == e
    ensures FitsAt(ps, r', d)
  {
    hide FitsAt, Records, Planned, Proj, SameAt;
    if d == c {
      RecordNextAt(ps, r, r', c, e);
    } else {
      RecordedOne(r, r', c, e);
      SameFits(ps, r, r', d);
    }
  }

  lemma {:induction false} RecordedOne(r: Record, r': Record, c: Id, e: Event)
    requires Records(r, r', c, e)
    ensures |Proj(r'.journal, c)| == |Proj(r.journal, c)| + 1
    ensures r'.stored == r.stored
    ensures forall d :: d != c ==> SameAt(r, r', d) && Proj(r'.journal, d) == Proj(r.journal, d)
  {
    hide Proj, YieldsOf;
    ProjAppend(r.journal, e, c);
    forall d | d != c ensures SameAt(r, r', d) && Proj(r'.journal, d) == Proj(r.journal, d) {
      ProjAppend(r.journal, e, d);
      ProjAppend(r.stream, e, d);
      OtherYields(r.journal, e, d);
    }
  }

  lemma {:induction false} OtherYields(events: seq<Event>, e: Event, d: Id)
    requires e.co != d
    ensures YieldsOf(events + [e], d) == YieldsOf(events, d)
  {
    assert (events + [e])[..|events|] == events;
    assert YieldsOf(events, d) + [] == YieldsOf(events, d);
  }

  lemma {:induction false} RecordNextAt(ps: Plans, r: Record, r': Record, c: Id, e: Event)
    requires FitsAt(ps, r, c) && Records(r, r', c, e)
    requires c in ps && ps[c].id == c
    requires |Proj(r.journal, c)| < |Planned(ps, c)| && Planned(ps, c)[|Proj(r.journal, c)|] == e
    ensures FitsAt(ps, r', c)
  {
    ProjAppend(r.journal, e, c);
    ProjAppend(r.stream, e, c);
    PrefixNext(Proj(r.journal, c), Planned(ps, c));
    if |Proj(r.stored, c)| <= |Proj(r.journal, c)| {
      PrefixNext(Proj(r.stream, c), Planned(ps, c));
    }
    RecordYields(ps, c, r.journal);
    RecordYields(ps, c, r'.journal);
    RecordYields(ps, c, r.stored);
    PlannedShape(ps[c]);
  }

  // ----- what a coroutine finds in the record -----

  /** At the effect of move `k`: a dispatch is live with the planned entry when the stored
      events are used up, and replays the planned entry otherwise. */
  lemma {:induction false} DispatchPlanned(w: World, ps: Plans, r: Record, c: Id, k: nat, id: string, data: Node)
    requires c in ps && ps[c].id == c && FitsAt(ps, r, c)
    requires k < |ps[c].moves| && ps[c].moves[k].EffectMove?
    requires |Proj(r.journal, c)| == Effects(ps[c].moves, k)
    requires Dispatch(w.max, w.handler(c, Effects(ps[c].moves, k)), id, data, None).entry == ps[c].moves[k].entry
    ensures var entry := ps[c].moves[k].entry;
            var d := DispatchOf(w, r, c, id, data);
            && d.Some?
            && (|Proj(r.stored, c)| <= Effects(ps[c].moves, k) ==> d.value.Live? && d.value.entry == entry)
            && (|Proj(r.stored, c)| > Effects(ps[c].moves, k) ==> d.value == Replayed(entry, []))
  {
    var p := ps[c];
    EffectAt(p, k);
    RecordYields(ps, c, r.journal);
    RecordYields(ps, c, r.stored);
    ReplayMatchesLive(w.max, w.handler(c, Effects(p.moves, k)), w.handler(c, Effects(p.moves, k)), id, data);
  }

  /** A Close is stored exactly when all events of the coroutine are. */
  lemma {:induction false} ClosePlanned(ps: Plans, r: Record, c: Id)
    requires c in ps && ps[c].id == c && FitsAt(ps, r, c)
    requires |Proj(r.journal, c)| == Effects(ps[c].moves, |ps[c].moves|)
    ensures Records(r, RecordClose(r, c, ps[c].result), c, Close(c, ps[c].result))
    ensures |Proj(r.journal, c)| < |Planned(ps, c)| && Planned(ps, c)[|Proj(r.journal, c)|] == Close(c, ps[c].result)
  {
    RecordYields(ps, c, r.stored);
    PlannedShape(ps[c]);
  }
}
