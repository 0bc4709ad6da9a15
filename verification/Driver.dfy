/** The driver of one session as it is written: a stream, a replay index and a journal that
    are updated in place, an effect dispatched through the middleware to the replay lane,
    and the loop that drives a coroutine. Each operation is held to the engine's record. */
module Driver {
  import opened Text
  import opened Ir
  import opened Kernel
  import opened Generator
  import opened Lanes
  import opened Journal
  import opened RunPlan
  import opened PlanIndex
  import opened Engine
  import opened EngineRecord
  import opened EngineInvariant
  import opened DriverPlan
  import opened Recovery
  import opened LiveRun
  import opened Replaying
  import opened Settling
  import opened Races
  import opened Story

  // ----- the generator -----

  /** `next` and `throw` return when the generator halts. */
  method Advance(start: Gen) returns (g: Gen)
    requires Halted(RunOn(start))
    ensures g == RunOn(start)
  {
    g := start;
    ghost var n := StepsToHalt(start);
    ghost var left := n;
    while !Halted(g)
      invariant 0 <= left <= n && Run(g, [], left) == (RunOn(start), [])
      decreases left
    {
      g := Step(g);
      left := left - 1;
    }
  }

  lemma {:induction false} StepsToHalt(g: Gen) returns (n: nat)
    requires Halted(RunOn(g))
    ensures Run(g, [], n) == (RunOn(g), [])
  {
    if exists h :: ComesTo(g, h) {
      var h :| ComesTo(g, h) && h == RunOn(g);
      n :| Run(g, [], n) == (h, []);
    } else {
      assert Run(g, [], 0) == (g, []);
      n := 0;
    }
  }

  // ----- the session -----

  const Divergence := Fail(HostError("replay does not match the journal", "DivergenceError"))

  /** What the chain came to: its answer, the identity that a live dispatch saw at the
      boundary, and whether the lane consumed the entry at the cursor. */
  datatype Passed = Passed(answer: Answer, boundary: Option<Identity>, consumed: bool)

  function Lane(max: seq<Middleware>, handler: Handler, id: string, data: Node, entry: Option<Entry>): Passed
  {
    match Through(max, id, data)
    case Stopped(a) => Passed(a, None, false)
    case Reached(id', data', post) =>
      var boundary := IdentityOf(id', data');
      if entry.None? then Passed(post(handler(id', data')), Some(boundary), false)
      else if entry.value.identity == boundary then Passed(post(Feed(entry.value.result)), None, true)
      else Passed(post(Divergence), None, false)
  }

  /** A dispatch in terms of the lane: consumed entries are replayed as they are, others are
      compared with the request before it entered the chain. */
  lemma {:induction false} DispatchByLane(max: seq<Middleware>, handler: Handler, id: string, data: Node,
                                          stored: Option<Entry>)
    ensures Lane(max, handler, id, data, stored).consumed ==> stored.Some?
    ensures var l, d := Lane(max, handler, id, data, stored), Dispatch(max, handler, id, data, stored);
            if stored.None? then d.Live? && d.entry == Entry(l.boundary.GetOr(IdentityOf(id, data)), Settle(l.answer))
            else if l.consumed || stored.value.identity == IdentityOf(id, data) then
              d.Replayed? && d.entry == stored.value
            else d.Diverged?
  {
    hide IdentityOf, Settle, Feed;
  }

  /** The same of a whole request. */
  lemma {:induction false} ServeByLane(max: seq<Middleware>, handler: Handler, r: Record, a: Asked)
    ensures var stored := Peek(r.stored, r.cursors, a.co);
            var l, s := Lane(max, handler, a.id, a.data, stored), Serve(max, handler, r, a);
            && (l.consumed ==> stored.Some?)
            && if stored.None? && CloseOf(r.stored, a.co).Some? then s.result == None && s.record == r
               else if stored.None? then
                 var entry := Entry(l.boundary.GetOr(IdentityOf(a.id, a.data)), Settle(l.answer));
                 s.result == Some(entry.result) && s.record == RecordLive(r, a.co, entry)
               else if l.consumed || stored.value.identity == IdentityOf(a.id, a.data) then
                 s.result == Some(stored.value.result) && s.record == RecordReplay(r, a.co, stored.value)
               else s.result == None && s.record == r
  {
    hide IdentityOf, Settle, Lane, Dispatch, Peek, CloseOf, RecordLive, RecordReplay;
    DispatchByLane(max, handler, a.id, a.data, Peek(r.stored, r.cursors, a.co));
  }

  class Session {
    const stream: InMemoryStream
    const index: ReplayIndex
    var journal: seq<Event>
    ghost const stored: seq<Event>

    ghost predicate Ready()
      reads this, index
    {
      index.Indexes(stored)
    }

    ghost function Now(): Record
      reads this, stream, index
    {
      Record(stream.events, stored, index.cursors, journal)
    }

    /** A session reads the stream once and starts with no cursor and no journal. */
    constructor (s: InMemoryStream)
      ensures Ready() && stream == s && fresh(index)
      ensures Now() == Record(s.events, s.events, map[], [])
    {
      var events := s.ReadAll();
      var i := new ReplayIndex(events);
      stream := s;
      index := i;
      journal := [];
      stored := events;
    }

    /** The replay lane. It substitutes the entry at the cursor, consuming it and recording
        it in the journal; without an entry it notes the identity of the request and goes on
        to the handler. */
    method AtBoundary(handler: Handler, c: Id, id: string, data: Node) returns (r: Passed)
      requires Ready()
      modifies this`journal, index`cursors
      ensures Ready()
      ensures var entry := Peek(stored, old(index.cursors), c);
              && r == Lane([], handler, id, data, entry)
              && Now() == if r.consumed then RecordReplay(old(Now()), c, entry.value) else old(Now())
    {
      hide IdentityOf, Settle, Feed, YieldsOf, CloseOf;
      var boundary := IdentityOf(id, data);
      var entry := index.PeekYield(c, stored);
      match entry {
        case None => r := Passed(handler(id, data), Some(boundary), false);
        case Some(e) =>
          if e.identity == boundary {
            index.ConsumeYield(c);
            journal := journal + [Yield(c, e)];
            r := Passed(Feed(e.result), None, true);
          } else {
            r := Passed(Divergence, None, false);
          }
      }
    }

    /** The middleware chain down to the replay lane. */
    method RunLane(max: seq<Middleware>, handler: Handler, c: Id, id: string, data: Node) returns (r: Passed)
      requires Ready()
      modifies this`journal, index`cursors
      ensures Ready()
      ensures var entry := Peek(stored, old(index.cursors), c);
              && r == Lane(max, handler, id, data, entry)
              && Now() == if r.consumed then RecordReplay(old(Now()), c, entry.value) else old(Now())
      decreases |max|
    {
      hide IdentityOf, Settle, Feed, YieldsOf, CloseOf;
      if max == [] {
        r := AtBoundary(handler, c, id, data);
      } else {
        match max[0](id, data) {
          case ShortCircuit(a) => r := Passed(a, None, false);
          case Delegate(id', data', post) =>
            var inner := RunLane(max[1..], handler, c, id', data');
            r := inner.(answer := post(inner.answer));
        }
      }
    }

    /** One effect of `c`: None is a divergence. A live result is in the stream when this
        returns; a replayed one is the stored result itself. */
    method DispatchEffect(max: seq<Middleware>, handler: Handler, c: Id, id: string, data: Node)
      returns (r: Option<EventResult>)
      requires Ready()
      modifies this`journal, stream, index`cursors
      ensures Ready()
      ensures var s := Serve(max, handler, old(Now()), Asked(c, id, data));
              r == s.result && Now() == s.record
    {
      hide IdentityOf, Settle, Feed, YieldsOf, CloseOf, Lane, Dispatch, DispatchWith, Serve, Peek;
      var source := IdentityOf(id, data);
      ServeByLane(max, handler, Now(), Asked(c, id, data));
      var entry := index.PeekYield(c, stored);
      var closed := index.HasClose(c, stored);
      if entry.None? && closed {
        return None;
      }
      var before := Cursor(index.cursors, c);
      var way := RunLane(max, handler, c, id, data);
      var after := Cursor(index.cursors, c);
      match entry {
        case Some(e) =>
          if after > before {
            r := Some(e.result);
          } else if e.identity == source {
            // no request reached the lane, or what the lane raised was caught above it
            index.ConsumeYield(c);
            journal := journal + [Yield(c, e)];
            r := Some(e.result);
          } else {
            r := None;
          }
        case None =>
          var result := Settle(way.answer);
          var event := Yield(c, Entry(way.boundary.GetOr(source), result));
          stream.Append(event);
          journal := journal + [event];
          r := Some(result);
      }
    }

    /** The Close of `c`, appended unless the stream held one when the session began. */
    method AppendClose(c: Id, result: EventResult)
      requires Ready()
      modifies this`journal, stream
      ensures Ready() && Now() == RecordClose(old(Now()), c, result)
    {
      var closed := index.HasClose(c, stored);
      if !closed {
        stream.Append(Close(c, result));
      }
      journal := journal + [Close(c, result)];
    }

    /** A session's requests, one after another. */
    method DispatchAll(max: seq<Middleware>, handlers: nat -> Handler, asks: seq<Asked>)
      returns (results: seq<Option<EventResult>>)
      requires Ready()
      modifies this`journal, stream, index`cursors
      ensures Ready()
      ensures var h := ServeAll(max, handlers, old(Now()), asks);
              results == h.results && Now() == h.record
    {
      hide Serve, ServeAll;
      results := [];
      var i := 0;
      ghost var start := Now();
      NothingServed(max, handlers, start, asks);
      while i < |asks|
        invariant 0 <= i <= |asks| && Ready()
        invariant var h := ServeAll(max, handlers, start, asks[..i]);
                  results == h.results && Now() == h.record
      {
        ServedNext(max, handlers, start, asks, i);
        var r := DispatchEffect(max, handlers(i), asks[i].co, asks[i].id, asks[i].data);
        results := results + [r];
        i := i + 1;
      }
      assert asks[..i] == asks;
    }

    /** The loop of one coroutine: it advances the generator, serves each effect, runs the
        children of each `all`, and closes. A coroutine that an earlier session cancelled is
        not run at all. Any other comes, on any stream that fits the uninterrupted run,
        whatever prefix of it is there, to the planned result, and of every coroutine of the
        tree journal and stream end up with exactly the planned events. */
    method DriveKernel(w: World, c: Id, expr: Node, env: Env, ghost ps: Plans, ghost root: Plan)
      returns (result: EventResult)
      requires Ready() && (CloseOf(stored, c) == Some(Cancelled) || (Indexed(w, ps, root) && TreeFits(ps, Now())))
      requires c in ps && ps[c].expr == expr && ps[c].env == env && Untouched(journal, c)
      modifies this`journal, stream, index`cursors
      ensures Ready() && result == Completed(stored, c, ps[c].result)
      ensures CloseOf(stored, c) != Some(Cancelled) ==>
                exists t :: Happens(w, c, expr, env, t) && Shown(t.outcome, result)
      ensures CloseOf(stored, c) == Some(Cancelled) ==>
                Now() == old(Now()).(journal := old(journal) + [Close(c, Cancelled)])
      ensures CloseOf(stored, c) != Some(Cancelled) ==>
                TreeFits(ps, Now()) && Complete(ps, journal, ps[c]) && Complete(ps, stream.events, ps[c])
      ensures OnlyBelow(ps, old(Now()), Now(), c)
      decreases ps[c], 1
    {
      hide Valid, Indexed, TreeFits, Complete, At, OnlyBelow, GenAt, RunOn, Untouched, Records, CloseOf, Happens,
        Shown, TaleOf;
      ghost var start := Now();
      var preClose := index.GetClose(c, stored);
      if preClose == Some(Cancelled) {
        journal := journal + [Close(c, Cancelled)];
        CancelledOnlyBelow(ps, start, c);
        return Cancelled;
      }
      ghost var p := ps[c];
      ghost var k := 0;
      IndexedAt(w, ps, root, c);
      TaleHappens(w, p);
      AtStart(w, ps, root, Now(), c);
      OnlyBelowItself(ps, Now(), c);
      Begins(w, ps, root, c);
      var g := Advance(Start(expr, env));
      var spawned := 0;
      while !g.control.OutC?
        invariant Ready() && 0 <= k <= |p.moves|
        invariant At(w, ps, root, Now(), c, k, 0) && OnlyBelow(ps, old(Now()), Now(), c)
        invariant g == GenAt(p, k) && spawned == Forks(p.moves, k)
        decreases |p.moves| - k
      {
        ghost var now := Now();
        GoesOn(w, ps, root, c, k);
        var answer;
        match g.control.request {
          case Standard(id, data) =>
            EffectRecorded(w, ps, root, Now(), c, k, id, data);
            var r := DispatchEffect(w.max, w.handler(c, |YieldsOf(journal, c)|), c, id, data);
            AtEffect(w, ps, root, now, Now(), c, k);
            answer := Feed(r.value);
          case Fork(_, branches, childEnv) =>
            var values := OrchestrateAll(w, c, branches, spawned, childEnv, ps, root, k);
            AtJoin(w, ps, root, Now(), c, k);
            answer := Ok(Arr(values));
            spawned := spawned + |branches|;
        }
        OnlyBelowTransitive(ps, old(Now()), now, Now(), c);
        g := Advance(Resume(g, answer));
        k := k + 1;
      }
      Finishes(w, ps, root, c, k);
      ghost var now := Now();
      AtEnd(w, ps, root, Now(), c);
      result := Settle(g.control.answer);
      AppendClose(c, result);
      StreamComplete(w, ps, root, Now(), c);
      OnlyBelowTransitive(ps, old(Now()), now, Now(), c);
    }

    /** The children of an `all`, one after another: one of the orders of the engine. */
    method OrchestrateAll(w: World, c: Id, branches: seq<Node>, first: nat, env: Env,
                          ghost ps: Plans, ghost root: Plan, ghost k: nat)
      returns (values: seq<Node>)
      requires Ready() && At(w, ps, root, Now(), c, k, 0) && k < |ps[c].moves|
      requires GenAt(ps[c], k).control.YieldC? && first == Forks(ps[c].moves, k)
      requires exists kind :: GenAt(ps[c], k).control.request == Fork(kind, branches, env)
      modifies this`journal, stream, index`cursors
      ensures Ready() && ps[c].moves[k].ForkMove? && |ps[c].moves[k].children| == |branches|
      ensures At(w, ps, root, Now(), c, k, |branches|)
      ensures |values| == |branches|
      ensures forall i :: 0 <= i < |branches| ==> ps[c].moves[k].children[i].result == OkResult(values[i])
      ensures values == ChildValues(ps[c].moves[k].children)
      ensures OnlyBelow(ps, old(Now()), Now(), c)
      decreases ps[c], 0
    {
      hide Valid, Indexed, TreeFits, Complete, OnlyBelow, GenAt, Untouched, CloseOf;
      ForkAt(w, ps, root, c, k);
      hide At;
      OnlyBelowItself(ps, Now(), c);
      ghost var cs := ps[c].moves[k].children;
      values := [];
      var i := 0;
      while i < |branches|
        invariant Ready() && 0 <= i <= |branches|
        invariant At(w, ps, root, Now(), c, k, i) && OnlyBelow(ps, old(Now()), Now(), c)
        invariant |values| == i && forall j :: 0 <= j < i ==> cs[j].result == OkResult(values[j])
      {
        var child := ChildId(c, first + i);
        ghost var before := Now();
        assert cs[i].id == child;
        ChildStarts(w, ps, root, before, c, k, i);
        var r := DriveKernel(w, child, branches[i], env, ps, root);
        AtChild(w, ps, root, before, Now(), c, k, i);
        OnlyBelowTransitive(ps, old(Now()), before, Now(), c);
        values := values + [r.value];
        i := i + 1;
      }
    }

    /** The children of a `race`. Those in `ended` come to their ends in that order until one
        settles the race; all that have not ended then are halted and write cancelled Closes.
        The children in `unended` do not end by themselves. The record of the session is
        `settling` when the race is settled, after `k` children. */
    method OrchestrateRace(w: World, c: Id, branches: seq<Node>, first: nat, env: Env, ended: seq<nat>,
                           unended: seq<nat>, ghost plans: seq<Plan>)
      returns (settled: Option<Answer>, ghost k: nat, ghost settling: Record)
      requires Ready() && Runners(c, branches, first, env, plans) && IsSplit(ended, unended, |branches|)
      requires forall i :: 0 <= i < |plans| ==> Unstarted(Now(), plans[i].id)
      requires forall j :: 0 <= j < |ended| ==> Startable(w, Now(), plans[ended[j]])
      modifies this`journal, stream, index`cursors
      ensures Ready() && k <= |ended| && settling.stored == stored
      ensures settled == if branches == [] then Some(EmptyRace)
                         else RaceAfter(|branches|, Arrivals(ended, Comes(stored, plans))).settled
      ensures branches == [] || SettledBy(settled, ended, Comes(stored, plans), k)
      ensures forall j :: 0 <= j < k ==> RanToEnd(w, settling, plans[ended[j]])
      ensures forall j :: k <= j < |ended| ==> Unstarted(settling, plans[ended[j]].id)
      ensures forall j :: 0 <= j < |unended| ==> Unstarted(settling, plans[unended[j]].id)
      ensures Now() == if settled.Some? then HaltAll(settling, c, first, ended[k..] + unended) else settling
    {
      hide Valid, Indexed, TreeFits, Complete, OnlyBelow, GenAt, Untouched, CloseOf, Startable, RaceNext, RaceAfter,
        Subplans, IndexOf, Runners, Arrivals, Completed, ChildId, Unstarted, RanToEnd;
      k, settling := 0, Now();
      RunnerCount(c, branches, first, env, plans);
      if branches == [] {
        return Some(EmptyRace), k, settling;
      }
      var join := new RaceJoin(|branches|);
      ghost var results := Comes(stored, plans);
      NoArrivals(ended, results);
      var i := 0;
      while i < |ended| && join.settled.None?
        invariant 0 <= i <= |ended| && Ready() && fresh(join) && join.children == |branches|
        invariant join.Now() == RaceAfter(|branches|, Arrivals(ended[..i], results))
        invariant i > 0 ==> RaceAfter(|branches|, Arrivals(ended[..i - 1], results)).settled.None?
        invariant forall j :: 0 <= j < i ==> RanToEnd(w, Now(), plans[ended[j]])
        invariant forall j :: i <= j < |ended| ==> Unstarted(Now(), plans[ended[j]].id)
        invariant forall j :: i <= j < |ended| ==> Startable(w, Now(), plans[ended[j]])
        invariant forall j :: 0 <= j < |unended| ==> Unstarted(Now(), plans[unended[j]].id)
      {
        var r := DriveRunner(w, c, branches, first, env, ended, unended, i, plans);
        join.Complete(Completion(ended[i], r));
        ArrivalsNext(ended, results, i);
        i := i + 1;
      }
      SettledStays(|branches|, ended, results, i);
      settled, k, settling := join.settled, i, Now();
      if settled.Some? {
        HaltLosers(c, first, ended[i..] + unended);
      }
    }

    /** One child of a race; the others are left as they are. */
    method DriveRunner(w: World, c: Id, branches: seq<Node>, first: nat, env: Env, ended: seq<nat>,
                       unended: seq<nat>, i: nat, ghost plans: seq<Plan>)
      returns (r: EventResult)
      requires Ready() && Runners(c, branches, first, env, plans) && IsSplit(ended, unended, |branches|)
      requires i < |ended| && |plans| == |branches|
      requires forall j :: 0 <= j < i ==> RanToEnd(w, Now(), plans[ended[j]])
      requires forall j :: i <= j < |ended| ==> Unstarted(Now(), plans[ended[j]].id)
      requires forall j :: i <= j < |ended| ==> Startable(w, Now(), plans[ended[j]])
      requires forall j :: 0 <= j < |unended| ==> Unstarted(Now(), plans[unended[j]].id)
      modifies this`journal, stream, index`cursors
      ensures Ready() && r == Comes(stored, plans)[ended[i]]
      ensures forall j :: 0 <= j <= i ==> RanToEnd(w, Now(), plans[ended[j]])
      ensures forall j :: i < j < |ended| ==> Unstarted(Now(), plans[ended[j]].id)
      ensures forall j :: i < j < |ended| ==> Startable(w, Now(), plans[ended[j]])
      ensures forall j :: 0 <= j < |unended| ==> Unstarted(Now(), plans[unended[j]].id)
    {
      hide Valid, Indexed, TreeFits, Complete, OnlyBelow, GenAt, Untouched, CloseOf, Startable, Subplans, IndexOf,
        Runners, ChildId, Unstarted, RanToEnd, TreeOf;
      var child := ended[i];
      ghost var before, p := Now(), plans[child];
      RunnerAt(c, branches, first, env, plans, child);
      RunnerStarts(w, before, p);
      r := DriveKernel(w, ChildId(c, first + child), branches[child], env, TreeOf(w, p), p);
      RunnerEnds(w, before, Now(), p);
      forall j | 0 <= j < |ended| && j != i
        ensures j < i ==> RanToEnd(w, Now(), plans[ended[j]])
        ensures j > i ==> Unstarted(Now(), plans[ended[j]].id) && Startable(w, Now(), plans[ended[j]])
      {
        RunnerAt(c, branches, first, env, plans, ended[j]);
        OtherRunner(w, before, Now(), c, first + child, first + ended[j], p, plans[ended[j]]);
      }
      forall j | 0 <= j < |unended| ensures Unstarted(Now(), plans[unended[j]].id) {
        RunnerAt(c, branches, first, env, plans, unended[j]);
        OtherRunner(w, before, Now(), c, first + child, first + unended[j], p, plans[unended[j]]);
      }
    }

    /** The children that are halted when a race is settled write their cancelled Closes. */
    method HaltLosers(c: Id, first: nat, losers: seq<nat>)
      requires Ready()
      modifies this`journal, stream
      ensures Ready() && Now() == HaltAll(old(Now()), c, first, losers)
    {
      hide RecordClose, ChildId;
      var i := 0;
      while i < |losers|
        invariant 0 <= i <= |losers| && Ready()
        invariant Now() == HaltAll(old(Now()), c, first, losers[..i])
      {
        assert losers[..i + 1][..i] == losers[..i];
        AppendClose(ChildId(c, first + losers[i]), Cancelled);
        i := i + 1;
      }
      assert losers[..i] == losers;
    }

    /** A race that an earlier session has won is won by the same child again, in every order
        in which that child comes to complete, when no child that completes without a
        cancelled Close would succeed with another value. */
    method ResumeRace(w: World, c: Id, branches: seq<Node>, first: nat, env: Env, ended: seq<nat>,
                      unended: seq<nat>, ghost plans: seq<Plan>, ghost winner: nat, ghost v: Node)
      returns (settled: Option<Answer>)
      requires Ready() && Runners(c, branches, first, env, plans) && IsSplit(ended, unended, |branches|)
      requires forall i :: 0 <= i < |plans| ==> Unstarted(Now(), plans[i].id)
      requires forall j :: 0 <= j < |ended| ==> Startable(w, Now(), plans[ended[j]])
      requires winner in ended && plans[winner].result == OkResult(v)
      requires CloseOf(stored, plans[winner].id) == Some(OkResult(v))
      requires forall i :: i in ended && plans[i].result.OkResult? && plans[i].result.value != v ==>
                 CloseOf(stored, plans[i].id) == Some(Cancelled)
      modifies this`journal, stream, index`cursors
      ensures settled == Some(Ok(v))
    {
      hide Startable, RaceAfter, CloseOf, Valid, Unstarted, RanToEnd, ChildId;
      ghost var k, settling;
      settled, k, settling := OrchestrateRace(w, c, branches, first, env, ended, unended, plans);
      WonAgain(ended, Comes(stored, plans), winner, v);
    }
  }

  /** A race that one session has settled is settled alike by the next session on the stream,
      in whatever order the children complete there. No child may have ended in a session
      before; the losers of the first need not ever end. */
  method RaceThenResume(stream: InMemoryStream, w: World, c: Id, branches: seq<Node>, first: nat, env: Env,
                        ended: seq<nat>, unended: seq<nat>, order: seq<nat>, ghost plans: seq<Plan>)
    returns (settled: Option<Answer>, again: Option<Answer>)
    requires Runners(c, branches, first, env, plans) && IsSplit(ended, unended, |branches|)
    requires IsSplit(order, [], |branches|)
    requires forall i :: 0 <= i < |plans| ==>
               CloseOf(stream.events, plans[i].id) in {None, Some(Cancelled)}
    requires forall j :: 0 <= j < |ended| ==> Startable(w, FreshRecord(stream.events), plans[ended[j]])
    modifies stream
    ensures settled.Some? ==> again == settled
  {
    hide Startable, RaceAfter, CloseOf, Valid, Unstarted, RanToEnd, ChildId, Runners, Comes, SettledBy, HaltAll;
    var session := new Session(stream);
    RunnerCount(c, branches, first, env, plans);
    AllUnstarted(stream.events, plans);
    ghost var stored := stream.events;
    ghost var k, settling;
    settled, k, settling := session.OrchestrateRace(w, c, branches, first, env, ended, unended, plans);
    if settled.Some? {
      LeftBehind(w, settling, c, branches, first, env, ended, unended, k, plans);
      var next := new Session(stream);
      AllUnstarted(stream.events, plans);
      ghost var k', settling';
      again, k', settling' := next.OrchestrateRace(w, c, branches, first, env, order, [], plans);
      if branches != [] {
        SettledAgain(settled, ended, order, Comes(stored, plans), Comes(next.stored, plans), k);
      }
    } else {
      again := None;
    }
  }

  /** A whole run on whatever an earlier session left behind: any stream that holds, of each
      coroutine, a prefix of its planned events. The result is the planned one, and of every
      coroutine the stream ends up with exactly the planned events. */
  method Execute(stream: InMemoryStream, w: World, p: Program, ghost root: Plan)
    returns (result: EventResult, journal: seq<Event>)
    requires PlanOf(w, p, root) && StreamFits(IndexOf(w, root), stream.events)
    modifies stream
    ensures result == root.result
    ensures forall c :: Proj(stream.events, c) == Planned(IndexOf(w, root), c)
    ensures forall c :: Proj(journal, c) == Planned(IndexOf(w, root), c)
    ensures exists t :: Happens(w, p.root, p.expr, p.env, t) && Shown(t.outcome, result) &&
                        Chronicled(stream.events, p.root, t) && Chronicled(journal, p.root, t)
  {
    hide Valid, Indexed, StreamFits, TreeFits, Complete, OnlyBelow, Happens, Shown, Chronicled, TaleOf;
    ghost var ps := IndexOf(w, root);
    var session := new Session(stream);
    ghost var before := session.Now();
    FirstRecord(ps, stream.events);
    RootIndexed(w, ps, root);
    RootNotCancelled(w, ps, root, before);
    result := session.DriveKernel(w, p.root, p.expr, p.env, ps, root);
    journal := session.journal;
    Whole(w, root, before, session.Now());
    TaleHappens(w, root);
    WholeTale(w, root, stream.events);
    WholeTale(w, root, journal);
  }

  /** Recovery in the session as it is written. If one uninterrupted interleaving of the
      program finishes, a session on the stream that any schedule of steps and crashes has
      left behind comes to the same result, and the stream ends up with the same events of
      every coroutine. */
  method ExecuteAfterCrashes(stream: InMemoryStream, w: World, p: Program, ghost live: seq<Action>,
                             ghost crashed: seq<Action>)
    returns (result: EventResult)
    requires CrashFree(live) && Finished(p, StateAfter(w, p, live))
    requires stream.events == StateAfter(w, p, crashed).record.stream
    modifies stream
    ensures result == StateAfter(w, p, live).tasks[p.root].phase.result
    ensures forall c :: Proj(stream.events, c) == Proj(StateAfter(w, p, live).record.stream, c)
    ensures exists t :: Happens(w, p.root, p.expr, p.env, t) && Shown(t.outcome, result) &&
                        Chronicled(stream.events, p.root, t)
  {
    hide StateAfter, Valid, StreamFits, Happens, Shown, Chronicled;
    ghost var root := RunGivesPlan(w, p, live);
    CrashRecovery(w, p, root, live);
    StreamAlwaysFits(w, p, root, crashed);
    var journal;
    result, journal := Execute(stream, w, p, root);
  }

  /** The replay boundary between two sessions: the second, on the stream the first has left,
      gives back the same results, whatever its handlers are, and appends nothing. */
  method DispatchThenReplay(stream: InMemoryStream, max: seq<Middleware>, handlers: nat -> Handler,
                            handlers': nat -> Handler, asks: seq<Asked>)
    returns (results: seq<Option<EventResult>>, replayed: seq<Option<EventResult>>, ghost kept: seq<Event>)
    modifies stream
    ensures results == ServeAll(max, handlers, FreshRecord(old(stream.events)), asks).results
    ensures kept == ServeAll(max, handlers, FreshRecord(old(stream.events)), asks).record.stream
    ensures NoDivergence(results) ==> replayed == results && stream.events == kept
  {
    hide ServeAll;
    ghost var before := stream.events;
    var session := new Session(stream);
    results := session.DispatchAll(max, handlers, asks);
    kept := stream.events;
    var next := new Session(stream);
    replayed := next.DispatchAll(max, handlers', asks);
    if NoDivergence(results) {
      SessionReplays(max, handlers, handlers', before, asks);
    }
  }

  lemma {:induction false} NothingServed(max: seq<Middleware>, handlers: nat -> Handler, r: Record, asks: seq<Asked>)
    ensures ServeAll(max, handlers, r, asks[..0]) == History([], r, [])
  {
  }

  lemma {:induction false} ServedNext(max: seq<Middleware>, handlers: nat -> Handler, r: Record, asks: seq<Asked>,
                                      i: nat)
    requires i < |asks|
    ensures var before := ServeAll(max, handlers, r, asks[..i]);
            var s := Serve(max, handlers(i), before.record, asks[i]);
            var h := ServeAll(max, handlers, r, asks[..i + 1]);
            h.results == before.results + [s.result] && h.record == s.record
  {
    assert asks[..i + 1][..i] == asks[..i] && asks[..i + 1][i] == asks[i];
  }

  // ----- cancelled coroutines -----

  lemma {:induction false} CancelledOnlyBelow(ps: Plans, r: Record, c: Id)
    requires c in ps
    ensures OnlyBelow(ps, r, r.(journal := r.journal + [Close(c, Cancelled)]), c)
  {
    var e := Close(c, Cancelled);
    forall d | d !in ps || !Below(d, c) ensures SameAt(r, r.(journal := r.journal + [e]), d) {
      ProjAppend(r.journal, e, d);
      OtherYields(r.journal, e, d);
    }
  }

  /** A stream that fits the plan of a child that succeeds does not show it as cancelled. */
  lemma {:induction false} NotCancelled(ps: Plans, r: Record, c: Id)
    requires TreeFits(ps, r) && c in ps && ps[c].id == c && ps[c].result.OkResult?
    ensures CloseOf(r.stored, c) != Some(Cancelled)
  {
    assert FitsAt(ps, r, c);
    YieldsOfProj(r.stored, c);
    PlannedClose(ps[c], Proj(r.stored, c));
  }

  /** The next child of a fork is where a driver may start it. */
  lemma {:induction false} ChildStarts(w: World, ps: Plans, root: Plan, r: Record, c: Id, k: nat, i: nat)
    requires At(w, ps, root, r, c, k, i) && k < |ps[c].moves| && ps[c].moves[k].ForkMove?
    requires i < |ps[c].moves[k].children|
    ensures Indexed(w, ps, root) && TreeFits(ps, r)
    ensures var d := ps[c].moves[k].children[i];
            && d.id in ps && ps[d.id] == d && d.result.OkResult?
            && CloseOf(r.stored, d.id) != Some(Cancelled) && Untouched(r.journal, d.id)
  {
    hide Valid, TreeFits, CloseOf, GenAt, Untouched;
    var d := ps[c].moves[k].children[i];
    assert IsChild(ps[c], k, i, d);
    IndexedAt(w, ps, root, c);
    ChildFacts(w, ps[c], k, i, d);
    NotCancelled(ps, r, d.id);
  }

  lemma {:induction false} FirstRecord(ps: Plans, events: seq<Event>)
    requires StreamFits(ps, events)
    ensures TreeFits(ps, Record(events, events, map[], []))
  {
    var r := Record(events, events, map[], []);
    forall c ensures FitsAt(ps, r, c) {
      assert Proj(events, c) <= Planned(ps, c);
    }
  }

  lemma {:induction false} Whole(w: World, root: Plan, before: Record, r: Record)
    requires Valid(w, root) && StreamFits(IndexOf(w, root), before.stream) && before.journal == []
    requires TreeFits(IndexOf(w, root), r) && OnlyBelow(IndexOf(w, root), before, r, root.id)
    requires Complete(IndexOf(w, root), r.journal, root) && Complete(IndexOf(w, root), r.stream, root)
    ensures forall c :: Proj(r.stream, c) == Planned(IndexOf(w, root), c)
    ensures forall c :: Proj(r.journal, c) == Planned(IndexOf(w, root), c)
  {
    hide Valid, Subplans, TreeFits;
    var ps := IndexOf(w, root);
    forall c ensures Proj(r.stream, c) == Planned(ps, c) && Proj(r.journal, c) == Planned(ps, c) {
      if c in ps {
        assert ps[c] in Subplans(root) && ps[c].id == c;
      } else {
        assert SameAt(before, r, c);
        assert Proj(before.stream, c) <= Planned(ps, c);
      }
    }
  }
}
