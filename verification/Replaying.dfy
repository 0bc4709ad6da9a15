/** The replay boundary over whole sessions: what one session records, the next one on the
    same stream gives back, whatever its handlers are. */
module Replaying {
  import opened Text
  import opened Ir
  import opened Kernel
  import opened Lanes
  import opened Journal
  import opened RunPlan
  import opened Engine
  import opened EngineRecord

  /** A request of a coroutine, and what the handlers below the boundary answer to it. */
  datatype Asked = Asked(co: Id, id: string, data: Node)

  /** What serving one request comes to: None for a divergence, the record after it, and the
      requests that reached the handlers below the boundary. */
  datatype Served = Served(result: Option<EventResult>, record: Record, handled: seq<(string, Node)>)

  function Serve(max: seq<Middleware>, handler: Handler, r: Record, a: Asked): Served
  {
    match DispatchWith(max, handler, r, a.co, a.id, a.data)
    case None => Served(None, r, [])
    case Some(Diverged(handled)) => Served(None, r, handled)
    case Some(Live(entry, handled)) => Served(Some(entry.result), RecordLive(r, a.co, entry), handled)
    case Some(Replayed(entry, handled)) => Served(Some(entry.result), RecordReplay(r, a.co, entry), handled)
  }

  /** A coroutine that has closed and has no stored entry left gets no answer, and leaves no trace. */
  lemma {:induction false} BeyondClose(max: seq<Middleware>, handler: Handler, r: Record, a: Asked)
    requires CloseOf(r.stored, a.co).Some? && Cursor(r.cursors, a.co) >= |YieldsOf(r.stored, a.co)|
    ensures Serve(max, handler, r, a) == Served(None, r, [])
  {
    hide CloseOf, YieldsOf;
  }

  datatype History = History(results: seq<Option<EventResult>>, record: Record, handled: seq<(string, Node)>)

  /** A session on the events `stored` before it has served anything. */
  function FreshRecord(stored: seq<Event>): Record { Record(stored, stored, map[], []) }

  /** The requests of a session one after another; `handlers` answers at each position. */
  function ServeAll(max: seq<Middleware>, handlers: nat -> Handler, r: Record, asks: seq<Asked>): (h: History)
    ensures |h.results| == |asks|
  {
    if asks == [] then History([], r, [])
    else
      var n := |asks| - 1;
      var before := ServeAll(max, handlers, r, asks[..n]);
      var s := Serve(max, handlers(n), before.record, asks[n]);
      History(before.results + [s.result], s.record, before.handled + s.handled)
  }

  predicate NoDivergence(results: seq<Option<EventResult>>)
  {
    forall i :: 0 <= i < |results| ==> results[i].Some?
  }

  // ----- one session -----

  /** Of each coroutine, the stored yields and the journaled ones are prefixes of those in the
      stream, which has no others; the cursor stands at the end of the shorter prefix. */
  ghost predicate InStep(r: Record)
  {
    forall c :: InStepAt(r, c)
  }

  ghost predicate InStepAt(r: Record, c: Id)
  {
    var stored, told, kept := YieldsOf(r.stored, c), YieldsOf(r.journal, c), YieldsOf(r.stream, c);
    && stored <= kept && told <= kept && |kept| == EngineRecord.Max(|stored|, |told|)
    && Cursor(r.cursors, c) == EngineRecord.Min(|stored|, |told|)
  }

  lemma {:induction false} YieldsNext(events: seq<Event>, e: Event, c: Id)
    requires e.Yield?
    ensures YieldsOf(events + [e], c) == YieldsOf(events, c) + (if e.co == c then [e.entry] else [])
  {
    assert (events + [e])[..|events|] == events;
  }

  /** A request that is answered leaves its entry in the journal, and the streams in step. */
  lemma {:induction false} ServeKeeps(max: seq<Middleware>, handler: Handler, r: Record, a: Asked)
    requires InStep(r) && Serve(max, handler, r, a).result.Some?
    ensures var s := Serve(max, handler, r, a);
            InStep(s.record) && s.record.stored == r.stored
    ensures exists e :: Serve(max, handler, r, a).record.journal == r.journal + [Yield(a.co, e)] &&
                        Serve(max, handler, r, a).result == Some(e.result) &&
                        forall h: Handler :: Dispatch(max, h, a.id, a.data, Some(e)) == Replayed(e, [])
  {
    hide YieldsOf, Dispatch, CloseOf;
    var s := Serve(max, handler, r, a);
    var d := DispatchWith(max, handler, r, a.co, a.id, a.data).value;
    assert InStepAt(r, a.co);
    var e := d.entry;
    ServedEntry(max, handler, a.id, a.data, Peek(r.stored, r.cursors, a.co));
    forall c ensures InStepAt(s.record, c) {
      assert InStepAt(r, c);
      YieldsNext(r.journal, Yield(a.co, e), c);
      YieldsNext(r.stream, Yield(a.co, e), c);
    }
    assert s.record.journal == r.journal + [Yield(a.co, e)];
  }

  /** An entry that was journaled live or replayed once is replayed again, and the handler
      plays no part in it. */
  lemma {:induction false} ServedEntry(max: seq<Middleware>, handler: Handler, id: string, data: Node,
                                       stored: Option<Entry>)
    requires !Dispatch(max, handler, id, data, stored).Diverged?
    ensures var d := Dispatch(max, handler, id, data, stored);
            && (stored.None? <==> d.Live?) && (d.Replayed? ==> stored == Some(d.entry))
            && forall h: Handler :: Dispatch(max, h, id, data, Some(d.entry)) == Replayed(d.entry, [])
  {
    hide IdentityOf, Settle;
    forall h: Handler
      ensures var e := Dispatch(max, handler, id, data, stored).entry;
              Dispatch(max, h, id, data, Some(e)) == Replayed(e, [])
    {
      if stored.None? {
        ReplayMatchesLive(max, handler, h, id, data);
      }
    }
  }

  lemma {:induction false} SessionInStep(max: seq<Middleware>, handlers: nat -> Handler, stored: seq<Event>,
                                         asks: seq<Asked>)
    requires NoDivergence(ServeAll(max, handlers, FreshRecord(stored), asks).results)
    ensures var h := ServeAll(max, handlers, FreshRecord(stored), asks);
            InStep(h.record) && h.record.stored == stored
    decreases |asks|
  {
    hide Serve, InStepAt;
    var h := ServeAll(max, handlers, FreshRecord(stored), asks);
    if asks == [] {
      FreshInStep(stored);
    } else {
      var n := |asks| - 1;
      var before := ServeAll(max, handlers, FreshRecord(stored), asks[..n]);
      assert h.results[..n] == before.results;
      assert forall i :: 0 <= i < n ==> before.results[i] == h.results[i];
      SessionInStep(max, handlers, stored, asks[..n]);
      assert h.results[n].Some?;
      ServeKeeps(max, handlers(n), before.record, asks[n]);
    }
  }

  lemma {:induction false} FreshInStep(stored: seq<Event>)
    ensures InStep(FreshRecord(stored))
  {
  }

  // ----- the next session -----

  /** The second session has served what the first had served after the same requests. */
  ghost predicate Follows(first: History, second: History, stream: seq<Event>)
  {
    && second.results == first.results && second.handled == []
    && second.record.journal == first.record.journal
    && second.record.stream == second.record.stored == stream
    && forall c :: Cursor(second.record.cursors, c) == |YieldsOf(first.record.journal, c)|
  }

  lemma {:induction false} FollowsNext(max: seq<Middleware>, handler: Handler, handler': Handler, first: Record,
                                       second: Record, a: Asked, stream: seq<Event>)
    requires InStep(first) && Serve(max, handler, first, a).result.Some?
    requires second.journal == first.journal && second.stream == second.stored == stream
    requires forall c :: Cursor(second.cursors, c) == |YieldsOf(first.journal, c)|
    requires YieldsOf(Serve(max, handler, first, a).record.journal, a.co) <= YieldsOf(stream, a.co)
    ensures var s, t := Serve(max, handler, first, a), Serve(max, handler', second, a);
            && t.result == s.result && t.handled == [] && t.record.journal == s.record.journal
            && t.record.stream == t.record.stored == stream
            && forall c :: Cursor(t.record.cursors, c) == |YieldsOf(s.record.journal, c)|
  {
    hide YieldsOf, Dispatch, CloseOf, InStep;
    var s := Serve(max, handler, first, a);
    ServeKeeps(max, handler, first, a);
    hide Serve;
    var e :| s.record.journal == first.journal + [Yield(a.co, e)] && s.result == Some(e.result) &&
             forall h: Handler :: Dispatch(max, h, a.id, a.data, Some(e)) == Replayed(e, []);
    YieldsNext(first.journal, Yield(a.co, e), a.co);
    var k := |YieldsOf(first.journal, a.co)|;
    assert YieldsOf(stream, a.co)[k] == YieldsOf(s.record.journal, a.co)[k] == e;
    assert Peek(stream, second.cursors, a.co) == Some(e);
    ServeStored(max, handler', second, a, e);
    forall c ensures |YieldsOf(s.record.journal, c)| == |YieldsOf(first.journal, c)| + (if c == a.co then 1 else 0) {
      YieldsNext(first.journal, Yield(a.co, e), c);
    }
  }

  lemma {:induction false} ServeStored(max: seq<Middleware>, handler: Handler, r: Record, a: Asked, e: Entry)
    requires Peek(r.stored, r.cursors, a.co) == Some(e)
    requires Dispatch(max, handler, a.id, a.data, Some(e)) == Replayed(e, [])
    ensures Serve(max, handler, r, a) == Served(Some(e.result), RecordReplay(r, a.co, e), [])
  {
    hide Dispatch, Peek;
  }

  lemma {:induction false} JournalGrows(max: seq<Middleware>, handlers: nat -> Handler, r: Record, asks: seq<Asked>,
                                        m: nat)
    requires m <= |asks|
    ensures ServeAll(max, handlers, r, asks[..m]).record.journal <= ServeAll(max, handlers, r, asks).record.journal
    decreases |asks| - m
  {
    if m < |asks| {
      JournalGrows(max, handlers, r, asks, m + 1);
      assert asks[..m + 1][..m] == asks[..m];
    } else {
      assert asks[..m] == asks;
    }
  }

  lemma {:induction false} YieldsGrow(a: seq<Event>, b: seq<Event>, c: Id)
    requires a <= b
    ensures YieldsOf(a, c) <= YieldsOf(b, c)
    decreases |b|
  {
    if |a| < |b| {
      assert a <= b[..|b| - 1];
      YieldsGrow(a, b[..|b| - 1], c);
    } else {
      assert a == b;
    }
  }

  lemma {:induction false} PartNoDivergence(max: seq<Middleware>, handlers: nat -> Handler, r: Record,
                                            asks: seq<Asked>, m: nat)
    requires m <= |asks| && NoDivergence(ServeAll(max, handlers, r, asks).results)
    ensures NoDivergence(ServeAll(max, handlers, r, asks[..m]).results)
    decreases |asks|
  {
    if m == |asks| {
      assert asks[..m] == asks;
    } else {
      var n := |asks| - 1;
      var h, before := ServeAll(max, handlers, r, asks), ServeAll(max, handlers, r, asks[..n]);
      assert forall i :: 0 <= i < n ==> before.results[i] == h.results[i];
      PartNoDivergence(max, handlers, r, asks[..n], m);
      assert asks[..n][..m] == asks[..m];
    }
  }

  lemma {:induction false} ReplaysUpTo(max: seq<Middleware>, handlers: nat -> Handler, handlers': nat -> Handler,
                                          stored: seq<Event>, asks: seq<Asked>, m: nat)
    requires m <= |asks| && NoDivergence(ServeAll(max, handlers, FreshRecord(stored), asks).results)
    ensures var stream := ServeAll(max, handlers, FreshRecord(stored), asks).record.stream;
            Follows(ServeAll(max, handlers, FreshRecord(stored), asks[..m]),
                    ServeAll(max, handlers', FreshRecord(stream), asks[..m]), stream)
  {
    hide Serve, InStep;
    var stream := ServeAll(max, handlers, FreshRecord(stored), asks).record.stream;
    if m == 0 {
      assert asks[..m] == [];
    } else {
      var k := m - 1;
      ReplaysUpTo(max, handlers, handlers', stored, asks, k);
      assert asks[..m][..k] == asks[..k] && asks[..m][k] == asks[k];
      var first := ServeAll(max, handlers, FreshRecord(stored), asks[..k]);
      var second := ServeAll(max, handlers', FreshRecord(stream), asks[..k]);
      PartNoDivergence(max, handlers, FreshRecord(stored), asks, k);
      SessionInStep(max, handlers, stored, asks[..k]);
      PartNoDivergence(max, handlers, FreshRecord(stored), asks, m);
      var next := ServeAll(max, handlers, FreshRecord(stored), asks[..m]);
      assert next.results[k].Some?;
      JournalGrows(max, handlers, FreshRecord(stored), asks, m);
      YieldsGrow(next.record.journal, ServeAll(max, handlers, FreshRecord(stored), asks).record.journal, asks[k].co);
      WholeInStep(max, handlers, stored, asks, asks[k].co);
      FollowsNext(max, handlers(k), handlers'(k), first.record, second.record, asks[k], stream);
    }
  }

  lemma {:induction false} WholeInStep(max: seq<Middleware>, handlers: nat -> Handler, stored: seq<Event>,
                                       asks: seq<Asked>, c: Id)
    requires NoDivergence(ServeAll(max, handlers, FreshRecord(stored), asks).results)
    ensures var r := ServeAll(max, handlers, FreshRecord(stored), asks).record;
            YieldsOf(r.journal, c) <= YieldsOf(r.stream, c)
  {
    hide ServeAll;
    SessionInStep(max, handlers, stored, asks);
    assert InStepAt(ServeAll(max, handlers, FreshRecord(stored), asks).record, c);
  }

  /** The replay boundary. However a session began (with nothing stored, or with what a crash
      left), if it has served its requests without divergence then a fresh session on the
      stream it leaves gives the same results to the same requests, whatever its handlers
      would answer. It consults none of them and appends nothing, and its journal is that of
      the first session. */
  lemma {:induction false} SessionReplays(max: seq<Middleware>, handlers: nat -> Handler, handlers': nat -> Handler,
                                          stored: seq<Event>, asks: seq<Asked>)
    requires NoDivergence(ServeAll(max, handlers, FreshRecord(stored), asks).results)
    ensures var first := ServeAll(max, handlers, FreshRecord(stored), asks);
            var again := ServeAll(max, handlers', FreshRecord(first.record.stream), asks);
            && again.results == first.results && again.handled == []
            && again.record.stream == first.record.stream && again.record.journal == first.record.journal
  {
    hide ServeAll;
    ReplaysUpTo(max, handlers, handlers', stored, asks, |asks|);
    assert asks[..|asks|] == asks;
  }
}
