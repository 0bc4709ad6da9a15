/** The durable stream and the replay index built from it. */
module Journal {
  import opened Text
  import opened Lanes

  type Id = string

  datatype Event =
    | Yield(co: Id, entry: Entry)
    | Close(co: Id, result: EventResult)

  // ----- what a stream says about one coroutine -----

  /** The events of one coroutine, in stream order. */
  function Proj(events: seq<Event>, c: Id): seq<Event>
  {
    if events == [] then []
    else
      var n := |events| - 1;
      Proj(events[..n], c) + (if events[n].co == c then [events[n]] else [])
  }

  function YieldsOf(events: seq<Event>, c: Id): seq<Entry>
  {
    if events == [] then []
    else
      var n := |events| - 1;
      YieldsOf(events[..n], c) + (if events[n].Yield? && events[n].co == c then [events[n].entry] else [])
  }

  /** The last Close of a coroutine. */
  function CloseOf(events: seq<Event>, c: Id): Option<EventResult>
  {
    if events == [] then None
    else
      var n := |events| - 1;
      if events[n].Close? && events[n].co == c then Some(events[n].result) else CloseOf(events[..n], c)
  }

  /** What driving a coroutine comes to: one that the stream shows as cancelled is not run
      again, any other one comes to what an uninterrupted run of it does. */
  function Completed(stored: seq<Event>, c: Id, planned: EventResult): EventResult
  {
    if CloseOf(stored, c) == Some(Cancelled) then Cancelled else planned
  }

  lemma {:induction false} ProjAppend(events: seq<Event>, e: Event, c: Id)
    ensures Proj(events + [e], c) == Proj(events, c) + (if e.co == c then [e] else [])
  {
    assert (events + [e])[..|events|] == events;
  }

  /** Yields and Close of a coroutine depend on its own events only. */
  lemma {:induction false} YieldsOfProj(events: seq<Event>, c: Id)
    ensures YieldsOf(events, c) == YieldsOf(Proj(events, c), c)
    ensures CloseOf(events, c) == CloseOf(Proj(events, c), c)
    ensures forall i :: 0 <= i < |Proj(events, c)| ==> Proj(events, c)[i].co == c
  {
    if events != [] {
      var n := |events| - 1;
      YieldsOfProj(events[..n], c);
      var before := Proj(events[..n], c);
      if events[n].co == c {
        assert (before + [events[n]])[..|before|] == before;
      } else {
        assert before + [] == before;
      }
    }
  }

  /** The Close of a coroutine is the last one that it has, if it has one. */
  lemma {:induction false} CloseIsTheLast(events: seq<Event>, c: Id, i: int)
    ensures CloseOf(events, c).None? <==> forall j :: 0 <= j < |events| ==> !(events[j].Close? && events[j].co == c)
    ensures 0 <= i < |events| && events[i].Close? && events[i].co == c &&
            (forall j :: i < j < |events| ==> !(events[j].Close? && events[j].co == c)) ==>
              CloseOf(events, c) == Some(events[i].result)
  {
    if events != [] {
      var n := |events| - 1;
      assert forall j :: 0 <= j < n ==> events[..n][j] == events[j];
      CloseIsTheLast(events[..n], c, i);
    }
  }

  predicate EntryAt(events: seq<Event>, c: Id, i: nat, entries: seq<Entry>, k: nat)
  {
    && i < |events| && events[i].Yield? && events[i].co == c
    && k < |entries| && events[i].entry == entries[k]
  }

  /** Its entries are those of its yields, in the order of the stream. */
  ghost predicate YieldPlaces(events: seq<Event>, c: Id, at: seq<nat>)
  {
    && |at| == |YieldsOf(events, c)|
    && (forall k :: 0 <= k < |at| ==> EntryAt(events, c, at[k], YieldsOf(events, c), k))
    && (forall j, k :: 0 <= j < k < |at| ==> at[j] < at[k])
    && (forall i: nat :: i < |events| && events[i].Yield? && events[i].co == c ==> i in at)
  }

  lemma {:induction false} YieldsByPlace(events: seq<Event>, c: Id) returns (at: seq<nat>)
    ensures YieldPlaces(events, c, at)
  {
    if events == [] {
      at := [];
    } else {
      var n := |events| - 1;
      var before := YieldsByPlace(events[..n], c);
      at := YieldAfter(events, c, before);
    }
  }

  lemma {:induction false} YieldAfter(events: seq<Event>, c: Id, before: seq<nat>) returns (at: seq<nat>)
    requires events != [] && YieldPlaces(events[..|events| - 1], c, before)
    ensures YieldPlaces(events, c, at)
  {
    var n := |events| - 1;
    at := before + (if events[n].Yield? && events[n].co == c then [n] else []);
    assert forall i: nat :: i < n ==> events[..n][i] == events[i];
    forall i: nat | i < |events| && events[i].Yield? && events[i].co == c ensures i in at {
      if i == n {
        assert at[|before|] == n;
      } else {
        assert i in before;
      }
    }
    var ys := YieldsOf(events[..n], c);
    assert YieldsOf(events, c) == ys + (if events[n].Yield? && events[n].co == c then [events[n].entry] else []);
    hide YieldsOf;
    forall k | 0 <= k < |at| ensures EntryAt(events, c, at[k], YieldsOf(events, c), k) {
      assert k < |before| ==> EntryAt(events[..n], c, before[k], ys, k);
    }
  }

  // ----- the stream -----

  class InMemoryStream {
    var events: seq<Event>
    var appendCount: nat

    constructor (initial: seq<Event>)
      ensures events == initial && appendCount == 0
    {
      events := initial;
      appendCount := 0;
    }

    method ReadAll() returns (r: seq<Event>)
      ensures r == events
    {
      r := events;
    }

    method Append(e: Event)
      modifies this
      ensures events == old(events) + [e] && appendCount == old(appendCount) + 1
    {
      events := events + [e];
      appendCount := appendCount + 1;
    }
  }

  // ----- the replay index -----

  /** The entries of a coroutine that have not been consumed. */
  function Cursor(cursors: map<Id, nat>, c: Id): nat { if c in cursors then cursors[c] else 0 }

  function Peek(stored: seq<Event>, cursors: map<Id, nat>, c: Id): Option<Entry>
  {
    var ys := YieldsOf(stored, c);
    if Cursor(cursors, c) < |ys| then Some(ys[Cursor(cursors, c)]) else None
  }

  lemma {:induction false} NothingIndexed(events: seq<Event>)
    ensures forall c :: YieldsOf(events[..0], c) == [] && CloseOf(events[..0], c) == None
  {
  }

  /** What the next event adds to the index. */
  lemma {:induction false} NextIndexed(events: seq<Event>, i: nat)
    requires i < |events|
    ensures forall c :: YieldsOf(events[..i + 1], c) ==
              YieldsOf(events[..i], c) + (if events[i].Yield? && events[i].co == c then [events[i].entry] else [])
    ensures forall c :: CloseOf(events[..i + 1], c) ==
              if events[i].Close? && events[i].co == c then Some(events[i].result) else CloseOf(events[..i], c)
  {
    var now := events[..i + 1];
    assert now[..i] == events[..i] && now[i] == events[i];
    forall c
      ensures YieldsOf(now, c) ==
              YieldsOf(events[..i], c) + (if events[i].Yield? && events[i].co == c then [events[i].entry] else [])
      ensures CloseOf(now, c) ==
              if events[i].Close? && events[i].co == c then Some(events[i].result) else CloseOf(events[..i], c)
    {
      assert now[..|now| - 1] == events[..i];
    }
  }

  class ReplayIndex {
    var entries: map<Id, seq<Entry>>
    var cursors: map<Id, nat>
    var closes: map<Id, EventResult>

    /** The index is the one derived from `stored`. */
    ghost predicate Indexes(stored: seq<Event>)
      reads this
    {
      && (forall c :: YieldsOf(stored, c) == if c in entries then entries[c] else [])
      && (forall c :: CloseOf(stored, c) == if c in closes then Some(closes[c]) else None)
    }

    constructor (events: seq<Event>)
      ensures Indexes(events) && cursors == map[]
    {
      var ys: map<Id, seq<Entry>>, cs: map<Id, EventResult> := map[], map[];
      var i := 0;
      hide YieldsOf, CloseOf;
      NothingIndexed(events);
      while i < |events|
        invariant 0 <= i <= |events|
        invariant forall c :: YieldsOf(events[..i], c) == if c in ys then ys[c] else []
        invariant forall c :: CloseOf(events[..i], c) == if c in cs then Some(cs[c]) else None
      {
        var e := events[i];
        NextIndexed(events, i);
        match e {
          case Yield(c, entry) =>
            ys := ys[c := (if c in ys then ys[c] else []) + [entry]];
          case Close(c, result) =>
            cs := cs[c := result];
        }
        i := i + 1;
      }
      assert events[..i] == events;
      entries := ys;
      cursors := map[];
      closes := cs;
    }

    method PeekYield(c: Id, ghost stored: seq<Event>) returns (r: Option<Entry>)
      requires Indexes(stored)
      ensures r == Peek(stored, cursors, c)
    {
      var list := if c in entries then entries[c] else [];
      var cursor := if c in cursors then cursors[c] else 0;
      r := if cursor < |list| then Some(list[cursor]) else None;
    }

    method ConsumeYield(c: Id)
      modifies this`cursors
      ensures cursors == old(cursors)[c := Cursor(old(cursors), c) + 1]
    {
      var cursor := if c in cursors then cursors[c] else 0;
      cursors := cursors[c := cursor + 1];
    }

    method HasClose(c: Id, ghost stored: seq<Event>) returns (b: bool)
      requires Indexes(stored)
      ensures b <==> CloseOf(stored, c).Some?
    {
      b := c in closes;
    }

    method GetClose(c: Id, ghost stored: seq<Event>) returns (r: Option<EventResult>)
      requires Indexes(stored)
      ensures r == CloseOf(stored, c)
    {
      r := if c in closes then Some(closes[c]) else None;
    }
  }
}
