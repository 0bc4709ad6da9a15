/** References in IR: where they occur and under which binders, which are free, and their
    renaming to runtime names. */
module Rewriting {
  import opened Text
  import opened Ir
  import opened Graph

  // ----- subterms -----

  /** An immediate subterm, and the names that are bound on the way to it. */
  datatype Part = Part(node: Node, under: set<string>)

  function Named(name: Option<string>): set<string> { if name.Some? then {name.value} else {} }

  function Optional(e: Option<Node>, under: set<string>): seq<Part>
  {
    if e.Some? then [Part(e.value, under)] else []
  }

  function Each(es: seq<Node>): (r: seq<Part>)
    ensures |r| == |es| && forall i :: 0 <= i < |es| ==> r[i] == Part(es[i], {})
  {
    seq(|es|, i requires 0 <= i < |es| => Part(es[i], {}))
  }

  /** The fields of an object or `construct` node. */
  function FieldsOf(e: Node): map<string, Node>
  {
    match e
    case Obj(fields) => fields
    case Construct(entries) => entries
    case _ => map[]
  }

  ghost predicate KeysOf(keys: seq<string>, fields: map<string, Node>) { forall k :: k in keys <==> k in fields }

  function EachField(fields: map<string, Node>, keys: seq<string>): (r: seq<Part>)
    requires KeysOf(keys, fields)
    ensures |r| == |keys| && forall i :: 0 <= i < |r| ==> keys[i] in keys && r[i] == Part(fields[keys[i]], {})
  {
    assert forall i :: 0 <= i < |keys| ==> keys[i] in keys;
    seq(|keys|, i requires 0 <= i < |keys| => Part(fields[keys[i]], {}))
  }

  /** The subterms of a node. With `handlers` the parameter of a catch clause is a binder, as
      it is when references are renamed; the collection of free references does not look at
      it. Neither looks at the payload of a finalizer. */
  function Parts(e: Node, handlers: bool): (r: seq<Part>)
    ensures forall i :: 0 <= i < |r| ==> r[i].node < e
  {
    match e
    case Quote(inner) => [Part(inner, {})]
    case Fn(params, body) => [Part(body, Elements(params))]
    case Let(x, value, scope) => [Part(value, {}), Part(scope, {x})]
    case Try(tried, param, catchBody, finallyBody, _) =>
      [Part(tried, {})] + Optional(catchBody, if handlers then Named(param) else {}) + Optional(finallyBody, {})
    case If(c, t, f) => [Part(c, {}), Part(t, {})] + Optional(f, {})
    case Get(o, _) => [Part(o, {})]
    case Throw(m) => [Part(m, {})]
    case Effect(_, data) => [Part(data, {})]
    case And(a, b) => [Part(a, {}), Part(b, {})]
    case Or(a, b) => [Part(a, {}), Part(b, {})]
    case While(c, body) => [Part(c, {})] + Each(body)
    case Call(f, args) => [Part(f, {})] + Each(args)
    case Arr(items) => Each(items)
    case Seq(exprs) => Each(exprs)
    case Prim(_, operands) => Each(operands)
    case Compound(_, branches) => Each(branches)
    case Obj(fields) => EachField(fields, SortedKeys(fields.Keys))
    case Construct(entries) => EachField(entries, SortedKeys(entries.Keys))
    case _ => []
  }

  // ----- occurrences -----

  /** A reference where it stands: its name and the names bound there. */
  datatype Occurrence = Occurrence(name: string, scope: set<string>)

  predicate IsFree(o: Occurrence) { o.name !in o.scope }

  /** All references of a term, from left to right. */
  function Refs(e: Node, bound: set<string>, handlers: bool): seq<Occurrence>
    decreases e, 1
  {
    if e.Ref? then [Occurrence(e.name, bound)] else RefsFrom(e, 0, bound, handlers)
  }

  /** The references of the subterms from number `i` on. */
  function RefsFrom(e: Node, i: nat, bound: set<string>, handlers: bool): seq<Occurrence>
    requires i <= |Parts(e, handlers)|
    decreases e, 0, |Parts(e, handlers)| - i
  {
    var parts := Parts(e, handlers);
    if i == |parts| then []
    else Refs(parts[i].node, bound + parts[i].under, handlers) + RefsFrom(e, i + 1, bound, handlers)
  }

  function FreeNames(refs: seq<Occurrence>): set<string>
  {
    set o | o in refs && IsFree(o) :: o.name
  }

  /** The names referred to outside their binders: `collectFreeRefs` without `handlers`. */
  function Free(e: Node, bound: set<string>, handlers: bool): set<string>
  {
    FreeNames(Refs(e, bound, handlers))
  }

  /** What binds where: a `let` its scope, not its value; parameters the body; a catch parameter
      its clause, when it is looked at; the payload of a finalizer nothing. */
  lemma {:induction false} ScopesSpelled(x: string, a: Node, b: Node, c: Node, params: seq<string>,
                                         payload: Option<string>, bound: set<string>, handlers: bool)
    ensures Refs(Ref(x), bound, handlers) == [Occurrence(x, bound)]
    ensures Refs(Let(x, a, b), bound, handlers) == Refs(a, bound, handlers) + Refs(b, bound + {x}, handlers)
    ensures Refs(Fn(params, a), bound, handlers) == Refs(a, bound + (set p | p in params), handlers)
    ensures Refs(Try(a, Some(x), Some(b), Some(c), payload), bound, handlers) ==
            Refs(a, bound, handlers) + Refs(b, if handlers then bound + {x} else bound, handlers) +
            Refs(c, bound, handlers)
  {
    hide Refs, RefsFrom;
    assert Refs(Ref(x), bound, handlers) == [Occurrence(x, bound)] by { RefItself(x, bound, handlers); }
    assert bound + {} == bound;
    assert Elements(params) == set p | p in params;
    RefsOfTwo(Let(x, a, b), bound, handlers);
    RefsOfOne(Fn(params, a), bound, handlers);
    RefsOfThree(Try(a, Some(x), Some(b), Some(c), payload), bound, handlers);
  }

  lemma {:induction false} RefItself(x: string, bound: set<string>, handlers: bool)
    ensures Refs(Ref(x), bound, handlers) == [Occurrence(x, bound)]
  {
  }

  /** Other nodes bind nothing. */
  lemma {:induction false} NoScopes(a: Node, b: Node, c: Node, bound: set<string>, handlers: bool)
    ensures Refs(If(a, b, Some(c)), bound, handlers) ==
            Refs(a, bound, handlers) + Refs(b, bound, handlers) + Refs(c, bound, handlers)
    ensures Refs(And(a, b), bound, handlers) == Refs(a, bound, handlers) + Refs(b, bound, handlers)
    ensures Refs(Call(a, [b, c]), bound, handlers) ==
            Refs(a, bound, handlers) + Refs(b, bound, handlers) + Refs(c, bound, handlers)
    ensures Refs(Quote(a), bound, handlers) == Refs(a, bound, handlers)
  {
    hide Refs, RefsFrom;
    assert bound + {} == bound;
    RefsOfTwo(And(a, b), bound, handlers);
    RefsOfOne(Quote(a), bound, handlers);
    RefsOfThree(If(a, b, Some(c)), bound, handlers);
    RefsOfThree(Call(a, [b, c]), bound, handlers);
  }

  lemma {:induction false} RefsOfOne(e: Node, bound: set<string>, handlers: bool)
    requires !e.Ref? && |Parts(e, handlers)| == 1
    ensures var p := Parts(e, handlers); Refs(e, bound, handlers) == Refs(p[0].node, bound + p[0].under, handlers)
  {
    hide Parts;
    var p := Parts(e, handlers);
    assert RefsFrom(e, 1, bound, handlers) == [];
    assert RefsFrom(e, 0, bound, handlers) == Refs(p[0].node, bound + p[0].under, handlers) + [];
  }

  lemma {:induction false} RefsOfTwo(e: Node, bound: set<string>, handlers: bool)
    requires !e.Ref? && |Parts(e, handlers)| == 2
    ensures var p := Parts(e, handlers);
            Refs(e, bound, handlers) ==
            Refs(p[0].node, bound + p[0].under, handlers) + Refs(p[1].node, bound + p[1].under, handlers)
  {
    hide Parts;
    var p := Parts(e, handlers);
    assert RefsFrom(e, 2, bound, handlers) == [];
    assert RefsFrom(e, 1, bound, handlers) == Refs(p[1].node, bound + p[1].under, handlers) + [];
  }

  lemma {:induction false} RefsOfThree(e: Node, bound: set<string>, handlers: bool)
    requires !e.Ref? && |Parts(e, handlers)| == 3
    ensures var p := Parts(e, handlers);
            Refs(e, bound, handlers) ==
            Refs(p[0].node, bound + p[0].under, handlers) + Refs(p[1].node, bound + p[1].under, handlers) +
            Refs(p[2].node, bound + p[2].under, handlers)
  {
    hide Parts;
    var p := Parts(e, handlers);
    assert RefsFrom(e, 3, bound, handlers) == [];
    assert RefsFrom(e, 2, bound, handlers) == Refs(p[2].node, bound + p[2].under, handlers) + [];
    assert RefsFrom(e, 1, bound, handlers) ==
           Refs(p[1].node, bound + p[1].under, handlers) + RefsFrom(e, 2, bound, handlers);
  }

  // ----- renaming -----

  /** `rewriteRefs`: free references with a runtime name take it. */
  function Rewrite(e: Node, m: map<string, string>, bound: set<string>): Node
    decreases e, 1
  {
    match e
    case Ref(x) => if x !in bound && x in m then Ref(m[x]) else e
    case Quote(inner) => Quote(Rewrite(inner, m, bound))
    case Fn(params, body) => Fn(params, Rewrite(body, m, bound + Elements(params)))
    case Let(x, value, scope) => Let(x, Rewrite(value, m, bound), Rewrite(scope, m, bound + {x}))
    case Try(tried, param, catchBody, finallyBody, payload) =>
      Try(Rewrite(tried, m, bound), param, RewriteOption(catchBody, m, bound + Named(param)),
          RewriteOption(finallyBody, m, bound), payload)
    case If(c, t, f) => If(Rewrite(c, m, bound), Rewrite(t, m, bound), RewriteOption(f, m, bound))
    case Get(o, key) => Get(Rewrite(o, m, bound), key)
    case Throw(message) => Throw(Rewrite(message, m, bound))
    case Effect(id, data) => Effect(id, Rewrite(data, m, bound))
    case And(a, b) => And(Rewrite(a, m, bound), Rewrite(b, m, bound))
    case Or(a, b) => Or(Rewrite(a, m, bound), Rewrite(b, m, bound))
    case While(c, body) => While(Rewrite(c, m, bound), RewriteAll(body, m, bound))
    case Call(f, args) => Call(Rewrite(f, m, bound), RewriteAll(args, m, bound))
    case Arr(items) => Arr(RewriteAll(items, m, bound))
    case Seq(exprs) => Seq(RewriteAll(exprs, m, bound))
    case Prim(op, operands) => Prim(op, RewriteAll(operands, m, bound))
    case Compound(kind, branches) => Compound(kind, RewriteAll(branches, m, bound))
    case Obj(_) => Obj(RewriteFields(e, m, bound))
    case Construct(_) => Construct(RewriteFields(e, m, bound))
    case _ => e
  }

  function RewriteOption(e: Option<Node>, m: map<string, string>, bound: set<string>): Option<Node>
    decreases e, 0
  {
    if e.Some? then Some(Rewrite(e.value, m, bound)) else None
  }

  function RewriteFields(e: Node, m: map<string, string>, bound: set<string>): (r: map<string, Node>)
    requires e.Obj? || e.Construct?
    ensures var fields := FieldsOf(e);
            r.Keys == fields.Keys && forall k :: k in fields ==> r[k] == Rewrite(fields[k], m, bound)
    decreases e, 0
  {
    if e.Obj? then map k | k in e.fields :: Rewrite(e.fields[k], m, bound)
    else map k | k in e.entries :: Rewrite(e.entries[k], m, bound)
  }

  function RewriteAll(es: seq<Node>, m: map<string, string>, bound: set<string>): (r: seq<Node>)
    ensures |r| == |es| && forall i :: 0 <= i < |es| ==> r[i] == Rewrite(es[i], m, bound)
    decreases es, 0
  {
    if es == [] then []
    else
      var r := [Rewrite(es[0], m, bound)] + RewriteAll(es[1..], m, bound);
      assert forall i :: 0 < i < |es| ==> es[i] == es[1..][i - 1];
      r
  }

  // ----- renaming by parts -----

  /** The renamed subterm. */
  function RewritePart(p: Part, m: map<string, string>, bound: set<string>): Part
  {
    Part(Rewrite(p.node, m, bound + p.under), p.under)
  }

  function RewriteParts(parts: seq<Part>, m: map<string, string>, bound: set<string>): (r: seq<Part>)
    ensures |r| == |parts| && forall i :: 0 <= i < |parts| ==> r[i] == RewritePart(parts[i], m, bound)
  {
    seq(|parts|, i requires 0 <= i < |parts| => RewritePart(parts[i], m, bound))
  }

  lemma {:induction false} EachRewritten(es: seq<Node>, m: map<string, string>, bound: set<string>)
    ensures Each(RewriteAll(es, m, bound)) == RewriteParts(Each(es), m, bound)
  {
    assert bound + {} == bound;
  }

  lemma {:induction false} OptionalRewritten(e: Option<Node>, under: set<string>, m: map<string, string>,
                                             bound: set<string>)
    ensures Optional(RewriteOption(e, m, bound + under), under) == RewriteParts(Optional(e, under), m, bound)
  {
  }

  lemma {:induction false} FieldsRewritten(e: Node, keys: seq<string>, m: map<string, string>, bound: set<string>)
    requires (e.Obj? || e.Construct?) && KeysOf(keys, FieldsOf(e))
    ensures KeysOf(keys, RewriteFields(e, m, bound))
    ensures EachField(RewriteFields(e, m, bound), keys) == RewriteParts(EachField(FieldsOf(e), keys), m, bound)
  {
    hide Rewrite, RewriteFields, FieldsOf;
    assert forall k :: k in RewriteFields(e, m, bound) <==> k in FieldsOf(e);
    assert bound + {} == bound;
  }

  lemma {:induction false} ObjectRewritten(e: Node, m: map<string, string>, bound: set<string>)
    requires e.Obj? || e.Construct?
    ensures Parts(Rewrite(e, m, bound), true) == RewriteParts(Parts(e, true), m, bound)
  {
    hide EachField, RewriteParts, RewriteFields, SortedKeys, Parts, Rewrite, FieldsOf;
    var after := Rewrite(e, m, bound);
    ObjectKept(e, m, bound);
    PartsOfObject(e);
    PartsOfObject(after);
    FieldsRewritten(e, SortedKeys(FieldsOf(e).Keys), m, bound);
  }

  lemma {:induction false} ObjectKept(e: Node, m: map<string, string>, bound: set<string>)
    requires e.Obj? || e.Construct?
    ensures var after := Rewrite(e, m, bound);
            (after.Obj? || after.Construct?) && FieldsOf(after) == RewriteFields(e, m, bound)
    ensures FieldsOf(Rewrite(e, m, bound)).Keys == FieldsOf(e).Keys
  {
    hide RewriteAll, RewriteOption;
  }

  lemma {:induction false} PartsOfObject(e: Node)
    requires e.Obj? || e.Construct?
    ensures Parts(e, true) == EachField(FieldsOf(e), SortedKeys(FieldsOf(e).Keys))
  {
    hide EachField;
  }

  lemma {:induction false} PartsAppend(a: seq<Part>, b: seq<Part>, m: map<string, string>, bound: set<string>)
    ensures RewriteParts(a + b, m, bound) == RewriteParts(a, m, bound) + RewriteParts(b, m, bound)
  {
  }

  /** The subterms of the renamed term are the renamed subterms. */
  lemma {:induction false} PartsRewritten(e: Node, m: map<string, string>, bound: set<string>)
    requires !e.Ref?
    ensures !Rewrite(e, m, bound).Ref?
    ensures Parts(Rewrite(e, m, bound), true) == RewriteParts(Parts(e, true), m, bound)
  {
    hide Each, EachField, Optional, RewriteAll, RewriteOption, RewriteParts;
    if e.Try? {
      TryRewritten(e, m, bound);
    } else if e.Obj? || e.Construct? {
      ObjectRewritten(e, m, bound);
    } else if e.If? || e.While? || e.Call? {
      TailRewritten(e, m, bound);
    } else if e.Arr? || e.Seq? || e.Prim? || e.Compound? {
      ListsRewritten(e, m, bound);
    } else {
      FewRewritten(e, m, bound);
    }
  }

  /** Nodes with a fixed number of subterms. */
  lemma {:induction false} FewRewritten(e: Node, m: map<string, string>, bound: set<string>)
    requires !(e.Ref? || e.Try? || e.Obj? || e.Construct? || e.If? || e.While? || e.Call? || e.Arr? || e.Seq? ||
               e.Prim? || e.Compound?)
    ensures Parts(Rewrite(e, m, bound), true) == RewriteParts(Parts(e, true), m, bound)
  {
    assert bound + {} == bound;
  }

  /** Nodes with a list of subterms. */
  lemma {:induction false} ListsRewritten(e: Node, m: map<string, string>, bound: set<string>)
    requires e.Arr? || e.Seq? || e.Prim? || e.Compound?
    ensures Parts(Rewrite(e, m, bound), true) == RewriteParts(Parts(e, true), m, bound)
  {
    hide Each, RewriteAll, RewriteParts;
    match e
    case Arr(items) => EachRewritten(items, m, bound);
    case Seq(exprs) => EachRewritten(exprs, m, bound);
    case Prim(_, operands) => EachRewritten(operands, m, bound);
    case Compound(_, branches) => EachRewritten(branches, m, bound);
  }

  /** Nodes with further subterms behind the first. */
  lemma {:induction false} TailRewritten(e: Node, m: map<string, string>, bound: set<string>)
    requires e.If? || e.While? || e.Call?
    ensures Parts(Rewrite(e, m, bound), true) == RewriteParts(Parts(e, true), m, bound)
  {
    hide Each, Optional, RewriteAll, RewriteOption, RewriteParts;
    match e
    case If(c, t, f) =>
      OptionalRewritten(f, {}, m, bound);
      assert bound + {} == bound;
      PairRewritten(c, t, m, bound);
      PartsAppend([Part(c, {}), Part(t, {})], Optional(f, {}), m, bound);
    case While(c, body) =>
      EachRewritten(body, m, bound);
      OneRewritten(c, m, bound);
      PartsAppend([Part(c, {})], Each(body), m, bound);
    case Call(f, args) =>
      EachRewritten(args, m, bound);
      OneRewritten(f, m, bound);
      PartsAppend([Part(f, {})], Each(args), m, bound);
  }

  lemma {:induction false} OneRewritten(c: Node, m: map<string, string>, bound: set<string>)
    ensures RewriteParts([Part(c, {})], m, bound) == [Part(Rewrite(c, m, bound), {})]
  {
    hide Rewrite;
    assert bound + {} == bound;
  }

  lemma {:induction false} PairRewritten(c: Node, t: Node, m: map<string, string>, bound: set<string>)
    ensures RewriteParts([Part(c, {}), Part(t, {})], m, bound)
         == [Part(Rewrite(c, m, bound), {}), Part(Rewrite(t, m, bound), {})]
  {
    hide Rewrite;
    assert bound + {} == bound;
  }

  lemma {:induction false} TryRewritten(e: Node, m: map<string, string>, bound: set<string>)
    requires e.Try?
    ensures Parts(Rewrite(e, m, bound), true) == RewriteParts(Parts(e, true), m, bound)
  {
    hide Optional, RewriteOption, RewriteParts;
    assert bound + {} == bound;
    OneRewritten(e.tried, m, bound);
    var a, b, c := [Part(e.tried, {})], Optional(e.catchBody, Named(e.catchParam)), Optional(e.finallyBody, {});
    OptionalRewritten(e.catchBody, Named(e.catchParam), m, bound);
    OptionalRewritten(e.finallyBody, {}, m, bound);
    PartsAppend(a, b, m, bound);
    PartsAppend(a + b, c, m, bound);
  }

  // ----- what renaming does to each reference -----

  /** A reference after renaming. Its surroundings bind what they bound before. */
  function Move(o: Occurrence, m: map<string, string>): Occurrence
  {
    Occurrence(if IsFree(o) && o.name in m then m[o.name] else o.name, o.scope)
  }

  function Moved(refs: seq<Occurrence>, m: map<string, string>): (r: seq<Occurrence>)
    ensures |r| == |refs| && forall i :: 0 <= i < |refs| ==> r[i] == Move(refs[i], m)
  {
    seq(|refs|, i requires 0 <= i < |refs| => Move(refs[i], m))
  }

  /** Renaming moves each reference and does nothing else. */
  lemma {:induction false} RefsRewritten(e: Node, m: map<string, string>, bound: set<string>)
    ensures Refs(Rewrite(e, m, bound), bound, true) == Moved(Refs(e, bound, true), m)
    decreases e, 1
  {
    if !e.Ref? {
      PartsRewritten(e, m, bound);
      hide Rewrite;
      RefsFromRewritten(e, 0, m, bound);
    }
  }

  lemma {:induction false} RefsFromRewritten(e: Node, i: nat, m: map<string, string>, bound: set<string>)
    requires i <= |Parts(e, true)| && Parts(Rewrite(e, m, bound), true) == RewriteParts(Parts(e, true), m, bound)
    ensures RefsFrom(Rewrite(e, m, bound), i, bound, true) == Moved(RefsFrom(e, i, bound, true), m)
    decreases e, 0, |Parts(e, true)| - i
  {
    hide Rewrite, Parts;
    var parts := Parts(e, true);
    if i < |parts| {
      RefsRewritten(parts[i].node, m, bound + parts[i].under);
      RefsFromRewritten(e, i + 1, m, bound);
    }
  }

  /** A renamed reference that stands under a binder of its new name. */
  predicate Captured(o: Occurrence, m: map<string, string>)
  {
    IsFree(o) && o.name in m && m[o.name] in o.scope
  }

  predicate Captures(refs: seq<Occurrence>, m: map<string, string>)
  {
    exists i :: 0 <= i < |refs| && Captured(refs[i], m)
  }

  /** Every reference that was free is free afterwards. */
  predicate StayFree(before: seq<Occurrence>, after: seq<Occurrence>)
    requires |before| == |after|
  {
    forall i :: 0 <= i < |before| && IsFree(before[i]) ==> IsFree(after[i])
  }

  /** Renaming captures no reference exactly when none stands under a binder of its new name. */
  lemma {:induction false} CaptureExactly(e: Node, m: map<string, string>, bound: set<string>)
    ensures var before, after := Refs(e, bound, true), Refs(Rewrite(e, m, bound), bound, true);
            |after| == |before| && (StayFree(before, after) <==> !Captures(before, m))
  {
    hide Refs, Rewrite;
    RefsRewritten(e, m, bound);
    var before, after := Refs(e, bound, true), Refs(Rewrite(e, m, bound), bound, true);
    assert forall i :: 0 <= i < |before| ==> after[i] == Move(before[i], m);
  }

  /** What is free afterwards: of each free reference that is not captured, the new name. */
  lemma {:induction false} RewriteFree(e: Node, m: map<string, string>, bound: set<string>)
    ensures Free(Rewrite(e, m, bound), bound, true) ==
            set o | o in Refs(e, bound, true) && IsFree(o) && !Captured(o, m) :: Move(o, m).name
  {
    hide Refs, Rewrite;
    RefsRewritten(e, m, bound);
    var before, after := Refs(e, bound, true), Refs(Rewrite(e, m, bound), bound, true);
    assert forall i :: 0 <= i < |before| ==> after[i] == Move(before[i], m);
    forall x | x in FreeNames(after)
      ensures exists o :: o in before && IsFree(o) && !Captured(o, m) && x == Move(o, m).name
    {
      var i :| 0 <= i < |after| && IsFree(after[i]) && after[i].name == x;
      assert before[i] in before;
    }
    forall o | o in before && IsFree(o) && !Captured(o, m) ensures Move(o, m).name in FreeNames(after) {
      var i :| 0 <= i < |before| && before[i] == o;
      assert after[i] in after && IsFree(after[i]);
    }
  }

  // ----- binders -----

  /** The names that a node itself binds, the payload of a finalizer among them. */
  function OwnBinders(e: Node): set<string>
  {
    match e
    case Fn(params, _) => Elements(params)
    case Let(x, _, _) => {x}
    case Try(_, param, _, _, payload) => Named(param) + Named(payload)
    case _ => {}
  }

  /** Every binder in the term is one that `ok` admits. */
  predicate Binds(e: Node, ok: string -> bool)
    decreases e
  {
    && (forall x :: x in OwnBinders(e) ==> ok(x))
    && forall i :: 0 <= i < |Parts(e, true)| ==> Binds(Parts(e, true)[i].node, ok)
  }

  lemma {:induction false} BindsMore(e: Node, ok: string -> bool, more: string -> bool)
    requires Binds(e, ok) && forall x :: ok(x) ==> more(x)
    ensures Binds(e, more)
    decreases e
  {
    hide Parts;
    forall i | 0 <= i < |Parts(e, true)| ensures Binds(Parts(e, true)[i].node, more) {
      BindsMore(Parts(e, true)[i].node, ok, more);
    }
  }

  lemma {:induction false} OwnRewritten(e: Node, m: map<string, string>, bound: set<string>)
    ensures OwnBinders(Rewrite(e, m, bound)) == OwnBinders(e)
  {
    hide RewriteAll, RewriteOption;
  }

  /** Renaming leaves the binders alone. */
  lemma {:induction false} BindsRewritten(e: Node, m: map<string, string>, bound: set<string>, ok: string -> bool)
    ensures Binds(Rewrite(e, m, bound), ok) <==> Binds(e, ok)
    decreases e
  {
    if e.Ref? {
      NoParts(e);
      NoParts(Rewrite(e, m, bound));
    } else {
      hide Parts, Rewrite, OwnBinders, Binds;
      PartsRewritten(e, m, bound);
      OwnRewritten(e, m, bound);
      var before, after := Parts(e, true), Parts(Rewrite(e, m, bound), true);
      forall i | 0 <= i < |before| ensures Binds(after[i].node, ok) <==> Binds(before[i].node, ok) {
        BindsRewritten(before[i].node, m, bound + before[i].under, ok);
      }
      BindsByParts(e, Rewrite(e, m, bound), ok);
    }
  }

  lemma {:induction false} BindsByParts(a: Node, b: Node, ok: string -> bool)
    requires OwnBinders(a) == OwnBinders(b) && |Parts(a, true)| == |Parts(b, true)|
    requires forall i :: 0 <= i < |Parts(a, true)| ==>
               (Binds(Parts(b, true)[i].node, ok) <==> Binds(Parts(a, true)[i].node, ok))
    ensures Binds(b, ok) <==> Binds(a, ok)
  {
    hide Parts, OwnBinders;
  }

  lemma {:induction false} NoParts(e: Node)
    requires e.Ref?
    ensures Parts(e, true) == [] && OwnBinders(e) == {}
  {
  }

  /** What is bound where a reference stands was bound outside or is a binder of the term. */
  lemma {:induction false} ScopesBound(e: Node, bound: set<string>, ok: string -> bool)
    requires Binds(e, ok) && forall x :: x in bound ==> ok(x)
    ensures forall o, x :: o in Refs(e, bound, true) && x in o.scope ==> ok(x)
    decreases e, 1
  {
    if !e.Ref? {
      ScopesFrom(e, 0, bound, ok);
    }
  }

  lemma {:induction false} ScopesFrom(e: Node, i: nat, bound: set<string>, ok: string -> bool)
    requires Binds(e, ok) && i <= |Parts(e, true)| && forall x :: x in bound ==> ok(x)
    ensures forall o, x :: o in RefsFrom(e, i, bound, true) && x in o.scope ==> ok(x)
    decreases e, 0, |Parts(e, true)| - i
  {
    UnderOwn(e);
    hide Parts, OwnBinders;
    var parts := Parts(e, true);
    if i < |parts| {
      ScopesBound(parts[i].node, bound + parts[i].under, ok);
      ScopesFrom(e, i + 1, bound, ok);
    }
  }

  lemma {:induction false} UnderOwn(e: Node)
    ensures forall i :: 0 <= i < |Parts(e, true)| ==> Parts(e, true)[i].under <= OwnBinders(e)
  {
  }

  /** So a renaming to names that no binder has captures nothing. */
  lemma {:induction false} NoCapture(e: Node, m: map<string, string>, ok: string -> bool)
    requires Binds(e, ok) && forall x :: x in m.Values ==> !ok(x)
    ensures !Captures(Refs(e, {}, true), m)
  {
    hide Refs, Binds;
    ScopesBound(e, {}, ok);
    var refs := Refs(e, {}, true);
    forall i | 0 <= i < |refs| ensures !Captured(refs[i], m) {
      assert refs[i] in refs;
      if refs[i].name in m {
        assert m[refs[i].name] in m.Values;
      }
    }
  }

  // ----- references that are collected -----

  /** The same references, each under at least the binders. */
  predicate Tighter(a: seq<Occurrence>, b: seq<Occurrence>)
  {
    |a| == |b| && forall i :: 0 <= i < |a| ==> a[i].name == b[i].name && b[i].scope <= a[i].scope
  }

  lemma {:induction false} RefsTighter(e: Node, inner: set<string>, outer: set<string>)
    requires outer <= inner
    ensures Tighter(Refs(e, inner, true), Refs(e, outer, false))
    decreases e, 1
  {
    if !e.Ref? {
      PartsTighter(e);
      RefsFromTighter(e, 0, inner, outer);
    }
  }

  lemma {:induction false} PartsTighter(e: Node)
    ensures |Parts(e, true)| == |Parts(e, false)|
    ensures forall i :: 0 <= i < |Parts(e, true)| ==>
              Parts(e, true)[i].node == Parts(e, false)[i].node &&
              Parts(e, false)[i].under <= Parts(e, true)[i].under
  {
  }

  lemma {:induction false} RefsFromTighter(e: Node, i: nat, inner: set<string>, outer: set<string>)
    requires outer <= inner && i <= |Parts(e, true)| == |Parts(e, false)|
    ensures Tighter(RefsFrom(e, i, inner, true), RefsFrom(e, i, outer, false))
    decreases e, 0, |Parts(e, true)| - i
  {
    PartsTighter(e);
    hide Parts, Refs;
    var parts, loose := Parts(e, true), Parts(e, false);
    if i < |parts| {
      RefsTighter(parts[i].node, inner + parts[i].under, outer + loose[i].under);
      RefsFromTighter(e, i + 1, inner, outer);
    }
  }

  /** The collected references cover those that are renamed. */
  lemma {:induction false} CollectedCover(e: Node, inner: set<string>, outer: set<string>)
    requires outer <= inner
    ensures Free(e, inner, true) <= Free(e, outer, false)
  {
    hide Refs;
    RefsTighter(e, inner, outer);
    var a, b := Refs(e, inner, true), Refs(e, outer, false);
    forall x | x in FreeNames(a) ensures x in FreeNames(b) {
      var i :| 0 <= i < |a| && IsFree(a[i]) && a[i].name == x;
      assert b[i] in b && IsFree(b[i]);
    }
  }

  // ----- names that may be taken as bound -----

  /** The renaming leaves `p` alone, or `p` is not referred to. */
  predicate Spared(p: string, m: map<string, string>, free: set<string>)
  {
    p !in m || m[p] == p || p !in free
  }

  /** Two renamings of a term are equal when they are on every subterm. */
  lemma {:induction false} SameByParts(e: Node, m: map<string, string>, b: set<string>, c: set<string>)
    requires !e.Ref?
    ensures Rewrite(e, m, b) == Rewrite(e, m, c) <==>
            RewriteParts(Parts(e, true), m, b) == RewriteParts(Parts(e, true), m, c)
  {
    hide Rewrite, Parts, RewriteParts, SameHead;
    PartsRewritten(e, m, b);
    PartsRewritten(e, m, c);
    HeadKept(e, m, b, c);
    if RewriteParts(Parts(e, true), m, b) == RewriteParts(Parts(e, true), m, c) {
      PartsDetermine(Rewrite(e, m, b), Rewrite(e, m, c));
    }
  }

  /** Nodes of one kind that agree in everything but their subterms. */
  predicate SameHead(x: Node, y: Node)
  {
    match x
    case Quote(_) => y.Quote?
    case Fn(params, _) => y.Fn? && y.params == params
    case Let(n, _, _) => y.Let? && y.bound == n
    case Try(_, param, c, f, payload) =>
      y.Try? && y.catchParam == param && y.finallyPayload == payload && (y.catchBody.Some? <==> c.Some?) &&
      (y.finallyBody.Some? <==> f.Some?)
    case If(_, _, f) => y.If? && (y.else_.Some? <==> f.Some?)
    case Get(_, key) => y.Get? && y.key == key
    case Throw(_) => y.Throw?
    case Effect(id, _) => y.Effect? && y.id == id
    case And(_, _) => y.And?
    case Or(_, _) => y.Or?
    case While(_, _) => y.While?
    case Call(_, _) => y.Call?
    case Arr(_) => y.Arr?
    case Seq(_) => y.Seq?
    case Prim(op, _) => y.Prim? && y.op == op
    case Compound(kind, _) => y.Compound? && y.kind == kind
    case Obj(fields) => y.Obj? && y.fields.Keys == fields.Keys
    case Construct(entries) => y.Construct? && y.entries.Keys == entries.Keys
    case _ => x == y
  }

  lemma {:induction false} HeadKept(e: Node, m: map<string, string>, b: set<string>, c: set<string>)
    requires !e.Ref?
    ensures SameHead(Rewrite(e, m, b), Rewrite(e, m, c))
  {
    hide RewriteAll;
  }

  lemma {:induction false} EachDetermines(a: seq<Node>, b: seq<Node>)
    requires Each(a) == Each(b)
    ensures a == b
  {
    forall i | 0 <= i < |a| ensures a[i] == b[i] {
      assert Each(a)[i] == Each(b)[i];
    }
  }

  /** A node is determined by its head and its subterms. */
  lemma {:induction false} PartsDetermine(x: Node, y: Node)
    requires SameHead(x, y) && Parts(x, true) == Parts(y, true)
    ensures x == y
  {
    hide SameHead, Parts;
    if x.Obj? || x.Construct? {
      ObjectDetermined(x, y);
    } else if x.Arr? || x.Seq? || x.Prim? || x.Compound? {
      ListDetermined(x, y);
    } else if x.While? || x.Call? {
      TailDetermined(x, y);
    } else {
      FewDetermine(x, y);
    }
  }

  lemma {:induction false} ObjectDetermined(x: Node, y: Node)
    requires SameHead(x, y) && Parts(x, true) == Parts(y, true) && (x.Obj? || x.Construct?)
    ensures x == y
  {
    hide EachField, Sorted, SortedKeys;
    if x.Obj? {
      FieldsDetermine(x.fields, y.fields, SortedKeys(x.fields.Keys));
    } else {
      FieldsDetermine(x.entries, y.entries, SortedKeys(x.entries.Keys));
    }
  }

  lemma {:induction false} ListDetermined(x: Node, y: Node)
    requires SameHead(x, y) && Parts(x, true) == Parts(y, true) && (x.Arr? || x.Seq? || x.Prim? || x.Compound?)
    ensures x == y
  {
    hide Each;
    match x
    case Arr(items) => EachDetermines(items, y.items);
    case Seq(exprs) => EachDetermines(exprs, y.exprs);
    case Prim(_, operands) => EachDetermines(operands, y.operands);
    case Compound(_, branches) => EachDetermines(branches, y.branches);
  }

  lemma {:induction false} TailDetermined(x: Node, y: Node)
    requires SameHead(x, y) && Parts(x, true) == Parts(y, true) && (x.While? || x.Call?)
    ensures x == y
  {
    hide Each;
    var p, q := Parts(x, true), Parts(y, true);
    assert p[0] == q[0] && p[1..] == q[1..];
    if x.While? {
      assert p[1..] == Each(x.loop) && q[1..] == Each(y.loop);
      EachDetermines(x.loop, y.loop);
    } else {
      assert p[1..] == Each(x.args) && q[1..] == Each(y.args);
      EachDetermines(x.args, y.args);
    }
  }

  lemma {:induction false} FewDetermine(x: Node, y: Node)
    requires SameHead(x, y) && Parts(x, true) == Parts(y, true)
    requires !(x.Obj? || x.Construct? || x.While? || x.Call? || x.Arr? || x.Seq? || x.Prim? || x.Compound?)
    ensures x == y
  {
    var p, q := Parts(x, true), Parts(y, true);
    assert |p| > 0 ==> p[0] == q[0];
    assert |p| > 1 ==> p[1] == q[1];
    assert |p| > 2 ==> p[2] == q[2];
  }

  lemma {:induction false} FieldsDetermine(a: map<string, Node>, b: map<string, Node>, keys: seq<string>)
    requires KeysOf(keys, a) && KeysOf(keys, b) && EachField(a, keys) == EachField(b, keys)
    ensures a == b
  {
    forall k | k in a ensures k in b && a[k] == b[k] {
      assert k in keys;
      var i :| 0 <= i < |keys| && keys[i] == k;
      assert EachField(a, keys)[i] == EachField(b, keys)[i];
    }
    forall k | k in b ensures k in a {
      assert k in keys;
    }
  }

  lemma {:induction false} FreeByParts(e: Node, i: nat, bound: set<string>, p: string)
    requires i <= |Parts(e, true)|
    ensures p in FreeNames(RefsFrom(e, i, bound, true)) <==>
            exists j :: i <= j < |Parts(e, true)| &&
              p in Free(Parts(e, true)[j].node, bound + Parts(e, true)[j].under, true)
    decreases |Parts(e, true)| - i
  {
    hide Parts, Refs;
    var parts := Parts(e, true);
    if i < |parts| {
      FreeByParts(e, i + 1, bound, p);
      var a, b := Refs(parts[i].node, bound + parts[i].under, true), RefsFrom(e, i + 1, bound, true);
      assert RefsFrom(e, i, bound, true) == a + b;
      assert FreeNames(a + b) == FreeNames(a) + FreeNames(b);
    }
  }

  /** A name may be taken as bound without a difference exactly when nothing renames it or
      nothing refers to it. */
  lemma {:induction false} RewriteSpared(e: Node, m: map<string, string>, bound: set<string>, p: string)
    ensures Rewrite(e, m, bound) == Rewrite(e, m, bound + {p}) <==> Spared(p, m, Free(e, bound, true))
    decreases e
  {
    if e.Ref? {
      SparedRef(e, m, bound, p);
    } else {
      hide Rewrite, Refs, RefsFrom, Parts, FreeNames, IsFree, Free, Spared, RewritePart;
      var parts := Parts(e, true);
      forall i | 0 <= i < |parts|
        ensures RewritePart(parts[i], m, bound) == RewritePart(parts[i], m, bound + {p}) <==>
                Spared(p, m, Free(parts[i].node, bound + parts[i].under, true))
      {
        RewriteSpared(parts[i].node, m, bound + parts[i].under, p);
        SamePart(parts[i], m, bound, p);
      }
      SparedByParts(e, m, bound, p);
    }
  }

  lemma {:induction false} SamePart(q: Part, m: map<string, string>, bound: set<string>, p: string)
    ensures RewritePart(q, m, bound) == RewritePart(q, m, bound + {p}) <==>
            Rewrite(q.node, m, bound + q.under) == Rewrite(q.node, m, bound + q.under + {p})
  {
    hide Rewrite;
    assert bound + q.under + {p} == bound + {p} + q.under;
  }

  lemma {:induction false} SparedByParts(e: Node, m: map<string, string>, bound: set<string>, p: string)
    requires !e.Ref?
    requires forall i :: 0 <= i < |Parts(e, true)| ==>
               var q := Parts(e, true)[i];
               RewritePart(q, m, bound) == RewritePart(q, m, bound + {p}) <==>
               Spared(p, m, Free(q.node, bound + q.under, true))
    ensures Rewrite(e, m, bound) == Rewrite(e, m, bound + {p}) <==> Spared(p, m, Free(e, bound, true))
  {
    hide Rewrite, Refs, RefsFrom, Parts, FreeNames, IsFree, RewritePart;
    SameByParts(e, m, bound, bound + {p});
    FreeByParts(e, 0, bound, p);
    RefsAreParts(e, bound);
    var parts := Parts(e, true);
    var x, y := RewriteParts(parts, m, bound), RewriteParts(parts, m, bound + {p});
    assert x == y <==>
      forall i :: 0 <= i < |parts| ==> RewritePart(parts[i], m, bound) == RewritePart(parts[i], m, bound + {p});
  }

  lemma {:induction false} SparedRef(e: Node, m: map<string, string>, bound: set<string>, p: string)
    requires e.Ref?
    ensures Rewrite(e, m, bound) == Rewrite(e, m, bound + {p}) <==> Spared(p, m, Free(e, bound, true))
  {
    var o := Occurrence(e.name, bound);
    assert Refs(e, bound, true) == [o] && [o][0] == o;
    assert FreeNames([o]) == if IsFree(o) then {e.name} else {};
  }

  lemma {:induction false} RefsAreParts(e: Node, bound: set<string>)
    requires !e.Ref?
    ensures Refs(e, bound, true) == RefsFrom(e, 0, bound, true)
  {
    hide Parts;
  }

  // ----- finalizers -----

  /** The payload of a finalizer is bound by the kernel, but not when references are renamed:
      its references stay exactly when no compiled function of the module has its name or the
      finalizer does not use it. */
  lemma {:induction false} PayloadSpared(e: Node, m: map<string, string>, bound: set<string>)
    requires e.Try? && e.finallyBody.Some? && e.finallyPayload.Some?
    ensures var p, body := e.finallyPayload.value, e.finallyBody.value;
            Rewrite(e, m, bound).finallyBody == Some(Rewrite(body, m, bound + {p})) <==>
            Spared(p, m, Free(body, bound, true))
  {
    RewriteSpared(e.finallyBody.value, m, bound, e.finallyPayload.value);
  }
}
