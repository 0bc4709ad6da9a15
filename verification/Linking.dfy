/** Linking of compiled functions: which are reachable from an export, the runtime names under
    which they are bound, and the references between them. */
module Linking {
  import opened Text
  import opened Ir
  import opened Emit
  import opened Graph
  import opened Rewriting

  /** A compiled function: where it is declared, the name it is exported under, its IR, and the
      names that its author has chosen for parameters and catch parameters. */
  datatype Symbol = Symbol(modulePath: string, localName: string, exported: Option<string>, ir: Node,
                           chosen: set<string>)

  datatype Import = Import(localName: string, resolvedPath: string, importedName: string)

  datatype Module = Module(imports: seq<Import>, exports: map<string, string>)

  function Key(modulePath: string, localName: string): string { modulePath + ("::" + localName) }

  /** The compiled functions by key, the modules by path, and the position of each path. */
  datatype Build = Build(symbols: map<string, Symbol>, modules: map<string, Module>, index: map<string, nat>)

  // ----- what a name refers to -----

  function FindImport(imports: seq<Import>, name: string): Option<Import>
  {
    if imports == [] then None
    else if imports[0].localName == name then Some(imports[0])
    else FindImport(imports[1..], name)
  }

  /** The key of the function behind an import. */
  function ImportTarget(b: Build, i: Import): (r: Option<string>)
    ensures r.Some? ==> r.value in b.symbols
  {
    if i.resolvedPath !in b.modules || i.importedName !in b.modules[i.resolvedPath].exports then None
    else
      var target := Key(i.resolvedPath, b.modules[i.resolvedPath].exports[i.importedName]);
      if target in b.symbols then Some(target) else None
  }

  /** The compiled function that a free name of a module refers to: a local one, or one that
      is imported under that name. */
  function Resolved(b: Build, modulePath: string, name: string): (r: Option<string>)
    ensures r.Some? ==> r.value in b.symbols
  {
    if modulePath !in b.modules then None
    else if Key(modulePath, name) in b.symbols then Some(Key(modulePath, name))
    else
      var i := FindImport(b.modules[modulePath].imports, name);
      if i.None? then None else ImportTarget(b, i.value)
  }

  /** `t` is the function that the module at `q` exports as `x`. */
  predicate ExportedAs(b: Build, q: string, x: string, t: string)
  {
    && q in b.modules && x in b.modules[q].exports
    && t == q + "::" + b.modules[q].exports[x] && t in b.symbols
  }

  /** A name means the function that the module declares under it, or else what the module
      imports under it is exported as. */
  lemma {:induction false} NamesResolve(b: Build, path: string, name: string, t: string)
    requires path in b.modules && DistinctImports(b.modules[path].imports)
    ensures Resolved(b, path, name) == Some(t) <==>
            if path + "::" + name in b.symbols then t == path + "::" + name
            else exists i :: i in b.modules[path].imports && i.localName == name &&
                             ExportedAs(b, i.resolvedPath, i.importedName, t)
  {
    assert Key(path, name) == path + "::" + name;
    FoundImport(b.modules[path].imports, name);
    forall i: Import | i in b.modules[path].imports && i.resolvedPath in b.modules &&
                       i.importedName in b.modules[i.resolvedPath].exports
      ensures var x := b.modules[i.resolvedPath].exports[i.importedName];
              Key(i.resolvedPath, x) == i.resolvedPath + "::" + x
    {
    }
  }

  lemma {:induction false} FoundImport(imports: seq<Import>, name: string)
    requires DistinctImports(imports)
    ensures var f := FindImport(imports, name);
            && (f.Some? ==> f.value in imports && f.value.localName == name)
            && (forall i :: i in imports && i.localName == name ==> f == Some(i))
  {
    if imports != [] {
      FoundImport(imports[1..], name);
      assert forall i :: i in imports ==> i == imports[0] || i in imports[1..];
      if imports[0].localName == name {
        forall i | i in imports && i.localName == name ensures i == imports[0] {
          var k :| 0 <= k < |imports| && imports[k] == i;
        }
      }
    }
  }

  /** The functions that names of a module refer to. */
  function TargetsOf(b: Build, modulePath: string, names: seq<string>): (r: seq<string>)
    ensures forall t :: t in r <==> exists i :: 0 <= i < |names| && Resolved(b, modulePath, names[i]) == Some(t)
  {
    if names == [] then []
    else
      var n := |names| - 1;
      var t := Resolved(b, modulePath, names[n]);
      TargetsOf(b, modulePath, names[..n]) + (if t.Some? then [t.value] else [])
  }

  /** The functions that the free names of a compiled function refer to. */
  function Uses(b: Build, key: string): seq<string>
    requires key in b.symbols
  {
    TargetsOf(b, b.symbols[key].modulePath, SortedKeys(Free(b.symbols[key].ir, {}, false)))
  }

  function UseGraph(b: Build): Calls
  {
    map k | k in b.symbols :: Uses(b, k)
  }

  lemma {:induction false} UsesExactly(b: Build, key: string, t: string)
    requires key in b.symbols
    ensures t in Uses(b, key) <==>
            exists x :: x in Free(b.symbols[key].ir, {}, false) && Resolved(b, b.symbols[key].modulePath, x) == Some(t)
  {
    hide Resolved, TargetsOf, SortedKeys, Free;
    var path, names := b.symbols[key].modulePath, SortedKeys(Free(b.symbols[key].ir, {}, false));
    if t in Uses(b, key) {
      var i :| 0 <= i < |names| && Resolved(b, path, names[i]) == Some(t);
      assert names[i] in names;
    }
    if x :| x in Free(b.symbols[key].ir, {}, false) && Resolved(b, path, x) == Some(t) {
      assert x in names;
      var i :| 0 <= i < |names| && names[i] == x;
    }
  }

  lemma {:induction false} UseEdge(b: Build, key: string, t: string)
    ensures Edge(UseGraph(b), key, t) <==> key in b.symbols && t in Uses(b, key)
  {
    hide Uses;
  }

  lemma {:induction false} UsesAreSymbols(b: Build, key: string, t: string)
    requires key in b.symbols && t in Uses(b, key)
    ensures t in b.symbols
  {
    hide Uses, Resolved;
    UsesExactly(b, key, t);
  }

  // ----- reachability -----

  /** The worklist from the selected export: a symbol is marked when it is taken off. */
  method BuildPerExportReachable(b: Build, selected: string) returns (reachable: set<string>)
    requires selected in b.symbols
    ensures forall k :: k in reachable <==> Reach(UseGraph(b), selected, k)
    ensures reachable <= b.symbols.Keys
  {
    hide Reach, Uses, Edge, UseGraph;
    ghost var g := UseGraph(b);
    reachable := {};
    var worklist := [selected];
    ReachSelf(g, selected);
    while worklist != []
      invariant reachable <= b.symbols.Keys && Elements(worklist) <= b.symbols.Keys
      invariant forall k :: k in reachable || k in worklist ==> Reach(g, selected, k)
      invariant selected in reachable || selected in worklist
      invariant forall k, t :: k in reachable && Edge(g, k, t) ==> t in reachable || t in worklist
      decreases |b.symbols.Keys - reachable|, |worklist|
    {
      var key := worklist[|worklist| - 1];
      ghost var had, listed := reachable, worklist;
      worklist := worklist[..|worklist| - 1];
      assert forall k :: k in listed <==> k in worklist || k == key;
      assert key in Elements(listed);
      if key !in reachable {
        reachable := reachable + {key};
        FewerLeft(b.symbols.Keys, had, reachable);
        var targets := Uses(b, key);
        UsesReach(b, selected, key);
        worklist := worklist + Unmarked(targets, reachable);
      }
    }
    forall k | Reach(g, selected, k) ensures k in reachable {
      ClosedReach(g, (iset x | x in reachable), selected, k);
    }
  }

  function Unmarked(targets: seq<string>, reachable: set<string>): (r: seq<string>)
    ensures forall t :: t in r <==> t in targets && t !in reachable
  {
    if targets == [] then []
    else
      var n := |targets| - 1;
      assert forall t :: t in targets <==> t in targets[..n] || t == targets[n];
      Unmarked(targets[..n], reachable) + (if targets[n] in reachable then [] else [targets[n]])
  }

  lemma {:induction false} UsesReach(b: Build, selected: string, key: string)
    requires key in b.symbols && Reach(UseGraph(b), selected, key)
    ensures forall t :: t in Uses(b, key) ==> t in b.symbols && Reach(UseGraph(b), selected, t)
    ensures forall t :: Edge(UseGraph(b), key, t) <==> t in Uses(b, key)
  {
    hide Reach, Uses, Edge, UseGraph;
    forall t ensures Edge(UseGraph(b), key, t) <==> t in Uses(b, key) {
      UseEdge(b, key, t);
    }
    forall t | t in Uses(b, key) ensures t in b.symbols && Reach(UseGraph(b), selected, t) {
      UsesAreSymbols(b, key, t);
      ReachEdge(UseGraph(b), key, t);
      ReachTransitive(UseGraph(b), selected, key, t);
    }
  }

  // ----- runtime names -----

  /** Exported functions keep their name, others get one that carries their module's position. */
  function EmittedName(b: Build, s: Symbol): string
  {
    if s.exported.Some? then s.exported.value
    else "__m" + (Decimal(if s.modulePath in b.index then b.index[s.modulePath] else 0) + ['_'] + s.localName)
  }

  function RuntimeName(b: Build, s: Symbol): string
  {
    if s.exported.Some? then "__rtexport_" + EmittedName(b, s) else EmittedName(b, s)
  }

  predicate NoColon(name: string) { forall i :: 0 <= i < |name| ==> name[i] != ':' }

  /** What earlier phases guarantee: functions are stored under their keys, every module has a
      position of its own and distinct identifiers, and exported names are distinct. */
  ghost predicate Checked(b: Build)
  {
    && (forall k :: k in b.symbols ==> Stored(b, k))
    && (forall p, q :: p in b.index && q in b.index && b.index[p] == b.index[q] ==> p == q)
    && (forall p :: p in b.modules ==> DistinctIdentifiers(b, p))
    && (forall j, k :: j in b.symbols && k in b.symbols ==> (SameExport(b.symbols[j], b.symbols[k]) ==> j == k))
  }

  /** Names are identifiers, and binders are what the compiler lets through. */
  ghost predicate Stored(b: Build, k: string)
    requires k in b.symbols
  {
    var s := b.symbols[k];
    && k == Key(s.modulePath, s.localName) && NoColon(s.localName) && s.modulePath in b.modules
    && s.modulePath in b.index && Identifiers(Free(s.ir, {}, true)) && Binds(s.ir, Admitted(s.chosen))
  }

  lemma {:induction false} StoredAs(b: Build, k: string)
    requires Checked(b) && k in b.symbols
    ensures var s := b.symbols[k];
            && k == Key(s.modulePath, s.localName) && NoColon(s.localName)
            && s.modulePath in b.modules && s.modulePath in b.index
  {
    hide Binds, Free, NoColon, Key, Identifiers, DistinctIdentifiers, SameExport;
    assert Stored(b, k);
  }

  predicate Identifiers(names: set<string>) { forall x :: x in names ==> NoColon(x) }

  /** The identifiers of a module are distinct, as the source language demands. */
  predicate DistinctIdentifiers(b: Build, modulePath: string)
    requires modulePath in b.modules
  {
    var imports := b.modules[modulePath].imports;
    && DistinctImports(imports)
    && (forall i :: 0 <= i < |imports| ==> Key(modulePath, imports[i].localName) !in b.symbols)
  }

  predicate DistinctImports(imports: seq<Import>)
  {
    forall i, j :: 0 <= i < j < |imports| ==> imports[i].localName != imports[j].localName
  }

  predicate SameExport(s: Symbol, t: Symbol) { s.exported.Some? && s.exported == t.exported }

  /** Digits up to the first underscore determine both parts. */
  lemma {:induction false} FirstPartUnique(x: string, a: string, y: string, c: string)
    requires AllDigits(x) && AllDigits(y) && x + ['_'] + a == y + ['_'] + c
    ensures x == y && a == c
  {
    var s := x + ['_'] + a;
    assert s[|x|] == '_' && s[|y|] == '_';
    assert forall i :: 0 <= i < |x| ==> s[i] == x[i];
    assert forall i :: 0 <= i < |y| ==> s[i] == y[i];
    assert |x| == |y|;
    assert x == s[..|x|] && y == s[..|y|];
    assert a == s[|x| + 1..] && c == s[|y| + 1..];
  }

  /** A name without colons is what follows the last colon of a key. */
  lemma {:induction false} KeyInjective(p: string, x: string, q: string, y: string)
    requires NoColon(x) && NoColon(y) && Key(p, x) == Key(q, y)
    ensures p == q && x == y
  {
    var s := Key(p, x);
    assert s[|p| + 1] == ':' && s[|q| + 1] == ':';
    assert forall i :: |p| + 2 <= i < |s| ==> s[i] == x[i - |p| - 2];
    assert forall i :: |q| + 2 <= i < |s| ==> s[i] == y[i - |q| - 2];
    assert |p| == |q|;
    assert p == s[..|p|] && q == s[..|q|];
    assert x == s[|p| + 2..] && y == s[|q| + 2..];
  }

  /** Different functions have different runtime names. */
  lemma {:induction false} RuntimeNamesInjective(b: Build, j: string, k: string)
    requires Checked(b) && j in b.symbols && k in b.symbols
    requires RuntimeName(b, b.symbols[j]) == RuntimeName(b, b.symbols[k])
    ensures j == k
  {
    hide Decimal;
    var s, t := b.symbols[j], b.symbols[k];
    StoredAs(b, j);
    StoredAs(b, k);
    NamedByKind(b, s);
    NamedByKind(b, t);
    if s.exported.Some? {
      assert SameExport(s, t);
    } else {
      var m, n := Decimal(b.index[s.modulePath]), Decimal(b.index[t.modulePath]);
      FirstPartUnique(m, s.localName, n, t.localName);
      DecimalInjective(b.index[s.modulePath], b.index[t.modulePath]);
    }
  }

  /** How runtime names are spelled. */
  lemma {:induction false} RuntimeNameSpelled(b: Build, s: Symbol)
    requires s.modulePath in b.index
    ensures s.exported.Some? ==> RuntimeName(b, s) == "__rtexport_" + s.exported.value
    ensures s.exported.None? ==>
              RuntimeName(b, s) == "__m" + Decimal(b.index[s.modulePath]) + "_" + s.localName
  {
    assert "__m" + (Decimal(b.index[s.modulePath]) + ['_'] + s.localName) ==
           "__m" + Decimal(b.index[s.modulePath]) + "_" + s.localName;
  }

  /** What a runtime name says. */
  lemma {:induction false} NamedByKind(b: Build, s: Symbol)
    ensures var r := RuntimeName(b, s);
            && |r| >= 3 && (r[2] == 'r' <==> s.exported.Some?)
            && (s.exported.Some? ==> |r| >= 11 && r[11..] == s.exported.value)
            && (s.exported.None? && s.modulePath in b.index ==>
                  r[3..] == Decimal(b.index[s.modulePath]) + ['_'] + s.localName)
  {
    hide Decimal;
  }

  // ----- binders and runtime names -----

  /** The prefixes under which the compiler makes names up. */
  const Prefixes: set<string> :=
    {"discard", "err_fp", "fp", "fp_eff", "item", "j", "last", "loop", "loop_result", "poll", "probe", "r", "sub",
     "until", "while"}

  /** A binder that the compiler writes down itself: a name of its own, or a declared variable,
      as it is or with its version. Declared names do not begin with two underscores. */
  ghost predicate Written(x: string)
  {
    || !Reserved(x)
    || (exists v, k: nat :: !Reserved(v) && x == Versioned(v, k))
    || (exists p, n: nat :: p in Prefixes && x == CounterName(p, n))
  }

  /** Besides, parameters and catch parameters are taken over as they are. */
  ghost function Admitted(chosen: set<string>): string -> bool
  {
    x => x in chosen || Written(x)
  }

  /** The spelling of runtime names. */
  predicate RuntimeLike(x: string)
  {
    |x| >= 4 && x[0] == '_' && x[1] == '_' && ((x[2] == 'm' && IsDigit(x[3])) || (x[2] == 'r' && x[3] == 't'))
  }

  lemma {:induction false} RuntimeNamesLike(b: Build, s: Symbol)
    ensures RuntimeLike(RuntimeName(b, s))
  {
    var n := if s.modulePath in b.index then b.index[s.modulePath] else 0;
    assert Decimal(n) != [] && IsDigit(Decimal(n)[0]);
  }

  lemma {:induction false} CounterNotLike(p: string, n: nat)
    requires p in Prefixes
    ensures !RuntimeLike(CounterName(p, n))
  {
    hide Decimal;
    var x := CounterName(p, n);
    assert x[2] == p[0] && x[3] == if |p| > 1 then p[1] else '_';
  }

  lemma {:induction false} VersionNotLike(v: string, k: nat)
    requires !Reserved(v)
    ensures !RuntimeLike(Versioned(v, k))
  {
    var d := Decimal(k);
    assert d != [] && IsDigit(d[0]);
    hide Decimal;
    assert Versioned(v, k) == v + (['_'] + d);
  }

  /** No binder of the compiler's own is spelled like a runtime name. */
  lemma {:induction false} WrittenNotLike(x: string)
    requires Written(x)
    ensures !RuntimeLike(x)
  {
    hide RuntimeLike, Versioned, CounterName;
    if v, k: nat :| !Reserved(v) && x == Versioned(v, k) {
      VersionNotLike(v, k);
    } else if p, n: nat :| p in Prefixes && x == CounterName(p, n) {
      CounterNotLike(p, n);
    } else {
      ReservedLike(x);
    }
  }

  lemma {:induction false} ReservedLike(x: string)
    ensures RuntimeLike(x) ==> Reserved(x)
  {
  }

  /** No parameter or catch parameter is spelled like a runtime name. */
  predicate Harmless(chosen: set<string>) { forall x :: x in chosen ==> !RuntimeLike(x) }

  /** That is so when none begins with two underscores. */
  lemma {:induction false} UnreservedHarmless(chosen: set<string>)
    requires forall x :: x in chosen ==> !Reserved(x)
    ensures Harmless(chosen)
  {
    forall x | x in chosen ensures !RuntimeLike(x) {
      ReservedLike(x);
    }
  }

  /** Binders that leave runtime names alone. */
  ghost function Distinguished(): string -> bool { x => !RuntimeLike(x) }

  lemma {:induction false} HarmlessBinds(e: Node, chosen: set<string>)
    requires Binds(e, Admitted(chosen)) && Harmless(chosen)
    ensures Binds(e, Distinguished())
  {
    hide Binds, RuntimeLike, Written;
    forall x | Admitted(chosen)(x) ensures Distinguished()(x) {
      if x !in chosen {
        WrittenNotLike(x);
      }
    }
    BindsMore(e, Admitted(chosen), Distinguished());
  }

  // ----- name maps -----

  /** The names of the module's own functions. */
  function LocalNames(b: Build, modulePath: string, reachable: set<string>): map<string, string>
    requires reachable <= b.symbols.Keys
  {
    var names := set k | k in reachable && b.symbols[k].modulePath == modulePath :: b.symbols[k].localName;
    map x | x in names && Key(modulePath, x) in b.symbols :: RuntimeName(b, b.symbols[Key(modulePath, x)])
  }

  function ImportNames(b: Build, reachable: set<string>, imports: seq<Import>,
                       locals: map<string, string>): map<string, string>
    requires reachable <= b.symbols.Keys
  {
    if imports == [] then locals
    else
      var n := |imports| - 1;
      var before := ImportNames(b, reachable, imports[..n], locals);
      var target := ImportTarget(b, imports[n]);
      if target.Some? && target.value in reachable then
        before[imports[n].localName := RuntimeName(b, b.symbols[target.value])]
      else before
  }

  function NameMap(b: Build, modulePath: string, reachable: set<string>): map<string, string>
    requires reachable <= b.symbols.Keys && modulePath in b.modules
  {
    ImportNames(b, reachable, b.modules[modulePath].imports, LocalNames(b, modulePath, reachable))
  }

  lemma {:induction false} LocalNamesNext(b: Build, modulePath: string, done: set<string>, key: string)
    requires Checked(b) && done <= b.symbols.Keys && key in b.symbols
    ensures var before, after := LocalNames(b, modulePath, done), LocalNames(b, modulePath, done + {key});
            var s := b.symbols[key];
            after == if s.modulePath == modulePath then before[s.localName := RuntimeName(b, s)] else before
  {
    hide RuntimeName, Key, NoColon, Checked;
    StoredAs(b, key);
  }

  method BuildLocalNames(b: Build, modulePath: string, reachable: set<string>) returns (names: map<string, string>)
    requires Checked(b) && reachable <= b.symbols.Keys
    ensures names == LocalNames(b, modulePath, reachable)
  {
    hide LocalNames, RuntimeName, Checked, Sorted;
    var keys := SortedKeys(reachable);
    names := map[];
    ghost var done: set<string> := {};
    NoLocalNames(b, modulePath);
    for i := 0 to |keys|
      invariant done <= reachable && forall j :: 0 <= j < i ==> keys[j] in done
      invariant names == LocalNames(b, modulePath, done)
    {
      var key := keys[i];
      assert key in keys;
      LocalNamesNext(b, modulePath, done, key);
      done := done + {key};
      var s := b.symbols[key];
      if s.modulePath == modulePath {
        names := names[s.localName := RuntimeName(b, s)];
      }
    }
    assert reachable <= done by {
      assert forall k :: k in reachable ==> k in keys;
    }
    assert done == reachable;
  }

  /** The runtime names of a module's identifiers: its own functions, then its imports. */
  method BuildModuleNameMap(b: Build, modulePath: string, reachable: set<string>) returns (names: map<string, string>)
    requires Checked(b) && modulePath in b.modules && reachable <= b.symbols.Keys
    ensures names == NameMap(b, modulePath, reachable)
  {
    hide LocalNames, RuntimeName, Checked, ImportTarget;
    names := BuildLocalNames(b, modulePath, reachable);
    var imports := b.modules[modulePath].imports;
    for i := 0 to |imports|
      invariant names == ImportNames(b, reachable, imports[..i], LocalNames(b, modulePath, reachable))
    {
      assert imports[..i + 1][..i] == imports[..i];
      var target := ImportTarget(b, imports[i]);
      if target.Some? && target.value in reachable {
        names := names[imports[i].localName := RuntimeName(b, b.symbols[target.value])];
      }
    }
    assert imports[..|imports|] == imports;
  }

  lemma {:induction false} NoLocalNames(b: Build, modulePath: string)
    ensures LocalNames(b, modulePath, {}) == map[]
  {
  }

  lemma {:induction false} ImportNamesAt(b: Build, reachable: set<string>, imports: seq<Import>,
                                         locals: map<string, string>,
                                         name: string)
    requires reachable <= b.symbols.Keys && DistinctImports(imports)
    ensures var r, found := ImportNames(b, reachable, imports, locals), FindImport(imports, name);
            if found.Some? && ImportTarget(b, found.value).Some? && ImportTarget(b, found.value).value in reachable then
              name in r && r[name] == RuntimeName(b, b.symbols[ImportTarget(b, found.value).value])
            else if name in locals then name in r && r[name] == locals[name]
            else name !in r
    decreases |imports|
  {
    hide RuntimeName, ImportTarget;
    if imports != [] {
      var n := |imports| - 1;
      ImportNamesAt(b, reachable, imports[..n], locals, name);
      FindLast(imports, name);
    }
  }

  /** Among distinct names the last import is found last. */
  lemma {:induction false} FindLast(imports: seq<Import>, name: string)
    requires imports != [] && DistinctImports(imports)
    ensures var n := |imports| - 1;
            FindImport(imports, name) ==
            if imports[n].localName == name then Some(imports[n]) else FindImport(imports[..n], name)
    ensures imports[|imports| - 1].localName == name ==> FindImport(imports[..|imports| - 1], name) == None
    decreases |imports|
  {
    var n := |imports| - 1;
    if n > 0 {
      FindLast(imports[1..], name);
      assert imports[1..][..n - 1] == imports[..n][1..];
    }
  }

  lemma {:induction false} FindIn(imports: seq<Import>, name: string) returns (i: nat)
    requires FindImport(imports, name).Some?
    ensures i < |imports| && imports[i] == FindImport(imports, name).value && imports[i].localName == name
    decreases |imports|
  {
    i := 0;
    if imports[0].localName != name {
      i := FindIn(imports[1..], name);
      i := i + 1;
    }
  }

  lemma {:induction false} LocalNameAt(b: Build, modulePath: string, reachable: set<string>, name: string)
    requires Checked(b) && reachable <= b.symbols.Keys && NoColon(name)
    ensures var locals, k := LocalNames(b, modulePath, reachable), Key(modulePath, name);
            if k in reachable then name in locals && locals[name] == RuntimeName(b, b.symbols[k]) else name !in locals
  {
    hide RuntimeName, Key, NoColon;
    var k := Key(modulePath, name);
    if k in reachable {
      assert Stored(b, k);
      KeyInjective(modulePath, name, b.symbols[k].modulePath, b.symbols[k].localName);
    }
    forall j | j in reachable && b.symbols[j].modulePath == modulePath && b.symbols[j].localName == name
      ensures j == k
    {
      assert Stored(b, j);
    }
  }

  /** The map of a module gives each of its names that refers to a reachable function that
      function's runtime name, and has no other names. */
  lemma {:induction false} NamesMeanTargets(b: Build, modulePath: string, reachable: set<string>, name: string)
    requires Checked(b) && reachable <= b.symbols.Keys && NoColon(name)
    requires modulePath in b.modules
    ensures var m, t := NameMap(b, modulePath, reachable), Resolved(b, modulePath, name);
            if t.Some? && t.value in reachable then name in m && m[name] == RuntimeName(b, b.symbols[t.value])
            else name !in m
  {
    hide RuntimeName, ImportTarget, ImportNames, LocalNames, Stored, Key, NoColon;
    assert DistinctIdentifiers(b, modulePath);
    var imports, locals := b.modules[modulePath].imports, LocalNames(b, modulePath, reachable);
    ImportNamesAt(b, reachable, imports, locals, name);
    LocalNameAt(b, modulePath, reachable, name);
    if FindImport(imports, name).Some? {
      var i := FindIn(imports, name);
    }
  }

  lemma {:induction false} ImportNamesLike(b: Build, reachable: set<string>, imports: seq<Import>,
                                           locals: map<string, string>)
    requires reachable <= b.symbols.Keys && forall v :: v in locals.Values ==> RuntimeLike(v)
    ensures forall v :: v in ImportNames(b, reachable, imports, locals).Values ==> RuntimeLike(v)
    decreases |imports|
  {
    hide RuntimeLike, RuntimeName, ImportTarget;
    if imports != [] {
      var n := |imports| - 1;
      ImportNamesLike(b, reachable, imports[..n], locals);
      var target := ImportTarget(b, imports[n]);
      if target.Some? {
        RuntimeNamesLike(b, b.symbols[target.value]);
      }
    }
  }

  /** The names in a module's map are runtime names. */
  lemma {:induction false} NameMapLike(b: Build, modulePath: string, reachable: set<string>)
    requires reachable <= b.symbols.Keys && modulePath in b.modules
    ensures forall v :: v in NameMap(b, modulePath, reachable).Values ==> RuntimeLike(v)
  {
    hide RuntimeLike, RuntimeName, ImportNames;
    var locals := LocalNames(b, modulePath, reachable);
    forall v | v in locals.Values ensures RuntimeLike(v) {
      var x :| x in locals && locals[x] == v;
      RuntimeNamesLike(b, b.symbols[Key(modulePath, x)]);
    }
    ImportNamesLike(b, reachable, b.modules[modulePath].imports, locals);
  }

  // ----- the linked program -----

  /** The IR of a function with its references renamed. */
  function Linked(b: Build, key: string, reachable: set<string>): Node
    requires reachable <= b.symbols.Keys && key in b.symbols && b.symbols[key].modulePath in b.modules
  {
    Rewrite(b.symbols[key].ir, NameMap(b, b.symbols[key].modulePath, reachable), {})
  }

  datatype Linkage = Linkage(ir: Node, bindings: map<string, Node>, reachable: set<string>) | NoSuchExport

  predicate IsExport(b: Build, name: string, key: string)
  {
    key in b.symbols && b.symbols[key].exported == Some(name)
  }

  /** All reachable functions are bound under their runtime names, and nothing else is. */
  ghost predicate BoundAll(b: Build, reachable: set<string>, bindings: map<string, Node>)
    requires reachable <= b.symbols.Keys && forall k :: k in b.symbols ==> b.symbols[k].modulePath in b.modules
  {
    && (forall k :: k in reachable ==> BoundAt(b, reachable, bindings, k))
    && (forall n :: n in bindings ==> exists k :: k in reachable && n == RuntimeName(b, b.symbols[k]))
  }

  ghost predicate BoundAt(b: Build, reachable: set<string>, bindings: map<string, Node>, k: string)
    requires reachable <= b.symbols.Keys && k in b.symbols && b.symbols[k].modulePath in b.modules
  {
    var name := RuntimeName(b, b.symbols[k]);
    name in bindings && bindings[name] == Linked(b, k, reachable)
  }

  /** The references of a compiled function, and the same references after linking. */
  function Before(b: Build, key: string): seq<Occurrence>
    requires key in b.symbols
  {
    Refs(b.symbols[key].ir, {}, true)
  }

  function Afterwards(b: Build, key: string, reachable: set<string>): seq<Occurrence>
    requires reachable <= b.symbols.Keys && key in b.symbols && b.symbols[key].modulePath in b.modules
  {
    Refs(Linked(b, key, reachable), {}, true)
  }

  /** A session of linking: what is reachable from the selected export. */
  ghost predicate Reached(b: Build, selected: string, reachable: set<string>)
  {
    && Checked(b) && selected in b.symbols && reachable <= b.symbols.Keys
    && (forall k :: k in reachable <==> Reach(UseGraph(b), selected, k))
    && (forall k :: k in b.symbols ==> b.symbols[k].modulePath in b.modules)
  }

  /** The compiled function that a free reference of the function `key` means. */
  function Meant(b: Build, key: string, o: Occurrence): (t: Option<string>)
    requires key in b.symbols
    ensures t.Some? ==> t.value in b.symbols
  {
    if IsFree(o) then Resolved(b, b.symbols[key].modulePath, o.name) else None
  }

  /** The name of a reference after linking. */
  function LinkedName(b: Build, key: string, o: Occurrence): string
    requires key in b.symbols
  {
    var t := Meant(b, key, o);
    if t.Some? then RuntimeName(b, b.symbols[t.value]) else o.name
  }

  /** Reference by reference: what means a compiled function means a reachable one and gets its
      runtime name, everything else stays; the binders around a reference stay. */
  lemma {:induction false} LinkedReferences(b: Build, selected: string, reachable: set<string>, key: string, i: nat)
    requires Reached(b, selected, reachable) && key in reachable && i < |Before(b, key)|
    ensures var o := Before(b, key)[i];
            && (Meant(b, key, o).Some? ==> Meant(b, key, o).value in reachable)
            && |Afterwards(b, key, reachable)| == |Before(b, key)|
            && Afterwards(b, key, reachable)[i] == Occurrence(LinkedName(b, key, o), o.scope)
  {
    hide Checked, Refs, Rewrite, Resolved, Reach, UseGraph, Uses, NameMap, RuntimeName, NoColon;
    var path, ir := b.symbols[key].modulePath, b.symbols[key].ir;
    var o, m := Before(b, key)[i], NameMap(b, path, reachable);
    RefsRewritten(ir, m, {});
    assert Afterwards(b, key, reachable)[i] == Move(o, m);
    if IsFree(o) {
      assert o in Before(b, key) && o.name in Free(ir, {}, true);
      IdentifierRefs(b, key, o.name);
      NamesMeanTargets(b, path, reachable, o.name);
      if Resolved(b, path, o.name).Some? {
        ReferenceReachable(b, selected, key, o.name);
      }
    }
  }

  lemma {:induction false} IdentifierRefs(b: Build, key: string, x: string)
    requires Checked(b) && key in b.symbols && x in Free(b.symbols[key].ir, {}, true)
    ensures NoColon(x)
  {
    hide NoColon, Free, Binds;
    assert Stored(b, key);
  }

  lemma {:induction false} ReferenceReachable(b: Build, selected: string, key: string, x: string)
    requires key in b.symbols && Reach(UseGraph(b), selected, key)
    requires x in Free(b.symbols[key].ir, {}, true) && Resolved(b, b.symbols[key].modulePath, x).Some?
    ensures Reach(UseGraph(b), selected, Resolved(b, b.symbols[key].modulePath, x).value)
  {
    hide Free, Resolved, Reach, UseGraph, Uses, Edge;
    CollectedCover(b.symbols[key].ir, {}, {});
    var t := Resolved(b, b.symbols[key].modulePath, x).value;
    UsesExactly(b, key, t);
    UsesReach(b, selected, key);
  }

  /** Linking is closed: the runtime name that a reference to a compiled function gets is bound
      to that function, linked in its turn. The reference is captured by the function it stands
      in exactly when it stands under a binder of that name. */
  lemma {:induction false} LinkClosed(b: Build, selected: string, reachable: set<string>, bindings: map<string, Node>,
                                      key: string, i: nat)
    requires Reached(b, selected, reachable) && BoundAll(b, reachable, bindings)
    requires key in reachable && i < |Before(b, key)| && Meant(b, key, Before(b, key)[i]).Some?
    ensures var o := Before(b, key)[i];
            var t := Meant(b, key, o).value;
            var name := RuntimeName(b, b.symbols[t]);
            && t in reachable && name in bindings && bindings[name] == Linked(b, t, reachable)
            && |Afterwards(b, key, reachable)| == |Before(b, key)| && Afterwards(b, key, reachable)[i].name == name
            && (IsFree(Afterwards(b, key, reachable)[i]) <==> name !in o.scope)
  {
    hide Checked, Refs, Rewrite, Resolved, Reach, UseGraph, Uses, NameMap, RuntimeName, Linked;
    LinkedReferences(b, selected, reachable, key, i);
    var t := Meant(b, key, Before(b, key)[i]).value;
    assert BoundAt(b, reachable, bindings, t);
  }

  /** A function captures none of its own references exactly when no reference that means a
      compiled function stands under a binder of that function's runtime name. */
  lemma {:induction false} LinkCapturesExactly(b: Build, selected: string, reachable: set<string>, key: string)
    requires Reached(b, selected, reachable) && key in reachable
    ensures |Afterwards(b, key, reachable)| == |Before(b, key)|
    ensures StayFree(Before(b, key), Afterwards(b, key, reachable)) <==>
            forall i :: 0 <= i < |Before(b, key)| && Meant(b, key, Before(b, key)[i]).Some? ==>
              LinkedName(b, key, Before(b, key)[i]) !in Before(b, key)[i].scope
  {
    hide Checked, Refs, Rewrite, Resolved, Reach, UseGraph, Uses, NameMap, RuntimeName, Linked;
    var before, after := Before(b, key), Afterwards(b, key, reachable);
    SameCount(b, key, reachable);
    forall i | 0 <= i < |before| ensures after[i] == Occurrence(LinkedName(b, key, before[i]), before[i].scope) {
      LinkedReferences(b, selected, reachable, key, i);
    }
  }

  lemma {:induction false} SameCount(b: Build, key: string, reachable: set<string>)
    requires reachable <= b.symbols.Keys && key in b.symbols && b.symbols[key].modulePath in b.modules
    ensures |Afterwards(b, key, reachable)| == |Before(b, key)|
  {
    hide Refs, Rewrite, NameMap;
    RefsRewritten(b.symbols[key].ir, NameMap(b, b.symbols[key].modulePath, reachable), {});
  }

  /** Without parameters and catch parameters that are spelled like runtime names a function
      captures nothing, and binds no runtime name. */
  lemma {:induction false} HarmlessLink(b: Build, selected: string, reachable: set<string>, key: string)
    requires Reached(b, selected, reachable) && key in reachable && Harmless(b.symbols[key].chosen)
    ensures |Afterwards(b, key, reachable)| == |Before(b, key)|
    ensures StayFree(Before(b, key), Afterwards(b, key, reachable))
    ensures Binds(Linked(b, key, reachable), Distinguished())
  {
    hide Refs, Rewrite, Resolved, Reach, UseGraph, Uses, NameMap, Binds, RuntimeLike, Harmless, Written, Free;
    var s := b.symbols[key];
    var m := NameMap(b, s.modulePath, reachable);
    assert Stored(b, key);
    HarmlessBinds(s.ir, s.chosen);
    NameMapLike(b, s.modulePath, reachable);
    NoCapture(s.ir, m, Distinguished());
    CaptureExactly(s.ir, m, {});
    BindsRewritten(s.ir, m, {}, Distinguished());
  }

  /** `compileGraphForRuntime`, once the functions are compiled: the export, renamed, and all
      functions that it needs, each bound under its runtime name. */
  method CompileGraphForRuntime(b: Build, exportName: string) returns (r: Linkage)
    requires Checked(b)
    ensures r.NoSuchExport? <==> forall k :: !IsExport(b, exportName, k)
    ensures r.Linkage? ==> exists selected ::
              && IsExport(b, exportName, selected)
              && (forall k :: k in r.reachable <==> Reach(UseGraph(b), selected, k))
              && r.reachable <= b.symbols.Keys && BoundAll(b, r.reachable, r.bindings)
              && r.ir == Linked(b, selected, r.reachable)
  {
    hide Reach, UseGraph, NameMap, RuntimeName, Rewrite, Uses, Checked;
    AllStored(b);
    var selected: string := "";
    var keys := SortedKeys(b.symbols.Keys);
    var at := 0;
    while at < |keys| && b.symbols[keys[at]].exported != Some(exportName)
      invariant 0 <= at <= |keys|
      invariant forall i :: 0 <= i < at ==> !IsExport(b, exportName, keys[i])
    {
      assert keys[at] in keys;
      at := at + 1;
    }
    if at == |keys| {
      forall k ensures !IsExport(b, exportName, k) {
        assert k in b.symbols ==> k in keys;
      }
      return NoSuchExport;
    }
    selected := keys[at];
    assert selected in keys;
    var reachable := BuildPerExportReachable(b, selected);
    ReachSelf(UseGraph(b), selected);
    var bindings := BindAll(b, reachable);
    assert IsExport(b, exportName, selected);
    r := Linkage(Linked(b, selected, reachable), bindings, reachable);
  }

  lemma {:induction false} AllStored(b: Build)
    requires Checked(b)
    ensures forall k :: k in b.symbols ==> b.symbols[k].modulePath in b.modules
  {
    hide Checked;
    forall k | k in b.symbols ensures b.symbols[k].modulePath in b.modules {
      StoredAs(b, k);
    }
  }

  method BindAll(b: Build, reachable: set<string>) returns (bindings: map<string, Node>)
    requires Checked(b) && reachable <= b.symbols.Keys
    requires forall k :: k in b.symbols ==> b.symbols[k].modulePath in b.modules
    ensures BoundAll(b, reachable, bindings)
  {
    hide NameMap, RuntimeName, Rewrite, Checked, BoundAt, Sorted;
    bindings := map[];
    var keys := SortedKeys(reachable);
    for i := 0 to |keys|
      invariant forall j :: 0 <= j < i ==> keys[j] in keys && BoundAt(b, reachable, bindings, keys[j])
      invariant forall n :: n in bindings ==> exists k :: k in reachable && n == RuntimeName(b, b.symbols[k])
    {
      var key := keys[i];
      assert key in keys;
      var names := BuildModuleNameMap(b, b.symbols[key].modulePath, reachable);
      ghost var before := bindings;
      bindings := bindings[RuntimeName(b, b.symbols[key]) := Rewrite(b.symbols[key].ir, names, {})];
      BindNext(b, reachable, before, key);
      forall j | 0 <= j < i ensures BoundAt(b, reachable, bindings, keys[j]) {
        OtherName(b, keys, j, i);
        StaysBound(b, reachable, before, key, keys[j]);
      }
    }
  }

  lemma {:induction false} BindNext(b: Build, reachable: set<string>, before: map<string, Node>, key: string)
    requires reachable <= b.symbols.Keys && key in b.symbols && b.symbols[key].modulePath in b.modules
    ensures BoundAt(b, reachable, before[RuntimeName(b, b.symbols[key]) := Linked(b, key, reachable)], key)
  {
    hide RuntimeName, Linked;
  }

  lemma {:induction false} StaysBound(b: Build, reachable: set<string>, before: map<string, Node>, key: string,
                                      k: string)
    requires reachable <= b.symbols.Keys && key in b.symbols && b.symbols[key].modulePath in b.modules
    requires k in b.symbols && b.symbols[k].modulePath in b.modules && BoundAt(b, reachable, before, k)
    requires RuntimeName(b, b.symbols[k]) != RuntimeName(b, b.symbols[key])
    ensures BoundAt(b, reachable, before[RuntimeName(b, b.symbols[key]) := Linked(b, key, reachable)], k)
  {
    hide RuntimeName, Linked;
  }

  lemma {:induction false} OtherName(b: Build, keys: seq<string>, j: nat, i: nat)
    requires Checked(b) && Sorted(keys) && j < i < |keys| && keys[j] in b.symbols && keys[i] in b.symbols
    ensures RuntimeName(b, b.symbols[keys[j]]) != RuntimeName(b, b.symbols[keys[i]])
  {
    hide Checked, RuntimeName;
    LessIrreflexive(keys[i]);
    if RuntimeName(b, b.symbols[keys[j]]) == RuntimeName(b, b.symbols[keys[i]]) {
      RuntimeNamesInjective(b, keys[j], keys[i]);
    }
  }
}
