// The binding half of Table::Open: columns to the select and count statements, parameters to the
// prepared statements, numbered as the markers are.
module TableBinding {
  import opened Flags
  import opened BindingSpec
  import opened Binding
  import opened Statement
  import opened SqlBuilder
  import opened TableStatements

  function Buffers(cols: seq<Column>): (r: seq<ColumnBuffer>)
    ensures |r| == |cols|
    ensures forall i | 0 <= i < |cols| :: r[i] == cols[i].buffer
  {
    if cols == [] then [] else Buffers(cols[..|cols| - 1]) + [cols[|cols| - 1].buffer]
  }

  /** Buffer i as number i + 1. */
  function Numbered(bs: seq<ColumnBuffer>): map<nat, ColumnBuffer> {
    if bs == [] then map[] else Numbered(bs[..|bs| - 1])[|bs| := bs[|bs| - 1]]
  }

  lemma {:induction false} NumberedMeaning(bs: seq<ColumnBuffer>)
    ensures forall nr: nat :: nr in Numbered(bs) <==> 1 <= nr <= |bs|
    ensures forall nr: nat | 1 <= nr <= |bs| :: Numbered(bs)[nr] == bs[nr - 1]
  {
    if bs != [] {
      NumberedMeaning(bs[..|bs| - 1]);
    }
  }

  /** These columns bound in their order. */
  function InOrder(cols: seq<Column>): Bindings {
    Bindings(Numbered(Buffers(cols)), BufferSet(cols))
  }

  function BufferSet(cols: seq<Column>): set<ColumnBuffer> {
    set i | 0 <= i < |cols| :: cols[i].buffer
  }

  /** What is bound to one statement. */
  datatype Both = Both(columns: Bindings, params: Bindings) {
    function Of(kind: Kind): Bindings { if kind == Columns then columns else params }
    function With(kind: Kind, bs: Bindings): Both {
      if kind == Columns then Both(bs, params) else Both(columns, bs)
    }
  }

  ghost function BothIn(w: World, s: SqlStmtHandle?): Both {
    Both(BindingsIn(w, s, Columns), BindingsIn(w, s, Params))
  }

  /** The handle objects of the five statements. */
  ghost function Stmts(stmts: seq<ExecutableStatement>): seq<SqlStmtHandle?>
    reads stmts
    requires |stmts| == STATEMENTS
  {
    [stmts[0].stmt, stmts[1].stmt, stmts[2].stmt, stmts[3].stmt, stmts[4].stmt]
  }

  ghost function BoundsIn(w: World, ss: seq<SqlStmtHandle?>): seq<Both>
    requires |ss| == STATEMENTS
  {
    [BothIn(w, ss[0]), BothIn(w, ss[1]), BothIn(w, ss[2]), BothIn(w, ss[3]), BothIn(w, ss[4])]
  }

  /** What is bound to the five statements. */
  ghost function Bounds(stmts: seq<ExecutableStatement>, m: Memory): (r: seq<Both>)
    reads stmts, m
    requires |stmts| == STATEMENTS
    ensures |r| == STATEMENTS
  {
    BoundsIn(m.View(), Stmts(stmts))
  }

  ghost predicate Differ(w: World, ss: seq<SqlStmtHandle?>) {
    forall i, j | 0 <= i < |ss| && 0 <= j < |ss| && i != j && ss[i] != null && ss[j] != null ::
      HandleOf(w.heap, ss[i]) != HandleOf(w.heap, ss[j])
  }

  /** The five's native handles, and what the driver and the buffers hold beside them. */
  datatype Rest = Rest(own: set<nat>, alive: set<nat>, bound: map<Key, map<nat, ColumnBuffer>>, entries: set<EntryKey>)

  ghost function RestOf(w: World, own: set<nat>): Rest {
    Rest(own, w.driver.alive,
         map x | x in w.driver.bound && x.handle !in own :: w.driver.bound[x],
         set x | x in w.heap.entries && x.key.handle !in own)
  }

  ghost function Beside(stmts: seq<ExecutableStatement>, m: Memory): Rest
    reads stmts, m
    requires |stmts| == STATEMENTS
  {
    RestOf(m.View(), OwnHandles(stmts, m))
  }

  lemma BindKeepsRest(w: World, w': World, s: SqlStmtHandle?, b: ColumnBuffer, kind: Kind, nr: nat, ok: bool, own: set<nat>)
    requires AfterBind(w, w', s, b, kind, nr, ok) && (s != null ==> HandleOf(w.heap, s) in own)
    ensures RestOf(w', own) == RestOf(w, own)
  {
    if s != null {
      assert forall x :: x in w'.heap.entries && x.key.handle !in own <==> x in w.heap.entries && x.key.handle !in own;
    }
  }

  /** The native handles of the five, when neither the handle objects nor their handles change. */
  lemma OwnStays(stmts: seq<ExecutableStatement>, m: Memory, w: World, before: seq<Fields>)
    requires |stmts| == |before| == STATEMENTS && m.handleOf == w.heap.handleOf
    requires forall k | 0 <= k < STATEMENTS :: stmts[k].stmt == before[k].stmt
    ensures OwnHandles(stmts, m) == HandlesIn(w, before)
  {
    var now := Befores(stmts);
    assert forall k | 0 <= k < STATEMENTS :: now[k].stmt == before[k].stmt;
    hide Befores;
  }

  lemma OwnIs(stmts: seq<ExecutableStatement>, m: Memory)
    requires |stmts| == STATEMENTS
    ensures forall k | 0 <= k < STATEMENTS :: Befores(stmts)[k].stmt == stmts[k].stmt
    ensures forall k | 0 <= k < STATEMENTS && stmts[k].stmt != null :: HandleOf(m.View().heap, stmts[k].stmt) in OwnHandles(stmts, m)
  {
    forall k | 0 <= k < STATEMENTS && stmts[k].stmt != null ensures HandleOf(m.View().heap, stmts[k].stmt) in OwnHandles(stmts, m) {
      assert Befores(stmts)[k].stmt == stmts[k].stmt;
    }
  }

  /** Bounds after kind of statement k have become bs. */
  function Put(bounds: seq<Both>, k: nat, kind: Kind, bs: Bindings): seq<Both>
    requires k < |bounds|
  {
    bounds[k := bounds[k].With(kind, bs)]
  }

  lemma PutAgain(bounds: seq<Both>, k: nat, kind: Kind, bs: Bindings, bs': Bindings)
    requires k < |bounds|
    ensures |Put(bounds, k, kind, bs)| == |bounds|
    ensures Put(Put(bounds, k, kind, bs), k, kind, bs') == Put(bounds, k, kind, bs')
    ensures Put(bounds, k, kind, bs)[k].Of(kind) == bs
    ensures Put(bounds, k, kind, bounds[k].Of(kind)) == bounds
  {
  }

  /** The part of a statement that binding leaves alone. */
  ghost function Text(e: ExecutableStatement): (bool, SqlStmtHandle?, bool, string)
    reads e
  {
    (e.hasDb, e.stmt, e.isPrepared, e.prepared)
  }

  method BindKind(e: ExecutableStatement, m: Memory, b: ColumnBuffer, kind: Kind, nr: nat) returns (ok: bool)
    requires Inv(m.View()) && e.Valid(m) && b in m.bufs
    modifies e, m
    ensures Inv(m.View()) && e.Valid(m) && Text(e) == old(Text(e))
    ensures AfterBind(old(m.View()), m.View(), old(e.stmt), b, kind, nr, ok)
    ensures m.reliable && old(e.stmt) != null && nr > 0 ==> ok
  {
    hide Inv, Held, AfterBind;
    if kind == Columns {
      ok := e.BindColumn(m, b, nr);
    } else {
      ok := e.BindParameter(m, b, nr);
    }
  }

  /** Binding one buffer to statement k leaves the other statements as they are. */
  method BindRaw(stmts: seq<ExecutableStatement>, k: nat, kind: Kind, m: Memory, b: ColumnBuffer, nr: nat) returns (ok: bool)
    requires Shape(stmts, m) && k < STATEMENTS && b in m.bufs
    modifies stmts[k], m
    ensures Shape(stmts, m) && Text(stmts[k]) == old(Text(stmts[k])) && Stmts(stmts) == old(Stmts(stmts))
    ensures AfterBind(old(m.View()), m.View(), old(stmts[k].stmt), b, kind, nr, ok)
    ensures Beside(stmts, m) == old(Beside(stmts, m))
    ensures m.reliable && old(stmts[k].stmt) != null && nr > 0 ==> ok
  {
    hide Shape, AfterBind, HandlesIn, RestOf, Befores, HandleOf;
    ghost var w, own, before, s := m.View(), OwnHandles(stmts, m), Befores(stmts), stmts[k].stmt;
    OwnIs(stmts, m);
    Apart(stmts, m);
    ok := BindShaped(stmts, k, kind, m, b, nr);
    BindKeepsRest(w, m.View(), s, b, kind, nr, ok, own);
    SameHandles(w, m.View(), s, b, kind, nr, ok);
    OwnStays(stmts, m, w, before);
  }

  lemma SameHandles(w: World, w': World, s: SqlStmtHandle?, b: ColumnBuffer, kind: Kind, nr: nat, ok: bool)
    requires AfterBind(w, w', s, b, kind, nr, ok)
    ensures w'.heap.handleOf == w.heap.handleOf
  {
  }

  method BindShaped(stmts: seq<ExecutableStatement>, k: nat, kind: Kind, m: Memory, b: ColumnBuffer, nr: nat) returns (ok: bool)
    requires Shape(stmts, m) && k < STATEMENTS && b in m.bufs
    modifies stmts[k], m
    ensures Shape(stmts, m) && Text(stmts[k]) == old(Text(stmts[k]))
    ensures AfterBind(old(m.View()), m.View(), old(stmts[k].stmt), b, kind, nr, ok)
    ensures m.reliable && old(stmts[k].stmt) != null && nr > 0 ==> ok
  {
    hide Inv, Held, AfterBind, OnlyTouches;
    ghost var w, s := m.View(), stmts[k].stmt;
    assert forall j | 0 <= j < STATEMENTS :: stmts[j].Valid(m);
    ok := BindKind(stmts[k], m, b, kind, nr);
    if s == null {
      BindNowhere(w, m.View(), b, kind, nr, ok);
    } else {
      BindSeen(w, m.View(), s, b, kind, nr, ok);
    }
    forall j | 0 <= j < STATEMENTS && j != k && stmts[j].stmt != null
      ensures Held(m.View(), stmts[j].stmt, stmts[j].boundColumns, stmts[j].boundParams)
    {
      if s != null {
        OthersStayHeld(w, m.View(), s, stmts[j].stmt, stmts[j].boundColumns, stmts[j].boundParams);
      }
    }
  }

  /** ... and changes, when it succeeds, that one binding and no other. */
  method BindOne(stmts: seq<ExecutableStatement>, k: nat, kind: Kind, m: Memory, b: ColumnBuffer, nr: nat) returns (ok: bool)
    requires Shape(stmts, m) && k < STATEMENTS && b in m.bufs
    modifies stmts[k], m
    ensures Shape(stmts, m) && m.bufs == old(m.bufs) && Text(stmts[k]) == old(Text(stmts[k]))
    ensures Beside(stmts, m) == old(Beside(stmts, m))
    ensures ok ==> Bounds(stmts, m) == Put(old(Bounds(stmts, m)), k, kind, old(Bounds(stmts, m))[k].Of(kind).Plus(nr, b))
    ensures m.reliable && old(stmts[k].stmt) != null && nr > 0 ==> ok
  {
    ghost var w, ss := m.View(), Stmts(stmts);
    HandlesDiffer(stmts, m);
    assert ss[k] == stmts[k].stmt;
    hide Inv, Held, AfterBind, Shape, BoundsIn, Differ, Stmts, Put, Beside;
    ok := BindRaw(stmts, k, kind, m, b, nr);
    BoundSizes(w, m.View(), ss[k], b, kind, nr, ok);
    if ok {
      OneBindingChanged(w, m.View(), ss, k, b, kind, nr);
    }
  }

  lemma OneBindingChanged(w: World, w': World, ss: seq<SqlStmtHandle?>, k: nat, b: ColumnBuffer, kind: Kind, nr: nat)
    requires |ss| == STATEMENTS && k < STATEMENTS && AfterBind(w, w', ss[k], b, kind, nr, true)
    requires Differ(w, ss)
    ensures BoundsIn(w', ss) == Put(BoundsIn(w, ss), k, kind, BoundsIn(w, ss)[k].Of(kind).Plus(nr, b))
  {
    hide AfterBind, BindingsIn;
    BoundSizes(w, w', ss[k], b, kind, nr, true);
    forall j, kd | 0 <= j < STATEMENTS && (j != k || kd != kind) ensures BindingsIn(w', ss[j], kd) == BindingsIn(w, ss[j], kd) {
      BoundElsewhere(w, w', ss[k], b, kind, nr, ss[j], kd);
    }
    assert forall j | 0 <= j < STATEMENTS :: BoundsIn(w, ss)[j] == BothIn(w, ss[j]) && BoundsIn(w', ss)[j] == BothIn(w', ss[j]);
  }

  lemma BoundSizes(w: World, w': World, s: SqlStmtHandle?, b: ColumnBuffer, kind: Kind, nr: nat, ok: bool)
    requires AfterBind(w, w', s, b, kind, nr, ok)
    ensures w'.heap.bufs == w.heap.bufs
    ensures ok ==> s != null && BindingsIn(w', s, kind) == BindingsIn(w, s, kind).Plus(nr, b)
  {
    if ok {
      EnteredMore(w.heap, w'.heap, EntryKey(b, KeyOf(w.heap, s, kind)), KeyOf(w.heap, s, kind));
    }
  }

  /** A new entry adds its buffer to those of its key and to no others. */
  lemma EnteredMore(h: Heap, h': Heap, x: EntryKey, key: Key)
    requires h'.entries.Keys == h.entries.Keys + {x}
    ensures EnteredIn(h', key) == EnteredIn(h, key) + if x.key == key then {x.buffer} else {}
  {
    assert forall y :: y in h'.entries <==> y in h.entries || y == x;
  }

  lemma BoundElsewhere(w: World, w': World, s: SqlStmtHandle?, b: ColumnBuffer, kind: Kind, nr: nat, t: SqlStmtHandle?, kd: Kind)
    requires AfterBind(w, w', s, b, kind, nr, true)
    requires (t == s && kd != kind) || (s != null && t != null && HandleOf(w.heap, s) != HandleOf(w.heap, t)) || t == null
    ensures BindingsIn(w', t, kd) == BindingsIn(w, t, kd)
  {
    if s != null && t != null {
      EnteredMore(w.heap, w'.heap, EntryKey(b, KeyOf(w.heap, s, kind)), KeyOf(w.heap, t, kd));
    }
  }

  lemma HandlesDiffer(stmts: seq<ExecutableStatement>, m: Memory)
    requires Shape(stmts, m)
    ensures Differ(m.View(), Stmts(stmts))
  {
    var ss := Stmts(stmts);
    assert forall i | 0 <= i < STATEMENTS :: ss[i] == stmts[i].stmt;
    hide Inv, Held;
    forall i, j | 0 <= i < STATEMENTS && 0 <= j < STATEMENTS && i != j && stmts[i].stmt != null && stmts[j].stmt != null
      ensures HandleOf(m.View().heap, stmts[i].stmt) != HandleOf(m.View().heap, stmts[j].stmt)
    {
      assert stmts[j].Valid(m);
      DistinctHandles(m.View(), stmts[i].stmt, stmts[j].stmt, stmts[j].boundColumns, stmts[j].boundParams);
    }
  }

  lemma DistinctHandles(w: World, s: SqlStmtHandle, t: SqlStmtHandle, columns: bool, params: bool)
    requires Inv(w) && Held(w, t, columns, params) && s != t
    ensures HandleOf(w.heap, t) != HandleOf(w.heap, s)
  {
  }

  lemma BindNowhere(w: World, w': World, b: ColumnBuffer, kind: Kind, nr: nat, ok: bool)
    requires AfterBind(w, w', null, b, kind, nr, ok)
    ensures !ok && w' == w
  {
  }

  lemma BindSeen(w: World, w': World, s: SqlStmtHandle, b: ColumnBuffer, kind: Kind, nr: nat, ok: bool)
    requires AfterBind(w, w', s, b, kind, nr, ok)
    ensures OnlyTouches(w, w', s) && w'.heap.bufs == w.heap.bufs && w'.heap.handleOf == w.heap.handleOf
    ensures ok ==> w'.driver.bound == w.driver.bound[KeyOf(w.heap, s, kind) := BoundTo(w.driver, KeyOf(w.heap, s, kind))[nr := b]]
  {
  }

  /** A binding loop has bound the buffers in done, in their order, and nothing else has changed. */
  ghost predicate SoFar(stmts: seq<ExecutableStatement>, m: Memory, k: nat, kind: Kind, before: seq<Both>,
      text: (bool, SqlStmtHandle?, bool, string), bufs: set<ColumnBuffer>, done: seq<Column>)
    reads stmts, m
  {
    && Shape(stmts, m) && k < STATEMENTS && |before| == STATEMENTS
    && m.bufs == bufs && Text(stmts[k]) == text
    && Bounds(stmts, m) == Put(before, k, kind, InOrder(done))
  }

  /** One iteration of such a loop. */
  method BindNext(stmts: seq<ExecutableStatement>, k: nat, kind: Kind, m: Memory, c: Column, nr: nat,
      ghost before: seq<Both>, ghost text: (bool, SqlStmtHandle?, bool, string), ghost bufs: set<ColumnBuffer>, ghost done: seq<Column>)
      returns (ok: bool)
    requires SoFar(stmts, m, k, kind, before, text, bufs, done) && c.buffer in bufs && nr == |done| + 1
    modifies stmts[k], m
    ensures Shape(stmts, m) && m.bufs == bufs && Text(stmts[k]) == text && Beside(stmts, m) == old(Beside(stmts, m))
    ensures ok ==> SoFar(stmts, m, k, kind, before, text, bufs, done + [c])
    ensures m.reliable && text.1 != null ==> ok
  {
    hide Beside, Shape, Bounds, Put, InOrder;
    NumberedNext(done, c);
    PutAgain(before, k, kind, InOrder(done), InOrder(done + [c]));
    ok := BindOne(stmts, k, kind, m, c.buffer, nr);
  }

  /** A binding loop starts from a statement without bindings of that kind. */
  lemma NothingSoFar(stmts: seq<ExecutableStatement>, m: Memory, k: nat, kind: Kind)
    requires Shape(stmts, m) && k < STATEMENTS && Bounds(stmts, m)[k].Of(kind) == NONE
    ensures SoFar(stmts, m, k, kind, Bounds(stmts, m), Text(stmts[k]), m.bufs, [])
  {
    hide Shape, Bounds, Put;
    NothingInOrder();
    PutAgain(Bounds(stmts, m), k, kind, NONE, NONE);
  }

  lemma NothingInOrder()
    ensures InOrder([]) == NONE
  {
    assert BufferSet([]) == {};
  }

  /** The loops that bind parameters: column i of the list as parameter i + 1. */
  method BindParams(stmts: seq<ExecutableStatement>, k: nat, m: Memory, toBind: seq<Column>) returns (ok: bool)
    requires Shape(stmts, m) && k < STATEMENTS && forall c <- toBind :: c.buffer in m.bufs
    requires Bounds(stmts, m)[k].params == NONE
    modifies stmts[k], m
    ensures Shape(stmts, m) && m.bufs == old(m.bufs) && Text(stmts[k]) == old(Text(stmts[k]))
    ensures Beside(stmts, m) == old(Beside(stmts, m))
    ensures ok ==> Bounds(stmts, m) == Put(old(Bounds(stmts, m)), k, Params, InOrder(toBind))
    ensures m.reliable && old(stmts[k].stmt) != null ==> ok
  {
    ghost var before, text, bufs := Bounds(stmts, m), Text(stmts[k]), m.bufs;
    hide Beside, Shape, Bounds, Put, InOrder, Text;
    NothingSoFar(stmts, m, k, Params);
    assert toBind[..0] == [];
    for i := 0 to |toBind|
      invariant Beside(stmts, m) == old(Beside(stmts, m))
      invariant SoFar(stmts, m, k, Params, before, text, bufs, toBind[..i])
    {
      ok := BindNth(stmts, k, m, toBind, i, before, text, bufs);
      if !ok { return; }
    }
    assert toBind[..|toBind|] == toBind;
    ok := true;
  }

  method BindNth(stmts: seq<ExecutableStatement>, k: nat, m: Memory, toBind: seq<Column>, i: nat,
      ghost before: seq<Both>, ghost text: (bool, SqlStmtHandle?, bool, string), ghost bufs: set<ColumnBuffer>) returns (ok: bool)
    requires i < |toBind| && toBind[i].buffer in bufs
    requires SoFar(stmts, m, k, Params, before, text, bufs, toBind[..i])
    modifies stmts[k], m
    ensures Shape(stmts, m) && m.bufs == bufs && Text(stmts[k]) == text && Beside(stmts, m) == old(Beside(stmts, m))
    ensures ok ==> SoFar(stmts, m, k, Params, before, text, bufs, toBind[..i + 1])
    ensures m.reliable && text.1 != null ==> ok
  {
    assert toBind[..i + 1] == toBind[..i] + [toBind[i]];
    hide Beside, Shape, Bounds, Put, InOrder, Text;
    ok := BindNext(stmts, k, Params, m, toBind[i], i + 1, before, text, bufs, toBind[..i]);
  }

  lemma NumberedNext(cols: seq<Column>, c: Column)
    ensures InOrder(cols + [c]) == InOrder(cols).Plus(|cols| + 1, c.buffer)
  {
    assert BufferSet(cols + [c]) == BufferSet(cols) + {c.buffer};
    var bs := Buffers(cols + [c]);
    assert (cols + [c])[..|cols|] == cols;
    assert bs[..|bs| - 1] == Buffers(cols);
  }

  /** The loop that binds every column flagged CF_SELECT to the select statement, counting as it goes. */
  method BindSelectColumns(stmts: seq<ExecutableStatement>, m: Memory, cols: seq<Column>) returns (ok: bool)
    requires Shape(stmts, m) && forall c <- cols :: c.buffer in m.bufs
    requires Bounds(stmts, m)[SELECT].columns == NONE
    modifies stmts[SELECT], m
    ensures Shape(stmts, m) && m.bufs == old(m.bufs) && Text(stmts[SELECT]) == old(Text(stmts[SELECT]))
    ensures Beside(stmts, m) == old(Beside(stmts, m))
    ensures ok ==> Bounds(stmts, m) == Put(old(Bounds(stmts, m)), SELECT, Columns, InOrder(Selected(cols)))
    ensures m.reliable && old(stmts[SELECT].stmt) != null ==> ok
  {
    ghost var before, text, bufs := Bounds(stmts, m), Text(stmts[SELECT]), m.bufs;
    hide Beside, Shape, Bounds, Put, Selected, InOrder, Text;
    NothingSoFar(stmts, m, SELECT, Columns);
    NothingSelected(cols);
    var boundColumnNumber := 1;
    for i := 0 to |cols|
      invariant boundColumnNumber == |Selected(cols[..i])| + 1
      invariant Beside(stmts, m) == old(Beside(stmts, m))
      invariant SoFar(stmts, m, SELECT, Columns, before, text, bufs, Selected(cols[..i]))
    {
      ok, boundColumnNumber := BindIfSelected(stmts, m, cols, i, boundColumnNumber, before, text, bufs);
      if !ok { return; }
    }
    assert cols[..|cols|] == cols;
    ok := true;
  }

  method BindIfSelected(stmts: seq<ExecutableStatement>, m: Memory, cols: seq<Column>, i: nat, nr: nat,
      ghost before: seq<Both>, ghost text: (bool, SqlStmtHandle?, bool, string), ghost bufs: set<ColumnBuffer>)
      returns (ok: bool, next: nat)
    requires i < |cols| && cols[i].buffer in bufs && nr == |Selected(cols[..i])| + 1
    requires SoFar(stmts, m, SELECT, Columns, before, text, bufs, Selected(cols[..i]))
    modifies stmts[SELECT], m
    ensures Shape(stmts, m) && m.bufs == bufs && Text(stmts[SELECT]) == text && Beside(stmts, m) == old(Beside(stmts, m))
    ensures ok ==> next == |Selected(cols[..i + 1])| + 1
    ensures ok ==> SoFar(stmts, m, SELECT, Columns, before, text, bufs, Selected(cols[..i + 1]))
    ensures m.reliable && text.1 != null ==> ok
  {
    SelectedNext(cols, i);
    hide Beside, Shape, Bounds, Put, Selected, InOrder, Text;
    ok, next := true, nr;
    if Test(cols[i].flags, CF_SELECT) {
      ok := BindNext(stmts, SELECT, Columns, m, cols[i], nr, before, text, bufs, Selected(cols[..i]));
      next := nr + 1;
    }
  }

  lemma NothingSelected(cols: seq<Column>)
    ensures Selected(cols[..0]) == []
  {
  }

  function Selected(cols: seq<Column>): seq<Column> {
    Filter(cols, IsSelected)
  }

  lemma SelectedNext(cols: seq<Column>, i: nat)
    requires i < |cols|
    ensures Selected(cols[..i + 1]) == if IsSelected(cols[i]) then Selected(cols[..i]) + [cols[i]] else Selected(cols[..i])
  {
    hide Filter;
    FilterNext(cols, IsSelected, i);
  }

  // ---- preparing and binding the statements that work by key, and INSERT

  datatype Prep = Prep(done: bool, text: string)

  /** The five statements as a value: m_pDb and m_pHStmt, the prepared texts, and the driver's bindings. */
  datatype Five = Five(handles: seq<(bool, SqlStmtHandle?)>, texts: seq<Prep>, bounds: seq<Both>) {
    predicate Sized() { |handles| == |texts| == |bounds| == STATEMENTS }

    function With(k: nat, kind: Kind, bs: Bindings): (r: Five)
      requires Sized() && k < STATEMENTS
      ensures r.Sized()
    {
      this.(bounds := Put(bounds, k, kind, bs))
    }

    function Saying(k: nat, text: string): (r: Five)
      requires Sized() && k < STATEMENTS
      ensures r.Sized()
    {
      this.(texts := texts[k := Prep(true, text)])
    }
  }

  function Handle(e: ExecutableStatement): (bool, SqlStmtHandle?)
    reads e
  {
    (e.hasDb, e.stmt)
  }

  function Saying(e: ExecutableStatement): Prep
    reads e
  {
    Prep(e.isPrepared, e.prepared)
  }

  function Handles(stmts: seq<ExecutableStatement>): (r: seq<(bool, SqlStmtHandle?)>)
    reads stmts
    requires |stmts| == STATEMENTS
    ensures |r| == STATEMENTS
  {
    [Handle(stmts[0]), Handle(stmts[1]), Handle(stmts[2]), Handle(stmts[3]), Handle(stmts[4])]
  }

  /** Statement k is initialised and has a handle. */
  predicate HandleReady(handles: seq<(bool, SqlStmtHandle?)>, k: nat) {
    k < |handles| && handles[k].0 && handles[k].1 != null
  }

  lemma HandleIs(stmts: seq<ExecutableStatement>, k: nat)
    requires |stmts| == STATEMENTS && k < STATEMENTS
    ensures HandleReady(Handles(stmts), k) <==> stmts[k].hasDb && stmts[k].stmt != null
  {
  }

  function Texts(stmts: seq<ExecutableStatement>): (r: seq<Prep>)
    reads stmts
    requires |stmts| == STATEMENTS
    ensures |r| == STATEMENTS
  {
    [Saying(stmts[0]), Saying(stmts[1]), Saying(stmts[2]), Saying(stmts[3]), Saying(stmts[4])]
  }

  ghost function Seen(stmts: seq<ExecutableStatement>, m: Memory): (r: Five)
    reads stmts, m
    requires |stmts| == STATEMENTS
    ensures r.Sized()
  {
    Five(Handles(stmts), Texts(stmts), Bounds(stmts, m))
  }

  /** The count buffer becomes the only result column of the count statement. */
  method BindCount(stmts: seq<ExecutableStatement>, m: Memory, countBuffer: ColumnBuffer) returns (ok: bool)
    requires Shape(stmts, m) && countBuffer in m.bufs
    requires Seen(stmts, m).bounds[COUNT_WHERE].columns == NONE
    modifies stmts[COUNT_WHERE], m
    ensures Shape(stmts, m) && m.bufs == old(m.bufs) && Handles(stmts) == old(Handles(stmts)) && Beside(stmts, m) == old(Beside(stmts, m))
    ensures ok ==> Seen(stmts, m) == old(Seen(stmts, m)).With(COUNT_WHERE, Columns, NONE.Plus(1, countBuffer))
    ensures m.reliable && HandleReady(old(Handles(stmts)), COUNT_WHERE) ==> ok
  {
    hide Shape, Bounds, Put;
    Apart(stmts, m);
    ok := BindOne(stmts, COUNT_WHERE, Columns, m, countBuffer, 1);
  }

  method BindSelected(stmts: seq<ExecutableStatement>, m: Memory, cols: seq<Column>) returns (ok: bool)
    requires Shape(stmts, m) && forall c <- cols :: c.buffer in m.bufs
    requires Seen(stmts, m).bounds[SELECT].columns == NONE
    modifies stmts[SELECT], m
    ensures Shape(stmts, m) && m.bufs == old(m.bufs) && Handles(stmts) == old(Handles(stmts)) && Beside(stmts, m) == old(Beside(stmts, m))
    ensures ok ==> Seen(stmts, m) == old(Seen(stmts, m)).With(SELECT, Columns, InOrder(Selected(cols)))
    ensures m.reliable && HandleReady(old(Handles(stmts)), SELECT) ==> ok
  {
    hide Beside, Shape, Bounds, Put, InOrder, Selected;
    Apart(stmts, m);
    ok := BindSelectColumns(stmts, m, cols);
  }

  method PrepareAndBind(stmts: seq<ExecutableStatement>, k: nat, m: Memory, text: string, toBind: seq<Column>) returns (ok: bool)
    requires Shape(stmts, m) && k < STATEMENTS && forall c <- toBind :: c.buffer in m.bufs
    requires Seen(stmts, m).bounds[k].params == NONE
    modifies stmts[k], m
    ensures Shape(stmts, m) && m.bufs == old(m.bufs) && Handles(stmts) == old(Handles(stmts)) && Beside(stmts, m) == old(Beside(stmts, m))
    ensures ok ==> Seen(stmts, m) == old(Seen(stmts, m)).Saying(k, text).With(k, Params, InOrder(toBind))
    ensures m.reliable && HandleReady(old(Handles(stmts)), k) && text != "" ==> ok
  {
    hide Beside, Shape, Seen, Handles, HandleReady, Put, InOrder;
    ok := PrepareOne(stmts, k, m, text);
    if ok {
      ok := BindPrepared(stmts, k, m, toBind);
    }
  }

  method PrepareOne(stmts: seq<ExecutableStatement>, k: nat, m: Memory, text: string) returns (ok: bool)
    requires Shape(stmts, m) && k < STATEMENTS
    modifies stmts[k]
    ensures Shape(stmts, m) && Handles(stmts) == old(Handles(stmts)) && Seen(stmts, m).bounds == old(Seen(stmts, m)).bounds
    ensures Beside(stmts, m) == old(Beside(stmts, m))
    ensures ok ==> Seen(stmts, m) == old(Seen(stmts, m)).Saying(k, text)
    ensures m.reliable && HandleReady(old(Handles(stmts)), k) && text != "" ==> ok
  {
    hide Inv, Held, BothIn, HandlesIn, RestOf, Befores;
    ghost var w, own, before := m.View(), OwnHandles(stmts, m), Befores(stmts);
    OwnIs(stmts, m);
    ok := stmts[k].Prepare(m, text);
    OwnStays(stmts, m, w, before);
  }

  method BindPrepared(stmts: seq<ExecutableStatement>, k: nat, m: Memory, toBind: seq<Column>) returns (ok: bool)
    requires Shape(stmts, m) && k < STATEMENTS && forall c <- toBind :: c.buffer in m.bufs
    requires Seen(stmts, m).bounds[k].params == NONE
    modifies stmts[k], m
    ensures Shape(stmts, m) && m.bufs == old(m.bufs) && Handles(stmts) == old(Handles(stmts)) && Beside(stmts, m) == old(Beside(stmts, m))
    ensures ok ==> Seen(stmts, m) == old(Seen(stmts, m)).With(k, Params, InOrder(toBind))
    ensures m.reliable && HandleReady(old(Handles(stmts)), k) ==> ok
  {
    hide Beside, Shape, Bounds, Put, InOrder;
    Apart(stmts, m);
    ok := BindParams(stmts, k, m, toBind);
  }

  /** BindUpdatePkParameters */
  method BindUpdatePkParameters(stmts: seq<ExecutableStatement>, m: Memory, table: string, cols: seq<Column>) returns (ok: bool)
    requires Shape(stmts, m) && forall c <- cols :: c.buffer in m.bufs
    requires Seen(stmts, m).bounds[UPDATE_PK].params == NONE
    modifies stmts[UPDATE_PK], m
    ensures Shape(stmts, m) && m.bufs == old(m.bufs) && Handles(stmts) == old(Handles(stmts)) && Beside(stmts, m) == old(Beside(stmts, m))
    ensures ok ==> Seen(stmts, m) == AfterUpdate(old(Seen(stmts, m)), table, cols)
    ensures ok ==> Filter(cols, IsSet) != [] && Filter(cols, IsKey) != []
    ensures m.reliable && HandleReady(old(Handles(stmts)), UPDATE_PK) && Filter(cols, IsSet) != [] && Filter(cols, IsKey) != [] ==> ok
  {
    hide Beside, InOrder, Seen, Handles;
    HandleIs(stmts, UPDATE_PK);
    if cols == [] || !stmts[UPDATE_PK].IsInitialized() { return false; }
    hide Shape;
    var stmt, setParams, whereParams := BuildUpdatePk(table, cols);
    FilterStays(cols, IsSet, m.bufs);
    FilterStays(cols, IsKey, m.bufs);
    if setParams == [] || whereParams == [] { return false; }
    ok := PrepareAndBind(stmts, UPDATE_PK, m, stmt, setParams + whereParams);
  }

  function UpdateParams(cols: seq<Column>): seq<Column> {
    Filter(cols, IsSet) + Filter(cols, IsKey)
  }

  function UpdatePkText(table: string, cols: seq<Column>): string {
    UpdateText(table, Filter(cols, IsSet), MarkerList(Filter(cols, IsKey)))
  }

  function AfterUpdate(f: Five, table: string, cols: seq<Column>): (r: Five)
    requires f.Sized()
    ensures r.Sized()
  {
    f.Saying(UPDATE_PK, UpdatePkText(table, cols)).With(UPDATE_PK, Params, InOrder(UpdateParams(cols)))
  }

  /** BindDeletePkParameters */
  method BindDeletePkParameters(stmts: seq<ExecutableStatement>, m: Memory, table: string, cols: seq<Column>) returns (ok: bool)
    requires Shape(stmts, m) && forall c <- cols :: c.buffer in m.bufs
    requires Seen(stmts, m).bounds[DELETE_PK].params == NONE
    modifies stmts[DELETE_PK], m
    ensures Shape(stmts, m) && m.bufs == old(m.bufs) && Handles(stmts) == old(Handles(stmts)) && Beside(stmts, m) == old(Beside(stmts, m))
    ensures ok ==> Seen(stmts, m) == AfterDelete(old(Seen(stmts, m)), table, cols) && Filter(cols, IsKey) != []
    ensures m.reliable && HandleReady(old(Handles(stmts)), DELETE_PK) && Filter(cols, IsKey) != [] ==> ok
  {
    hide Beside, InOrder, Seen, Handles;
    HandleIs(stmts, DELETE_PK);
    if cols == [] || !stmts[DELETE_PK].IsInitialized() { return false; }
    hide Shape;
    var whereMarkers, toBind := BuildMarkers(cols, IsKey);
    FilterStays(cols, IsKey, m.bufs);
    if toBind == [] { return false; }
    ok := PrepareAndBind(stmts, DELETE_PK, m, "DELETE FROM " + table + " WHERE " + whereMarkers, toBind);
  }

  function DeletePkText(table: string, cols: seq<Column>): string {
    DeleteText(table, MarkerList(Filter(cols, IsKey)))
  }

  function AfterDelete(f: Five, table: string, cols: seq<Column>): (r: Five)
    requires f.Sized()
    ensures r.Sized()
  {
    f.Saying(DELETE_PK, DeletePkText(table, cols)).With(DELETE_PK, Params, InOrder(Filter(cols, IsKey)))
  }

  /** BindSelectPkParameters */
  method BindSelectPkParameters(stmts: seq<ExecutableStatement>, m: Memory, table: string, cols: seq<Column>) returns (ok: bool)
    requires Shape(stmts, m) && forall c <- cols :: c.buffer in m.bufs
    requires Seen(stmts, m).bounds[SELECT].params == NONE
    modifies stmts[SELECT], m
    ensures Shape(stmts, m) && m.bufs == old(m.bufs) && Handles(stmts) == old(Handles(stmts)) && Beside(stmts, m) == old(Beside(stmts, m))
    ensures ok ==> Seen(stmts, m) == AfterSelect(old(Seen(stmts, m)), table, cols) && Filter(cols, IsKey) != []
    ensures m.reliable && HandleReady(old(Handles(stmts)), SELECT) && Filter(cols, IsKey) != [] ==> ok
  {
    hide Beside, InOrder, Seen, Handles;
    HandleIs(stmts, SELECT);
    if cols == [] || !stmts[SELECT].IsInitialized() { return false; }
    hide Shape;
    var whereMarkers, toBind := BuildMarkers(cols, IsKey);
    FilterStays(cols, IsKey, m.bufs);
    if toBind == [] { return false; }
    var fields := BuildSelectFields(cols);
    ok := PrepareAndBind(stmts, SELECT, m, "SELECT " + fields + " FROM " + table + " WHERE " + whereMarkers, toBind);
  }

  function SelectPkText(table: string, cols: seq<Column>): string {
    SelectText(FieldList(cols), table) + " WHERE " + MarkerList(Filter(cols, IsKey))
  }

  function AfterSelect(f: Five, table: string, cols: seq<Column>): (r: Five)
    requires f.Sized()
    ensures r.Sized()
  {
    f.Saying(SELECT, SelectPkText(table, cols)).With(SELECT, Params, InOrder(Filter(cols, IsKey)))
  }

  /** BindInsertParameters */
  method BindInsertParameters(stmts: seq<ExecutableStatement>, m: Memory, table: string, cols: seq<Column>) returns (ok: bool)
    requires Shape(stmts, m) && forall c <- cols :: c.buffer in m.bufs
    requires Seen(stmts, m).bounds[INSERT].params == NONE
    modifies stmts[INSERT], m
    ensures Shape(stmts, m) && m.bufs == old(m.bufs) && Handles(stmts) == old(Handles(stmts)) && Beside(stmts, m) == old(Beside(stmts, m))
    ensures ok ==> Seen(stmts, m) == AfterInsert(old(Seen(stmts, m)), table, cols) && Filter(cols, IsInserted) != []
    ensures m.reliable && HandleReady(old(Handles(stmts)), INSERT) && Filter(cols, IsInserted) != [] ==> ok
  {
    hide Beside, InOrder, Seen, Handles;
    HandleIs(stmts, INSERT);
    if cols == [] || !stmts[INSERT].IsInitialized() { return false; }
    hide Shape;
    var stmt, toBind := BuildInsert(table, cols);
    FilterStays(cols, IsInserted, m.bufs);
    if toBind == [] { return false; }
    ok := PrepareAndBind(stmts, INSERT, m, stmt, toBind);
  }

  function AfterInsert(f: Five, table: string, cols: seq<Column>): (r: Five)
    requires f.Sized()
    ensures r.Sized()
  {
    var toBind := Filter(cols, IsInserted);
    f.Saying(INSERT, InsertText(table, toBind)).With(INSERT, Params, InOrder(toBind))
  }
}
