// The last part of Table::Open: what is bound to which statement, and for which access flags.
module TableOpen {
  import opened Flags
  import opened BindingSpec
  import opened Binding
  import opened Statement
  import opened SqlBuilder
  import opened TableStatements
  import opened TableBinding

  predicate WorksByKey(access: FlagSet) {
    Test(access, AF_UPDATE_PK) || Test(access, AF_DELETE_PK) || Test(access, AF_SELECT_PK)
  }

  function Keys(cols: seq<Column>): seq<Column> { Filter(cols, IsKey) }

  function Inserted(cols: seq<Column>): seq<Column> { Filter(cols, IsInserted) }

  // ---- what the steps make of the five statements

  function AfterColumns(f: Five, access: FlagSet, cols: seq<Column>, countBuffer: ColumnBuffer?): (r: Five)
    requires f.Sized()
    ensures r.Sized()
  {
    var f1 := if countBuffer != null then f.With(COUNT_WHERE, Columns, NONE.Plus(1, countBuffer)) else f;
    if Needed(access, SELECT) then f1.With(SELECT, Columns, InOrder(Selected(cols))) else f1
  }

  function AfterUpdateIf(f: Five, access: FlagSet, table: string, cols: seq<Column>): (r: Five)
    requires f.Sized()
    ensures r.Sized()
  {
    if Test(access, AF_UPDATE_PK) then AfterUpdate(f, table, cols) else f
  }

  function AfterDeleteIf(f: Five, access: FlagSet, table: string, cols: seq<Column>): (r: Five)
    requires f.Sized()
    ensures r.Sized()
  {
    if Test(access, AF_DELETE_PK) then AfterDelete(f, table, cols) else f
  }

  function AfterSelectIf(f: Five, access: FlagSet, table: string, cols: seq<Column>): (r: Five)
    requires f.Sized()
    ensures r.Sized()
  {
    if Test(access, AF_SELECT_PK) then AfterSelect(f, table, cols) else f
  }

  function AfterKeys(f: Five, access: FlagSet, table: string, cols: seq<Column>): (r: Five)
    requires f.Sized()
    ensures r.Sized()
  {
    AfterSelectIf(AfterDeleteIf(AfterUpdateIf(f, access, table, cols), access, table, cols), access, table, cols)
  }

  function AfterInsertIf(f: Five, access: FlagSet, table: string, cols: seq<Column>): (r: Five)
    requires f.Sized()
    ensures r.Sized()
  {
    if Test(access, AF_INSERT) then AfterInsert(f, table, cols) else f
  }

  function AfterAll(f: Five, access: FlagSet, table: string, cols: seq<Column>, countBuffer: ColumnBuffer?): (r: Five)
    requires f.Sized()
    ensures r.Sized()
  {
    AfterInsertIf(AfterKeys(AfterColumns(f, access, cols, countBuffer), access, table, cols), access, table, cols)
  }

  /** Nothing is bound to the statements that the access flags call for. */
  predicate NeededBlank(f: Five, access: FlagSet)
    requires f.Sized()
  {
    forall k | 0 <= k < STATEMENTS && Needed(access, k) :: f.bounds[k] == Both(NONE, NONE)
  }

  predicate KeysBlank(f: Five, access: FlagSet)
    requires f.Sized()
  {
    && (Test(access, AF_UPDATE_PK) ==> f.bounds[UPDATE_PK].params == NONE)
    && (Test(access, AF_DELETE_PK) ==> f.bounds[DELETE_PK].params == NONE)
    && (Test(access, AF_SELECT_PK) ==> f.bounds[SELECT].params == NONE)
  }

  predicate InsertBlank(f: Five, access: FlagSet)
    requires f.Sized()
  {
    Test(access, AF_INSERT) ==> f.bounds[INSERT].params == NONE
  }

  /** No step binds what a later one needs unbound. */
  lemma BlankSteps(f: Five, access: FlagSet, cols: seq<Column>, countBuffer: ColumnBuffer?)
    requires f.Sized() && NeededBlank(f, access)
    ensures Needed(access, COUNT_WHERE) ==> f.bounds[COUNT_WHERE].columns == NONE
    ensures Needed(access, SELECT) ==> f.bounds[SELECT].columns == NONE
    ensures KeysBlank(AfterColumns(f, access, cols, countBuffer), access) && InsertBlank(AfterColumns(f, access, cols, countBuffer), access)
  {
    hide InOrder, Selected;
    assert forall k | 0 <= k < STATEMENTS && Needed(access, k) :: f.bounds[k] == Both(NONE, NONE);
  }

  lemma BlankKeySteps(f: Five, access: FlagSet, table: string, cols: seq<Column>)
    requires f.Sized() && KeysBlank(f, access)
    ensures Test(access, AF_UPDATE_PK) ==> f.bounds[UPDATE_PK].params == NONE
    ensures var f1 := AfterUpdateIf(f, access, table, cols);
            && (Test(access, AF_DELETE_PK) ==> f1.bounds[DELETE_PK].params == NONE)
            && (Test(access, AF_SELECT_PK) ==> AfterDeleteIf(f1, access, table, cols).bounds[SELECT].params == NONE)
  {
    hide InOrder, UpdateParams, UpdatePkText, DeletePkText, Filter;
  }

  lemma BlankInsertStep(f: Five, access: FlagSet, table: string, cols: seq<Column>)
    requires f.Sized() && InsertBlank(f, access)
    ensures InsertBlank(AfterKeys(f, access, table, cols), access)
  {
    hide InOrder, UpdateParams, UpdatePkText, DeletePkText, SelectPkText, Filter;
  }

  /** The statements that the access flags call for are ready. */
  predicate NeededReady(handles: seq<(bool, SqlStmtHandle?)>, access: FlagSet) {
    forall k | 0 <= k < STATEMENTS && Needed(access, k) :: HandleReady(handles, k)
  }

  lemma EachReady(handles: seq<(bool, SqlStmtHandle?)>, access: FlagSet)
    ensures NeededReady(handles, access) ==>
              && (Needed(access, COUNT_WHERE) ==> HandleReady(handles, COUNT_WHERE))
              && (Needed(access, SELECT) || Test(access, AF_SELECT_PK) ==> HandleReady(handles, SELECT))
              && (Test(access, AF_UPDATE_PK) ==> HandleReady(handles, UPDATE_PK))
              && (Test(access, AF_DELETE_PK) ==> HandleReady(handles, DELETE_PK))
              && (Test(access, AF_INSERT) ==> HandleReady(handles, INSERT))
  {
    hide HandleReady, Test;
    assert Test(access, AF_UPDATE_PK) ==> Needed(access, UPDATE_PK);
    assert Test(access, AF_DELETE_PK) ==> Needed(access, DELETE_PK);
    assert Test(access, AF_INSERT) ==> Needed(access, INSERT);
    assert Test(access, AF_SELECT_PK) ==> Needed(access, SELECT);
  }

  // ---- the steps

  /** The count buffer to the count statement, the columns flagged CF_SELECT to the select statement. */
  method BindColumns(stmts: seq<ExecutableStatement>, m: Memory, access: FlagSet, cols: seq<Column>, countBuffer: ColumnBuffer?) returns (ok: bool)
    requires Shape(stmts, m) && CountBuffers(countBuffer) <= m.bufs && forall c <- cols :: c.buffer in m.bufs
    requires countBuffer != null <==> Needed(access, COUNT_WHERE)
    requires Needed(access, COUNT_WHERE) ==> Seen(stmts, m).bounds[COUNT_WHERE].columns == NONE
    requires Needed(access, SELECT) ==> Seen(stmts, m).bounds[SELECT].columns == NONE
    modifies stmts, m
    ensures Shape(stmts, m) && m.bufs == old(m.bufs) && Handles(stmts) == old(Handles(stmts)) && Beside(stmts, m) == old(Beside(stmts, m))
    ensures ok ==> Seen(stmts, m) == AfterColumns(old(Seen(stmts, m)), access, cols, countBuffer)
    ensures m.reliable && NeededReady(old(Handles(stmts)), access) ==> ok
  {
    hide Beside, Shape, Seen, Handles, InOrder, Selected, Needed, HandleReady, NeededReady;
    EachReady(Handles(stmts), access);
    ok := true;
    if Needed(access, COUNT_WHERE) {
      ok := BindCount(stmts, m, countBuffer);
      if !ok { return; }
    }
    if Needed(access, SELECT) {
      ok := BindSelected(stmts, m, cols);
    }
  }

  /** GetPrimaryKeyColumnBuffers().empty(), and the three builders. */
  method BindByKey(stmts: seq<ExecutableStatement>, m: Memory, access: FlagSet, table: string, cols: seq<Column>) returns (ok: bool)
    requires Shape(stmts, m) && forall c <- cols :: c.buffer in m.bufs
    requires KeysBlank(Seen(stmts, m), access)
    modifies stmts, m
    ensures Shape(stmts, m) && m.bufs == old(m.bufs) && Handles(stmts) == old(Handles(stmts)) && Beside(stmts, m) == old(Beside(stmts, m))
    ensures ok ==> Seen(stmts, m) == AfterKeys(old(Seen(stmts, m)), access, table, cols)
    ensures ok ==> SomeKey(access, cols)
    ensures m.reliable && NeededReady(old(Handles(stmts)), access) && SomeKey(access, cols) ==> ok
  {
    hide Beside, Shape, Seen, Handles, KeysBlank, Keys, AfterUpdateIf, AfterDeleteIf, AfterSelectIf, HandleReady, NeededReady;
    BlankKeySteps(Seen(stmts, m), access, table, cols);
    EachReady(Handles(stmts), access);
    if !WorksByKey(access) {
      NoneByKey(Seen(stmts, m), access, table, cols);
      return true;
    }
    if Keys(cols) == [] { return false; }
    ok := UpdateIf(stmts, m, access, table, cols);
    if !ok { return; }
    ok := DeleteIf(stmts, m, access, table, cols);
    if !ok { return; }
    ok := SelectIf(stmts, m, access, table, cols);
  }

  predicate SomeKey(access: FlagSet, cols: seq<Column>) {
    && (WorksByKey(access) ==> Keys(cols) != [])
    && (Test(access, AF_UPDATE_PK) ==> Filter(cols, IsSet) != [])
  }

  /** No list of the texts to be prepared is empty. */
  predicate Bindable(access: FlagSet, cols: seq<Column>) {
    SomeKey(access, cols) && (Test(access, AF_INSERT) ==> Inserted(cols) != [])
  }

  lemma NoneByKey(f: Five, access: FlagSet, table: string, cols: seq<Column>)
    requires f.Sized() && !WorksByKey(access)
    ensures AfterKeys(f, access, table, cols) == f
  {
  }

  method UpdateIf(stmts: seq<ExecutableStatement>, m: Memory, access: FlagSet, table: string, cols: seq<Column>) returns (ok: bool)
    requires Shape(stmts, m) && forall c <- cols :: c.buffer in m.bufs
    requires Test(access, AF_UPDATE_PK) ==> Seen(stmts, m).bounds[UPDATE_PK].params == NONE
    modifies stmts, m
    ensures Shape(stmts, m) && m.bufs == old(m.bufs) && Handles(stmts) == old(Handles(stmts)) && Beside(stmts, m) == old(Beside(stmts, m))
    ensures ok ==> Seen(stmts, m) == AfterUpdateIf(old(Seen(stmts, m)), access, table, cols)
    ensures m.reliable && (Test(access, AF_UPDATE_PK) ==> HandleReady(old(Handles(stmts)), UPDATE_PK) && Filter(cols, IsSet) != [] && Keys(cols) != []) ==> ok
    ensures ok && Test(access, AF_UPDATE_PK) ==> Filter(cols, IsSet) != []
  {
    hide Beside, Shape, Seen, Handles, Filter, AfterUpdate;
    ok := true;
    if Test(access, AF_UPDATE_PK) {
      ok := BindUpdatePkParameters(stmts, m, table, cols);
    }
  }

  method DeleteIf(stmts: seq<ExecutableStatement>, m: Memory, access: FlagSet, table: string, cols: seq<Column>) returns (ok: bool)
    requires Shape(stmts, m) && forall c <- cols :: c.buffer in m.bufs
    requires Test(access, AF_DELETE_PK) ==> Seen(stmts, m).bounds[DELETE_PK].params == NONE
    modifies stmts, m
    ensures Shape(stmts, m) && m.bufs == old(m.bufs) && Handles(stmts) == old(Handles(stmts)) && Beside(stmts, m) == old(Beside(stmts, m))
    ensures ok ==> Seen(stmts, m) == AfterDeleteIf(old(Seen(stmts, m)), access, table, cols)
    ensures m.reliable && (Test(access, AF_DELETE_PK) ==> HandleReady(old(Handles(stmts)), DELETE_PK) && Keys(cols) != []) ==> ok
  {
    hide Beside, Shape, Seen, Handles, Filter, AfterDelete;
    ok := true;
    if Test(access, AF_DELETE_PK) {
      ok := BindDeletePkParameters(stmts, m, table, cols);
    }
  }

  method SelectIf(stmts: seq<ExecutableStatement>, m: Memory, access: FlagSet, table: string, cols: seq<Column>) returns (ok: bool)
    requires Shape(stmts, m) && forall c <- cols :: c.buffer in m.bufs
    requires Test(access, AF_SELECT_PK) ==> Seen(stmts, m).bounds[SELECT].params == NONE
    modifies stmts, m
    ensures Shape(stmts, m) && m.bufs == old(m.bufs) && Handles(stmts) == old(Handles(stmts)) && Beside(stmts, m) == old(Beside(stmts, m))
    ensures ok ==> Seen(stmts, m) == AfterSelectIf(old(Seen(stmts, m)), access, table, cols)
    ensures m.reliable && (Test(access, AF_SELECT_PK) ==> HandleReady(old(Handles(stmts)), SELECT) && Keys(cols) != []) ==> ok
  {
    hide Beside, Shape, Seen, Handles, Filter, AfterSelect;
    ok := true;
    if Test(access, AF_SELECT_PK) {
      ok := BindSelectPkParameters(stmts, m, table, cols);
    }
  }

  method InsertIf(stmts: seq<ExecutableStatement>, m: Memory, access: FlagSet, table: string, cols: seq<Column>) returns (ok: bool)
    requires Shape(stmts, m) && forall c <- cols :: c.buffer in m.bufs
    requires Test(access, AF_INSERT) ==> Seen(stmts, m).bounds[INSERT].params == NONE
    modifies stmts, m
    ensures Shape(stmts, m) && m.bufs == old(m.bufs) && Handles(stmts) == old(Handles(stmts)) && Beside(stmts, m) == old(Beside(stmts, m))
    ensures ok ==> Seen(stmts, m) == AfterInsertIf(old(Seen(stmts, m)), access, table, cols)
    ensures m.reliable && (Test(access, AF_INSERT) ==> HandleReady(old(Handles(stmts)), INSERT) && Inserted(cols) != []) ==> ok
    ensures ok && Test(access, AF_INSERT) ==> Inserted(cols) != []
  {
    hide Beside, Shape, Seen, Handles, Filter, AfterInsert;
    ok := true;
    if Test(access, AF_INSERT) {
      ok := BindInsertParameters(stmts, m, table, cols);
    }
  }

  /** Everything Open binds. */
  method BindAll(stmts: seq<ExecutableStatement>, m: Memory, access: FlagSet, table: string, cols: seq<Column>, countBuffer: ColumnBuffer?) returns (ok: bool)
    requires Shape(stmts, m) && CountBuffers(countBuffer) <= m.bufs && forall c <- cols :: c.buffer in m.bufs
    requires countBuffer != null <==> Needed(access, COUNT_WHERE)
    requires NeededBlank(Seen(stmts, m), access)
    modifies stmts, m
    ensures Shape(stmts, m) && m.bufs == old(m.bufs) && Handles(stmts) == old(Handles(stmts)) && Beside(stmts, m) == old(Beside(stmts, m))
    ensures ok ==> Seen(stmts, m) == AfterAll(old(Seen(stmts, m)), access, table, cols, countBuffer)
    ensures ok ==> Bindable(access, cols)
    ensures m.reliable && NeededReady(old(Handles(stmts)), access) && Bindable(access, cols) ==> ok
  {
    hide Beside, Shape, Seen, Handles, Needed, NeededBlank, KeysBlank, SomeKey, Inserted, AfterColumns, AfterKeys, AfterInsertIf, NeededReady, HandleReady;
    BlankSteps(Seen(stmts, m), access, cols, countBuffer);
    BlankInsertStep(AfterColumns(Seen(stmts, m), access, cols, countBuffer), access, table, cols);
    EachReady(Handles(stmts), access);
    ok := BindColumns(stmts, m, access, cols, countBuffer);
    if !ok { return; }
    ok := BindByKey(stmts, m, access, table, cols);
    if !ok { return; }
    ok := InsertIf(stmts, m, access, table, cols);
  }

  // ---- what an open table looks like

  function InOrderIf(bind: bool, cols: seq<Column>): Bindings {
    if bind then InOrder(cols) else NONE
  }

  /** What an open table has bound to its five statements, and nothing else. */
  function OpenBounds(access: FlagSet, cols: seq<Column>, countBuffer: ColumnBuffer?): (r: seq<Both>)
    ensures |r| == STATEMENTS
  {
    [Both(if countBuffer == null then NONE else NONE.Plus(1, countBuffer), NONE),
     Both(InOrderIf(Needed(access, SELECT), Selected(cols)), InOrderIf(Test(access, AF_SELECT_PK), Keys(cols))),
     Both(NONE, InOrderIf(Test(access, AF_INSERT), Inserted(cols))),
     Both(NONE, InOrderIf(Test(access, AF_UPDATE_PK), UpdateParams(cols))),
     Both(NONE, InOrderIf(Test(access, AF_DELETE_PK), Keys(cols)))]
  }

  /** The texts it has prepared. */
  predicate OpenTexts(texts: seq<Prep>, access: FlagSet, table: string, cols: seq<Column>)
    requires |texts| == STATEMENTS
  {
    && (Test(access, AF_UPDATE_PK) ==> texts[UPDATE_PK] == Prep(true, UpdatePkText(table, cols)))
    && (Test(access, AF_DELETE_PK) ==> texts[DELETE_PK] == Prep(true, DeletePkText(table, cols)))
    && (Test(access, AF_SELECT_PK) ==> texts[SELECT] == Prep(true, SelectPkText(table, cols)))
    && (Test(access, AF_INSERT) ==> texts[INSERT] == Prep(true, InsertText(table, Inserted(cols))))
  }

  /** Exactly the statements the access flags call for have a handle. */
  predicate Ready(handles: seq<(bool, SqlStmtHandle?)>, access: FlagSet)
    requires |handles| == STATEMENTS
  {
    forall k | 0 <= k < STATEMENTS :: handles[k].0 == Needed(access, k) && (handles[k].1 != null) == Needed(access, k)
  }

  predicate Opened(f: Five, access: FlagSet, table: string, cols: seq<Column>, countBuffer: ColumnBuffer?)
    requires f.Sized()
  {
    && Ready(f.handles, access)
    && (countBuffer != null <==> Needed(access, COUNT_WHERE))
    && f.bounds == OpenBounds(access, cols, countBuffer)
    && OpenTexts(f.texts, access, table, cols)
    && Bindable(access, cols)
  }

  const NOTHING: seq<Both> := [Both(NONE, NONE), Both(NONE, NONE), Both(NONE, NONE), Both(NONE, NONE), Both(NONE, NONE)]

  /** From statements that are ready and bare, the steps of Open lead to an open table. */
  lemma StepsOpen(f: Five, access: FlagSet, table: string, cols: seq<Column>, countBuffer: ColumnBuffer?)
    requires f.Sized() && f.bounds == NOTHING && Ready(f.handles, access)
    requires countBuffer != null <==> Needed(access, COUNT_WHERE)
    requires Bindable(access, cols)
    ensures Opened(AfterAll(f, access, table, cols, countBuffer), access, table, cols, countBuffer)
  {
    ColumnsBind(f, access, cols, countBuffer);
    KeysBind(AfterColumns(f, access, cols, countBuffer), access, table, cols);
    InsertBinds(AfterKeys(AfterColumns(f, access, cols, countBuffer), access, table, cols), access, table, cols);
    hide AfterColumns, AfterKeys, AfterInsertIf, InOrderIf, Keys, Inserted, UpdateParams, UpdatePkText, DeletePkText, SelectPkText, InsertText, SomeKey, Ready;
  }

  lemma InsertBinds(k: Five, access: FlagSet, table: string, cols: seq<Column>)
    requires k.Sized() && k.bounds[INSERT] == Both(NONE, NONE)
    ensures var r := AfterInsertIf(k, access, table, cols);
            && r.handles == k.handles
            && r.bounds == [k.bounds[0], k.bounds[1], Both(NONE, InOrderIf(Test(access, AF_INSERT), Inserted(cols))), k.bounds[3], k.bounds[4]]
            && r.texts[UPDATE_PK] == k.texts[UPDATE_PK] && r.texts[DELETE_PK] == k.texts[DELETE_PK] && r.texts[SELECT] == k.texts[SELECT]
            && (Test(access, AF_INSERT) ==> r.texts[INSERT] == Prep(true, InsertText(table, Inserted(cols))))
  {
    hide InOrder, Filter, InsertText;
  }

  lemma ColumnsBind(f: Five, access: FlagSet, cols: seq<Column>, countBuffer: ColumnBuffer?)
    requires f.Sized() && f.bounds == NOTHING
    ensures var c := AfterColumns(f, access, cols, countBuffer);
            && c.handles == f.handles
            && c.bounds == [Both(if countBuffer == null then NONE else NONE.Plus(1, countBuffer), NONE),
                            Both(InOrderIf(Needed(access, SELECT), Selected(cols)), NONE),
                            Both(NONE, NONE), Both(NONE, NONE), Both(NONE, NONE)]
  {
    hide InOrder, Selected, Needed;
  }

  lemma KeysBind(c: Five, access: FlagSet, table: string, cols: seq<Column>)
    requires c.Sized() && c.bounds[INSERT] == c.bounds[UPDATE_PK] == c.bounds[DELETE_PK] == Both(NONE, NONE) && c.bounds[SELECT].params == NONE
    ensures var k := AfterKeys(c, access, table, cols);
            && k.handles == c.handles
            && k.bounds == [c.bounds[COUNT_WHERE],
                            Both(c.bounds[SELECT].columns, InOrderIf(Test(access, AF_SELECT_PK), Keys(cols))),
                            Both(NONE, NONE),
                            Both(NONE, InOrderIf(Test(access, AF_UPDATE_PK), UpdateParams(cols))),
                            Both(NONE, InOrderIf(Test(access, AF_DELETE_PK), Keys(cols)))]
            && (Test(access, AF_UPDATE_PK) ==> k.texts[UPDATE_PK] == Prep(true, UpdatePkText(table, cols)))
            && (Test(access, AF_DELETE_PK) ==> k.texts[DELETE_PK] == Prep(true, DeletePkText(table, cols)))
            && (Test(access, AF_SELECT_PK) ==> k.texts[SELECT] == Prep(true, SelectPkText(table, cols)))
  {
    hide InOrder, Filter, UpdateParams, UpdatePkText, DeletePkText, SelectPkText;
  }
}
