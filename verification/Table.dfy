// Table: the statements, columns and flags of one database table, from Open to Close.
module Table {
  import opened Options
  import opened Flags
  import opened Text
  import opened BindingSpec
  import opened Binding
  import opened Statement
  import opened SqlBuilder
  import opened TableColumns
  import opened TableStatements
  import opened TableBinding
  import opened TableBuffers
  import opened TableAuto
  import opened TableOpen
  import opened TablePrepare
  import opened TableMarkers

  lemma LookBuffers(columns: seq<TableColumn>, of: map<ColumnBuffer, FlagSet>, bufs: set<ColumnBuffer>)
    requires BuffersOf(columns) <= bufs
    ensures forall c <- Look(columns, of) :: c.buffer in bufs
  {
    assert forall i | 0 <= i < |columns| :: columns[i].buffer in BuffersOf(columns);
    hide BuffersOf, Look;
    forall c <- Look(columns, of) ensures c.buffer in bufs {
      var i :| 0 <= i < |columns| && Look(columns, of)[i] == c;
    }
  }

  lemma OtherOpenFlags(flags: FlagSet)
    ensures forall tested | tested in {TOF_CHECK_DB_TYPE_INFOS, TOF_SKIP_UNSUPPORTED_COLUMNS} ::
              Test(Set(flags, TOF_DO_NOT_QUERY_PRIMARY_KEYS), tested) == Test(flags, tested)
  {
    TestAfterSet(flags, TOF_DO_NOT_QUERY_PRIMARY_KEYS, TOF_CHECK_DB_TYPE_INFOS);
    TestAfterSet(flags, TOF_DO_NOT_QUERY_PRIMARY_KEYS, TOF_SKIP_UNSUPPORTED_COLUMNS);
    hide Test, Set;
  }

  lemma SeenParts(stmts: seq<ExecutableStatement>, m: Memory)
    requires |stmts| == STATEMENTS
    ensures Seen(stmts, m).handles == Handles(stmts) && Seen(stmts, m).bounds == Bounds(stmts, m)
  {
  }

  lemma ReadyIsNeeded(handles: seq<(bool, SqlStmtHandle?)>, access: FlagSet)
    requires |handles| == STATEMENTS
    ensures Ready(handles, access) ==> NeededReady(handles, access)
  {
    hide Needed;
  }

  lemma NothingInitialised(stmts: seq<ExecutableStatement>)
    requires |stmts| == STATEMENTS
    ensures AllEmpty(stmts) ==> NothingBound(stmts) && forall k | 0 <= k < STATEMENTS :: !Befores(stmts)[k].hasDb && Befores(stmts)[k].stmt == null
    ensures AllEmpty(stmts) ==> forall access :: NoneReady(Befores(stmts), access)
  {
  }

  lemma ShapeIsSound(stmts: seq<ExecutableStatement>, m: Memory)
    requires Shape(stmts, m)
    ensures Inv(m.View())
  {
  }

  lemma BoundIsAlive(w: World)
    ensures Inv(w) ==> forall x <- w.driver.bound :: x.handle in w.driver.alive
    ensures Inv(w) ==> forall x <- w.heap.entries :: x.key.handle in w.driver.alive
  {
  }

  /** The buffers there are when columns have been created beside the table's own, or in their place. */
  function Adopted(bufs: set<ColumnBuffer>, ok: bool, made: set<ColumnBuffer>, instead: bool, own: set<ColumnBuffer>, kept: set<ColumnBuffer>):
      set<ColumnBuffer>
  {
    if !ok then bufs else if instead then bufs + made - (own - kept) else bufs + made
  }

  lemma KeptShrinks(w0: World, m: Memory, of: map<ColumnBuffer, FlagSet>, start: Start)
    requires Kept(m, of, start) && start.entries == w0.heap.entries && start.bound == w0.driver.bound && start.alive == w0.driver.alive
    ensures Shrinks(w0, m.View())
  {
  }

  lemma NoCount(bufs: set<ColumnBuffer>)
    ensures bufs + CountBuffers(null) == bufs == bufs - CountBuffers(null)
  {
  }

  lemma FieldsAre(cols: seq<Column>)
    ensures FieldList(cols) == Join(Names(Selected(cols)), ", ")
  {
    hide Join, Names, Filter;
  }

  lemma NoBuffers()
    ensures BuffersOf([]) == {}
  {
  }

  lemma ProgressIsOwn(stmts: seq<ExecutableStatement>, m: Memory, access: FlagSet, before: seq<Fields>, alive: set<nat>)
    requires Progress(stmts, m, access, ALL_FIVE, before, alive)
    ensures OnlyOwn(stmts, m, alive)
  {
    hide Shape, OnlyOwn;
  }

  ghost function OwnOfHandles(w: World, handles: seq<(bool, SqlStmtHandle?)>): set<nat> {
    set k | 0 <= k < |handles| && handles[k].1 != null :: HandleOf(w.heap, handles[k].1)
  }

  lemma HeldOwn(stmts: seq<ExecutableStatement>, m: Memory, w0: World)
    requires |stmts| == STATEMENTS && HeldSince(stmts, m, w0)
    ensures OwnHandles(stmts, m) == OwnOfHandles(w0, Handles(stmts))
  {
    var before, handles := Befores(stmts), Handles(stmts);
    forall k | 0 <= k < STATEMENTS
      ensures before[k].stmt == stmts[k].stmt == handles[k].1
      ensures stmts[k].stmt != null ==> HandleOf(m.View().heap, stmts[k].stmt) == HandleOf(w0.heap, stmts[k].stmt)
    {
      if stmts[k].stmt != null { assert StillHeld(w0, m.View(), stmts[k].stmt); }
    }
    hide HeldSince, Befores, Handles, HandleOf;
  }

  lemma ShrunkIsGrown(w: World, w': World, own: set<nat>)
    requires Shrinks(w, w')
    ensures GrownBy(w, w', own)
  {
  }

  lemma OwnBeside(stmts: seq<ExecutableStatement>, m: Memory)
    requires |stmts| == STATEMENTS
    ensures Beside(stmts, m) == RestOf(m.View(), OwnHandles(stmts, m)) && Beside(stmts, m).own == OwnHandles(stmts, m)
  {
    hide HandlesIn;
  }

  lemma BesideGrows(w: World, w': World, own: set<nat>)
    requires RestOf(w, own) == RestOf(w', own)
    ensures GrownBy(w, w', own)
  {
    var rest, rest' := RestOf(w, own), RestOf(w', own);
    forall x <- w'.driver.bound | x.handle !in own ensures x in w.driver.bound && w'.driver.bound[x] == w.driver.bound[x] {
      assert x in rest'.bound;
    }
    forall x <- w'.heap.entries | x.key.handle !in own ensures x in w.heap.entries {
      assert x in rest'.entries;
    }
  }

  lemma EmptyOwnsNothing(stmts: seq<ExecutableStatement>, m: Memory)
    requires |stmts| == STATEMENTS && AllEmpty(stmts)
    ensures OwnHandles(stmts, m) == {}
  {
    forall k | 0 <= k < STATEMENTS ensures Befores(stmts)[k].stmt == null { assert stmts[k].Empty(); }
    hide Befores;
  }

  lemma NotProvided(c: OpenCase, of: map<ColumnBuffer, FlagSet>, autoCreated: bool)
    ensures WillPrepare(c, of, autoCreated) ==> Found(c)
    ensures WillPrepare(c, of, autoCreated) && NeedsColumns(c) ==> Creatable(c.cat, Test(c.flags, TOF_SKIP_UNSUPPORTED_COLUMNS))
  {
  }

  /** m_openFlags */
  function EffectiveFlags(flags: FlagSet, cat: Catalog): FlagSet {
    if cat.keysUnsupported then Set(flags, TOF_DO_NOT_QUERY_PRIMARY_KEYS) else flags
  }

  /** The database's product counts as a flag of the call, and only for the primary key. */
  lemma EffectiveMeans(flags: FlagSet, cat: Catalog)
    ensures var effective := EffectiveFlags(flags, cat);
            && (Test(effective, TOF_DO_NOT_QUERY_PRIMARY_KEYS) <==> cat.keysUnsupported || Test(flags, TOF_DO_NOT_QUERY_PRIMARY_KEYS))
            && (forall tested <- {TOF_CHECK_EXISTANCE, TOF_SKIP_UNSUPPORTED_COLUMNS, TOF_CHECK_DB_TYPE_INFOS, TOF_SCROLLABLE_CURSORS} ::
                  Test(effective, tested) <==> Test(flags, tested))
  {
  }

  /** SetColumnFlag and ClearColumnFlag change this flag of this buffer, and no other single flag. */
  lemma FlagChangedMeans(of: map<ColumnBuffer, FlagSet>, b: ColumnBuffer, flag: FlagSet, set': bool)
    ensures var of' := FlagChanged(of, b, flag, set');
            && (forall x :: x != b ==> FlagsIn(of', x) == FlagsIn(of, x))
            && (flag != 0 ==> Test(FlagsIn(of', b), flag) == set')
            && (forall tested :: tested & flag == 0 ==> Test(FlagsIn(of', b), tested) == Test(FlagsIn(of, b), tested))
  {
  }

  function FlagChanged(of: map<ColumnBuffer, FlagSet>, b: ColumnBuffer, flag: FlagSet, set': bool): map<ColumnBuffer, FlagSet> {
    of[b := if set' then Set(FlagsIn(of, b), flag) else Clear(FlagsIn(of, b), flag)]
  }

  /** A table as it stands between two calls, and the world it stands in; own are the native handles that
      its statements hold. */
  datatype Snapshot = Snapshot(isOpen: bool, intact: bool, had: bool, name: string, auto: bool, access: FlagSet, indexes: set<nat>,
    columns: seq<TableColumn>, countBuffer: ColumnBuffer?, of: map<ColumnBuffer, FlagSet>, world: World, own: set<nat>, five: Five)

  class Table {
    const stmts: seq<ExecutableStatement>      // m_execStmtCountWhere and the others
    const m: Memory
    const fl: FlagMemory
    var isOpen: bool
    var haveTableInfo: bool
    var tableName: string                      // m_tableInfo.GetQueryName()
    var autoCreated: bool                      // m_autoCreatedColumns
    var accessFlags: FlagSet
    var openFlags: FlagSet
    var columns: seq<TableColumn>
    var primaryKeyColumnIndexes: set<nat>
    var countBuffer: ColumnBuffer?             // m_pSelectCountResultBuffer
    ghost var intact: bool                     // what isOpen says holds

    constructor (m: Memory, fl: FlagMemory, accessFlags: FlagSet)
      requires Inv(m.View())
      ensures Valid() && intact && !isOpen && columns == [] && this.accessFlags == accessFlags
      ensures this.m == m && this.fl == fl && fresh(stmts) && !haveTableInfo && !autoCreated && primaryKeyColumnIndexes == {}
    {
      var five := NewStatements(m);
      this.stmts := five;
      this.m, this.fl := m, fl;
      isOpen, haveTableInfo, tableName, autoCreated := false, false, "", false;
      this.accessFlags, openFlags, columns, primaryKeyColumnIndexes, countBuffer := accessFlags, 0, [], {}, null;
      intact := true;
      new;
      hide Shape, AllEmpty;
      assert BuffersOf([]) == {};
    }

    /** The objects hang together, whatever has happened. */
    ghost predicate Shaped()
      reads this`columns, this`countBuffer, stmts, m
      ensures Shaped() ==> |stmts| == STATEMENTS
    {
      && Shape(stmts, m)
      && Ascending(columns) && BuffersOf(columns) <= m.bufs
      && CountBuffers(countBuffer) <= m.bufs && CountBuffers(countBuffer) !! BuffersOf(columns)
    }

    /** Exactly what the access flags call for is initialised, prepared and bound, and it is bound to the
        columns as they are now. */
    ghost predicate OpenNow()
      reads this`accessFlags, this`tableName, this`columns, this`countBuffer, stmts, m, fl
      requires |stmts| == STATEMENTS
    {
      Opened(Seen(stmts, m), accessFlags, tableName, Look(columns, fl.of), countBuffer)
    }

    ghost predicate Valid()
      reads this, stmts, m, fl
      ensures Valid() ==> |stmts| == STATEMENTS
    {
      && Shaped()
      && (if isOpen then haveTableInfo else countBuffer == null)
      && (intact ==> if isOpen then OpenNow() else AllEmpty(stmts))
    }

    /** Between allocating and binding: the statements keep their handles h0 and nothing gets bound. */
    ghost predicate Preparing(w0: World, h0: seq<(bool, SqlStmtHandle?)>)
      reads this`columns, this`countBuffer, stmts, m
      ensures Preparing(w0, h0) ==> |stmts| == |h0| == STATEMENTS && Shaped()
    {
      Shaped() && HeldSince(stmts, m, w0) && Shrinks(w0, m.View()) && Handles(stmts) == h0
    }

    ghost function Now(): (r: Snapshot)
      reads this, stmts, m, fl
      requires |stmts| == STATEMENTS
      ensures r.five.Sized()
    {
      Snapshot(isOpen, intact, haveTableInfo, tableName, autoCreated, accessFlags, primaryKeyColumnIndexes, columns, countBuffer, fl.of, m.View(),
               OwnHandles(stmts, m), Seen(stmts, m))
    }

    // ---- the parts of Open

    /** The call is still the one that case c is about, whatever has been found and created since. */
    ghost predicate SameCall(c: OpenCase, cat: Catalog)
      reads this`openFlags, this`accessFlags, this`primaryKeyColumnIndexes
    {
      c.flags == openFlags && c.access == accessFlags && c.indexes == primaryKeyColumnIndexes && c.cat == cat
    }

    /** The call of Open that is being answered. */
    ghost function Case(cat: Catalog): OpenCase
      reads this`haveTableInfo, this`columns, this`openFlags, this`accessFlags, this`primaryKeyColumnIndexes
    {
      OpenCase(haveTableInfo, columns, openFlags, accessFlags, primaryKeyColumnIndexes, cat)
    }

    /** ReadTableInfo */
    method ReadTableInfo(cat: Catalog) returns (ok: bool)
      modifies this`haveTableInfo, this`tableName
      ensures ok <==> haveTableInfo
      ensures ok <==> old(haveTableInfo) || cat.found.Some?
      ensures if old(haveTableInfo) then tableName == old(tableName) else ok ==> cat.found == Some(tableName)
    {
      if !haveTableInfo && cat.found.Some? {
        haveTableInfo, tableName := true, cat.found.value;
      }
      ok := haveTableInfo;
    }

    /** ReadTableInfo, or else the existence check. */
    method FindTable(cat: Catalog, ghost w0: World, ghost h0: seq<(bool, SqlStmtHandle?)>) returns (ok: bool)
      requires Preparing(w0, h0)
      modifies this`haveTableInfo, this`tableName
      ensures Preparing(w0, h0)
      ensures ok <==> Found(old(Case(cat)))
      ensures Known(old(haveTableInfo), old(tableName), cat) && (ok ==> haveTableInfo)
    {
      hide Preparing, Shaped;
      var searched := !haveTableInfo;
      ok := ReadTableInfo(cat);
      if ok && Test(openFlags, TOF_CHECK_EXISTANCE) && !searched && !cat.stillThere { ok := false; }
    }

    /** Columns are created when none have been set and some are needed. */
    method ProvideColumns(cat: Catalog, ghost c: OpenCase, ghost w0: World, ghost h0: seq<(bool, SqlStmtHandle?)>) returns (ok: bool)
      requires Preparing(w0, h0) && SameCall(c, cat) && c.before == columns
      modifies this`columns, this`autoCreated, m, fl
      ensures Preparing(w0, h0)
      ensures ok <==> (NeedsColumns(c) ==> Creatable(c.cat, Test(c.flags, TOF_SKIP_UNSUPPORTED_COLUMNS)))
      ensures ok ==> Provided(c, old(fl.of), old(autoCreated), columns, fl.of, autoCreated)
      ensures !ok ==> columns == old(columns) && autoCreated == old(autoCreated)
      ensures forall b <- old(m.bufs) :: FlagsIn(fl.of, b) == FlagsIn(old(fl.of), b)
      ensures if ok && NeedsColumns(c) then BuffersOf(columns) !! old(m.bufs) && m.bufs == old(m.bufs) + BuffersOf(columns)
              else m.bufs == old(m.bufs)
      ensures BuffersOf(c.before) <= old(m.bufs) && BuffersOf(columns) <= m.bufs
    {
      hide Shape, HeldSince, MadeFrom, Look, Ascending, Handles, Creatable, Test;
      ok := true;
      if columns == [] && !(accessFlags == AF_NONE || accessFlags == AF_COUNT_WHERE) {
        var made;
        ok, made := CreateColumns(stmts, m, fl, accessFlags, cat, Test(openFlags, TOF_SKIP_UNSUPPORTED_COLUMNS), false, w0);
        if ok {
          columns, autoCreated := made, true;
        }
      }
    }

    method SettleKeys(cat: Catalog, ghost w0: World, ghost h0: seq<(bool, SqlStmtHandle?)>) returns (ok: bool)
      requires Preparing(w0, h0)
      modifies this`openFlags, fl
      ensures Preparing(w0, h0)
      ensures openFlags == old(openFlags) || openFlags == Set(old(openFlags), TOF_DO_NOT_QUERY_PRIMARY_KEYS)
      ensures ok <==> KeysFindable(columns, primaryKeyColumnIndexes, accessFlags, old(openFlags), cat)
      ensures ok ==> fl.of == MarkedBy(columns, old(fl.of), primaryKeyColumnIndexes, accessFlags, old(openFlags), cat)
      ensures MarkedSome(old(fl.of), fl.of, KeyBuffers(columns, old(fl.of), primaryKeyColumnIndexes, accessFlags, old(openFlags), cat))
    {
      hide Set, Shape, HeldSince, Ascending, BuffersOf, KeysFindable, MarkedBy, KeyBuffers;
      ok, openFlags := MarkPrimaryKeys(columns, primaryKeyColumnIndexes, fl, accessFlags, openFlags, cat);
    }

    method DropColumns(cat: Catalog, kept: set<ColumnBuffer>, ghost w0: World, ghost h0: seq<(bool, SqlStmtHandle?)>) returns (ok: bool)
      requires Preparing(w0, h0)
      modifies this`columns, m
      ensures Preparing(w0, h0)
      ensures var checks := !autoCreated && Test(openFlags, TOF_CHECK_DB_TYPE_INFOS);
              && (ok <==> Checked(old(columns), Look(old(columns), fl.of), accessFlags, checks, Test(openFlags, TOF_SKIP_UNSUPPORTED_COLUMNS), cat.types))
              && columns == if ok && checks then Supported(old(columns), cat.types) else old(columns)
      ensures BuffersOf(columns) <= BuffersOf(old(columns)) && m.bufs == old(m.bufs) - (BuffersOf(old(columns)) - BuffersOf(columns) - kept)
    {
      hide Shape, HeldSince, Look, Ascending, Checked, Supported, Test;
      var left;
      ok, left := CheckColumns(stmts, m, columns, Look(columns, fl.of), accessFlags, !autoCreated && Test(openFlags, TOF_CHECK_DB_TYPE_INFOS),
                               Test(openFlags, TOF_SKIP_UNSUPPORTED_COLUMNS), cat.types, kept, w0);
      columns := left;
    }

    /** The primary key, the checks, and what the checks drop. */
    method SettleColumns(cat: Catalog, kept: set<ColumnBuffer>, ghost c: OpenCase, ghost w0: World, ghost h0: seq<(bool, SqlStmtHandle?)>)
        returns (ok: bool)
      requires Preparing(w0, h0) && SameCall(c, cat)
      modifies this`columns, this`openFlags, m, fl
      ensures Preparing(w0, h0)
      ensures ok <==> Passes(c, old(columns), old(fl.of), autoCreated)
      ensures columns == if ok then Settled(c, old(columns), autoCreated) else old(columns)
      ensures ok ==> fl.of == MarkedIn(c, old(columns), old(fl.of))
      ensures MarkedSome(old(fl.of), fl.of, KeysIn(c, old(columns), old(fl.of)))
      ensures BuffersOf(columns) <= BuffersOf(old(columns)) && m.bufs == old(m.bufs) - (BuffersOf(old(columns)) - BuffersOf(columns) - kept)
    {
      hide Preparing, Look, MarkedBy, KeysFindable, Checked, Supported, Test, Set, KeyBuffers, MarkedSome, BuffersOf;
      OtherOpenFlags(openFlags);
      ok := SettleKeys(cat, w0, h0);
      if !ok { return; }
      ok := DropColumns(cat, kept, w0, h0);
    }

    /** Count column, select columns, and the parameters of the other statements. */
    method BindNow(ghost w0: World, ghost h0: seq<(bool, SqlStmtHandle?)>) returns (ok: bool)
      requires Preparing(w0, h0) && Bare(w0, h0, accessFlags)
      requires countBuffer != null <==> Needed(accessFlags, COUNT_WHERE)
      modifies stmts, m
      ensures Shaped() && m.bufs == old(m.bufs) && Beside(stmts, m) == old(Beside(stmts, m))
      ensures ok && Ready(h0, accessFlags) ==> OpenNow()
      ensures ok ==> Bindable(accessFlags, Look(columns, fl.of))
      ensures m.reliable && Ready(h0, accessFlags) && Bindable(accessFlags, Look(columns, fl.of)) ==> ok
    {
      hide Shape, HeldSince, Bare, Seen, Handles, Look, Ascending, BuffersOf, NeededBlank, Ready, Opened, AfterAll, Bindable, Needed, NeededReady, Bounds,
        Beside, GrownBy;
      StaysBare(stmts, m, w0, accessFlags);
      LookBuffers(columns, fl.of, m.bufs);
      ghost var f0, cols := Seen(stmts, m), Look(columns, fl.of);
      SeenParts(stmts, m);
      ReadyIsNeeded(h0, accessFlags);
      ok := BindAll(stmts, m, accessFlags, tableName, Look(columns, fl.of), countBuffer);
      if ok && Ready(h0, accessFlags) {
        StepsOpen(f0, accessFlags, tableName, cols, countBuffer);
      }
    }

    /** The try block of Open up to the binding. */
    method PrepareColumns(cat: Catalog, kept: set<ColumnBuffer>, ghost w0: World, ghost h0: seq<(bool, SqlStmtHandle?)>) returns (ok: bool)
      requires Preparing(w0, h0)
      modifies this`haveTableInfo, this`tableName, this`columns, this`autoCreated, this`openFlags, m, fl
      ensures Preparing(w0, h0)
      ensures ok <==> WillPrepare(old(Case(cat)), old(fl.of), old(autoCreated))
      ensures Known(old(haveTableInfo), old(tableName), cat) && (ok ==> haveTableInfo)
      ensures ok ==> Outcome(old(Case(cat)), old(fl.of), old(autoCreated), columns, fl.of, autoCreated)
      ensures ok ==> (Bindable(accessFlags, Look(columns, fl.of)) <==> WillBind(old(Case(cat)), old(fl.of), old(autoCreated)))
      ensures Underway(old(Case(cat)), old(fl.of), old(autoCreated), old(m.bufs), kept, columns, fl.of, autoCreated, m.bufs)
    {
      hide Preparing, Found, WillPrepare, WillBind, Outcome, Bindable, Look, Underway, Known;
      ghost var c := Case(cat);
      NotProvided(c, fl.of, autoCreated);
      NothingUnderway(c, kept, w0, h0);
      ok := FindTable(cat, w0, h0);
      if ok {
        ok := PrepareFound(cat, kept, c, w0, h0);
      }
    }

    lemma NothingUnderway(c: OpenCase, kept: set<ColumnBuffer>, w0: World, h0: seq<(bool, SqlStmtHandle?)>)
      requires Preparing(w0, h0) && c.before == columns
      ensures !WillPrepare(c, fl.of, autoCreated) ==> Underway(c, fl.of, autoCreated, m.bufs, kept, columns, fl.of, autoCreated, m.bufs)
    {
      hide Shape, Ascending, BuffersOf, HeldSince, Handles, GrownBy, WillPrepare, Going, FlagsFrom, Exchanged;
      NothingTried(c, fl.of, autoCreated);
      NoFlagsYet(fl.of, KeysIn(c, c.before, fl.of), m.bufs);
      ExchangedNothing(m.bufs, BuffersOf(columns), kept);
    }

    method SettleFound(cat: Catalog, kept: set<ColumnBuffer>, ghost c: OpenCase, ghost w0: World, ghost h0: seq<(bool, SqlStmtHandle?)>)
        returns (ok: bool)
      requires Preparing(w0, h0) && SameCall(c, cat)
      modifies this`columns, this`openFlags, m, fl
      ensures Preparing(w0, h0)
      ensures ok <==> Passes(c, old(columns), old(fl.of), autoCreated)
      ensures columns == if ok then Settled(c, old(columns), autoCreated) else old(columns)
      ensures ok ==> fl.of == MarkedIn(c, old(columns), old(fl.of))
      ensures ok ==> (Bindable(accessFlags, Look(columns, fl.of)) <==> Suffices(c, old(columns), old(fl.of), autoCreated))
      ensures MarkedSome(old(fl.of), fl.of, KeysIn(c, old(columns), old(fl.of)))
      ensures BuffersOf(columns) <= BuffersOf(old(columns)) && m.bufs == old(m.bufs) - (BuffersOf(old(columns)) - BuffersOf(columns) - kept)
    {
      hide Preparing, Passes, Settled, MarkedIn, Bindable, Look, MarkedSome, KeysIn, BuffersOf;
      ok := SettleColumns(cat, kept, c, w0, h0);
    }

    method PrepareFound(cat: Catalog, kept: set<ColumnBuffer>, ghost c: OpenCase, ghost w0: World, ghost h0: seq<(bool, SqlStmtHandle?)>)
        returns (ok: bool)
      requires Preparing(w0, h0) && Found(c) && SameCall(c, cat) && c.before == columns
      requires !WillPrepare(c, fl.of, autoCreated) ==> Underway(c, fl.of, autoCreated, m.bufs, kept, columns, fl.of, autoCreated, m.bufs)
      modifies this`columns, this`autoCreated, this`openFlags, m, fl
      ensures Preparing(w0, h0)
      ensures ok <==> WillPrepare(c, old(fl.of), old(autoCreated))
      ensures ok ==> Outcome(c, old(fl.of), old(autoCreated), columns, fl.of, autoCreated)
      ensures ok ==> (Bindable(accessFlags, Look(columns, fl.of)) <==> WillBind(c, old(fl.of), old(autoCreated)))
      ensures Underway(c, old(fl.of), old(autoCreated), old(m.bufs), kept, columns, fl.of, autoCreated, m.bufs)
    {
      hide *;
      ghost var of, auto := fl.of, autoCreated;
      NotProvided(c, of, auto);
      ok := ProvideColumns(cat, c, w0, h0);
      if !ok {
        FlagsUnderway(c, of, auto, m.bufs, kept, columns, fl.of);
        return;
      }
      ghost var all, of1, bufs1 := columns, fl.of, m.bufs;
      ProvidedSettles(c, of, auto, all, of1, autoCreated);
      ok := SettleFound(cat, kept, c, w0, h0);
      NowUnderway(c, of, auto, old(m.bufs), kept, all, of1, autoCreated, bufs1, columns, fl.of, m.bufs);
    }

    /** What is known of the table's name. */
    ghost predicate Known(had: bool, name: string, cat: Catalog)
      reads this`haveTableInfo, this`tableName
    {
      if had then haveTableInfo && tableName == name else haveTableInfo ==> cat.found == Some(tableName)
    }

    /** The try block of Open. */
    method TryOpen(cat: Catalog, kept: set<ColumnBuffer>, ghost w0: World, ghost h0: seq<(bool, SqlStmtHandle?)>) returns (ok: bool)
      requires Preparing(w0, h0) && Bare(w0, h0, accessFlags)
      requires countBuffer != null <==> Needed(accessFlags, COUNT_WHERE)
      modifies this`haveTableInfo, this`tableName, this`columns, this`autoCreated, this`openFlags, stmts, m, fl
      ensures Shaped()
      ensures ok && Ready(h0, accessFlags) ==> OpenNow()
      ensures ok ==> WillOpen(old(Case(cat)), old(fl.of), old(autoCreated))
      ensures m.reliable && Ready(h0, accessFlags) && WillOpen(old(Case(cat)), old(fl.of), old(autoCreated)) ==> ok
      ensures Known(old(haveTableInfo), old(tableName), cat) && (ok ==> haveTableInfo)
      ensures ok ==> Outcome(old(Case(cat)), old(fl.of), old(autoCreated), columns, fl.of, autoCreated)
      ensures Underway(old(Case(cat)), old(fl.of), old(autoCreated), old(m.bufs), kept, columns, fl.of, autoCreated, m.bufs)
      ensures old(NothingBound(stmts)) && !WillPrepare(old(Case(cat)), old(fl.of), old(autoCreated)) ==> NothingBound(stmts)
      ensures OwnHandles(stmts, m) == old(OwnHandles(stmts, m)) && GrownBy(w0, m.View(), OwnHandles(stmts, m))
    {
      hide Preparing, Shaped, OpenNow, Bare, Ready, Needed, WillPrepare, WillBind, Outcome, Known, Bindable, NothingBound, Look, Underway, OwnHandles,
        GrownBy, Beside;
      PreparingOwn(w0, h0);
      ok := PrepareColumns(cat, kept, w0, h0);
      PreparingOwn(w0, h0);
      if ok {
        ghost var w, own := m.View(), OwnHandles(stmts, m);
        OwnBeside(stmts, m);
        ok := BindNow(w0, h0);
        OwnBeside(stmts, m);
        BesideGrows(w, m.View(), own);
        GrowOn(w0, w, m.View(), own);
      }
    }

    lemma PreparingOwn(w0: World, h0: seq<(bool, SqlStmtHandle?)>)
      requires Preparing(w0, h0)
      ensures OwnHandles(stmts, m) == OwnOfHandles(w0, h0) && GrownBy(w0, m.View(), OwnHandles(stmts, m))
    {
      hide Shape, Ascending, BuffersOf;
      HeldOwn(stmts, m, w0);
      ShrunkIsGrown(w0, m.View(), OwnHandles(stmts, m));
    }

    /** AllocateStatements */
    method Allocate() returns (ok: bool)
      requires Shaped() && countBuffer == null && (intact ==> AllEmpty(stmts))
      modifies this`countBuffer, stmts, m
      ensures Shaped() && (countBuffer != null <==> ok && Needed(accessFlags, COUNT_WHERE))
      ensures ok ==> Bare(m.View(), Handles(stmts), accessFlags) && Preparing(m.View(), Handles(stmts))
      ensures intact ==> if ok then Ready(Handles(stmts), accessFlags) && NothingBound(stmts) else AllEmpty(stmts)
      ensures m.Unbinds() && !ok ==> AllEmpty(stmts)
      ensures m.reliable && intact ==> ok
      ensures m.bufs == old(m.bufs) + CountBuffers(countBuffer) && CountBuffers(countBuffer) !! old(m.bufs)
      ensures ok || AllEmpty(stmts) ==> GrownBy(old(m.View()), m.View(), OwnHandles(stmts, m))
    {
      hide Shape, Inv, Ascending, BuffersOf, AllEmpty, NothingBound, Needed, Ready, Bare, HeldSince, Handles, Progress, Befores, NoneReady, OnlyOwn,
        GrownBy, OwnHandles;
      ghost var before, alive, w := Befores(stmts), m.alive, m.View();
      NothingInitialised(stmts);
      ShapeIsSound(stmts, m);
      BoundIsAlive(m.View());
      var cb;
      ok, cb := AllocateStatements(stmts, m, accessFlags, true);
      countBuffer := cb;
      if ok {
        AllocatedIsBare(stmts, m, accessFlags, before, alive);
        AllStillHeld(stmts, m);
        ProgressIsOwn(stmts, m, accessFlags, before, alive);
        OnlyOwnGrown(stmts, m, w);
        GrowsNot(m.View(), {});
      } else if AllEmpty(stmts) {
        EmptyOwnsNothing(stmts, m);
      }
    }

    /** FreeStatements. When it succeeds, every native handle the statements had in w0 has been freed
        exactly once since, and no buffer has an entry for it. */
    method Free(ghost w0: World) returns (ok: bool)
      requires Shaped() && HeldSince(stmts, m, w0)
      modifies this`countBuffer, stmts, m
      ensures Shaped() && countBuffer == null
      ensures ok <==> AllEmpty(stmts)
      ensures old(NothingBound(stmts)) || m.Unbinds() ==> ok
      ensures !ok ==> Stopped(stmts, old(Befores(stmts)))
      ensures m.bufs == old(m.bufs) - CountBuffers(old(countBuffer)) && Shrinks(old(m.View()), m.View())
      ensures ok ==> AllFreed(old(Befores(stmts)), w0, m.View())
    {
      hide Shape, Ascending, BuffersOf, AllEmpty, NothingBound, HeldSince, AllFreed, Stopped, Befores, GrownBy;
      ok := FreeStatements(stmts, countBuffer, m, w0);
      countBuffer := null;
    }

    /** m_columns.clear(): a buffer that nobody else holds is destroyed. */
    method ReleaseColumns(kept: set<ColumnBuffer>, ghost w0: World)
      requires Shaped() && HeldSince(stmts, m, w0)
      modifies this`columns, m
      ensures Shaped() && HeldSince(stmts, m, w0) && columns == []
      ensures AllEmpty(stmts) == old(AllEmpty(stmts)) && Handles(stmts) == old(Handles(stmts))
      ensures m.bufs == old(m.bufs) - (BuffersOf(old(columns)) - kept) && Shrinks(old(m.View()), m.View())
    {
      var gone := BuffersOf(columns) - kept;
      ForgetColumns(w0);
      hide Shaped, HeldSince, BuffersOf, AllEmpty, Handles, GrownBy;
      Destroy(gone, w0);
    }

    method ForgetColumns(ghost w0: World)
      requires Shaped()
      modifies this`columns
      ensures Shaped() && columns == [] && BuffersOf(old(columns)) <= m.bufs && BuffersOf(old(columns)) !! CountBuffers(countBuffer)
    {
      assert BuffersOf([]) == {};
      hide Shape, BuffersOf;
      columns := [];
    }

    method Destroy(gone: set<ColumnBuffer>, ghost w0: World)
      requires Shaped() && HeldSince(stmts, m, w0) && columns == [] && gone <= m.bufs && gone !! CountBuffers(countBuffer)
      modifies m
      ensures Shaped() && HeldSince(stmts, m, w0) && m.bufs == old(m.bufs) - gone && Shrinks(old(m.View()), m.View())
    {
      assert BuffersOf([]) == {};
      hide Shape, HeldSince, BuffersOf, GrownBy;
      LetGo(stmts, m, gone, w0);
    }

    /** The catch block of Open. What has come since base at most is the handles of the five; they are
        given back. */
    method CleanUp(kept: set<ColumnBuffer>, ghost base: World) returns (cleaned: bool)
      requires Shaped() && GrownBy(base, m.View(), OwnHandles(stmts, m))
      modifies this`countBuffer, this`columns, stmts, m
      ensures Shaped() && countBuffer == null
      ensures (cleaned <==> AllEmpty(stmts)) && (old(NothingBound(stmts)) || m.Unbinds() ==> cleaned)
      ensures columns == if cleaned && autoCreated then [] else old(columns)
      ensures m.bufs == old(m.bufs) - CountBuffers(old(countBuffer)) - (BuffersOf(old(columns)) - BuffersOf(columns) - kept)
      ensures cleaned ==> Shrinks(base, m.View())
    {
      hide Shaped, HeldSince, AllEmpty, NothingBound, OwnHandles, GrownBy;
      ShapedIsHeld();
      cleaned := FreeKnown(m.View(), base);
      if cleaned && autoCreated {
        ghost var w := m.View();
        ReleaseNow(kept);
        GrowOn(base, w, m.View(), {});
      }
    }

    method FreeKnown(ghost w0: World, ghost base: World) returns (ok: bool)
      requires Shaped() && HeldSince(stmts, m, w0) && w0 == m.View() && GrownBy(base, w0, OwnHandles(stmts, m))
      modifies this`countBuffer, stmts, m
      ensures Shaped() && countBuffer == null && (ok <==> AllEmpty(stmts)) && (old(NothingBound(stmts)) || m.Unbinds() ==> ok)
      ensures m.bufs == old(m.bufs) - CountBuffers(old(countBuffer))
      ensures ok ==> Shrinks(base, m.View())
    {
      hide Shaped, HeldSince, AllEmpty, NothingBound, AllFreed, Handles, OwnHandles, GrownBy, Befores, Stopped, Inv;
      ghost var before, own := Befores(stmts), OwnHandles(stmts, m);
      OwnOf(stmts, m);
      ok := Free(w0);
      ShapedIsSound();
      if ok { AllGivenBack(before, own, base, w0, m.View()); }
    }

    lemma ShapedIsSound()
      requires Shaped()
      ensures Inv(m.View())
    {
      SoundShape(stmts, m);
      hide Shape, Ascending, BuffersOf, Inv;
    }

    lemma ShapedIsHeld()
      requires Shaped()
      ensures HeldSince(stmts, m, m.View())
    {
      hide Shape, HeldSince, Ascending, BuffersOf;
      AllStillHeld(stmts, m);
    }

    method ReleaseNow(kept: set<ColumnBuffer>)
      requires Shaped()
      modifies this`columns, m
      ensures Shaped() && columns == [] && AllEmpty(stmts) == old(AllEmpty(stmts)) && Shrinks(old(m.View()), m.View())
      ensures m.bufs == old(m.bufs) - (BuffersOf(old(columns)) - BuffersOf(columns) - kept)
      ensures OwnHandles(stmts, m) == old(OwnHandles(stmts, m))
    {
      NoBuffers();
      hide Shaped, HeldSince, AllEmpty, Handles, BuffersOf, GrownBy, OwnHandles, OwnOfHandles;
      ShapedIsHeld();
      ghost var w := m.View();
      HeldOwn(stmts, m, w);
      ReleaseColumns(kept, w);
      HeldOwn(stmts, m, w);
    }

    /** Open: from an intact closed table to an open one with exactly what its access flags call for, or
        back to an intact closed one, whichever call of the driver or the catalog fails; as long as
        SQLFreeStmt does not, or if nothing had been bound yet. With a driver that does not refuse
        anything it succeeds exactly when it is bound to, by what it finds. Aftermath says what becomes of
        the columns, their flags and the buffers. No native handle, binding or entry comes to be but those
        of the statements that the open table has. */
    method Open(flags: FlagSet, cat: Catalog, kept: set<ColumnBuffer>) returns (ok: bool)
      requires Valid()
      modifies this, stmts, m, fl
      ensures Valid()
      ensures old(isOpen) || !cat.dbIsOpen ==> !ok && unchanged(this) && unchanged(stmts) && unchanged(m) && unchanged(fl)
      ensures isOpen == (old(isOpen) || ok)
      ensures ok && old(intact) ==> intact
      ensures var c, of, auto := old(Case(cat)).(flags := EffectiveFlags(flags, cat)), old(fl.of), old(autoCreated);
              !old(isOpen) && cat.dbIsOpen ==>
                && (ok ==> WillOpen(c, of, auto))
                && (m.reliable && old(intact) ==> (ok <==> WillOpen(c, of, auto)))
                && Known(old(haveTableInfo), old(tableName), cat) && (ok ==> haveTableInfo)
                && Aftermath(c, of, auto, old(m.bufs), kept, ok, AllEmpty(stmts), columns, fl.of, autoCreated, m.bufs - CountBuffers(countBuffer))
                && (!ok && (m.Unbinds() || (old(intact) && !WillPrepare(c, of, auto))) ==> intact && AllEmpty(stmts))
                && (ok || AllEmpty(stmts) ==> GrownBy(old(m.View()), m.View(), OwnHandles(stmts, m)))
      ensures ok && old(intact) ==> AsAskedFor(Seen(stmts, m), accessFlags, Look(columns, fl.of), countBuffer)
                                    && Prepared(Seen(stmts, m).texts, accessFlags, tableName, Look(columns, fl.of))
      ensures accessFlags == old(accessFlags) && primaryKeyColumnIndexes == old(primaryKeyColumnIndexes)
    {
      hide Shaped, Preparing, OpenNow, WillPrepare, WillBind, Known, Aftermath, Bare, Needed, Handles, Ready, AllEmpty, GrownBy, OwnHandles,
        AsAskedFor, Prepared, Seen, Look;
      if isOpen || !cat.dbIsOpen { return false; }
      openFlags := EffectiveFlags(flags, cat);
      ok := OpenClosed(cat, kept);
      if ok && intact { OpenIsAsAsked(); }
    }

    lemma OpenIsAsAsked()
      requires Valid() && isOpen && intact
      ensures AsAskedFor(Seen(stmts, m), accessFlags, Look(columns, fl.of), countBuffer)
      ensures Prepared(Seen(stmts, m).texts, accessFlags, tableName, Look(columns, fl.of))
    {
      hide Shaped, Look, Seen, Opened, AsAskedFor, Prepared, NamesFree, SelectListMatches, AsManyAsMarkers, UpdateAgrees, BoundAsMarked, InsertAgrees;
      OpenTableMatches(Seen(stmts, m), accessFlags, tableName, Look(columns, fl.of), countBuffer);
    }

    method OpenClosed(cat: Catalog, kept: set<ColumnBuffer>) returns (ok: bool)
      requires Shaped() && countBuffer == null && (intact ==> AllEmpty(stmts)) && !isOpen
      modifies this, stmts, m, fl
      ensures Valid() && isOpen == ok && (ok && old(intact) ==> intact)
      ensures ok ==> WillOpen(old(Case(cat)), old(fl.of), old(autoCreated))
      ensures m.reliable && old(intact) && WillOpen(old(Case(cat)), old(fl.of), old(autoCreated)) ==> ok
      ensures Known(old(haveTableInfo), old(tableName), cat) && (ok ==> haveTableInfo)
      ensures Aftermath(old(Case(cat)), old(fl.of), old(autoCreated), old(m.bufs), kept, ok, AllEmpty(stmts), columns, fl.of, autoCreated,
                        m.bufs - CountBuffers(countBuffer))
      ensures !ok && (m.Unbinds() || (old(intact) && !WillPrepare(old(Case(cat)), old(fl.of), old(autoCreated)))) ==> intact && AllEmpty(stmts)
      ensures ok || AllEmpty(stmts) ==> GrownBy(old(m.View()), m.View(), OwnHandles(stmts, m))
      ensures accessFlags == old(accessFlags) && primaryKeyColumnIndexes == old(primaryKeyColumnIndexes)
    {
      hide Shaped, Preparing, OpenNow, WillPrepare, WillBind, Aftermath, Bare, Needed, Handles, Ready, AllEmpty, NothingBound, GrownBy, OwnHandles,
        BuffersOf;
      ShapedBuffers();
      ok := Allocate();
      if !ok {
        NoCount(old(m.bufs));
        GivenUp(Case(cat), fl.of, autoCreated, m.bufs, kept, AllEmpty(stmts));
        intact := AllEmpty(stmts);
        return false;
      }
      ok := OpenAllocated(cat, kept, m.View(), Handles(stmts), old(m.View()), old(m.bufs));
    }

    lemma CaseBefore(cat: Catalog)
      ensures Case(cat).before == columns
    {
    }

    lemma ShapedBuffers()
      requires Shaped()
      ensures BuffersOf(columns) <= m.bufs && CountBuffers(countBuffer) !! BuffersOf(columns)
    {
      hide Shape, Ascending, BuffersOf;
    }

    method OpenAllocated(cat: Catalog, kept: set<ColumnBuffer>, ghost w0: World, ghost h0: seq<(bool, SqlStmtHandle?)>,
        ghost base: World, ghost bufs: set<ColumnBuffer>) returns (ok: bool)
      requires Preparing(w0, h0) && Bare(w0, h0, accessFlags) && !isOpen
      requires countBuffer != null <==> Needed(accessFlags, COUNT_WHERE)
      requires intact ==> Ready(h0, accessFlags) && NothingBound(stmts)
      requires m.bufs == bufs + CountBuffers(countBuffer) && CountBuffers(countBuffer) !! bufs
      requires w0 == m.View() && GrownBy(base, w0, OwnHandles(stmts, m))
      modifies this, stmts, m, fl
      ensures Valid() && isOpen == ok && (ok && old(intact) ==> intact)
      ensures ok ==> WillOpen(old(Case(cat)), old(fl.of), old(autoCreated))
      ensures m.reliable && old(intact) && WillOpen(old(Case(cat)), old(fl.of), old(autoCreated)) ==> ok
      ensures Known(old(haveTableInfo), old(tableName), cat) && (ok ==> haveTableInfo)
      ensures Aftermath(old(Case(cat)), old(fl.of), old(autoCreated), bufs, kept, ok, AllEmpty(stmts), columns, fl.of, autoCreated,
                        m.bufs - CountBuffers(countBuffer))
      ensures !ok && (m.Unbinds() || (old(intact) && !WillPrepare(old(Case(cat)), old(fl.of), old(autoCreated)))) ==> intact && AllEmpty(stmts)
      ensures ok || AllEmpty(stmts) ==> GrownBy(base, m.View(), OwnHandles(stmts, m))
      ensures accessFlags == old(accessFlags) && primaryKeyColumnIndexes == old(primaryKeyColumnIndexes)
    {
      hide *;
      ghost var c, of, auto, count, own := Case(cat), fl.of, autoCreated, CountBuffers(countBuffer), OwnHandles(stmts, m);
      CaseBefore(cat);
      ShapedBuffers();
      ok := TryOpen(cat, kept, w0, h0);
      GrowOn(base, w0, m.View(), own);
      ShapedBuffers();
      if ok {
        UnderwayOpens(c, of, auto, bufs, kept, count, columns, fl.of, autoCreated, m.bufs);
        Announce(h0);
      } else {
        ghost var there, bufs1 := columns, m.bufs;
        Abandon(kept, base);
        NoCount(m.bufs);
        UnderwayFails(c, of, auto, bufs, kept, count, there, fl.of, autoCreated, bufs1, AllEmpty(stmts), columns, m.bufs);
      }
    }

    /** Completed successfully. */
    method Announce(ghost h0: seq<(bool, SqlStmtHandle?)>)
      requires Shaped() && haveTableInfo && |h0| == STATEMENTS && (Ready(h0, accessFlags) ==> OpenNow())
      modifies this`isOpen, this`intact
      ensures Valid() && isOpen
      ensures intact == (old(intact) && Ready(h0, accessFlags))
    {
      hide Shaped, OpenNow, Ready, AllEmpty;
      isOpen := true;
      intact := intact && Ready(h0, accessFlags);
    }

    method Abandon(kept: set<ColumnBuffer>, ghost base: World)
      requires Shaped() && !isOpen && GrownBy(base, m.View(), OwnHandles(stmts, m))
      modifies this`countBuffer, this`columns, this`intact, stmts, m
      ensures Valid() && intact == AllEmpty(stmts) && countBuffer == null
      ensures old(NothingBound(stmts)) || m.Unbinds() ==> intact
      ensures columns == if AllEmpty(stmts) && autoCreated then [] else old(columns)
      ensures m.bufs == old(m.bufs) - CountBuffers(old(countBuffer)) - (BuffersOf(old(columns)) - BuffersOf(columns) - kept)
      ensures AllEmpty(stmts) ==> GrownBy(base, m.View(), OwnHandles(stmts, m))
    {
      hide Shaped, OpenNow, AllEmpty, NothingBound, GrownBy, OwnHandles, BuffersOf;
      var cleaned := CleanUp(kept, base);
      intact := cleaned;
      if cleaned { EmptyOwnsNothing(stmts, m); }
    }

    /** Close: whichever buffers the caller keeps, no buffer has an entry for any of the handles the table
        had, and each of them has been freed exactly once; unless a call of SQLFreeStmt failed. */
    method Close(kept: set<ColumnBuffer>) returns (ok: bool)
      requires Valid()
      modifies this`columns, this`countBuffer, this`isOpen, this`intact, stmts, m
      ensures Valid()
      ensures !old(isOpen) ==> !ok && unchanged(this) && unchanged(stmts) && unchanged(m)
      ensures old(isOpen) ==> isOpen == !ok && intact == ok && (m.Unbinds() ==> ok)
      ensures ok ==> AllFreed(old(Befores(stmts)), old(m.View()), m.View()) && AllEmpty(stmts)
      ensures old(isOpen) && !ok ==> Stopped(stmts, old(Befores(stmts)))
      ensures columns == if old(isOpen) && autoCreated then [] else old(columns)
      ensures old(isOpen) ==> countBuffer == null
      ensures old(isOpen) ==> m.bufs == old(m.bufs) - CountBuffers(old(countBuffer)) - (BuffersOf(old(columns)) - BuffersOf(columns) - kept)
      ensures Shrinks(old(m.View()), m.View())
    {
      hide Stopped, Befores, Shaped, HeldSince, OpenNow, AllFreed, AllEmpty, Handles, BuffersOf, GrownBy;
      ghost var w0 := m.View();
      GrowsNot(w0, {});
      if !isOpen { return false; }
      ShapedIsHeld();
      NoneDropped(m.bufs, columns, kept);
      if autoCreated {
        ReleaseColumns(kept, w0);
        NoBuffers();
      }
      ghost var w := m.View();
      ok := FreeAndMark(w0);
      GrowOn(w0, w, m.View(), {});
    }

    method FreeAndMark(ghost w0: World) returns (ok: bool)
      requires Shaped() && HeldSince(stmts, m, w0) && isOpen && haveTableInfo
      modifies this`countBuffer, this`isOpen, this`intact, stmts, m
      ensures Valid() && isOpen == !ok && intact == ok && (m.Unbinds() ==> ok)
      ensures ok ==> AllFreed(old(Befores(stmts)), w0, m.View()) && AllEmpty(stmts)
      ensures !ok ==> Stopped(stmts, old(Befores(stmts)))
      ensures countBuffer == null && m.bufs == old(m.bufs) - CountBuffers(old(countBuffer)) && Shrinks(old(m.View()), m.View())
    {
      hide Stopped, Befores, Shaped, HeldSince, OpenNow, AllFreed, AllEmpty, NothingBound, Handles, GrownBy;
      ok := Free(w0);
      if ok { isOpen := false; }
      intact := ok;
    }

    // ---- the setters, which refuse to work on an open table

    method SetAccessFlags(acs: FlagSet) returns (ok: bool)
      requires Valid()
      modifies this`accessFlags
      ensures Valid() && ok == !isOpen
      ensures accessFlags == if ok then acs else old(accessFlags)
    {
      hide Shaped, OpenNow, AllEmpty;
      ok := !isOpen;
      if ok { accessFlags := acs; }
    }

    method SetAccessFlag(ac: FlagSet) returns (ok: bool)
      requires Valid()
      modifies this`accessFlags
      ensures Valid() && ok == !isOpen
      ensures accessFlags == if ok then Set(old(accessFlags), ac) else old(accessFlags)
    {
      hide Shaped, OpenNow, AllEmpty;
      if isOpen { return false; }
      if Test(accessFlags, ac) { return true; }
      ok := SetAccessFlags(Set(accessFlags, ac));
    }

    method ClearAccessFlag(ac: FlagSet) returns (ok: bool)
      requires Valid()
      modifies this`accessFlags
      ensures Valid() && ok == !isOpen
      ensures accessFlags == if ok && Test(old(accessFlags), ac) then Clear(old(accessFlags), ac) else old(accessFlags)
    {
      hide Shaped, OpenNow, AllEmpty;
      if isOpen { return false; }
      if !Test(accessFlags, ac) { return true; }
      ok := SetAccessFlags(Clear(accessFlags, ac));
    }

    method SetColumnPrimaryKeyIndexes(indexes: set<nat>) returns (ok: bool)
      requires Valid()
      modifies this`primaryKeyColumnIndexes
      ensures Valid() && ok == !isOpen
      ensures primaryKeyColumnIndexes == if ok then indexes else old(primaryKeyColumnIndexes)
    {
      hide Shaped, OpenNow, AllEmpty;
      ok := !isOpen;
      if ok { primaryKeyColumnIndexes := indexes; }
    }

    method SetColumn(index: nat, b: ColumnBuffer) returns (ok: bool)
      requires Valid() && b in m.bufs
      modifies this`columns
      ensures Valid()
      ensures ok <==> !isOpen && !HasIndex(old(columns), index) && b.queryName != ""
      ensures ok ==> exists i: nat :: i <= |old(columns)| && columns == InsertedAt(old(columns), i, TableColumn(index, b))
      ensures ok ==> (forall t :: t in columns <==> t in old(columns) || t == TableColumn(index, b)) && Ascending(columns)
      ensures !ok ==> columns == old(columns)
    {
      hide Shape, OpenNow, AllEmpty, Ascending, BuffersOf, HasIndex;
      if isOpen { return false; }
      var found, j := FindIndex(columns, index);
      if found || b.queryName == "" { return false; }
      var r := InsertColumn(columns, TableColumn(index, b));
      columns := r;
      ok := true;
    }

    method SetColumnFlag(index: nat, flag: FlagSet) returns (ok: bool)
      requires Valid()
      modifies fl
      ensures Valid()
      ensures ok <==> !isOpen && HasIndex(columns, index)
      ensures ok ==> exists j :: 0 <= j < |columns| && columns[j].index == index &&
                       fl.of == FlagChanged(old(fl.of), columns[j].buffer, flag, true)
      ensures !ok ==> fl.of == old(fl.of)
    {
      ok := ChangeColumnFlag(index, flag, true);
    }

    method ClearColumnFlag(index: nat, flag: FlagSet) returns (ok: bool)
      requires Valid()
      modifies fl
      ensures Valid()
      ensures ok <==> !isOpen && HasIndex(columns, index)
      ensures ok ==> exists j :: 0 <= j < |columns| && columns[j].index == index &&
                       fl.of == FlagChanged(old(fl.of), columns[j].buffer, flag, false)
      ensures !ok ==> fl.of == old(fl.of)
    {
      ok := ChangeColumnFlag(index, flag, false);
    }

    method ChangeColumnFlag(index: nat, flag: FlagSet, set': bool) returns (ok: bool)
      requires Valid()
      modifies fl
      ensures Valid()
      ensures ok <==> !isOpen && HasIndex(columns, index)
      ensures ok ==> exists j :: 0 <= j < |columns| && columns[j].index == index &&
                       fl.of == FlagChanged(old(fl.of), columns[j].buffer, flag, set')
      ensures !ok ==> fl.of == old(fl.of)
    {
      hide Shape, OpenNow, AllEmpty, Ascending, BuffersOf, HasIndex, Set, Clear;
      if isOpen { return false; }
      var j;
      ok, j := FindIndex(columns, index);
      if ok {
        fl.of := FlagChanged(fl.of, columns[j].buffer, flag, set');
      }
    }

    method ClearColumns(kept: set<ColumnBuffer>) returns (ok: bool)
      requires Valid()
      modifies this`columns, m
      ensures Valid() && ok == !isOpen
      ensures ok ==> columns == [] && m.bufs == old(m.bufs) - (BuffersOf(old(columns)) - kept)
      ensures !ok ==> columns == old(columns) && m.View() == old(m.View())
      ensures Shrinks(old(m.View()), m.View()) && OwnHandles(stmts, m) == old(OwnHandles(stmts, m))
    {
      hide Shaped, OpenNow, AllEmpty, OwnHandles, GrownBy, BuffersOf;
      GrowsNot(m.View(), {});
      NoBuffers();
      ok := !isOpen;
      if ok { ReleaseNow(kept); }
    }

    /** Select: the text it executes. While the table is open, its field list is that of the columns bound
        to the select statement. */
    method Select(where: string, order: string) returns (ok: bool, text: string)
      requires Valid()
      ensures ok <==> isOpen && columns != [] && Test(accessFlags, AF_SELECT_WHERE)
      ensures ok ==> text == "SELECT " + Join(Names(Selected(Look(columns, fl.of))), ", ") + " FROM " + tableName
                             + (if where != "" then " WHERE " + where else "") + (if order != "" then " ORDER BY " + order else "")
      ensures Ordered(Look(columns, fl.of)) && ExactlyFlagged(Look(columns, fl.of), Selected(Look(columns, fl.of)), CF_SELECT)
      ensures Spelled(Selected(Look(columns, fl.of)))
      ensures ok && intact ==> SelectListMatches(FieldList(Look(columns, fl.of)), Look(columns, fl.of), Seen(stmts, m).bounds[SELECT].columns.bound)
    {
      hide Shape, FieldList, Look, SelectListMatches, Seen, Numbered, Buffers, Selected, Ordered, Ascending, BuffersOf, ExactlyFlagged, Spelled, Names,
        Join;
      SelectedMeans(Look(columns, fl.of));
      EachSpelled(Selected(Look(columns, fl.of)));
      FieldsAre(Look(columns, fl.of));
      LookOrdered(columns, fl.of);
      if !isOpen || columns == [] || !Test(accessFlags, AF_SELECT_WHERE) { return false, ""; }
      var fields := BuildSelectFields(Look(columns, fl.of));
      text := "SELECT " + fields + " FROM " + tableName;
      if where != "" { text := text + " WHERE " + where; }
      if order != "" { text := text + " ORDER BY " + order; }
      SelectColumnsMatch(Look(columns, fl.of));
      ok := true;
    }

    /** CreateAutoColumnBufferPtrs, which an open table does not refuse. As long as the new columns do not
        become the table's own, an open table stays as it was. Where they do, its statements keep the texts
        and bindings of the old columns, or lose the bindings with the buffers that go; so the select list
        agrees with what is bound only where ReplacementAgrees says so. */
    method CreateAutoColumnBufferPtrs(skipUnsupported: bool, setAsTableColumns: bool, queryPrimaryKeys: bool, cat: Catalog, kept: set<ColumnBuffer>)
        returns (ok: bool, made: seq<TableColumn>)
      requires Valid()
      modifies this`haveTableInfo, this`tableName, this`columns, this`autoCreated, this`intact, m, fl
      ensures Valid()
      ensures ok <==> cat.dbIsOpen && (old(haveTableInfo) || cat.found.Some?) && Creatable(cat, skipUnsupported)
                      && (queryPrimaryKeys ==> KeysNamed(cat, CreatedOf(cat.columns.value)))
      ensures ok ==> Ascending(made) && NewColumns(made, cat, queryPrimaryKeys)
      ensures columns == if ok && setAsTableColumns then made else old(columns)
      ensures autoCreated == (old(autoCreated) || (ok && setAsTableColumns))
      ensures old(intact) && !(ok && setAsTableColumns && isOpen) ==> intact
      ensures ok ==> BuffersOf(made) !! old(m.bufs)
      ensures m.bufs == Adopted(old(m.bufs), ok, BuffersOf(made), setAsTableColumns, BuffersOf(old(columns)), kept)
      ensures Shrinks(old(m.View()), m.View()) && OwnHandles(stmts, m) == old(OwnHandles(stmts, m))
      ensures !(ok && setAsTableColumns) ==> Seen(stmts, m) == old(Seen(stmts, m))
      ensures ok && setAsTableColumns && m.Unbinds() ==>
                Seen(stmts, m).bounds == BoundsLeft(old(Seen(stmts, m).bounds), BuffersOf(old(columns)) - kept)
      ensures ok && setAsTableColumns && m.Unbinds() && old(isOpen && intact) && Needed(accessFlags, SELECT) ==>
                (SelectListMatches(FieldList(Look(columns, fl.of)), Look(columns, fl.of), Seen(stmts, m).bounds[SELECT].columns.bound)
                 <==> ReplacementAgrees(old(Look(columns, fl.of)), CreatedOf(cat.columns.value), kept))
    {
      hide Shaped, OpenNow, AllEmpty, MadeFrom, Look, Seen, Ascending, BuffersOf, HeldSince, Kept, Creatable, SelectListMatches, NewColumns,
        BoundsLeft, ReplacementAgrees, FieldList, Needed, KeysNamed, OwnHandles, GrownBy;
      ghost var w := m.View();
      GrowsNot(w, {});
      if !cat.dbIsOpen { return false, []; }
      ok := Inform(cat);
      if !ok { return false, []; }
      ghost var of := fl.of;
      ok, made := CreateBeside(cat, skipUnsupported, queryPrimaryKeys);
      if ok && setAsTableColumns {
        ghost var before, bounds := columns, Seen(stmts, m).bounds;
        if isOpen && intact { OpenBoundsNow(); }
        ghost var w1 := m.View();
        Adopt(made, kept);
        GrowOn(w, w1, m.View(), {});
        if old(isOpen && intact) && Needed(accessFlags, SELECT) {
          ReplacedColumns(before, made, old(Look(columns, fl.of)), bounds, cat, queryPrimaryKeys, kept);
        }
      }
    }

    lemma OpenBoundsNow()
      requires Valid() && isOpen && intact
      ensures Seen(stmts, m).bounds == OpenBounds(accessFlags, Look(columns, fl.of), countBuffer)
    {
      hide Shaped, Look, OpenBounds, Seen, Ready, OpenTexts, Bindable;
    }

    lemma ReplacedColumns(before: seq<TableColumn>, made: seq<TableColumn>, cols: seq<Column>, bounds: seq<Both>, cat: Catalog, queryPrimaryKeys: bool,
        kept: set<ColumnBuffer>)
      requires bounds == OpenBounds(accessFlags, cols, countBuffer) && Needed(accessFlags, SELECT)
      requires NewColumns(made, cat, queryPrimaryKeys) && BuffersOf(before) !! BuffersOf(made)
      requires |cols| == |before| && forall i | 0 <= i < |before| :: cols[i].buffer == before[i].buffer
      ensures var now := Look(made, fl.of);
              SelectListMatches(FieldList(now), now, BoundsLeft(bounds, BuffersOf(before) - kept)[SELECT].columns.bound)
              <==> ReplacementAgrees(cols, CreatedOf(cat.columns.value), kept)
    {
      hide Look, MadeFrom, Needed, BuffersOf, OpenBounds, SelectListMatches, FieldList, BoundsLeft, ReplacementAgrees, NamedKeys, CreatedOf;
      var created := CreatedOf(cat.columns.value);
      ReplacedInOpen(before, made, cols, fl.of, accessFlags, countBuffer, bounds, created,
                     if queryPrimaryKeys then NamedKeys(created, cat.keys.value) else {}, kept);
    }

    /** New buffers for the catalog's columns, flagged after the access flags and, where asked for, as keys. */
    ghost predicate NewColumns(made: seq<TableColumn>, cat: Catalog, queryPrimaryKeys: bool)
      reads this`accessFlags, fl
    {
      && cat.columns.Some? && (queryPrimaryKeys ==> cat.keys.Some?)
      && var created := CreatedOf(cat.columns.value);
         MadeFrom(Look(made, fl.of), accessFlags, created, if queryPrimaryKeys then NamedKeys(created, cat.keys.value) else {})
    }

    method Inform(cat: Catalog) returns (ok: bool)
      requires Valid()
      modifies this`haveTableInfo, this`tableName
      ensures Valid() && ok == haveTableInfo
      ensures ok <==> old(haveTableInfo) || cat.found.Some?
    {
      hide Shaped, AllEmpty, Opened, Seen, Look;
      ok := ReadTableInfo(cat);
    }

    method CreateBeside(cat: Catalog, skipUnsupported: bool, queryPrimaryKeys: bool) returns (ok: bool, made: seq<TableColumn>)
      requires Valid() && haveTableInfo
      modifies m, fl
      ensures Valid() && Seen(stmts, m) == old(Seen(stmts, m)) && Look(columns, fl.of) == old(Look(columns, fl.of))
      ensures ok <==> Creatable(cat, skipUnsupported) && (queryPrimaryKeys ==> KeysNamed(cat, CreatedOf(cat.columns.value)))
      ensures ok ==> Ascending(made) && NewColumns(made, cat, queryPrimaryKeys)
      ensures if ok then BuffersOf(made) !! old(m.bufs) && m.bufs == old(m.bufs) + BuffersOf(made) else m.bufs == old(m.bufs)
      ensures ok ==> CountBuffers(countBuffer) !! BuffersOf(made) && BuffersOf(columns) !! BuffersOf(made)
      ensures Shrinks(old(m.View()), m.View()) && OwnHandles(stmts, m) == old(OwnHandles(stmts, m))
    {
      hide Shape, AllEmpty, Opened, MadeFrom, Look, Ascending, BuffersOf, HeldSince, Kept, Seen, AllCreatable, AllNamedIn, NamedKeys, OwnHandles, GrownBy,
        Handles, OwnOfHandles;
      ghost var f0, of, w0 := Seen(stmts, m), fl.of, m.View();
      ShapedIsHeld();
      SeenFrom(stmts, m, w0);
      HeldOwn(stmts, m, w0);
      ghost var start := StartOf(m, fl);
      ok, made := CreateColumns(stmts, m, fl, accessFlags, cat, skipUnsupported, queryPrimaryKeys, w0);
      SeenStays(stmts, m, w0, fl.of, start);
      LookStays(m, columns, of, fl.of, start);
      HeldOwn(stmts, m, w0);
      KeptShrinks(w0, m, fl.of, start);
    }

    /** m_columns = columnMap; m_autoCreatedColumns = true */
    method Adopt(made: seq<TableColumn>, kept: set<ColumnBuffer>)
      requires Valid() && Ascending(made) && BuffersOf(made) <= m.bufs
      requires CountBuffers(countBuffer) !! BuffersOf(made) && BuffersOf(columns) !! BuffersOf(made)
      modifies this`columns, this`autoCreated, this`intact, m
      ensures Valid() && columns == made && BuffersOf(made) <= m.bufs
      ensures intact == (old(intact) && !isOpen) && autoCreated
      ensures m.Unbinds() ==> Seen(stmts, m).bounds == BoundsLeft(old(Seen(stmts, m).bounds), BuffersOf(old(columns)) - kept)
      ensures m.bufs == old(m.bufs) - (BuffersOf(old(columns)) - kept)
      ensures Shrinks(old(m.View()), m.View()) && OwnHandles(stmts, m) == old(OwnHandles(stmts, m))
    {
      hide Shaped, OpenNow, AllEmpty, Ascending, BuffersOf, HeldSince, Seen, BoundsLeft, OwnHandles, GrownBy;
      ShapedIsHeld();
      var gone := BuffersOf(columns) - kept;
      Replace(made, gone);
      autoCreated := true;
      intact := intact && !isOpen;
    }

    method Replace(made: seq<TableColumn>, gone: set<ColumnBuffer>)
      requires Shaped() && Ascending(made) && BuffersOf(made) <= m.bufs && gone <= BuffersOf(columns)
      requires CountBuffers(countBuffer) !! BuffersOf(made) && BuffersOf(columns) !! BuffersOf(made)
      modifies this`columns, m
      ensures Shaped() && columns == made && BuffersOf(made) <= m.bufs && AllEmpty(stmts) == old(AllEmpty(stmts))
      ensures m.Unbinds() ==> Seen(stmts, m).bounds == BoundsLeft(old(Seen(stmts, m).bounds), gone)
      ensures m.bufs == old(m.bufs) - gone
      ensures Shrinks(old(m.View()), m.View()) && OwnHandles(stmts, m) == old(OwnHandles(stmts, m))
    {
      hide Shape, AllEmpty, Ascending, BuffersOf, HeldSince, AllLeft, BoundsLeft, Seen, OwnHandles, GrownBy, OwnOfHandles;
      ShapedIsHeld();
      ghost var w := m.View();
      SeenFrom(stmts, m, w);
      HeldOwn(stmts, m, w);
      LetGo(stmts, m, gone, w);
      HeldOwn(stmts, m, w);
      SeenFrom(stmts, m, m.View());
      if m.Unbinds() { AllLeftSeen(stmts, m, w, gone); }
      columns := made;
    }
  }

  /** Where an open table's columns are replaced by those created: nothing may be selected any more, and
      nothing may be bound any more. */
  ghost predicate ReplacementAgrees(cols: seq<Column>, created: seq<CatalogColumn>, kept: set<ColumnBuffer>) {
    created == [] && (Selected(cols) == [] || exists c :: c in Selected(cols) && c.buffer !in kept)
  }

  lemma ReplacedInOpen(before: seq<TableColumn>, made: seq<TableColumn>, cols: seq<Column>, of: map<ColumnBuffer, FlagSet>, access: FlagSet,
      countBuffer: ColumnBuffer?, bounds: seq<Both>, created: seq<CatalogColumn>, keys: set<nat>, kept: set<ColumnBuffer>)
    requires bounds == OpenBounds(access, cols, countBuffer) && Needed(access, SELECT)
    requires MadeFrom(Look(made, of), access, created, keys) && BuffersOf(before) !! BuffersOf(made)
    requires |cols| == |before| && forall i | 0 <= i < |before| :: cols[i].buffer == before[i].buffer
    ensures SelectListMatches(FieldList(Look(made, of)), Look(made, of), BoundsLeft(bounds, BuffersOf(before) - kept)[SELECT].columns.bound)
       <==> ReplacementAgrees(cols, created, kept)
  {
    var gone, now := BuffersOf(before) - kept, Look(made, of);
    MadeMarks(now, access, created, keys);
    FilterSome(now, IsSelected);
    LookBuffers(made, of, BuffersOf(made));
    SelectedBuffers(before, cols);
    hide Look, Filter, IsSelected, MadeFrom, BuffersOf, InOrder, SelectListMatches, FieldList;
    ReplacedColumnsMatchIff(cols, now, gone);
    assert BoundsLeft(bounds, gone)[SELECT].columns == InOrder(Selected(cols)).Without(gone);
    if created != [] { assert IsSelected(now[0]); }
  }

  lemma SelectedBuffers(before: seq<TableColumn>, cols: seq<Column>)
    requires |cols| == |before| && forall i | 0 <= i < |before| :: cols[i].buffer == before[i].buffer
    ensures forall c <- cols :: c.buffer in BuffersOf(before)
    ensures forall c <- Selected(cols) :: c.buffer in BuffersOf(before)
  {
    forall c <- cols ensures c.buffer in BuffersOf(before) {
      var i :| 0 <= i < |cols| && cols[i] == c;
    }
    FilterStays(cols, IsSelected, BuffersOf(before));
  }

  function BothLeft(b: Both, gone: set<ColumnBuffer>): Both {
    Both(b.columns.Without(gone), b.params.Without(gone))
  }

  /** What is left of the bindings of the five statements when these buffers are gone. */
  function BoundsLeft(bounds: seq<Both>, gone: set<ColumnBuffer>): (r: seq<Both>)
    ensures |r| == |bounds|
  {
    seq(|bounds|, k requires 0 <= k < |bounds| => BothLeft(bounds[k], gone))
  }

  lemma AllLeftSeen(stmts: seq<ExecutableStatement>, m: Memory, w: World, gone: set<ColumnBuffer>)
    requires |stmts| == STATEMENTS && AllLeft(stmts, m, w, gone)
    ensures BoundsIn(m.View(), Stmts(stmts)) == BoundsLeft(BoundsIn(w, Stmts(stmts)), gone)
  {
    hide BindingsIn;
    forall k | 0 <= k < STATEMENTS ensures BothIn(m.View(), stmts[k].stmt) == BothLeft(BothIn(w, stmts[k].stmt), gone) {
      if stmts[k].stmt == null {
        NothingToLeave(m.View(), gone);
        NothingToLeave(w, gone);
      } else {
        assert LeftBy(w, m.View(), stmts[k].stmt, gone);
      }
    }
    assert forall k | 0 <= k < STATEMENTS :: Stmts(stmts)[k] == stmts[k].stmt;
  }

  lemma NothingToLeave(w: World, gone: set<ColumnBuffer>)
    ensures BothIn(w, null) == Both(NONE, NONE) == BothLeft(Both(NONE, NONE), gone)
  {
  }

  /** The five statements read off a world. */
  lemma SeenFrom(stmts: seq<ExecutableStatement>, m: Memory, w: World)
    requires |stmts| == STATEMENTS && w == m.View()
    ensures Seen(stmts, m) == Five(Handles(stmts), Texts(stmts), BoundsIn(w, Stmts(stmts)))
  {
  }

  /** The driver's bindings to the five statements stay when no binding changes and the handles do not. */
  lemma SeenStays(stmts: seq<ExecutableStatement>, m: Memory, w0: World, of: map<ColumnBuffer, FlagSet>, start: Start)
    requires |stmts| == STATEMENTS && HeldSince(stmts, m, w0) && Kept(m, of, start) && start.bound == w0.driver.bound && start.entries == w0.heap.entries
    ensures Seen(stmts, m) == Five(Handles(stmts), Texts(stmts), BoundsIn(w0, Stmts(stmts)))
  {
    hide StillHeld, BothIn;
    forall k | 0 <= k < STATEMENTS ensures BothIn(m.View(), stmts[k].stmt) == BothIn(w0, stmts[k].stmt) {
      BothStay(w0, m.View(), stmts[k].stmt);
    }
  }

  lemma BothStay(w0: World, w: World, s: SqlStmtHandle?)
    requires w.driver.bound == w0.driver.bound && w.heap.entries == w0.heap.entries && (s != null ==> StillHeld(w0, w, s))
    ensures BothIn(w, s) == BothIn(w0, s)
  {
  }

  lemma LookStays(m: Memory, columns: seq<TableColumn>, of: map<ColumnBuffer, FlagSet>, of': map<ColumnBuffer, FlagSet>, start: Start)
    requires Kept(m, of', start) && start.of == of && BuffersOf(columns) <= start.bufs
    ensures Look(columns, of') == Look(columns, of)
  {
    assert forall i | 0 <= i < |columns| :: columns[i].buffer in BuffersOf(columns);
    hide Look, BuffersOf;
    assert forall i | 0 <= i < |columns| :: Look(columns, of')[i] == Look(columns, of)[i];
  }
}
