// Runs: any calls of Table's member functions in any order, and what isOpen says after each of them.
module TableRuns {
  import opened Options
  import opened Flags
  import opened BindingSpec
  import opened Binding
  import opened Statement
  import opened SqlBuilder
  import opened TableColumns
  import opened TableStatements
  import opened TableBinding
  import opened TableBuffers
  import opened TableAuto
  import opened TableOpen
  import opened TablePrepare
  import opened TableMarkers
  import opened Table

  /** A call of a member function of Table, with what the database answers to it and the buffers that its
      caller still holds. */
  datatype Call =
    | Open(flags: FlagSet, cat: Catalog, kept: set<ColumnBuffer>)
    | Close(kept: set<ColumnBuffer>)
    | SetAccessFlags(acs: FlagSet)
    | SetAccessFlag(ac: FlagSet)
    | ClearAccessFlag(ac: FlagSet)
    | SetColumn(index: nat, b: ColumnBuffer)
    | ClearColumns(kept: set<ColumnBuffer>)
    | SetColumnFlag(index: nat, flag: FlagSet)
    | ClearColumnFlag(index: nat, flag: FlagSet)
    | SetColumnPrimaryKeyIndexes(indexes: set<nat>)
    | CreateAutoColumnBufferPtrs(skip: bool, setAsTableColumns: bool, queryPrimaryKeys: bool, cat: Catalog, kept: set<ColumnBuffer>)

  ghost function CaseOf(s: Snapshot, flags: FlagSet, cat: Catalog): OpenCase {
    OpenCase(s.had, s.columns, EffectiveFlags(flags, cat), s.access, s.indexes, cat)
  }

  /** What one call makes of a table. */
  ghost predicate Done(m: Memory, before: Snapshot, call: Call, after: Snapshot) {
    match call
    case Open(flags, cat, kept) =>
      if before.isOpen || !cat.dbIsOpen then after == before else OpenDone(m, before, CaseOf(before, flags, cat), kept, after)
    case Close(kept) =>
      if !before.isOpen then after == before else CloseDone(m, before, kept, after)
    case SetAccessFlags(acs) => after == if before.isOpen then before else before.(access := acs)
    case SetAccessFlag(ac) => after == if before.isOpen then before else before.(access := Set(before.access, ac))
    case ClearAccessFlag(ac) =>
      after == if before.isOpen || !Test(before.access, ac) then before else before.(access := Clear(before.access, ac))
    case SetColumn(index, b) => ColumnDone(before, index, b, after)
    case ClearColumns(kept) =>
      if before.isOpen then after == before else Emptied(before, kept, after)
    case SetColumnFlag(index, flag) => FlagDone(before, index, flag, true, after)
    case ClearColumnFlag(index, flag) => FlagDone(before, index, flag, false, after)
    case SetColumnPrimaryKeyIndexes(indexes) => after == if before.isOpen then before else before.(indexes := indexes)
    case CreateAutoColumnBufferPtrs(skip, setAsTableColumns, queryPrimaryKeys, cat, kept) =>
      CreateDone(m, before, skip, setAsTableColumns, queryPrimaryKeys, cat, kept, after)
  }

  /** None of the five is initialised. */
  ghost predicate Idle(five: Five)
    requires five.Sized()
  {
    forall k | 0 <= k < STATEMENTS :: five.handles[k] == (false, null)
  }

  ghost predicate OpenDone(m: Memory, before: Snapshot, c: OpenCase, kept: set<ColumnBuffer>, after: Snapshot) {
    && after.five.Sized() && after.access == before.access && after.indexes == before.indexes
    && (if before.had then after.had && after.name == before.name else after.had ==> c.cat.found == Some(after.name))
    && Aftermath(c, before.of, before.auto, before.world.heap.bufs, kept, after.isOpen, Idle(after.five), after.columns, after.of, after.auto,
                 after.world.heap.bufs - CountBuffers(after.countBuffer))
    && (after.isOpen || Idle(after.five) ==> GrownBy(before.world, after.world, after.own))
    && (if after.isOpen then
          WillOpen(c, before.of, before.auto) && (before.intact ==> after.intact) && after.had
        else
          && after.countBuffer == null
          && !(m.reliable && before.intact && WillOpen(c, before.of, before.auto))
          && (m.Unbinds() || (before.intact && !WillPrepare(c, before.of, before.auto)) ==> after.intact && Idle(after.five)))
  }

  ghost predicate CloseDone(m: Memory, before: Snapshot, kept: set<ColumnBuffer>, after: Snapshot) {
    && (m.Unbinds() ==> !after.isOpen) && after.intact == !after.isOpen
    && after.columns == (if before.auto then [] else before.columns)
    && after.countBuffer == null
    && after.world.heap.bufs == before.world.heap.bufs - CountBuffers(before.countBuffer) - (BuffersOf(before.columns) - BuffersOf(after.columns) - kept)
    && Shrinks(before.world, after.world)
    && (!after.isOpen ==> forall h <- before.own :: FreedOnce(before.world, after.world, h))
    && after.had == before.had && after.name == before.name && after.auto == before.auto && after.access == before.access
    && after.indexes == before.indexes && after.of == before.of
  }

  /** The columns go, and with them at most bindings and buffers. */
  ghost predicate Emptied(before: Snapshot, kept: set<ColumnBuffer>, after: Snapshot) {
    && after == before.(columns := [], world := after.world, five := after.five)
    && after.five.handles == before.five.handles && after.five.texts == before.five.texts
    && after.world.heap.bufs == before.world.heap.bufs - (BuffersOf(before.columns) - kept) && Shrinks(before.world, after.world)
  }

  ghost predicate ColumnDone(before: Snapshot, index: nat, b: ColumnBuffer, after: Snapshot) {
    if before.isOpen || b !in before.world.heap.bufs || HasIndex(before.columns, index) || b.queryName == "" then after == before
    else exists i: nat :: i <= |before.columns| && after == before.(columns := InsertedAt(before.columns, i, TableColumn(index, b)))
  }

  ghost predicate FlagDone(before: Snapshot, index: nat, flag: FlagSet, set': bool, after: Snapshot) {
    if before.isOpen || !HasIndex(before.columns, index) then after == before
    else exists j :: 0 <= j < |before.columns| && before.columns[j].index == index
                     && after == before.(of := FlagChanged(before.of, before.columns[j].buffer, flag, set'))
  }

  /** The calls that create columns. */
  ghost predicate Creates(before: Snapshot, skip: bool, queryPrimaryKeys: bool, cat: Catalog) {
    && cat.dbIsOpen && (before.had || cat.found.Some?) && Creatable(cat, skip)
    && (queryPrimaryKeys ==> KeysNamed(cat, CreatedOf(cat.columns.value)))
  }

  ghost predicate CreateDone(m: Memory, before: Snapshot, skip: bool, setAsTableColumns: bool, queryPrimaryKeys: bool, cat: Catalog,
      kept: set<ColumnBuffer>, after: Snapshot)
  {
    && after.isOpen == before.isOpen && after.access == before.access && after.indexes == before.indexes
    && after.five.handles == before.five.handles && after.five.texts == before.five.texts
    && after.own == before.own && Shrinks(before.world, after.world)
    && if setAsTableColumns && Creates(before, skip, queryPrimaryKeys, cat) then
         && after.auto && (before.intact && !before.isOpen ==> after.intact)
         && MadeFrom(Look(after.columns, after.of), before.access, CreatedOf(cat.columns.value),
                     if queryPrimaryKeys then NamedKeys(CreatedOf(cat.columns.value), cat.keys.value) else {})
         && (m.Unbinds() ==> after.five.bounds == BoundsLeft(before.five.bounds, BuffersOf(before.columns) - kept))
       else
         && after.columns == before.columns && after.auto == before.auto && (before.intact ==> after.intact)
         && after.five == before.five
  }

  /** What isOpen says holds of the five statements. */
  ghost predicate Truthful(s: Snapshot)
    requires s.five.Sized()
  {
    if s.isOpen then Opened(s.five, s.access, s.name, Look(s.columns, s.of), s.countBuffer)
    else s.five.bounds == NOTHING && Idle(s.five) && s.own == {}
  }

  /** A run: every state follows from the one before by the call. */
  ghost predicate Trace(m: Memory, trace: seq<Snapshot>, calls: seq<Call>) {
    && |trace| == |calls| + 1
    && (forall i | 0 <= i < |trace| :: trace[i].five.Sized() && Inv(trace[i].world) && (trace[i].intact ==> Truthful(trace[i])))
    && (forall i | 0 <= i < |calls| :: Done(m, trace[i], calls[i], trace[i + 1]))
  }

  /** With a driver whose SQLFreeStmt may fail: an Open that fails when buffers may have been bound already,
      and a Close that fails. Some of the five may then keep their handles. */
  ghost predicate Stuck(m: Memory, before: Snapshot, call: Call, after: Snapshot) {
    match call
    case Open(flags, cat, _) =>
      !m.Unbinds() && !before.isOpen && cat.dbIsOpen && !after.isOpen && WillPrepare(CaseOf(before, flags, cat), before.of, before.auto)
    case Close(_) => !m.Unbinds() && before.isOpen && after.isOpen
    case _ => false
  }

  /** The calls after which isOpen may say too much: those, and with any driver replacing the columns of an
      open table. */
  ghost predicate Disturbs(m: Memory, before: Snapshot, call: Call, after: Snapshot) {
    || Stuck(m, before, call, after)
    || match call
       case CreateAutoColumnBufferPtrs(skip, setAsTableColumns, queryPrimaryKeys, cat, _) =>
         before.isOpen && setAsTableColumns && Creates(before, skip, queryPrimaryKeys, cat)
       case _ => false
  }

  lemma StepStaysIntact(m: Memory, before: Snapshot, call: Call, after: Snapshot)
    requires Done(m, before, call, after) && before.intact && !Disturbs(m, before, call, after)
    ensures after.intact
  {
    hide WillOpen, WillPrepare, Aftermath, Creates, MadeFrom, BoundsLeft, HasIndex, CaseOf, GrownBy, FreedOnce;
  }

  /** In a run that starts from a table of which isOpen says what holds, and none of whose calls disturbs it,
      isOpen says what holds after every call: a closed table has all five statements uninitialised with
      nothing bound; an open one has exactly the statements, bindings and prepared texts that its access
      flags call for, and the k-th name in the field list that Select would build is that of the column
      bound as result column k. */
  lemma {:induction false} RunStaysTruthful(m: Memory, trace: seq<Snapshot>, calls: seq<Call>, i: nat)
    requires Trace(m, trace, calls) && trace[0].intact && i <= |calls|
    requires Undisturbed(m, trace, calls, i)
    ensures trace[i].intact && Truthful(trace[i])
    ensures var s := trace[i];
            var cols := Look(s.columns, s.of);
            s.isOpen ==>
              && AsAskedFor(s.five, s.access, cols, s.countBuffer) && Prepared(s.five.texts, s.access, s.name, cols)
              && (Test(s.access, AF_SELECT_WHERE) || Test(s.access, AF_SELECT_PK) ==>
                    SelectListMatches(FieldList(cols), cols, s.five.bounds[SELECT].columns.bound))
    decreases i
  {
    hide Done, Disturbs, SelectListMatches, FieldList, Look, Needed, Ready, OpenTexts, Bindable, AsAskedFor, Prepared, Test;
    if i > 0 {
      RunStaysTruthful(m, trace, calls, i - 1);
      StepStaysIntact(m, trace[i - 1], calls[i - 1], trace[i]);
    }
    var s := trace[i];
    if s.isOpen {
      OpenTableMatches(s.five, s.access, s.name, Look(s.columns, s.of), s.countBuffer);
    }
  }

  /** Any run gives back what it takes, as long as SQLFreeStmt does not fail: beside what there was at the
      start, no native handle is allocated but those the five hold, and nothing is bound to any other. Of all
      the handles a table has ever had, none is left when it is closed, by Close or by an Open that failed. */
  lemma {:induction false} RunLeaksNothing(m: Memory, trace: seq<Snapshot>, calls: seq<Call>, i: nat)
    requires Trace(m, trace, calls) && (trace[0].isOpen || trace[0].intact) && i <= |calls|
    requires NeverStuck(m, trace, calls, i)
    ensures GrownBy(trace[0].world, trace[i].world, trace[i].own) && (trace[i].isOpen || trace[i].intact)
    ensures !trace[i].isOpen ==> Shrinks(trace[0].world, trace[i].world)
    decreases i
  {
    hide Done, Stuck, GrownBy, Inv, Opened, Idle;
    if i > 0 {
      RunLeaksNothing(m, trace, calls, i - 1);
      StepLeaksNothing(m, trace[0].world, trace[i - 1], calls[i - 1], trace[i]);
    } else {
      GrowsNot(trace[0].world, trace[0].own);
    }
  }

  ghost predicate NeverStuck(m: Memory, trace: seq<Snapshot>, calls: seq<Call>, n: nat)
    requires n <= |calls| < |trace|
  {
    forall j | 0 <= j < n :: !Stuck(m, trace[j], calls[j], trace[j + 1])
  }

  lemma StepLeaksNothing(m: Memory, start: World, before: Snapshot, call: Call, after: Snapshot)
    requires Done(m, before, call, after) && before.five.Sized() && (before.isOpen || before.intact) && (before.intact ==> Truthful(before))
    requires !Stuck(m, before, call, after) && Inv(after.world) && GrownBy(start, before.world, before.own)
    ensures GrownBy(start, after.world, after.own) && (after.isOpen || after.intact)
  {
    hide WillOpen, WillPrepare, Aftermath, Creates, MadeFrom, BoundsLeft, HasIndex, CaseOf, GrownBy, FreedOnce, Inv, Opened, Idle;
    match call {
      case Open(_, _, _) =>
        if after != before { GrowMore(start, before.world, after.world, before.own, after.own); }
      case Close(_) =>
        if after != before {
          ClosedGivesBack(start, before.world, after.world, before.own);
          ShrunkIsGrown(start, after.world, after.own);
        }
      case _ =>
        if after != before && after.world != before.world {
          ShrunkIsGrown(before.world, after.world, before.own);
          GrowOn(start, before.world, after.world, before.own);
        }
    }
  }

  lemma GrowMore(w: World, w1: World, w2: World, own: set<nat>, more: set<nat>)
    requires GrownBy(w, w1, own) && GrownBy(w1, w2, more) && own <= more
    ensures GrownBy(w, w2, more)
  {
  }

  lemma ClosedGivesBack(start: World, w1: World, w2: World, own: set<nat>)
    requires GrownBy(start, w1, own) && Shrinks(w1, w2) && Inv(w2)
    requires forall h <- own :: FreedOnce(w1, w2, h)
    ensures Shrinks(start, w2)
  {
    hide Inv, GrownBy;
    GivenBack(start, w1, w2, own);
  }

  /** None of the calls before state n disturbs the table. */
  ghost predicate Undisturbed(m: Memory, trace: seq<Snapshot>, calls: seq<Call>, n: nat)
    requires n <= |calls| < |trace|
  {
    forall j | 0 <= j < n :: !Disturbs(m, trace[j], calls[j], trace[j + 1])
  }

  /** Any calls in any order make a run, from the table as it was to the table as it is. From an intact table
      isOpen says what holds after every call that no disturbing one precedes. */
  method Run(t: Table, calls: seq<Call>) returns (ghost trace: seq<Snapshot>)
    requires t.Valid()
    modifies t, t.stmts, t.m, t.fl
    ensures t.Valid() && Trace(t.m, trace, calls)
    ensures trace[0] == old(t.Now()) && trace[|calls|] == t.Now()
    ensures old(t.intact) ==> forall n: nat | n <= |calls| && Undisturbed(t.m, trace, calls, n) :: Truthful(trace[n])
    ensures old(t.isOpen || t.intact) ==> forall n: nat | n <= |calls| && NeverStuck(t.m, trace, calls, n) && !trace[n].isOpen ::
              Shrinks(trace[0].world, trace[n].world)
  {
    hide *;
    ValidIsTruthful(t);
    trace := [t.Now()];
    TraceStarts(t.m, t.Now(), calls);
    for i := 0 to |calls|
      invariant t.Valid() && Trace(t.m, trace, calls[..i])
      invariant |trace| == i + 1 && trace[0] == old(t.Now()) && trace[i] == t.Now()
    {
      Perform(t, calls[i]);
      ValidIsTruthful(t);
      TraceNext(t.m, trace, calls, i, t.Now());
      trace := trace + [t.Now()];
    }
    assert calls[..|calls|] == calls;
    AllTruthful(t.m, trace, calls);
  }

  lemma AllTruthful(m: Memory, trace: seq<Snapshot>, calls: seq<Call>)
    requires Trace(m, trace, calls)
    ensures |trace| == |calls| + 1 && forall n: nat | n <= |calls| :: trace[n].five.Sized()
    ensures trace[0].intact ==> forall n: nat | n <= |calls| && Undisturbed(m, trace, calls, n) :: Truthful(trace[n])
    ensures trace[0].isOpen || trace[0].intact ==> forall n: nat | n <= |calls| && NeverStuck(m, trace, calls, n) && !trace[n].isOpen ::
              Shrinks(trace[0].world, trace[n].world)
  {
    hide Truthful, Undisturbed, NeverStuck, Done, Inv, GrownBy;
    if trace[0].intact {
      forall n: nat | n <= |calls| && Undisturbed(m, trace, calls, n) ensures Truthful(trace[n]) {
        RunStaysTruthful(m, trace, calls, n);
      }
    }
    if trace[0].isOpen || trace[0].intact {
      forall n: nat | n <= |calls| && NeverStuck(m, trace, calls, n) && !trace[n].isOpen ensures Shrinks(trace[0].world, trace[n].world) {
        RunLeaksNothing(m, trace, calls, n);
      }
    }
  }

  lemma TraceStarts(m: Memory, s: Snapshot, calls: seq<Call>)
    requires s.five.Sized() && Inv(s.world) && (s.intact ==> Truthful(s))
    ensures Trace(m, [s], calls[..0])
  {
    hide Truthful, Inv;
  }

  lemma TraceNext(m: Memory, trace: seq<Snapshot>, calls: seq<Call>, i: nat, after: Snapshot)
    requires i < |calls| && Trace(m, trace, calls[..i]) && Done(m, trace[i], calls[i], after)
    requires after.five.Sized() && Inv(after.world) && (after.intact ==> Truthful(after))
    ensures Trace(m, trace + [after], calls[..i + 1]) && |trace| == i + 1
  {
    hide Done, Truthful, Inv;
    var both := trace + [after];
    forall j | 0 <= j < i + 1 ensures Done(m, both[j], calls[..i + 1][j], both[j + 1]) {
      if j < i { assert calls[..i][j] == calls[j]; }
    }
  }

  lemma ValidIsTruthful(t: Table)
    requires t.Valid()
    ensures t.Now().intact == t.intact && t.Now().isOpen == t.isOpen && Inv(t.Now().world) && (t.intact ==> Truthful(t.Now()))
  {
    t.ShapedIsSound();
    hide Table.Shaped, Opened, Look, Inv, OwnHandles;
    if t.intact && !t.isOpen {
      EmptySeen(t.stmts, t.m);
      EmptyOwnsNothing(t.stmts, t.m);
    }
  }

  lemma EmptySeen(stmts: seq<ExecutableStatement>, m: Memory)
    requires |stmts| == STATEMENTS && AllEmpty(stmts)
    ensures Seen(stmts, m).bounds == NOTHING && Idle(Seen(stmts, m))
  {
    hide BindingsIn;
    forall k | 0 <= k < STATEMENTS ensures stmts[k].stmt == null && !stmts[k].hasDb { assert stmts[k].Empty(); }
    NothingToLeave(m.View(), {});
  }

  /** One call. */
  method Perform(t: Table, call: Call)
    requires t.Valid()
    modifies t, t.stmts, t.m, t.fl
    ensures t.Valid() && Done(t.m, old(t.Now()), call, t.Now())
  {
    hide *;
    match call {
      case Open(_, _, _) => PerformOpen(t, call);
      case Close(_) => PerformClose(t, call);
      case SetColumn(_, _) => PerformSetColumn(t, call);
      case ClearColumns(_) => PerformClearColumns(t, call);
      case SetColumnFlag(_, _) => PerformFlag(t, call);
      case ClearColumnFlag(_, _) => PerformFlag(t, call);
      case CreateAutoColumnBufferPtrs(_, _, _, _, _) => PerformCreate(t, call);
      case _ => PerformSetter(t, call);
    }
  }

  method PerformOpen(t: Table, call: Call)
    requires t.Valid() && call.Open?
    modifies t, t.stmts, t.m, t.fl
    ensures t.Valid() && Done(t.m, old(t.Now()), call, t.Now())
  {
    hide Table.Valid, WillOpen, WillPrepare, Aftermath, EffectiveFlags, Seen, Idle, AllEmpty, OwnHandles, GrownBy;
    var ok := t.Open(call.flags, call.cat, call.kept);
    IdleIsEmpty(t);
  }

  lemma IdleIsEmpty(t: Table)
    requires t.Valid()
    ensures Idle(t.Now().five) <==> AllEmpty(t.stmts)
    ensures !t.isOpen ==> t.countBuffer == null
  {
    EmptyIsIdle(t.stmts, t.m);
    hide Shape, Opened, Look, Ascending, BuffersOf, Idle, AllEmpty;
  }

  lemma EmptyIsIdle(stmts: seq<ExecutableStatement>, m: Memory)
    requires Shape(stmts, m)
    ensures Idle(Seen(stmts, m)) <==> AllEmpty(stmts)
  {
    hide Inv, Held, Bounds, Texts;
    var handles := Handles(stmts);
    forall k | 0 <= k < STATEMENTS ensures handles[k] == (false, null) <==> stmts[k].Empty() {
      assert stmts[k].Valid(m) && handles[k] == (stmts[k].hasDb, stmts[k].stmt);
    }
    hide Shape, Handles;
  }

  lemma OwnFreed(before: seq<Fields>, own: set<nat>, w: World, w': World)
    requires HandlesBefore(own, before, w) && AllFreed(before, w, w')
    ensures forall h <- own :: FreedOnce(w, w', h)
  {
    hide FreedOnce;
  }

  method PerformClose(t: Table, call: Call)
    requires t.Valid() && call.Close?
    modifies t, t.stmts, t.m
    ensures t.Valid() && Done(t.m, old(t.Now()), call, t.Now())
  {
    hide Table.Valid, Seen, AllFreed, AllEmpty, Stopped, Handles, OwnHandles, HandlesBefore, GrownBy, FreedOnce, Befores;
    ghost var before, own, w := Befores(t.stmts), OwnHandles(t.stmts, t.m), t.m.View();
    OwnOf(t.stmts, t.m);
    var ok := t.Close(call.kept);
    if ok { OwnFreed(before, own, w, t.m.View()); }
  }

  method PerformSetColumn(t: Table, call: Call)
    requires t.Valid() && call.SetColumn?
    modifies t
    ensures t.Valid() && Done(t.m, old(t.Now()), call, t.Now())
  {
    hide Table.Valid, Seen, OwnHandles, HasIndex, InsertedAt, OpenDone, CloseDone, Emptied, FlagDone, CreateDone;
    ghost var before, c := t.Now(), TableColumn(call.index, call.b);
    if call.b in t.m.bufs {
      var ok := t.SetColumn(call.index, call.b);
      if ok {
        ghost var i: nat :| i <= |before.columns| && t.columns == InsertedAt(before.columns, i, c);
        assert t.Now() == before.(columns := InsertedAt(before.columns, i, c));
      } else {
        assert t.Now() == before;
      }
    }
    assert ColumnDone(before, call.index, call.b, t.Now());
  }

  method PerformClearColumns(t: Table, call: Call)
    requires t.Valid() && call.ClearColumns?
    modifies t, t.m
    ensures t.Valid() && Done(t.m, old(t.Now()), call, t.Now())
  {
    hide Table.Valid, BothIn, OwnHandles, GrownBy, OpenDone, CloseDone, ColumnDone, FlagDone, CreateDone, BuffersOf;
    ghost var w := t.m.View();
    SeenFrom(t.stmts, t.m, w);
    var ok := t.ClearColumns(call.kept);
    SeenFrom(t.stmts, t.m, t.m.View());
  }

  method PerformSetter(t: Table, call: Call)
    requires t.Valid() && (call.SetAccessFlags? || call.SetAccessFlag? || call.ClearAccessFlag? || call.SetColumnPrimaryKeyIndexes?)
    modifies t
    ensures t.Valid() && Done(t.m, old(t.Now()), call, t.Now())
  {
    hide Table.Valid, Seen, OwnHandles, Set, Clear, Test, OpenDone, CloseDone, Emptied, ColumnDone, FlagDone, CreateDone;
    match call {
      case SetAccessFlags(acs) =>
        var ok := t.SetAccessFlags(acs);
      case SetAccessFlag(ac) =>
        var ok := t.SetAccessFlag(ac);
      case ClearAccessFlag(ac) =>
        var ok := t.ClearAccessFlag(ac);
      case SetColumnPrimaryKeyIndexes(indexes) =>
        var ok := t.SetColumnPrimaryKeyIndexes(indexes);
    }
  }

  method PerformFlag(t: Table, call: Call)
    requires t.Valid() && (call.SetColumnFlag? || call.ClearColumnFlag?)
    modifies t.fl
    ensures t.Valid() && Done(t.m, old(t.Now()), call, t.Now())
  {
    hide Table.Valid, Seen, OwnHandles, HasIndex, FlagChanged, OpenDone, CloseDone, Emptied, ColumnDone, CreateDone;
    var ok;
    if call.SetColumnFlag? {
      ok := t.SetColumnFlag(call.index, call.flag);
    } else {
      ok := t.ClearColumnFlag(call.index, call.flag);
    }
  }

  method PerformCreate(t: Table, call: Call)
    requires t.Valid() && call.CreateAutoColumnBufferPtrs?
    modifies t, t.m, t.fl
    ensures t.Valid() && Done(t.m, old(t.Now()), call, t.Now())
  {
    hide Table.Valid, MadeFrom, Look, BuffersOf, BoundsLeft, Creatable, KeysNamed, NamedKeys, CreatedOf, SelectListMatches, ReplacementAgrees, Needed,
      Ascending, Handles, Texts, Bounds, OwnHandles, GrownBy, OpenDone, CloseDone, Emptied, ColumnDone, FlagDone;
    var ok, made := t.CreateAutoColumnBufferPtrs(call.skip, call.setAsTableColumns, call.queryPrimaryKeys, call.cat, call.kept);
  }

  // ---- a table whose columns are replaced while it is open

  const ONE_COLUMN: seq<CatalogColumn> := [CatalogColumn("id", 4, false, Created)]

  /** A database with one table, which has one column. */
  const ONE_TABLE: Catalog := Catalog(true, false, Some("t"), true, Some(ONE_COLUMN), None, {})

  /** A table that selects from it opens, and its columns are replaced while it is open; the driver refuses
      nothing. Whether the caller keeps the old buffers or not, Select would from then on execute a text
      whose only field is not what is bound as the first result column. */
  method ReplaceColumnsOfOpenTable(keep: bool) returns (t: Table)
    ensures fresh(t) && t.Valid() && t.isOpen && t.m.reliable && t.accessFlags == AF_SELECT_WHERE
    ensures !SelectListMatches(FieldList(Look(t.columns, t.fl.of)), Look(t.columns, t.fl.of), Seen(t.stmts, t.m).bounds[SELECT].columns.bound)
  {
    hide Table.Valid, Table.NewColumns, WillOpen, WillPrepare, Outcome, SelectListMatches, Look, Seen, FieldList, Creatable, ReplacementAgrees,
      BoundsLeft, Needed, Inv, Ascending, BuffersOf, CreatedOf, AllEmpty, Aftermath, OwnHandles, GrownBy, Adopted,
      AsAskedFor, Prepared, FlagsIn, Test;
    NothingIsSound();
    var m := new Memory(true, true);
    var fl := new FlagMemory();
    t := new Table(m, fl, AF_SELECT_WHERE);
    OneColumnOpens(fl.of);
    var ok := t.Open(CF_NONE, ONE_TABLE, {});
    var kept := if keep then BuffersOf(t.columns) else {};
    var made;
    NeverAgrees(Look(t.columns, fl.of), kept);
    ok, made := t.CreateAutoColumnBufferPtrs(false, true, false, ONE_TABLE, kept);
  }

  lemma NothingIsSound()
    ensures Inv(EMPTY)
  {
  }

  lemma OneColumnOpens(of: map<ColumnBuffer, FlagSet>)
    ensures WillOpen(OpenCase(false, [], CF_NONE, AF_SELECT_WHERE, {}, ONE_TABLE), of, false)
    ensures Creatable(ONE_TABLE, false) && Needed(AF_SELECT_WHERE, SELECT)
  {
    assert forall i | 0 <= i < |ONE_COLUMN| :: CanCreate(ONE_COLUMN[i], false);
  }

  lemma NeverAgrees(cols: seq<Column>, kept: set<ColumnBuffer>)
    ensures !ReplacementAgrees(cols, CreatedOf(ONE_COLUMN), kept)
  {
    assert ONE_COLUMN[..0] == [];
  }
}
