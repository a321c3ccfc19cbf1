// The middle part of Table::Open, between allocating the statements and binding: finding out about the
// columns and the primary key, and checking them.
module TablePrepare {
  import opened Options
  import opened Flags
  import opened BindingSpec
  import opened Binding
  import opened Statement
  import opened SqlBuilder
  import opened TableColumns
  import opened TableStatements
  import opened TableBinding
  import opened TableBuffers
  import opened TableAuto
  import opened TableOpen

  /** Nothing is bound to the statements that the access flags call for. */
  ghost predicate Bare(w: World, handles: seq<(bool, SqlStmtHandle?)>, access: FlagSet)
    requires |handles| == STATEMENTS
  {
    forall k, kind | 0 <= k < STATEMENTS && Needed(access, k) && handles[k].1 != null :: IsBare(w, KeyOf(w.heap, handles[k].1, kind))
  }

  ghost predicate IsBare(w: World, key: Key) {
    key !in w.driver.bound && forall x <- w.heap.entries :: x.key != key
  }

  /** After AllocateStatements. */
  lemma AllocatedIsBare(stmts: seq<ExecutableStatement>, m: Memory, access: FlagSet, before: seq<Fields>, alive: set<nat>)
    requires Progress(stmts, m, access, ALL_FIVE, before, alive)
    requires (forall x <- m.bound :: x.handle in alive) && forall x <- m.entries :: x.key.handle in alive
    ensures Bare(m.View(), Handles(stmts), access)
    ensures (forall k | 0 <= k < STATEMENTS :: !before[k].hasDb && before[k].stmt == null) ==> Ready(Handles(stmts), access)
  {
    hide Inv, Held, Needed, Shape;
    var handles := Handles(stmts);
    forall k | 0 <= k < STATEMENTS
      ensures Needed(access, k) ==> stmts[k].hasDb && stmts[k].stmt != null && HandleOf(m.View().heap, stmts[k].stmt) !in alive
      ensures !Needed(access, k) ==> stmts[k].Now() == before[k]
    {
      assert k in ALL_FIVE;
      if Needed(access, k) { assert Readied(stmts[k], m, alive); }
    }
    assert forall k | 0 <= k < STATEMENTS :: handles[k] == (stmts[k].hasDb, stmts[k].stmt);
  }

  lemma StaysBare(stmts: seq<ExecutableStatement>, m: Memory, w0: World, access: FlagSet)
    requires |stmts| == STATEMENTS && HeldSince(stmts, m, w0) && Shrinks(w0, m.View())
    requires Bare(w0, Handles(stmts), access)
    ensures NeededBlank(Seen(stmts, m), access)
    ensures Ready(Handles(stmts), access) ==> Bounds(stmts, m) == NOTHING
  {
    hide Needed, StillHeld, BothIn, IsBare, GrownBy;
    var handles := Handles(stmts);
    assert forall k | 0 <= k < STATEMENTS :: handles[k] == (stmts[k].hasDb, stmts[k].stmt);
    forall k | 0 <= k < STATEMENTS && (Needed(access, k) || stmts[k].stmt == null)
      ensures BothIn(m.View(), stmts[k].stmt) == Both(NONE, NONE)
    {
      if stmts[k].stmt != null {
        assert handles[k].1 == stmts[k].stmt;
        assert forall kind :: IsBare(w0, KeyOf(w0.heap, handles[k].1, kind));
      }
      BareOne(w0, m.View(), stmts[k].stmt);
    }
    assert forall k | 0 <= k < STATEMENTS :: Bounds(stmts, m)[k] == BothIn(m.View(), stmts[k].stmt);
  }

  lemma BareOne(w0: World, w: World, s: SqlStmtHandle?)
    requires Shrinks(w0, w)
    requires s != null ==> StillHeld(w0, w, s) && forall kind :: IsBare(w0, KeyOf(w0.heap, s, kind))
    ensures BothIn(w, s) == Both(NONE, NONE)
  {
    if s != null {
      forall kind ensures BindingsIn(w, s, kind) == NONE {
        assert IsBare(w0, KeyOf(w0.heap, s, kind)) && KeyOf(w.heap, s, kind) == KeyOf(w0.heap, s, kind);
      }
    }
  }

  /** Columns numbered in the order of the catalog are ascending. */
  lemma MadeAscending(made: seq<TableColumn>, of: map<ColumnBuffer, FlagSet>, access: FlagSet, created: seq<CatalogColumn>)
    requires MadeFrom(Look(made, of), access, created, {})
    ensures Ascending(made)
  {
    MadeIndexes(made, of, access, created);
    hide MadeFrom, Look;
  }

  lemma MadeIndexes(made: seq<TableColumn>, of: map<ColumnBuffer, FlagSet>, access: FlagSet, created: seq<CatalogColumn>)
    requires MadeFrom(Look(made, of), access, created, {})
    ensures |made| == |created| && forall i | 0 <= i < |made| :: made[i].index == i
  {
    forall i | 0 <= i < |made| ensures made[i].index == i {
      assert Look(made, of)[i].index == i;
    }
  }

  /** The flags of columns made from the catalog, key columns or not. */
  lemma MadeFlagsMeaning(access: FlagSet, created: seq<CatalogColumn>, keys: set<nat>, i: nat)
    requires i < |created|
    ensures var flags := MadeFlags(access, created, keys, i);
            && FlagsAllowed(access, flags)
            && (Test(flags, CF_PRIMARY_KEY) <==> i in keys)
            && (Test(flags, CF_SELECT) <==> Test(access, AF_SELECT_WHERE) || Test(access, AF_SELECT_PK))
            && (Test(flags, CF_UPDATE) <==> Test(access, AF_UPDATE_WHERE) || Test(access, AF_UPDATE_PK))
            && (Test(flags, CF_INSERT) <==> Test(access, AF_INSERT))
  {
    FlagsAfterMeaning(access, created[..i + 1]);
    AllowedWithMarks(access, FlagsOf(access, created, i), CF_PRIMARY_KEY);
    KeyMark(FlagsOf(access, created, i));
    hide Test, Set, FlagsAfter, FlagsAllowed;
  }

  /** Columns created by Open pass its check of column flags, whichever of them are keys. */
  lemma MadeAllowed(cols: seq<Column>, access: FlagSet, created: seq<CatalogColumn>, keys: set<nat>)
    requires MadeFrom(cols, access, created, keys)
    ensures AllAllowed(cols, access)
  {
    hide FlagsAllowed, MadeFlags;
    forall i | 0 <= i < |cols| ensures FlagsAllowed(access, cols[i].flags) {
      MadeFlagsMeaning(access, created, keys, i);
    }
  }

  /** Marking buffers as keys marks the columns they belong to. */
  lemma MadeMarked(made: seq<TableColumn>, of: map<ColumnBuffer, FlagSet>, access: FlagSet, created: seq<CatalogColumn>,
      marked: set<ColumnBuffer>, keys: set<nat>)
    requires MadeFrom(Look(made, of), access, created, {})
    requires forall i | 0 <= i < |made| :: made[i].buffer in marked <==> i in keys
    ensures MadeFrom(Look(made, Marked(of, marked)), access, created, keys)
  {
    hide FlagsOf, Look, Set;
    var cols, cols' := Look(made, of), Look(made, Marked(of, marked));
    forall i | 0 <= i < |made| ensures cols'[i] == Column(i, made[i].buffer, created[i].queryName, MadeFlags(access, created, keys, i)) {
      assert cols[i] == Column(i, cols[i].buffer, created[i].queryName, MadeFlags(access, created, {}, i));
    }
    assert forall i | 0 <= i < |made| :: cols'[i].buffer == cols[i].buffer;
  }

  /** The first column with a name is where the catalog first reports the name. */
  lemma MadeNames(cols: seq<Column>, access: FlagSet, created: seq<CatalogColumn>, keys: set<nat>, name: string)
    requires MadeFrom(cols, access, created, keys)
    ensures forall i: nat :: FirstMatch(cols, name, i) <==> FirstNamed(created, name, i)
    ensures HasName(cols, name) <==> IsNamed(created, name)
  {
    hide MadeFlags;
    assert forall i | 0 <= i < |cols| :: cols[i].name == created[i].queryName;
    if HasName(cols, name) {
      var j :| 0 <= j < |cols| && cols[j].name == name;
      assert created[j].queryName == name;
    }
    if j :| 0 <= j < |created| && created[j].queryName == name {
      assert cols[j].name == name;
    }
  }

  lemma MadeAllNamed(cols: seq<Column>, access: FlagSet, created: seq<CatalogColumn>, keys: set<nat>, names: seq<string>)
    requires MadeFrom(cols, access, created, keys)
    ensures AllNamed(cols, names) <==> AllNamedIn(created, names)
  {
    hide MadeFrom, HasName, IsNamed;
    forall n | 0 <= n < |names| ensures HasName(cols, names[n]) <==> IsNamed(created, names[n]) {
      MadeNames(cols, access, created, keys, names[n]);
    }
  }

  /** Marking the columns with these names. */
  lemma MadeMarkedByName(made: seq<TableColumn>, of: map<ColumnBuffer, FlagSet>, access: FlagSet, created: seq<CatalogColumn>, names: seq<string>)
    requires MadeFrom(Look(made, of), access, created, {})
    ensures MadeFrom(Look(made, Marked(of, FirstMatches(Look(made, of), names))), access, created, NamedKeys(created, names))
  {
    var cols := Look(made, of);
    MadeIndexes(made, of, access, created);
    hide Look, FirstMatches, Marked, FirstMatch, FirstNamed;
    forall i | 0 <= i < |made| ensures made[i].buffer in FirstMatches(cols, names) <==> i in NamedKeys(created, names) {
      assert cols[i].buffer == made[i].buffer;
      MatchIsNamed(cols, access, created, names, i);
    }
    hide MadeFrom, NamedKeys;
    MadeMarked(made, of, access, created, FirstMatches(cols, names), NamedKeys(created, names));
  }

  lemma MatchIsNamed(cols: seq<Column>, access: FlagSet, created: seq<CatalogColumn>, names: seq<string>, i: nat)
    requires MadeFrom(cols, access, created, {}) && i < |cols|
    ensures cols[i].buffer in FirstMatches(cols, names) <==> i in NamedKeys(created, names)
  {
    FirstMatchesMeaning(cols, names);
    assert forall j | 0 <= j < |cols| && cols[j].buffer == cols[i].buffer :: j == i;
    assert |cols| == |created|;
    hide FirstMatches, FirstMatch, FirstNamed, MadeFrom;
    if cols[i].buffer in FirstMatches(cols, names) {
      var n: nat, j: nat :| n < |names| && j < |cols| && FirstMatch(cols, names[n], j) && cols[j].buffer == cols[i].buffer;
      MadeNames(cols, access, created, {}, names[n]);
      assert FirstNamed(created, names[n], i);
    }
    if i in NamedKeys(created, names) {
      var n: nat :| n < |names| && FirstNamed(created, names[n], i);
      MadeNames(cols, access, created, {}, names[n]);
    }
  }

  // ---- the steps

  /** What the database answers while a table is being opened. None is an exception of the catalog function. */
  datatype Catalog = Catalog(
    dbIsOpen: bool,
    keysUnsupported: bool,                     // Access and Excel
    found: Option<string>,                     // the one table that FindOneTable finds, by its query name
    stillThere: bool,                          // what the existence check finds
    columns: Option<seq<CatalogColumn>>,
    keys: Option<seq<string>>,
    types: set<int>)                           // the SQL types the database reports as supported

  const SHRT_MAX: int := 32767

  predicate AllAllowed(cols: seq<Column>, access: FlagSet) {
    forall i | 0 <= i < |cols| :: FlagsAllowed(access, cols[i].flags)
  }

  /** The catalog has columns for this table, not too many, and a buffer can be made for each that may not
      be skipped. */
  predicate Creatable(cat: Catalog, skipUnsupported: bool) {
    cat.columns.Some? && 0 < |cat.columns.value| <= SHRT_MAX && AllCreatable(cat.columns.value, skipUnsupported)
  }

  /** Where the keys are asked for, the catalog names them, and there is a column with each name. */
  predicate KeysNamed(cat: Catalog, created: seq<CatalogColumn>) {
    cat.keys.Some? && AllNamedIn(created, cat.keys.value)
  }

  /** CreateAutoColumnBufferPtrs but for its last step: the buffers, flagged after the access flags and,
      where asked for, as keys. After an exception none of them is left. */
  method CreateColumns(stmts: seq<ExecutableStatement>, m: Memory, fl: FlagMemory, access: FlagSet, cat: Catalog,
      skipUnsupported: bool, queryPrimaryKeys: bool, ghost w0: World) returns (ok: bool, made: seq<TableColumn>)
    requires Shape(stmts, m) && HeldSince(stmts, m, w0)
    modifies m, fl
    ensures Shape(stmts, m) && HeldSince(stmts, m, w0) && Kept(m, fl.of, old(StartOf(m, fl)))
    ensures ok <==> Creatable(cat, skipUnsupported) && (queryPrimaryKeys ==> KeysNamed(cat, CreatedOf(cat.columns.value)))
    ensures ok ==> Ascending(made)
    ensures ok ==> var created := CreatedOf(cat.columns.value);
                   MadeFrom(Look(made, fl.of), access, created, if queryPrimaryKeys then NamedKeys(created, cat.keys.value) else {})
    ensures if ok then BuffersOf(made) !! old(m.bufs) && m.bufs == old(m.bufs) + BuffersOf(made) else m.bufs == old(m.bufs)
  {
    hide Shape, HeldSince, Kept, Ascending, MadeFrom, BuffersOf, Look, AllCreatable, AllNamedIn, NamedKeys;
    NothingChanged(stmts, m, fl);
    if cat.columns.None? || |cat.columns.value| > SHRT_MAX || |cat.columns.value| == 0 {
      return false, [];
    }
    ghost var start := StartOf(m, fl);
    ok, made := CreateBuffers(stmts, m, fl, access, cat.columns.value, skipUnsupported, w0);
    if !ok { return; }
    MadeAscending(made, fl.of, access, CreatedOf(cat.columns.value));
    if queryPrimaryKeys {
      ok := MarkMade(stmts, m, fl, access, CreatedOf(cat.columns.value), made, cat, w0, start);
    }
  }

  lemma NothingChanged(stmts: seq<ExecutableStatement>, m: Memory, fl: FlagMemory)
    requires Shape(stmts, m)
    ensures Kept(m, fl.of, StartOf(m, fl))
  {
    EntriesInBuffers(m.View());
    hide Inv;
  }

  /** QueryPrimaryKeysAndUpdateColumns on columns just created; on an exception they go. */
  method MarkMade(stmts: seq<ExecutableStatement>, m: Memory, fl: FlagMemory, access: FlagSet, ghost created: seq<CatalogColumn>,
      made: seq<TableColumn>, cat: Catalog, ghost w0: World, ghost start: Start) returns (ok: bool)
    requires Shape(stmts, m) && HeldSince(stmts, m, w0) && Kept(m, fl.of, start)
    requires MadeFrom(Look(made, fl.of), access, created, {})
    requires BuffersOf(made) !! start.bufs && m.bufs == start.bufs + BuffersOf(made)
    modifies m, fl
    ensures Shape(stmts, m) && HeldSince(stmts, m, w0) && Kept(m, fl.of, start)
    ensures ok <==> KeysNamed(cat, created)
    ensures ok ==> MadeFrom(Look(made, fl.of), access, created, NamedKeys(created, cat.keys.value))
    ensures m.bufs == if ok then start.bufs + BuffersOf(made) else start.bufs
  {
    hide Shape, HeldSince, Kept, MadeFrom, BuffersOf, Look, AllNamedIn, NamedKeys;
    ok := false;
    if cat.keys.Some? {
      ok := MarkKeysOf(stmts, m, fl, access, created, made, cat.keys.value, w0, start);
    }
    if !ok {
      UnboundYet(m, fl.of, made, start);
      LetGo(stmts, m, BuffersOf(made), w0);
      KeptAnyway(m, fl.of, start);
    }
  }

  lemma UnboundYet(m: Memory, of: map<ColumnBuffer, FlagSet>, made: seq<TableColumn>, start: Start)
    requires Kept(m, of, start) && BuffersOf(made) !! start.bufs
    ensures forall x <- m.entries :: x.buffer !in BuffersOf(made)
    ensures m.entries == start.entries && m.bound == start.bound && m.alive <= start.alive
    ensures forall b <- start.bufs :: FlagsIn(of, b) == FlagsIn(start.of, b)
    ensures forall x <- start.entries :: x.buffer in start.bufs
  {
    hide BuffersOf;
  }

  lemma KeptAnyway(m: Memory, of: map<ColumnBuffer, FlagSet>, start: Start)
    requires m.entries == start.entries && m.bound == start.bound && m.alive <= start.alive
    requires forall b <- start.bufs :: FlagsIn(of, b) == FlagsIn(start.of, b)
    requires forall x <- start.entries :: x.buffer in start.bufs
    ensures Kept(m, of, start)
  {
  }

  method MarkKeysOf(stmts: seq<ExecutableStatement>, m: Memory, fl: FlagMemory, access: FlagSet, ghost created: seq<CatalogColumn>,
      made: seq<TableColumn>, keys: seq<string>, ghost w0: World, ghost start: Start) returns (ok: bool)
    requires Shape(stmts, m) && HeldSince(stmts, m, w0) && Kept(m, fl.of, start)
    requires MadeFrom(Look(made, fl.of), access, created, {}) && BuffersOf(made) !! start.bufs
    modifies fl
    ensures Shape(stmts, m) && HeldSince(stmts, m, w0) && Kept(m, fl.of, start)
    ensures ok <==> AllNamedIn(created, keys)
    ensures ok ==> MadeFrom(Look(made, fl.of), access, created, NamedKeys(created, keys))
  {
    hide Shape, HeldSince, Kept, MadeFrom, BuffersOf, Look, Marked, FirstMatches, HasName, AllNamedIn, NamedKeys;
    ghost var of := fl.of;
    MadeAllNamed(Look(made, of), access, created, {}, keys);
    ok := MarkKeys(made, keys, fl);
    FirstMatchesWithin(made, of, keys);
    ghost var marked :| marked <= FirstMatches(Look(made, of), keys) && fl.of == Marked(of, marked);
    MarksElsewhere(m, of, made, marked, start);
    if ok {
      MadeMarkedByName(made, of, access, created, keys);
    }
  }

  lemma MarksElsewhere(m: Memory, of: map<ColumnBuffer, FlagSet>, made: seq<TableColumn>, marked: set<ColumnBuffer>, start: Start)
    requires Kept(m, of, start) && marked <= BuffersOf(made) && BuffersOf(made) !! start.bufs
    ensures Kept(m, Marked(of, marked), start)
  {
    hide BuffersOf, Set;
  }

  /** There is a column for every index that was set, or for every key column that the catalog reports
      where it is asked. */
  predicate KeysFindable(columns: seq<TableColumn>, indexes: set<nat>, access: FlagSet, openFlags: FlagSet, cat: Catalog) {
    && (forall index <- indexes :: HasIndex(columns, index))
    && (AsksKeys(indexes, access, openFlags) ==> cat.keys.Some? && AllNamed(Look(columns, map[]), cat.keys.value))
  }

  /** Whether Open asks the catalog for the primary key. */
  predicate AsksKeys(indexes: set<nat>, access: FlagSet, openFlags: FlagSet) {
    indexes == {} && WorksByKey(access) && !Test(openFlags, TOF_DO_NOT_QUERY_PRIMARY_KEYS)
  }

  /** The buffers of the key columns: those at the indexes that were set, or else, where the catalog is
      asked, of the first columns with the names it reports. */
  function KeyBuffers(columns: seq<TableColumn>, of: map<ColumnBuffer, FlagSet>, indexes: set<nat>, access: FlagSet, openFlags: FlagSet, cat: Catalog):
      set<ColumnBuffer>
  {
    if indexes != {} then ByIndex(columns, indexes)
    else if AsksKeys(indexes, access, openFlags) && cat.keys.Some? then FirstMatches(Look(columns, of), cat.keys.value)
    else {}
  }

  /** The flags once the key columns are marked. */
  function MarkedBy(columns: seq<TableColumn>, of: map<ColumnBuffer, FlagSet>, indexes: set<nat>, access: FlagSet, openFlags: FlagSet, cat: Catalog):
      map<ColumnBuffer, FlagSet>
  {
    Marked(of, KeyBuffers(columns, of, indexes, access, openFlags, cat))
  }

  predicate AllNamed(cols: seq<Column>, names: seq<string>) {
    forall i | 0 <= i < |names| :: HasName(cols, names[i])
  }

  /** Names do not depend on flags. */
  lemma NamedAnyway(columns: seq<TableColumn>, of: map<ColumnBuffer, FlagSet>, names: seq<string>)
    ensures AllNamed(Look(columns, of), names) <==> AllNamed(Look(columns, map[]), names)
  {
    hide Look, HasName;
    forall i | 0 <= i < |names| ensures HasName(Look(columns, of), names[i]) <==> HasName(Look(columns, map[]), names[i]) {
      NamedAlike(columns, of, names[i]);
    }
  }

  lemma NamedAlike(columns: seq<TableColumn>, of: map<ColumnBuffer, FlagSet>, name: string)
    ensures HasName(Look(columns, of), name) <==> HasName(Look(columns, map[]), name)
  {
    hide Look;
    if j :| 0 <= j < |columns| && Look(columns, of)[j].name == name {
      assert Look(columns, map[])[j].name == name;
    }
    if j :| 0 <= j < |columns| && Look(columns, map[])[j].name == name {
      assert Look(columns, of)[j].name == name;
    }
  }

  /** The primary key: by the indexes that were set, or else by what the catalog says where it matters. */
  method MarkPrimaryKeys(columns: seq<TableColumn>, indexes: set<nat>, fl: FlagMemory, access: FlagSet, openFlags: FlagSet, cat: Catalog)
      returns (ok: bool, openFlags': FlagSet)
    requires Ascending(columns)
    modifies fl
    ensures ok <==> KeysFindable(columns, indexes, access, openFlags, cat)
    ensures ok ==> fl.of == MarkedBy(columns, old(fl.of), indexes, access, openFlags, cat)
    ensures exists marked :: marked <= KeyBuffers(columns, old(fl.of), indexes, access, openFlags, cat) && fl.of == Marked(old(fl.of), marked)
    ensures openFlags' == if indexes == {} then openFlags else Set(openFlags, TOF_DO_NOT_QUERY_PRIMARY_KEYS)
  {
    hide Ascending, Look, Marked, FirstMatches, HasName, HasIndex, ByIndex, Test, Set, WorksByKey;
    openFlags' := openFlags;
    ok := true;
    MarkedNothing(fl.of);
    if indexes != {} {
      openFlags' := Set(openFlags, TOF_DO_NOT_QUERY_PRIMARY_KEYS);
      ok := MarkIndexes(columns, indexes, fl);
      if !ok { return; }
      NotQueried(openFlags);
    }
    if WorksByKey(access) && !Test(openFlags', TOF_DO_NOT_QUERY_PRIMARY_KEYS) {
      if cat.keys.None? { return false, openFlags'; }
      NamedAnyway(columns, fl.of, cat.keys.value);
      ok := MarkKeys(columns, cat.keys.value, fl);
    }
  }

  lemma NotQueried(openFlags: FlagSet)
    ensures Test(Set(openFlags, TOF_DO_NOT_QUERY_PRIMARY_KEYS), TOF_DO_NOT_QUERY_PRIMARY_KEYS)
  {
  }

  /** Every column that the primary key is to be made of is flagged then. */
  lemma KeysAreMarked(columns: seq<TableColumn>, of: map<ColumnBuffer, FlagSet>, indexes: set<nat>, access: FlagSet, openFlags: FlagSet, cat: Catalog)
    requires KeysFindable(columns, indexes, access, openFlags, cat)
    ensures var cols := Look(columns, MarkedBy(columns, of, indexes, access, openFlags, cat));
            && IndexesFlagged(cols, indexes)
            && (AsksKeys(indexes, access, openFlags) ==> KeysFlagged(cols, cat.keys.value))
  {
    hide Look, Marked, FirstMatches, HasName, HasIndex, ByIndex, KeysFlagged, Test, WorksByKey;
    if indexes != {} {
      IndexesAreFlagged(columns, of, indexes);
    } else if AsksKeys(indexes, access, openFlags) {
      NamedAnyway(columns, of, cat.keys.value);
      KeysAreFlagged(columns, of, cat.keys.value);
    }
  }

  predicate Checked(columns: seq<TableColumn>, cols: seq<Column>, access: FlagSet, checkTypes: bool, skipUnsupported: bool, types: set<int>) {
    AllAllowed(cols, access) && (!checkTypes || skipUnsupported || AllSupported(columns, types))
  }

  // ---- when Open has no reason to fail

  /** A call of Open: what the table had, and what it was asked. */
  datatype OpenCase = OpenCase(had: bool, before: seq<TableColumn>, flags: FlagSet, access: FlagSet, indexes: set<nat>, cat: Catalog)

  /** The table is found, or known and still there where that is to be checked. */
  predicate Found(c: OpenCase) {
    if c.had then Test(c.flags, TOF_CHECK_EXISTANCE) ==> c.cat.stillThere else c.cat.found.Some?
  }

  predicate NeedsColumns(c: OpenCase) {
    c.before == [] && !(c.access == AF_NONE || c.access == AF_COUNT_WHERE)
  }

  function ChecksTypes(c: OpenCase, autoCreated: bool): bool {
    !autoCreated && Test(c.flags, TOF_CHECK_DB_TYPE_INFOS)
  }

  /** The columns that are left of all of them. */
  function Settled(c: OpenCase, all: seq<TableColumn>, autoCreated: bool): seq<TableColumn> {
    if ChecksTypes(c, autoCreated) then Supported(all, c.cat.types) else all
  }

  // ---- columns set by hand

  /** The flags once the key columns among these are marked. */
  function MarkedIn(c: OpenCase, columns: seq<TableColumn>, of: map<ColumnBuffer, FlagSet>): map<ColumnBuffer, FlagSet> {
    MarkedBy(columns, of, c.indexes, c.access, c.flags, c.cat)
  }

  /** The key columns are among these columns, which pass the checks. */
  predicate Passes(c: OpenCase, columns: seq<TableColumn>, of: map<ColumnBuffer, FlagSet>, autoCreated: bool) {
    && KeysFindable(columns, c.indexes, c.access, c.flags, c.cat)
    && Checked(columns, Look(columns, MarkedIn(c, columns, of)), c.access, ChecksTypes(c, autoCreated),
               Test(c.flags, TOF_SKIP_UNSUPPORTED_COLUMNS), c.cat.types)
  }

  /** Those that are left suffice for all that the access flags call for. */
  predicate Suffices(c: OpenCase, columns: seq<TableColumn>, of: map<ColumnBuffer, FlagSet>, autoCreated: bool) {
    Bindable(c.access, Look(Settled(c, columns, autoCreated), MarkedIn(c, columns, of)))
  }

  // ---- columns made from the catalog

  predicate KeysCreated(c: OpenCase, created: seq<CatalogColumn>) {
    && (forall index <- c.indexes :: index < |created|)
    && (AsksKeys(c.indexes, c.access, c.flags) ==> KeysNamed(c.cat, created))
  }

  /** The positions of the key columns. */
  function KeysAt(c: OpenCase, created: seq<CatalogColumn>): set<nat> {
    if c.indexes != {} then set i: nat | i < |created| && i in c.indexes
    else if AsksKeys(c.indexes, c.access, c.flags) && c.cat.keys.Some? then NamedKeys(created, c.cat.keys.value)
    else {}
  }

  predicate CreatedSuffice(access: FlagSet, created: seq<CatalogColumn>, keys: set<nat>) {
    && (WorksByKey(access) ==> keys != {})
    && (Test(access, AF_UPDATE_PK) ==> exists i: nat :: i < |created| && i !in keys)
    && (Test(access, AF_INSERT) ==> created != [])
  }

  lemma MadeKeysFindable(c: OpenCase, made: seq<TableColumn>, of: map<ColumnBuffer, FlagSet>, created: seq<CatalogColumn>)
    requires MadeFrom(Look(made, of), c.access, created, {})
    ensures KeysFindable(made, c.indexes, c.access, c.flags, c.cat) <==> KeysCreated(c, created)
  {
    MadeIndexes(made, of, c.access, created);
    hide MadeFrom, Look, AllNamed, AllNamedIn, AsksKeys;
    forall index: nat ensures HasIndex(made, index) <==> index < |created| {
      if index < |created| { assert made[index].index == index; }
    }
    if c.cat.keys.Some? {
      NamedAnyway(made, of, c.cat.keys.value);
      MadeAllNamed(Look(made, of), c.access, created, {}, c.cat.keys.value);
    }
  }

  lemma MadeKeysMarked(c: OpenCase, made: seq<TableColumn>, of: map<ColumnBuffer, FlagSet>, created: seq<CatalogColumn>)
    requires MadeFrom(Look(made, of), c.access, created, {})
    ensures MadeFrom(Look(made, MarkedIn(c, made, of)), c.access, created, KeysAt(c, created))
  {
    hide MadeFrom, Look, FirstMatches, Marked, NamedKeys, AsksKeys;
    if c.indexes != {} {
      MadeAtIndexes(made, of, c.access, created, c.indexes);
      MadeMarked(made, of, c.access, created, ByIndex(made, c.indexes), KeysAt(c, created));
    } else if c.cat.keys.Some? {
      MadeMarkedByName(made, of, c.access, created, c.cat.keys.value);
    }
    MarkedNothing(of);
  }

  lemma MadeAtIndexes(made: seq<TableColumn>, of: map<ColumnBuffer, FlagSet>, access: FlagSet, created: seq<CatalogColumn>, indexes: set<nat>)
    requires MadeFrom(Look(made, of), access, created, {})
    ensures forall i | 0 <= i < |made| :: made[i].buffer in ByIndex(made, indexes) <==> i < |created| && i in indexes
  {
    MadeIndexes(made, of, access, created);
    var cols := Look(made, of);
    hide Look;
    forall i, j | 0 <= i < |made| && 0 <= j < |made| && made[i].buffer == made[j].buffer ensures i == j {
      assert cols[i].buffer == cols[j].buffer;
    }
    hide MadeFrom;
    forall i | 0 <= i < |made| ensures made[i].buffer in ByIndex(made, indexes) <==> i in indexes {
      if made[i].buffer in ByIndex(made, indexes) {
        var j :| 0 <= j < |made| && made[j].index in indexes && made[j].buffer == made[i].buffer;
      }
      if i in indexes { assert made[i].index == i; }
    }
  }

  /** Some column satisfies p. */
  lemma {:induction false} FilterSome(cols: seq<Column>, p: Column -> bool)
    ensures Filter(cols, p) != [] <==> exists i :: 0 <= i < |cols| && p(cols[i])
  {
    if cols != [] {
      var front := cols[..|cols| - 1];
      FilterSome(front, p);
      if i :| 0 <= i < |front| && p(front[i]) { assert p(cols[i]); }
    }
  }

  lemma MadeSuffice(cols: seq<Column>, access: FlagSet, created: seq<CatalogColumn>, keys: set<nat>)
    requires MadeFrom(cols, access, created, keys) && forall i <- keys :: i < |created|
    ensures Bindable(access, cols) <==> CreatedSuffice(access, created, keys)
  {
    hide Filter, IsKey, IsSet, IsInserted, MadeFrom, WorksByKey, Test;
    FilterSome(cols, IsKey);
    FilterSome(cols, IsSet);
    FilterSome(cols, IsInserted);
    MadeMarks(cols, access, created, keys);
    if i :| i in keys { assert IsKey(cols[i]); }
    if i: nat :| i < |created| && i !in keys { assert Test(access, AF_UPDATE_PK) ==> IsSet(cols[i]); }
    if created != [] { assert Test(access, AF_INSERT) ==> IsInserted(cols[0]); }
  }

  lemma MadeMarks(cols: seq<Column>, access: FlagSet, created: seq<CatalogColumn>, keys: set<nat>)
    requires MadeFrom(cols, access, created, keys)
    ensures |cols| == |created|
    ensures forall i: nat | i < |cols| ::
              && (IsKey(cols[i]) <==> i in keys) && (IsInserted(cols[i]) <==> Test(access, AF_INSERT))
              && (IsSet(cols[i]) <==> (Test(access, AF_UPDATE_WHERE) || Test(access, AF_UPDATE_PK)) && i !in keys)
              && (IsSelected(cols[i]) <==> Test(access, AF_SELECT_WHERE) || Test(access, AF_SELECT_PK))
  {
    hide MadeFlags, Test;
    forall i: nat | i < |cols| {
      MadeFlagsMeaning(access, created, keys, i);
    }
  }

  // ---- both

  /** The table is found, its columns are there or can be made, the key columns are among them, and they
      pass the checks. */
  predicate WillPrepare(c: OpenCase, of: map<ColumnBuffer, FlagSet>, autoCreated: bool) {
    && Found(c)
    && if NeedsColumns(c) then Creatable(c.cat, Test(c.flags, TOF_SKIP_UNSUPPORTED_COLUMNS)) && KeysCreated(c, CreatedOf(c.cat.columns.value))
       else Passes(c, c.before, of, autoCreated)
  }

  /** ... and they suffice for all that the access flags call for. */
  predicate WillBind(c: OpenCase, of: map<ColumnBuffer, FlagSet>, autoCreated: bool) {
    if NeedsColumns(c) then c.cat.columns.Some? && CreatedSuffice(c.access, CreatedOf(c.cat.columns.value), KeysAt(c, CreatedOf(c.cat.columns.value)))
    else Suffices(c, c.before, of, autoCreated)
  }

  /** What the call says, what the table had and what the catalog answers leave Open no reason to fail. */
  predicate WillOpen(c: OpenCase, of: map<ColumnBuffer, FlagSet>, autoCreated: bool) {
    WillPrepare(c, of, autoCreated) && WillBind(c, of, autoCreated)
  }

  /** The columns of a table that has been opened, and the flags: made from the catalog with the key columns
      flagged, or what is left of those it had with the key columns flagged. */
  ghost predicate Outcome(c: OpenCase, of: map<ColumnBuffer, FlagSet>, autoCreated: bool,
      columns: seq<TableColumn>, of': map<ColumnBuffer, FlagSet>, autoCreated': bool)
  {
    if NeedsColumns(c) then
      && autoCreated' && c.cat.columns.Some?
      && MadeFrom(Look(columns, of'), c.access, CreatedOf(c.cat.columns.value), KeysAt(c, CreatedOf(c.cat.columns.value)))
    else
      autoCreated' == autoCreated && columns == Settled(c, c.before, autoCreated) && of' == MarkedIn(c, c.before, of)
  }

  /** The columns Open goes on with once it has created some where it needs any. */
  ghost predicate Provided(c: OpenCase, of: map<ColumnBuffer, FlagSet>, autoCreated: bool,
      all: seq<TableColumn>, of': map<ColumnBuffer, FlagSet>, autoCreated': bool)
  {
    if NeedsColumns(c) then
      && autoCreated' && Creatable(c.cat, Test(c.flags, TOF_SKIP_UNSUPPORTED_COLUMNS))
      && MadeFrom(Look(all, of'), c.access, CreatedOf(c.cat.columns.value), {})
    else
      autoCreated' == autoCreated && all == c.before && of' == of
  }

  /** How Open fares with them was determined when it was called. */
  lemma ProvidedSettles(c: OpenCase, of: map<ColumnBuffer, FlagSet>, autoCreated: bool,
      all: seq<TableColumn>, of': map<ColumnBuffer, FlagSet>, autoCreated': bool)
    requires Found(c) && Provided(c, of, autoCreated, all, of', autoCreated')
    ensures Passes(c, all, of', autoCreated') <==> WillPrepare(c, of, autoCreated)
    ensures Suffices(c, all, of', autoCreated') <==> WillBind(c, of, autoCreated)
    ensures Outcome(c, of, autoCreated, Settled(c, all, autoCreated'), MarkedIn(c, all, of'), autoCreated')
  {
    hide Found, AllCreatable, KeysFindable, KeysCreated, KeysAt, MadeFrom, Look, Supported, MarkedIn, AllAllowed, Bindable, CreatedSuffice,
      Test, AllSupported;
    if NeedsColumns(c) {
      var created := CreatedOf(c.cat.columns.value);
      MadeKeysFindable(c, all, of', created);
      MadeKeysMarked(c, all, of', created);
      MadeAllowed(Look(all, MarkedIn(c, all, of')), c.access, created, KeysAt(c, created));
      KeysWithin(c, created);
      MadeSuffice(Look(all, MarkedIn(c, all, of')), c.access, created, KeysAt(c, created));
    }
  }

  // ---- what a call of Open leaves behind, whichever way it ends

  function KeysIn(c: OpenCase, columns: seq<TableColumn>, of: map<ColumnBuffer, FlagSet>): set<ColumnBuffer> {
    KeyBuffers(columns, of, c.indexes, c.access, c.flags, c.cat)
  }

  /** Some of the keys have been flagged, and no other flag has changed. */
  ghost predicate MarkedSome(of: map<ColumnBuffer, FlagSet>, of': map<ColumnBuffer, FlagSet>, keys: set<ColumnBuffer>) {
    exists marked :: marked <= keys && of' == Marked(of, marked)
  }

  /** The same, as far as these buffers are concerned. */
  ghost predicate FlagsFrom(of: map<ColumnBuffer, FlagSet>, of': map<ColumnBuffer, FlagSet>, keys: set<ColumnBuffer>, bufs: set<ColumnBuffer>) {
    exists marked :: marked <= keys && forall b <- bufs :: FlagsIn(of', b) == FlagsIn(Marked(of, marked), b)
  }

  /** Some buffers have gone and others come; those in kept stay in any case. */
  predicate Exchanged(bufs: set<ColumnBuffer>, gone: set<ColumnBuffer>, bufs': set<ColumnBuffer>, come: set<ColumnBuffer>, kept: set<ColumnBuffer>) {
    bufs' - kept == bufs - gone + come - kept && bufs * kept <= bufs' && come !! (bufs - gone)
  }

  /** The columns that the checks have left of those there were. */
  function Tried(c: OpenCase, of: map<ColumnBuffer, FlagSet>, autoCreated: bool): seq<TableColumn> {
    if WillPrepare(c, of, autoCreated) then Settled(c, c.before, autoCreated) else c.before
  }

  /** The columns when Open begins to bind, or gives up before. */
  predicate Going(c: OpenCase, of: map<ColumnBuffer, FlagSet>, autoCreated: bool, columns: seq<TableColumn>, autoCreated': bool) {
    if NeedsColumns(c) then
      && (columns == [] || autoCreated') && (autoCreated ==> autoCreated')
      && (autoCreated' ==> autoCreated || Creatable(c.cat, Test(c.flags, TOF_SKIP_UNSUPPORTED_COLUMNS)))
    else autoCreated' == autoCreated && columns == Tried(c, of, autoCreated)
  }

  /** The columns after a failure. Those set by hand stay, except that the type check may have dropped
      some; those the table made itself go when it has been cleaned up. */
  predicate Leftover(c: OpenCase, of: map<ColumnBuffer, FlagSet>, autoCreated: bool, clean: bool, columns: seq<TableColumn>, autoCreated': bool) {
    if NeedsColumns(c) then
      && (clean ==> columns == []) && (autoCreated ==> autoCreated')
      && (autoCreated' ==> autoCreated || Creatable(c.cat, Test(c.flags, TOF_SKIP_UNSUPPORTED_COLUMNS)))
    else
      && autoCreated' == autoCreated
      && (columns == c.before || columns == if autoCreated && clean then [] else Tried(c, of, autoCreated))
  }

  lemma GoingIsLeft(c: OpenCase, of: map<ColumnBuffer, FlagSet>, autoCreated: bool, clean: bool, columns: seq<TableColumn>, autoCreated': bool)
    requires Going(c, of, autoCreated, columns, autoCreated')
    ensures Leftover(c, of, autoCreated, clean, if clean && autoCreated' then [] else columns, autoCreated')
  {
    hide WillPrepare, Supported;
  }

  lemma NothingTried(c: OpenCase, of: map<ColumnBuffer, FlagSet>, autoCreated: bool)
    ensures !WillPrepare(c, of, autoCreated) ==> Going(c, of, autoCreated, c.before, autoCreated)
    ensures forall clean :: Leftover(c, of, autoCreated, clean, c.before, autoCreated)
  {
    hide WillPrepare, Creatable;
  }

  lemma ProvidedGoes(c: OpenCase, of: map<ColumnBuffer, FlagSet>, autoCreated: bool, all: seq<TableColumn>, of': map<ColumnBuffer, FlagSet>,
      autoCreated': bool)
    requires Provided(c, of, autoCreated, all, of', autoCreated')
    ensures Going(c, of, autoCreated, if WillPrepare(c, of, autoCreated) then Settled(c, all, autoCreated') else all, autoCreated')
  {
    hide WillPrepare, Supported, MadeFrom, Creatable;
  }

  lemma KeysAreOwn(c: OpenCase, columns: seq<TableColumn>, of: map<ColumnBuffer, FlagSet>)
    ensures KeysIn(c, columns, of) <= BuffersOf(columns)
  {
    if c.cat.keys.Some? { FirstMatchesWithin(columns, of, c.cat.keys.value); }
    hide FirstMatches, Look, AsksKeys;
  }

  lemma NoFlagsYet(of: map<ColumnBuffer, FlagSet>, keys: set<ColumnBuffer>, bufs: set<ColumnBuffer>)
    ensures FlagsFrom(of, of, keys, bufs)
  {
    MarkedNothing(of);
    hide Marked;
  }

  /** Marks on columns just created do not concern the buffers there were. */
  lemma FlagsGoOn(c: OpenCase, of: map<ColumnBuffer, FlagSet>, autoCreated: bool, all: seq<TableColumn>, of1: map<ColumnBuffer, FlagSet>, autoCreated': bool,
      of': map<ColumnBuffer, FlagSet>, bufs: set<ColumnBuffer>)
    requires Provided(c, of, autoCreated, all, of1, autoCreated') && MarkedSome(of1, of', KeysIn(c, all, of1))
    requires NeedsColumns(c) ==> BuffersOf(all) !! bufs && forall b <- bufs :: FlagsIn(of1, b) == FlagsIn(of, b)
    ensures FlagsFrom(of, of', KeysIn(c, c.before, of), bufs)
  {
    KeysAreOwn(c, all, of1);
    MarkedNothing(of);
    hide KeysIn, Creatable, MadeFrom, BuffersOf, Set, NeedsColumns;
    var marked :| marked <= KeysIn(c, all, of1) && of' == Marked(of1, marked);
    if NeedsColumns(c) {
      assert forall b <- bufs :: FlagsIn(of', b) == FlagsIn(Marked(of, {}), b);
    }
  }

  /** Everything that PrepareColumns says of the columns, their flags and the buffers. */
  ghost predicate Underway(c: OpenCase, of: map<ColumnBuffer, FlagSet>, autoCreated: bool, bufs: set<ColumnBuffer>, kept: set<ColumnBuffer>,
      columns: seq<TableColumn>, of': map<ColumnBuffer, FlagSet>, autoCreated': bool, bufs': set<ColumnBuffer>)
  {
    && Going(c, of, autoCreated, columns, autoCreated')
    && FlagsFrom(of, of', KeysIn(c, c.before, of), bufs)
    && Exchanged(bufs, BuffersOf(c.before), bufs', BuffersOf(columns), kept)
  }

  /** Everything that Open says of them, whichever way it ends; clean says that nothing is initialised any more. */
  ghost predicate Aftermath(c: OpenCase, of: map<ColumnBuffer, FlagSet>, autoCreated: bool, bufs: set<ColumnBuffer>, kept: set<ColumnBuffer>,
      ok: bool, clean: bool, columns: seq<TableColumn>, of': map<ColumnBuffer, FlagSet>, autoCreated': bool, bufs': set<ColumnBuffer>)
  {
    && (if ok then Outcome(c, of, autoCreated, columns, of', autoCreated') else Leftover(c, of, autoCreated, clean, columns, autoCreated'))
    && FlagsFrom(of, of', KeysIn(c, c.before, of), bufs)
    && Exchanged(bufs, BuffersOf(c.before), bufs', BuffersOf(columns), kept)
  }

  lemma FlagsUnderway(c: OpenCase, of: map<ColumnBuffer, FlagSet>, autoCreated: bool, bufs: set<ColumnBuffer>, kept: set<ColumnBuffer>,
      columns: seq<TableColumn>, of': map<ColumnBuffer, FlagSet>)
    requires Underway(c, of, autoCreated, bufs, kept, columns, of, autoCreated, bufs)
    requires forall b <- bufs :: FlagsIn(of', b) == FlagsIn(of, b)
    ensures Underway(c, of, autoCreated, bufs, kept, columns, of', autoCreated, bufs)
  {
    hide FlagsIn, Marked, KeysIn, Going, Exchanged;
    var marked :| marked <= KeysIn(c, c.before, of) && forall b <- bufs :: FlagsIn(of, b) == FlagsIn(Marked(of, marked), b);
    assert forall b <- bufs :: FlagsIn(of', b) == FlagsIn(Marked(of, marked), b);
  }

  lemma NowUnderway(c: OpenCase, of: map<ColumnBuffer, FlagSet>, autoCreated: bool, bufs: set<ColumnBuffer>, kept: set<ColumnBuffer>,
      all: seq<TableColumn>, of1: map<ColumnBuffer, FlagSet>, autoCreated': bool, bufs1: set<ColumnBuffer>,
      columns: seq<TableColumn>, of': map<ColumnBuffer, FlagSet>, bufs': set<ColumnBuffer>)
    requires Provided(c, of, autoCreated, all, of1, autoCreated') && MarkedSome(of1, of', KeysIn(c, all, of1))
    requires forall b <- bufs :: FlagsIn(of1, b) == FlagsIn(of, b)
    requires if NeedsColumns(c) then BuffersOf(all) !! bufs && bufs1 == bufs + BuffersOf(all) else bufs1 == bufs
    requires BuffersOf(c.before) <= bufs && BuffersOf(all) <= bufs1
    requires columns == if WillPrepare(c, of, autoCreated) then Settled(c, all, autoCreated') else all
    requires BuffersOf(columns) <= BuffersOf(all) && bufs' == bufs1 - (BuffersOf(all) - BuffersOf(columns) - kept)
    ensures Underway(c, of, autoCreated, bufs, kept, columns, of', autoCreated', bufs')
  {
    hide WillPrepare, Settled, MarkedSome, KeysIn, Going, FlagsFrom, Exchanged, MadeFrom, Look, Creatable;
    ProvidedGoes(c, of, autoCreated, all, of1, autoCreated');
    FlagsGoOn(c, of, autoCreated, all, of1, autoCreated', of', bufs);
    assert NeedsColumns(c) ==> BuffersOf(c.before) == {};
    ExchangedTwice(bufs, BuffersOf(c.before), bufs1, BuffersOf(all), bufs', BuffersOf(columns), kept);
  }

  /** From what is underway to the end of Open: all is there, or it is cleaned up. */
  lemma UnderwayOpens(c: OpenCase, of: map<ColumnBuffer, FlagSet>, autoCreated: bool, bufs: set<ColumnBuffer>, kept: set<ColumnBuffer>,
      count: set<ColumnBuffer>, columns: seq<TableColumn>, of': map<ColumnBuffer, FlagSet>, autoCreated': bool, bufs': set<ColumnBuffer>)
    requires Underway(c, of, autoCreated, bufs + count, kept, columns, of', autoCreated', bufs') && count !! bufs
    requires Outcome(c, of, autoCreated, columns, of', autoCreated') && count !! BuffersOf(c.before) && count !! BuffersOf(columns)
    ensures forall clean :: Aftermath(c, of, autoCreated, bufs, kept, true, clean, columns, of', autoCreated', bufs' - count)
  {
    hide Going, Exchanged, Outcome, KeysIn, BuffersOf;
    ExchangedBeside(bufs + count, BuffersOf(c.before), bufs', BuffersOf(columns), kept, count);
    assert bufs + count - count == bufs;
    FlagsFewer(of, of', KeysIn(c, c.before, of), bufs + count, bufs);
  }

  lemma UnderwayFails(c: OpenCase, of: map<ColumnBuffer, FlagSet>, autoCreated: bool, bufs: set<ColumnBuffer>, kept: set<ColumnBuffer>,
      count: set<ColumnBuffer>, columns: seq<TableColumn>, of': map<ColumnBuffer, FlagSet>, autoCreated': bool, bufs': set<ColumnBuffer>,
      clean: bool, left: seq<TableColumn>, bufs'': set<ColumnBuffer>)
    requires Underway(c, of, autoCreated, bufs + count, kept, columns, of', autoCreated', bufs') && count !! bufs
    requires count !! BuffersOf(c.before) && count !! BuffersOf(columns)
    requires left == if clean && autoCreated' then [] else columns
    requires bufs'' == bufs' - count - (BuffersOf(columns) - BuffersOf(left) - kept)
    ensures Aftermath(c, of, autoCreated, bufs, kept, false, clean, left, of', autoCreated', bufs'')
  {
    assert BuffersOf(left) <= BuffersOf(columns);
    hide Going, Leftover, Exchanged, Outcome, KeysIn, BuffersOf;
    GoingIsLeft(c, of, autoCreated, clean, columns, autoCreated');
    ExchangedBeside(bufs + count, BuffersOf(c.before), bufs', BuffersOf(columns), kept, count);
    assert bufs + count - count == bufs;
    ExchangedThenGone(bufs, BuffersOf(c.before), bufs' - count, BuffersOf(columns), BuffersOf(left), kept);
    FlagsFewer(of, of', KeysIn(c, c.before, of), bufs + count, bufs);
  }

  lemma FlagsFewer(of: map<ColumnBuffer, FlagSet>, of': map<ColumnBuffer, FlagSet>, keys: set<ColumnBuffer>, bufs: set<ColumnBuffer>,
      fewer: set<ColumnBuffer>)
    requires FlagsFrom(of, of', keys, bufs) && fewer <= bufs
    ensures FlagsFrom(of, of', keys, fewer)
  {
    hide FlagsIn, Marked;
  }

  /** Open gave up before it looked at the columns. */
  lemma GivenUp(c: OpenCase, of: map<ColumnBuffer, FlagSet>, autoCreated: bool, bufs: set<ColumnBuffer>, kept: set<ColumnBuffer>, clean: bool)
    requires BuffersOf(c.before) <= bufs
    ensures Aftermath(c, of, autoCreated, bufs, kept, false, clean, c.before, of, autoCreated, bufs)
  {
    hide Leftover, Exchanged, FlagsFrom, KeysIn, BuffersOf, WillPrepare;
    NothingTried(c, of, autoCreated);
    NoFlagsYet(of, KeysIn(c, c.before, of), bufs);
    ExchangedNothing(bufs, BuffersOf(c.before), kept);
  }

  lemma ExchangedNothing(bufs: set<ColumnBuffer>, own: set<ColumnBuffer>, kept: set<ColumnBuffer>)
    requires own <= bufs
    ensures Exchanged(bufs, own, bufs, own, kept)
  {
  }

  /** First new buffers come where there were none, or nothing happens; then some of the columns go. */
  lemma ExchangedTwice(bufs: set<ColumnBuffer>, own: set<ColumnBuffer>, bufs1: set<ColumnBuffer>, own1: set<ColumnBuffer>,
      bufs': set<ColumnBuffer>, own': set<ColumnBuffer>, kept: set<ColumnBuffer>)
    requires own <= bufs && own' <= own1 <= bufs1
    requires (own1 == own && bufs1 == bufs) || (own == {} && own1 !! bufs && bufs1 == bufs + own1)
    requires bufs' == bufs1 - (own1 - own' - kept)
    ensures Exchanged(bufs, own, bufs', own', kept)
  {
  }

  /** The count buffer, which nobody else knows, does not matter. */
  lemma ExchangedBeside(bufs: set<ColumnBuffer>, own: set<ColumnBuffer>, bufs': set<ColumnBuffer>, own': set<ColumnBuffer>,
      kept: set<ColumnBuffer>, count: set<ColumnBuffer>)
    requires Exchanged(bufs, own, bufs', own', kept) && count !! own && count !! own'
    ensures Exchanged(bufs - count, own, bufs' - count, own', kept)
  {
    forall b ensures b in bufs' - count - kept <==> b in bufs - count - own + own' - kept {
      assert b in bufs' - kept <==> b in bufs - own + own' - kept;
    }
  }

  lemma ExchangedThenGone(bufs: set<ColumnBuffer>, own: set<ColumnBuffer>, bufs': set<ColumnBuffer>, own': set<ColumnBuffer>, left: set<ColumnBuffer>,
      kept: set<ColumnBuffer>)
    requires Exchanged(bufs, own, bufs', own', kept) && left <= own'
    ensures Exchanged(bufs, own, bufs' - (own' - left - kept), left, kept)
  {
    forall b ensures b in bufs' - (own' - left - kept) - kept <==> b in bufs - own + left - kept {
      assert b in bufs' - kept <==> b in bufs - own + own' - kept;
    }
  }

  /** The columns among which Open looks for the key: those set by hand, or the ones it has created. */
  function Considered(c: OpenCase, columns: seq<TableColumn>): seq<TableColumn> {
    if NeedsColumns(c) then columns else c.before
  }

  /** This column is flagged as a key, and it is in the open table unless its type is checked and not
      supported. */
  predicate KeyStands(c: OpenCase, t: TableColumn, autoCreated: bool, columns: seq<TableColumn>, of: map<ColumnBuffer, FlagSet>) {
    && Test(FlagsIn(of, t.buffer), CF_PRIMARY_KEY)
    && (t in columns <==> autoCreated || !Test(c.flags, TOF_CHECK_DB_TYPE_INFOS) || t.buffer.sqlType in c.cat.types)
  }

  ghost predicate IndexStands(c: OpenCase, index: nat, autoCreated: bool, columns: seq<TableColumn>, of: map<ColumnBuffer, FlagSet>) {
    var all := Considered(c, columns);
    exists j: nat :: j < |all| && all[j].index == index && KeyStands(c, all[j], autoCreated, columns, of)
  }

  ghost predicate NameStands(c: OpenCase, name: string, autoCreated: bool, columns: seq<TableColumn>, of: map<ColumnBuffer, FlagSet>) {
    var all := Considered(c, columns);
    exists j: nat :: j < |all| && FirstMatch(Look(all, of), name, j) && KeyStands(c, all[j], autoCreated, columns, of)
  }

  /** Every column that the primary key is made of is flagged, by its index or by the catalog's name for it,
      and is in the open table if and only if types are not checked or its type is supported. */
  lemma OutcomeHasKeys(c: OpenCase, of: map<ColumnBuffer, FlagSet>, autoCreated: bool,
      columns: seq<TableColumn>, of': map<ColumnBuffer, FlagSet>, autoCreated': bool)
    requires WillPrepare(c, of, autoCreated) && Outcome(c, of, autoCreated, columns, of', autoCreated')
    ensures forall index <- c.indexes :: IndexStands(c, index, autoCreated', columns, of')
    ensures AsksKeys(c.indexes, c.access, c.flags) ==>
              c.cat.keys.Some? && forall n | 0 <= n < |c.cat.keys.value| :: NameStands(c, c.cat.keys.value[n], autoCreated', columns, of')
  {
    KeysAsked(c, of, autoCreated);
    hide Found, AllCreatable, KeysFindable, KeysAt, KeyStands, MadeFrom, Look, Supported, MarkedBy, Checked, AllNamedIn, FirstMatch;
    var all := Considered(c, columns);
    ConsideredHaveKeys(c, of, autoCreated, columns, of', autoCreated');
    forall index <- c.indexes ensures IndexStands(c, index, autoCreated', columns, of') {
      var j: nat :| j < |Look(all, of')| && Look(all, of')[j].index == index && IsKey(Look(all, of')[j]);
      FlaggedStands(c, of, autoCreated, columns, of', autoCreated', j);
    }
    if AsksKeys(c.indexes, c.access, c.flags) {
      forall n | 0 <= n < |c.cat.keys.value| ensures NameStands(c, c.cat.keys.value[n], autoCreated', columns, of') {
        assert NameFlagged(Look(all, of'), c.cat.keys.value[n]);
        var j: nat :| FirstMatch(Look(all, of'), c.cat.keys.value[n], j) && IsKey(Look(all, of')[j]);
        MatchWithin(Look(all, of'), c.cat.keys.value[n], j);
        FlaggedStands(c, of, autoCreated, columns, of', autoCreated', j);
      }
    }
  }

  lemma MatchWithin(cols: seq<Column>, name: string, j: nat)
    requires FirstMatch(cols, name, j)
    ensures j < |cols|
  {
  }

  lemma KeysAsked(c: OpenCase, of: map<ColumnBuffer, FlagSet>, autoCreated: bool)
    requires WillPrepare(c, of, autoCreated)
    ensures AsksKeys(c.indexes, c.access, c.flags) ==> c.cat.keys.Some?
  {
    hide Found, AllCreatable, AllNamedIn, AllNamed, Checked, AsksKeys;
  }

  /** The type check alone decides whether a flagged column is left. */
  lemma FlaggedStands(c: OpenCase, of: map<ColumnBuffer, FlagSet>, autoCreated: bool,
      columns: seq<TableColumn>, of': map<ColumnBuffer, FlagSet>, autoCreated': bool, j: nat)
    requires Outcome(c, of, autoCreated, columns, of', autoCreated')
    requires j < |Considered(c, columns)| && IsKey(Look(Considered(c, columns), of')[j])
    ensures var t := Considered(c, columns)[j];
            KeyStands(c, t, autoCreated', columns, of') && Look(Considered(c, columns), of')[j].index == t.index
  {
    hide MadeFrom, MarkedIn, Supported, Test, NeedsColumns;
    SupportedMeaning(c.before, c.cat.types);
  }

  lemma ConsideredHaveKeys(c: OpenCase, of: map<ColumnBuffer, FlagSet>, autoCreated: bool,
      columns: seq<TableColumn>, of': map<ColumnBuffer, FlagSet>, autoCreated': bool)
    requires WillPrepare(c, of, autoCreated) && Outcome(c, of, autoCreated, columns, of', autoCreated')
    requires AsksKeys(c.indexes, c.access, c.flags) ==> c.cat.keys.Some?
    ensures var cols := Look(Considered(c, columns), of');
            && IndexesFlagged(cols, c.indexes)
            && (AsksKeys(c.indexes, c.access, c.flags) ==> KeysFlagged(cols, c.cat.keys.value))
  {
    hide Found, AllCreatable, KeysFindable, KeysAt, KeysFlagged, IndexesFlagged, MadeFrom, Look, Supported, MarkedBy, Checked, AllNamedIn;
    if NeedsColumns(c) {
      CreatedHasKeys(c, Look(columns, of'), CreatedOf(c.cat.columns.value));
    } else {
      KeysAreMarked(c.before, of, c.indexes, c.access, c.flags, c.cat);
    }
  }

  lemma CreatedHasKeys(c: OpenCase, cols: seq<Column>, created: seq<CatalogColumn>)
    requires MadeFrom(cols, c.access, created, KeysAt(c, created)) && KeysCreated(c, created)
    ensures IndexesFlagged(cols, c.indexes)
    ensures AsksKeys(c.indexes, c.access, c.flags) ==> KeysFlagged(cols, c.cat.keys.value)
  {
    hide IsKey, IsNamedKey, FirstNamed, IsNamed, MadeFlags, MadeFrom, NamedKeys;
    forall index <- c.indexes ensures exists j: nat :: j < |cols| && cols[j].index == index && IsKey(cols[j]) {
      MadeAt(cols, c.access, created, KeysAt(c, created), index);
    }
    if AsksKeys(c.indexes, c.access, c.flags) {
      forall n | 0 <= n < |c.cat.keys.value| ensures NameFlagged(cols, c.cat.keys.value[n]) {
        var j := NamedIsKey(created, c.cat.keys.value, n);
        MadeNames(cols, c.access, created, KeysAt(c, created), c.cat.keys.value[n]);
        MadeAt(cols, c.access, created, KeysAt(c, created), j);
        assert FirstMatch(cols, c.cat.keys.value[n], j) && IsKey(cols[j]);
      }
    }
  }

  lemma MadeAt(cols: seq<Column>, access: FlagSet, created: seq<CatalogColumn>, keys: set<nat>, i: nat)
    requires MadeFrom(cols, access, created, keys) && i < |created|
    ensures i < |cols| && cols[i].index == i && (i in keys ==> IsKey(cols[i]))
  {
    MadeMarks(cols, access, created, keys);
  }

  lemma NamedIsKey(created: seq<CatalogColumn>, names: seq<string>, n: nat) returns (j: nat)
    requires n < |names| && AllNamedIn(created, names)
    ensures FirstNamed(created, names[n], j) && j < |created| && j in NamedKeys(created, names)
  {
    assert IsNamed(created, names[n]);
    j :| j < |created| && created[j].queryName == names[n];
    j := FirstOf(created, names[n], j);
    assert IsNamedKey(created, names, j);
  }

  lemma {:induction false} FirstOf(created: seq<CatalogColumn>, name: string, i: nat) returns (j: nat)
    requires i < |created| && created[i].queryName == name
    ensures FirstNamed(created, name, j)
  {
    j := i;
    if k: nat :| k < i && created[k].queryName == name {
      j := FirstOf(created, name, k);
    }
  }

  lemma KeysWithin(c: OpenCase, created: seq<CatalogColumn>)
    ensures forall i <- KeysAt(c, created) :: i < |created|
  {
    hide IsNamedKey, AsksKeys;
  }

  /** CheckColumnFlags, and for columns that were set by hand CheckSqlTypes where asked for. A buffer whose
      column is dropped is destroyed unless the caller still holds it. */
  method CheckColumns(stmts: seq<ExecutableStatement>, m: Memory, columns: seq<TableColumn>, cols: seq<Column>, access: FlagSet,
      checkTypes: bool, skipUnsupported: bool, types: set<int>, kept: set<ColumnBuffer>, ghost w0: World) returns (ok: bool, left: seq<TableColumn>)
    requires Shape(stmts, m) && HeldSince(stmts, m, w0) && Ascending(columns) && BuffersOf(columns) <= m.bufs
    modifies m
    ensures Shape(stmts, m) && HeldSince(stmts, m, w0) && Shrinks(old(m.View()), m.View())
    ensures ok <==> Checked(columns, cols, access, checkTypes, skipUnsupported, types)
    ensures left == if ok && checkTypes then Supported(columns, types) else columns
    ensures Ascending(left) && BuffersOf(left) <= BuffersOf(columns)
    ensures m.bufs == old(m.bufs) - (BuffersOf(columns) - BuffersOf(left) - kept)
  {
    NoneDropped(m.bufs, columns, kept);
    SupportedFewer(columns, types);
    ok := CheckColumnFlags(cols, access);
    AllowedByMembers(cols, access);
    hide Shape, HeldSince, Ascending, BuffersOf, Supported, AllSupported, AllAllowed, FlagsAllowed;
    left := columns;
    if ok && checkTypes {
      ok, left := CheckSqlTypes(columns, types, skipUnsupported);
      LetGo(stmts, m, BuffersOf(columns) - BuffersOf(left) - kept, w0);
    }
  }

  lemma AllowedByMembers(cols: seq<Column>, access: FlagSet)
    ensures AllAllowed(cols, access) <==> forall c <- cols :: FlagsAllowed(access, c.flags)
  {
    hide FlagsAllowed;
    if AllAllowed(cols, access) {
      forall c <- cols ensures FlagsAllowed(access, c.flags) {
        var i :| 0 <= i < |cols| && cols[i] == c;
      }
    }
  }

  lemma NoneDropped(bufs: set<ColumnBuffer>, columns: seq<TableColumn>, kept: set<ColumnBuffer>)
    ensures bufs - (BuffersOf(columns) - BuffersOf(columns) - kept) == bufs
  {
  }

  lemma SupportedFewer(columns: seq<TableColumn>, types: set<int>)
    requires Ascending(columns)
    ensures Ascending(Supported(columns, types)) && BuffersOf(Supported(columns, types)) <= BuffersOf(columns)
  {
    SupportedAscending(columns, types);
    SupportedWithin(columns, types);
  }

  lemma {:induction false} SupportedWithin(columns: seq<TableColumn>, types: set<int>)
    ensures BuffersOf(Supported(columns, types)) <= BuffersOf(columns)
  {
    hide IsSupported;
    if columns != [] {
      var n := |columns| - 1;
      SupportedWithin(columns[..n], types);
      assert BuffersOf(columns[..n]) <= BuffersOf(columns) && columns[n].buffer in BuffersOf(columns);
    }
  }
}
