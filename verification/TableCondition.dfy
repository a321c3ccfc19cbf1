// When Open succeeds, in the words of its documentation: what the flags ask for, what the columns are
// flagged as, and what the database answers. TablePrepare has the same condition step by step.
module TableCondition {
  import opened Flags
  import opened BindingSpec
  import opened SqlBuilder
  import opened TableColumns
  import opened TableBuffers
  import opened TableAuto
  import opened TableOpen
  import opened TablePrepare

  /** The table is known, or found now; where its existence is to be checked, a known one is still there. */
  predicate TableThere(c: OpenCase) {
    if c.had then !Test(c.flags, TOF_CHECK_EXISTANCE) || c.cat.stillThere else c.cat.found.Some?
  }

  /** Something is to be done by primary key. */
  predicate ByPrimaryKey(access: FlagSet) {
    Test(access, AF_SELECT_PK) || Test(access, AF_UPDATE_PK) || Test(access, AF_DELETE_PK)
  }

  /** The key was not set by its indexes, it is needed, and the catalog may be asked for it. */
  predicate AsksCatalog(c: OpenCase) {
    c.indexes == {} && ByPrimaryKey(c.access) && !Test(c.flags, TOF_DO_NOT_QUERY_PRIMARY_KEYS)
  }

  /** The database has no reason to drop or refuse this column. */
  predicate TypeServes(c: OpenCase, autoCreated: bool, t: TableColumn) {
    autoCreated || !Test(c.flags, TOF_CHECK_DB_TYPE_INFOS) || t.buffer.sqlType in c.cat.types
  }

  /** A column only has flags that the access flags have a use for. */
  predicate FlagsServe(access: FlagSet, flags: FlagSet) {
    && (Test(access, AF_SELECT_PK) || Test(access, AF_SELECT_WHERE) || !Test(flags, CF_SELECT))
    && (Test(access, AF_UPDATE_PK) || Test(access, AF_UPDATE_WHERE) || !Test(flags, CF_UPDATE))
    && (Test(access, AF_INSERT) || !Test(flags, CF_INSERT))
  }

  /** The i-th of these columns is the first with one of these names. */
  predicate FirstNamedSo(columns: seq<TableColumn>, names: seq<string>, i: nat) {
    i < |columns| && columns[i].buffer.queryName in names && forall j | 0 <= j < i :: columns[j].buffer.queryName != columns[i].buffer.queryName
  }

  /** Open finds this buffer to be a key's: that of a column at an index that was set, or of the first column
      with a name that the catalog reports. */
  ghost predicate FoundAsKey(c: OpenCase, b: ColumnBuffer) {
    || (exists i :: 0 <= i < |c.before| && c.before[i].index in c.indexes && c.before[i].buffer == b)
    || (AsksCatalog(c) && c.cat.keys.Some? && exists i: nat :: FirstNamedSo(c.before, c.cat.keys.value, i) && c.before[i].buffer == b)
  }

  /** This column is a key column then, if it was not flagged as one before. */
  ghost predicate IsKeyThen(c: OpenCase, of: map<ColumnBuffer, FlagSet>, t: TableColumn) {
    Test(FlagsIn(of, t.buffer), CF_PRIMARY_KEY) || FoundAsKey(c, t.buffer)
  }

  /** The key columns that were set, or that the catalog reports, are among these columns. */
  ghost predicate KeysThere(c: OpenCase) {
    && (forall index <- c.indexes :: exists t :: t in c.before && t.index == index)
    && (AsksCatalog(c) ==> c.cat.keys.Some? && forall name <- c.cat.keys.value :: exists t :: t in c.before && t.buffer.queryName == name)
  }

  /** With columns that were set by hand, or where none are needed, Open has no reason to fail. */
  ghost predicate GivenServe(c: OpenCase, of: map<ColumnBuffer, FlagSet>, autoCreated: bool) {
    && TableThere(c) && KeysThere(c)
    && (forall t <- c.before :: FlagsServe(c.access, FlagsIn(of, t.buffer)))
    && (Test(c.flags, TOF_SKIP_UNSUPPORTED_COLUMNS) || forall t <- c.before :: TypeServes(c, autoCreated, t))
    && (ByPrimaryKey(c.access) ==> exists t :: t in c.before && TypeServes(c, autoCreated, t) && IsKeyThen(c, of, t))
    && (Test(c.access, AF_UPDATE_PK) ==>
          exists t :: t in c.before && TypeServes(c, autoCreated, t) && Test(FlagsIn(of, t.buffer), CF_UPDATE) && !IsKeyThen(c, of, t))
    && (Test(c.access, AF_INSERT) ==>
          exists t :: t in c.before && TypeServes(c, autoCreated, t) && Test(FlagsIn(of, t.buffer), CF_INSERT))
  }

  /** Position i of the created columns is that of a key column. */
  predicate IsKeyAt(c: OpenCase, created: seq<CatalogColumn>, i: nat) {
    && i < |created|
    && (i in c.indexes
        || (AsksCatalog(c) && c.cat.keys.Some? && created[i].queryName in c.cat.keys.value
            && forall j | 0 <= j < i :: created[j].queryName != created[i].queryName))
  }

  /** With columns from the catalog Open has no reason to fail. */
  ghost predicate CatalogServes(c: OpenCase) {
    && TableThere(c) && c.cat.columns.Some? && 0 < |c.cat.columns.value| <= 32767
    && (forall info <- c.cat.columns.value ::
          info.creation == Created || (info.creation == Unsupported && Test(c.flags, TOF_SKIP_UNSUPPORTED_COLUMNS)))
    && var created := CreatedOf(c.cat.columns.value);
       && (forall index <- c.indexes :: index < |created|)
       && (AsksCatalog(c) ==> c.cat.keys.Some? && forall name <- c.cat.keys.value :: exists info :: info in created && info.queryName == name)
       && (ByPrimaryKey(c.access) ==> exists i :: IsKeyAt(c, created, i))
       && (Test(c.access, AF_UPDATE_PK) ==> exists i: nat :: i < |created| && !IsKeyAt(c, created, i))
       && (Test(c.access, AF_INSERT) ==> created != [])
  }

  /** Columns are created where none have been set and the table is for more than counting. */
  predicate Creates(c: OpenCase) {
    c.before == [] && c.access != AF_NONE && c.access != AF_COUNT_WHERE
  }

  /** The condition on which Open succeeds with a driver that refuses nothing. */
  lemma WillOpenIff(c: OpenCase, of: map<ColumnBuffer, FlagSet>, autoCreated: bool)
    ensures WillOpen(c, of, autoCreated) <==> if Creates(c) then CatalogServes(c) else GivenServe(c, of, autoCreated)
  {
    hide WillPrepare, WillBind, CatalogServes, GivenServe;
    if Creates(c) {
      CatalogIff(c, of, autoCreated);
    } else {
      GivenIff(c, of, autoCreated);
    }
  }

  // ---- columns from the catalog

  lemma CatalogIff(c: OpenCase, of: map<ColumnBuffer, FlagSet>, autoCreated: bool)
    requires Creates(c)
    ensures WillPrepare(c, of, autoCreated) && WillBind(c, of, autoCreated) <==> CatalogServes(c)
  {
    hide KeysAt, KeysCreated, IsKeyAt, AsksCatalog, AllCreatable, CreatedOf, Passes, Suffices;
    if c.cat.columns.Some? {
      CreatableIff(c.cat.columns.value, Test(c.flags, TOF_SKIP_UNSUPPORTED_COLUMNS));
      var created := CreatedOf(c.cat.columns.value);
      KeysCreatedIff(c, created);
      forall i: nat ensures i in KeysAt(c, created) <==> IsKeyAt(c, created, i) { KeyAtIff(c, created, i); }
      assert KeysAt(c, created) != {} <==> exists i :: IsKeyAt(c, created, i) by {
        if i :| IsKeyAt(c, created, i) { assert i in KeysAt(c, created); }
        if i :| i in KeysAt(c, created) { assert IsKeyAt(c, created, i); }
      }
    }
  }

  lemma CreatableIff(infos: seq<CatalogColumn>, skip: bool)
    ensures AllCreatable(infos, skip) <==> forall info <- infos :: info.creation == Created || (info.creation == Unsupported && skip)
  {
    if AllCreatable(infos, skip) {
      forall info <- infos ensures CanCreate(info, skip) {
        var i :| 0 <= i < |infos| && infos[i] == info;
      }
    }
  }

  lemma AsksIff(c: OpenCase)
    ensures AsksCatalog(c) <==> AsksKeys(c.indexes, c.access, c.flags)
  {
    hide Test;
  }

  lemma KeysCreatedIff(c: OpenCase, created: seq<CatalogColumn>)
    ensures KeysCreated(c, created) <==>
              && (forall index <- c.indexes :: index < |created|)
              && (AsksCatalog(c) ==> c.cat.keys.Some? && forall name <- c.cat.keys.value :: exists info :: info in created && info.queryName == name)
  {
    AsksIff(c);
    hide AsksCatalog, AsksKeys, IsNamed;
    if c.cat.keys.Some? {
      NamedIff(created, c.cat.keys.value);
    }
  }

  lemma NamedIff(created: seq<CatalogColumn>, names: seq<string>)
    ensures AllNamedIn(created, names) <==> forall name <- names :: exists info :: info in created && info.queryName == name
  {
    forall name: string ensures IsNamed(created, name) <==> exists info :: info in created && info.queryName == name {
      if IsNamed(created, name) {
        var j :| 0 <= j < |created| && created[j].queryName == name;
        assert created[j] in created;
      }
      if info :| info in created && info.queryName == name {
        var j :| 0 <= j < |created| && created[j] == info;
      }
    }
    hide IsNamed;
    if AllNamedIn(created, names) {
      forall name <- names ensures IsNamed(created, name) {
        var n :| 0 <= n < |names| && names[n] == name;
      }
    }
    if forall name <- names :: exists info :: info in created && info.queryName == name {
      forall n | 0 <= n < |names| ensures IsNamed(created, names[n]) { assert names[n] in names; }
    }
  }

  lemma KeyAtIff(c: OpenCase, created: seq<CatalogColumn>, i: nat)
    ensures i in KeysAt(c, created) <==> IsKeyAt(c, created, i)
  {
    AsksIff(c);
    hide AsksKeys, FirstNamed;
    if c.cat.keys.Some? && i < |created| {
      NamedKeyIff(created, c.cat.keys.value, i);
    }
    assert c.indexes != {} ==> !AsksCatalog(c);
  }

  lemma NamedKeyIff(created: seq<CatalogColumn>, names: seq<string>, i: nat)
    requires i < |created|
    ensures IsNamedKey(created, names, i)
       <==> created[i].queryName in names && forall j | 0 <= j < i :: created[j].queryName != created[i].queryName
  {
    if created[i].queryName in names && forall j | 0 <= j < i :: created[j].queryName != created[i].queryName {
      var n :| 0 <= n < |names| && names[n] == created[i].queryName;
      assert FirstNamed(created, names[n], i);
    }
  }

  // ---- columns set by hand

  lemma GivenIff(c: OpenCase, of: map<ColumnBuffer, FlagSet>, autoCreated: bool)
    requires !Creates(c)
    ensures WillPrepare(c, of, autoCreated) && WillBind(c, of, autoCreated) <==> GivenServe(c, of, autoCreated)
  {
    hide KeysFindable, KeysThere, Checked, FlagsServe, TypeServes, IsKeyThen, Bindable, MarkedIn, Settled, Look, ChecksTypes;
    KeysFindableIff(c);
    CheckedIff(c, of, autoCreated);
    SufficesIff(c, of, autoCreated);
    hide Test;
  }

  lemma KeysFindableIff(c: OpenCase)
    ensures KeysFindable(c.before, c.indexes, c.access, c.flags, c.cat) <==> KeysThere(c)
  {
    AsksIff(c);
    hide AsksKeys, AsksCatalog, HasName, Look;
    forall index: nat ensures HasIndex(c.before, index) <==> exists t :: t in c.before && t.index == index {
      IndexIff(c.before, index);
    }
    hide HasIndex;
    if c.cat.keys.Some? {
      AllNamedIff(c.before, c.cat.keys.value);
    }
  }

  lemma IndexIff(columns: seq<TableColumn>, index: nat)
    ensures HasIndex(columns, index) <==> exists t :: t in columns && t.index == index
  {
    if HasIndex(columns, index) {
      var j :| 0 <= j < |columns| && columns[j].index == index;
      assert columns[j] in columns;
    }
    if t :| t in columns && t.index == index {
      var j :| 0 <= j < |columns| && columns[j] == t;
    }
  }

  lemma AllNamedIff(columns: seq<TableColumn>, names: seq<string>)
    ensures AllNamed(Look(columns, map[]), names) <==> forall name <- names :: exists t :: t in columns && t.buffer.queryName == name
  {
    forall name: string ensures HasName(Look(columns, map[]), name) <==> exists t :: t in columns && t.buffer.queryName == name {
      NameIff(columns, name);
    }
    hide HasName, Look;
    if AllNamed(Look(columns, map[]), names) {
      forall name <- names ensures HasName(Look(columns, map[]), name) {
        var n :| 0 <= n < |names| && names[n] == name;
      }
    }
    if forall name <- names :: exists t :: t in columns && t.buffer.queryName == name {
      forall n | 0 <= n < |names| ensures HasName(Look(columns, map[]), names[n]) { assert names[n] in names; }
    }
  }

  lemma NameIff(columns: seq<TableColumn>, name: string)
    ensures HasName(Look(columns, map[]), name) <==> exists t :: t in columns && t.buffer.queryName == name
  {
    var cols := Look(columns, map[]);
    hide Look;
    if HasName(cols, name) {
      var j :| 0 <= j < |cols| && cols[j].name == name;
      assert columns[j] in columns;
    }
    if t :| t in columns && t.buffer.queryName == name {
      var j :| 0 <= j < |columns| && columns[j] == t;
      assert cols[j].name == name;
    }
  }

  lemma CheckedIff(c: OpenCase, of: map<ColumnBuffer, FlagSet>, autoCreated: bool)
    ensures Checked(c.before, Look(c.before, MarkedIn(c, c.before, of)), c.access, ChecksTypes(c, autoCreated),
                    Test(c.flags, TOF_SKIP_UNSUPPORTED_COLUMNS), c.cat.types)
       <==> (forall t <- c.before :: FlagsServe(c.access, FlagsIn(of, t.buffer)))
            && (Test(c.flags, TOF_SKIP_UNSUPPORTED_COLUMNS) || forall t <- c.before :: TypeServes(c, autoCreated, t))
  {
    MarkedFlagsIff(c.before, of, c.access, KeysIn(c, c.before, of));
    hide Look, FlagsAllowed, FlagsServe, Marked, KeyBuffers, Test;
    if AllSupported(c.before, c.cat.types) {
      forall t <- c.before ensures t.buffer.sqlType in c.cat.types {
        var k :| 0 <= k < |c.before| && c.before[k] == t;
        assert IsSupported(c.before[k], c.cat.types);
      }
    }
  }

  lemma MarkedFlagsIff(columns: seq<TableColumn>, of: map<ColumnBuffer, FlagSet>, access: FlagSet, keys: set<ColumnBuffer>)
    ensures AllAllowed(Look(columns, Marked(of, keys)), access) <==> forall t <- columns :: FlagsServe(access, FlagsIn(of, t.buffer))
  {
    hide Look, FlagsAllowed, FlagsServe, Set;
    var cols := Look(columns, Marked(of, keys));
    forall i | 0 <= i < |columns| ensures FlagsAllowed(access, cols[i].flags) <==> FlagsServe(access, FlagsIn(of, columns[i].buffer)) {
      AllowedWithMarks(access, FlagsIn(of, columns[i].buffer), CF_PRIMARY_KEY);
      AllowedIff(access, FlagsIn(of, columns[i].buffer));
    }
    if AllAllowed(cols, access) {
      forall t <- columns ensures FlagsServe(access, FlagsIn(of, t.buffer)) {
        var i :| 0 <= i < |columns| && columns[i] == t;
        assert FlagsAllowed(access, cols[i].flags);
      }
    }
  }

  lemma AllowedIff(access: FlagSet, flags: FlagSet)
    ensures FlagsAllowed(access, flags) <==> FlagsServe(access, flags)
  {
    hide Test;
  }

  /** What is left suffices: some left column with each of the properties that the lists are made by. */
  lemma SufficesIff(c: OpenCase, of: map<ColumnBuffer, FlagSet>, autoCreated: bool)
    ensures Bindable(c.access, Look(Settled(c, c.before, autoCreated), MarkedIn(c, c.before, of))) <==>
              && (ByPrimaryKey(c.access) ==> exists t :: t in c.before && TypeServes(c, autoCreated, t) && IsKeyThen(c, of, t))
              && (Test(c.access, AF_UPDATE_PK) ==>
                    exists t :: t in c.before && TypeServes(c, autoCreated, t) && Test(FlagsIn(of, t.buffer), CF_UPDATE) && !IsKeyThen(c, of, t))
              && (Test(c.access, AF_INSERT) ==>
                    exists t :: t in c.before && TypeServes(c, autoCreated, t) && Test(FlagsIn(of, t.buffer), CF_INSERT))
  {
    hide Settled, MarkedIn, Look, IsKeyThen, TypeServes, Filter, Test;
    KeyLeftIff(c, of, autoCreated);
    SetLeftIff(c, of, autoCreated);
    InsertedLeftIff(c, of, autoCreated);
  }

  function Left(c: OpenCase, of: map<ColumnBuffer, FlagSet>, autoCreated: bool): seq<Column> {
    Look(Settled(c, c.before, autoCreated), MarkedIn(c, c.before, of))
  }

  lemma KeyLeftIff(c: OpenCase, of: map<ColumnBuffer, FlagSet>, autoCreated: bool)
    ensures Filter(Left(c, of, autoCreated), IsKey) != []
       <==> exists t :: t in c.before && TypeServes(c, autoCreated, t) && IsKeyThen(c, of, t)
  {
    LeftSomeIff(c, of, autoCreated, IsKey);
    forall t | t in c.before ensures IsKey(LookAt(t, MarkedIn(c, c.before, of))) <==> IsKeyThen(c, of, t) { KeyThenIff(c, of, t); }
    hide Left, MarkedIn, LookAt, IsKeyThen, TypeServes, IsKey, Filter;
  }

  lemma SetLeftIff(c: OpenCase, of: map<ColumnBuffer, FlagSet>, autoCreated: bool)
    ensures Filter(Left(c, of, autoCreated), IsSet) != []
       <==> exists t :: t in c.before && TypeServes(c, autoCreated, t) && Test(FlagsIn(of, t.buffer), CF_UPDATE) && !IsKeyThen(c, of, t)
  {
    LeftSomeIff(c, of, autoCreated, IsSet);
    forall t | t in c.before
      ensures IsSet(LookAt(t, MarkedIn(c, c.before, of))) <==> Test(FlagsIn(of, t.buffer), CF_UPDATE) && !IsKeyThen(c, of, t)
    {
      KeyThenIff(c, of, t);
    }
    hide Left, MarkedIn, LookAt, IsKeyThen, TypeServes, IsSet, Filter, Test;
  }

  lemma InsertedLeftIff(c: OpenCase, of: map<ColumnBuffer, FlagSet>, autoCreated: bool)
    ensures Filter(Left(c, of, autoCreated), IsInserted) != []
       <==> exists t :: t in c.before && TypeServes(c, autoCreated, t) && Test(FlagsIn(of, t.buffer), CF_INSERT)
  {
    LeftSomeIff(c, of, autoCreated, IsInserted);
    forall t | t in c.before ensures IsInserted(LookAt(t, MarkedIn(c, c.before, of))) <==> Test(FlagsIn(of, t.buffer), CF_INSERT) {
      KeyThenIff(c, of, t);
    }
    hide Left, MarkedIn, LookAt, TypeServes, IsInserted, Filter, Test;
  }

  /** Some column that is left has property p. */
  lemma LeftSomeIff(c: OpenCase, of: map<ColumnBuffer, FlagSet>, autoCreated: bool, p: Column -> bool)
    ensures Filter(Left(c, of, autoCreated), p) != []
       <==> exists t :: t in c.before && TypeServes(c, autoCreated, t) && p(LookAt(t, MarkedIn(c, c.before, of)))
  {
    hide Settled, MarkedIn, LookAt, TypeServes, Filter;
    var left, of' := Settled(c, c.before, autoCreated), MarkedIn(c, c.before, of);
    FilterSome(Look(left, of'), p);
    LeftIff(c, autoCreated);
    SomeIff(left, Look(left, of'), of', p);
  }

  lemma SomeIff(columns: seq<TableColumn>, cols: seq<Column>, of: map<ColumnBuffer, FlagSet>, p: Column -> bool)
    requires |cols| == |columns| && forall i | 0 <= i < |columns| :: cols[i] == LookAt(columns[i], of)
    ensures (exists i :: 0 <= i < |cols| && p(cols[i])) <==> exists t :: t in columns && p(LookAt(t, of))
  {
    hide LookAt;
    if i :| 0 <= i < |cols| && p(cols[i]) { assert columns[i] in columns; }
    if t :| t in columns && p(LookAt(t, of)) {
      var i :| 0 <= i < |columns| && columns[i] == t;
      assert p(cols[i]);
    }
  }

  lemma LeftIff(c: OpenCase, autoCreated: bool)
    ensures forall t :: t in Settled(c, c.before, autoCreated) <==> t in c.before && TypeServes(c, autoCreated, t)
  {
    SupportedMeaning(c.before, c.cat.types);
    hide Supported, Test;
  }

  lemma KeyThenIff(c: OpenCase, of: map<ColumnBuffer, FlagSet>, t: TableColumn)
    ensures var then' := LookAt(t, MarkedIn(c, c.before, of));
            && (IsKey(then') <==> IsKeyThen(c, of, t))
            && (IsUpdated(then') <==> Test(FlagsIn(of, t.buffer), CF_UPDATE))
            && (IsInserted(then') <==> Test(FlagsIn(of, t.buffer), CF_INSERT))
  {
    KeyMark(FlagsIn(of, t.buffer));
    KeyBuffersIff(c, of, t.buffer);
    hide KeyBuffers, FoundAsKey, Set, Test;
  }

  lemma KeyBuffersIff(c: OpenCase, of: map<ColumnBuffer, FlagSet>, b: ColumnBuffer)
    ensures b in KeysIn(c, c.before, of) <==> FoundAsKey(c, b)
  {
    AsksIff(c);
    assert AsksCatalog(c) ==> c.indexes == {};
    hide AsksKeys, AsksCatalog, FirstMatches, FirstNamedSo;
    if c.cat.keys.Some? {
      FirstMatchesIff(c.before, of, c.cat.keys.value, b);
    }
  }

  lemma FirstMatchesIff(columns: seq<TableColumn>, of: map<ColumnBuffer, FlagSet>, names: seq<string>, b: ColumnBuffer)
    ensures b in FirstMatches(Look(columns, of), names) <==> exists i: nat :: FirstNamedSo(columns, names, i) && columns[i].buffer == b
  {
    var cols := Look(columns, of);
    FirstMatchesMeaning(cols, names);
    hide Look, FirstMatches;
    if b in FirstMatches(cols, names) {
      var n: nat, j: nat :| n < |names| && j < |cols| && FirstMatch(cols, names[n], j) && cols[j].buffer == b;
      assert columns[j].buffer.queryName == cols[j].name == names[n];
      assert forall k | 0 <= k < j :: columns[k].buffer.queryName == cols[k].name;
      assert FirstNamedSo(columns, names, j);
    }
    if i: nat :| FirstNamedSo(columns, names, i) && columns[i].buffer == b {
      var n :| 0 <= n < |names| && names[n] == columns[i].buffer.queryName;
      assert forall k | 0 <= k < i :: columns[k].buffer.queryName == cols[k].name;
      assert FirstMatch(cols, names[n], i);
    }
  }

  // ---- what Open leaves when it succeeds

  /** Of columns set by hand those whose types serve are left, in order; the key columns among all of them are
      flagged as such, and no other flag has changed. */
  lemma GivenOutcome(c: OpenCase, of: map<ColumnBuffer, FlagSet>, autoCreated: bool,
      columns: seq<TableColumn>, of': map<ColumnBuffer, FlagSet>, autoCreated': bool)
    requires !Creates(c) && Outcome(c, of, autoCreated, columns, of', autoCreated')
    ensures autoCreated' == autoCreated
    ensures forall t :: t in columns <==> t in c.before && TypeServes(c, autoCreated, t)
    ensures Ascending(c.before) ==> Ascending(columns)
    ensures forall t <- c.before :: Test(FlagsIn(of', t.buffer), CF_PRIMARY_KEY) <==> IsKeyThen(c, of, t)
    ensures forall b :: FlagsIn(of', b) == FlagsIn(of, b) || FlagsIn(of', b) == Set(FlagsIn(of, b), CF_PRIMARY_KEY)
  {
    LeftIff(c, autoCreated);
    if Ascending(c.before) { SupportedAscending(c.before, c.cat.types); }
    forall t <- c.before ensures Test(FlagsIn(of', t.buffer), CF_PRIMARY_KEY) <==> IsKeyThen(c, of, t) {
      KeyThenIff(c, of, t);
    }
    hide Supported, Ascending, KeyBuffers, IsKeyThen, TypeServes, Test, Set;
  }

  /** Columns from the catalog are numbered in its order, each with a new buffer for the name and type it
      reports; they are flagged for all that the access flags allow, as keys where they are keys, and as
      nullable if they, or columns before them, are. */
  lemma CatalogOutcome(c: OpenCase, of: map<ColumnBuffer, FlagSet>, autoCreated: bool,
      columns: seq<TableColumn>, of': map<ColumnBuffer, FlagSet>, autoCreated': bool)
    requires Creates(c) && Outcome(c, of, autoCreated, columns, of', autoCreated')
    ensures autoCreated' && c.cat.columns.Some? && |columns| == |CreatedOf(c.cat.columns.value)|
    ensures forall i, j | 0 <= i < j < |columns| :: columns[i].buffer != columns[j].buffer
    ensures forall i: nat | i < |columns| :: CreatedAs(c, CreatedOf(c.cat.columns.value), i, columns[i], FlagsIn(of', columns[i].buffer))
  {
    var created := CreatedOf(c.cat.columns.value);
    var cols := Look(columns, of');
    hide Look, CreatedOf, CreatedAs, IsKeyAt, KeysAt, MadeFlags, Test;
    assert |cols| == |columns| && forall i | 0 <= i < |columns| :: cols[i] == LookAt(columns[i], of');
    forall i, j | 0 <= i < j < |columns| ensures columns[i].buffer != columns[j].buffer { assert cols[i].buffer != cols[j].buffer; }
    forall i: nat | i < |columns| ensures CreatedAs(c, created, i, columns[i], FlagsIn(of', columns[i].buffer)) {
      assert cols[i] == Column(i, cols[i].buffer, created[i].queryName, MadeFlags(c.access, created, KeysAt(c, created), i));
      KeyAtIff(c, created, i);
      MadeAs(c, created, i, columns[i]);
    }
  }

  ghost predicate CreatedAs(c: OpenCase, created: seq<CatalogColumn>, i: nat, t: TableColumn, flags: FlagSet)
    requires i < |created|
  {
    && t.index == i && t.buffer.queryName == created[i].queryName && t.buffer.sqlType == created[i].sqlType
    && (Test(flags, CF_SELECT) <==> Test(c.access, AF_SELECT_WHERE) || Test(c.access, AF_SELECT_PK))
    && (Test(flags, CF_UPDATE) <==> Test(c.access, AF_UPDATE_WHERE) || Test(c.access, AF_UPDATE_PK))
    && (Test(flags, CF_INSERT) <==> Test(c.access, AF_INSERT))
    && (Test(flags, CF_PRIMARY_KEY) <==> IsKeyAt(c, created, i))
    && (Test(flags, CF_NULLABLE) <==> exists j :: 0 <= j <= i && created[j].nullable)
  }

  lemma MadeAs(c: OpenCase, created: seq<CatalogColumn>, i: nat, t: TableColumn)
    requires i < |created| && t.index == i && t.buffer.queryName == created[i].queryName && t.buffer.sqlType == created[i].sqlType
    requires i in KeysAt(c, created) <==> IsKeyAt(c, created, i)
    ensures CreatedAs(c, created, i, t, MadeFlags(c.access, created, KeysAt(c, created), i))
  {
    var upTo := created[..i + 1];
    MadeFlagsMeaning(c.access, created, KeysAt(c, created), i);
    FlagsAfterMeaning(c.access, upTo);
    NullableStays(FlagsOf(c.access, created, i));
    hide Test, Set, KeysAt, IsKeyAt, FlagsAfter;
    if j :| 0 <= j <= i && created[j].nullable { assert upTo[j].nullable; }
  }

  lemma NullableStays(flags: FlagSet)
    ensures Test(Set(flags, CF_PRIMARY_KEY), CF_NULLABLE) <==> Test(flags, CF_NULLABLE)
  {
  }
}
