// m_columns: creating its buffers from the catalog, flagging the primary key, and the checks of Open.
module TableBuffers {
  import opened Flags
  import opened BindingSpec
  import opened SqlBuilder
  import opened TableColumns

  /** An element of m_columns. */
  datatype TableColumn = TableColumn(index: nat, buffer: ColumnBuffer)

  predicate Ascending(columns: seq<TableColumn>) {
    forall i, j | 0 <= i < j < |columns| :: columns[i].index < columns[j].index
  }

  function BuffersOf(columns: seq<TableColumn>): set<ColumnBuffer> {
    set i | 0 <= i < |columns| :: columns[i].buffer
  }

  /** The ColumnFlags part of every column buffer. */
  class FlagMemory {
    var of: map<ColumnBuffer, FlagSet>

    /** No buffer has any flag. */
    constructor ()
      ensures of == map[]
      ensures forall b, flag :: flag in COLUMN_FLAGS ==> !Test(FlagsIn(of, b), flag)
    {
      of := map[];
    }
  }

  function FlagsIn(of: map<ColumnBuffer, FlagSet>, b: ColumnBuffer): FlagSet {
    if b in of then of[b] else CF_NONE
  }

  function LookAt(c: TableColumn, of: map<ColumnBuffer, FlagSet>): Column {
    Column(c.index, c.buffer, c.buffer.queryName, FlagsIn(of, c.buffer))
  }

  /** The columns with the names of their buffers and the flags these have. */
  function Look(columns: seq<TableColumn>, of: map<ColumnBuffer, FlagSet>): (r: seq<Column>)
    ensures |r| == |columns|
    ensures forall i | 0 <= i < |columns| :: r[i] == LookAt(columns[i], of)
  {
    if columns == [] then [] else Look(columns[..|columns| - 1], of) + [LookAt(columns[|columns| - 1], of)]
  }

  lemma LookOrdered(columns: seq<TableColumn>, of: map<ColumnBuffer, FlagSet>)
    ensures Ordered(Look(columns, of)) <==> Ascending(columns)
  {
    hide Look;
    var cols := Look(columns, of);
    assert forall i | 0 <= i < |columns| :: cols[i].index == columns[i].index;
  }

  function InsertedAt(columns: seq<TableColumn>, i: nat, c: TableColumn): seq<TableColumn>
    requires i <= |columns|
  {
    columns[..i] + [c] + columns[i..]
  }

  /** m_columns[index] = buffer, for an index that is not there yet. */
  method InsertColumn(columns: seq<TableColumn>, c: TableColumn) returns (r: seq<TableColumn>)
    requires Ascending(columns) && !HasIndex(columns, c.index)
    ensures Ascending(r) && BuffersOf(r) == BuffersOf(columns) + {c.buffer}
    ensures exists i: nat :: i <= |columns| && r == InsertedAt(columns, i, c)
  {
    var i := 0;
    while i < |columns| && columns[i].index < c.index
      invariant 0 <= i <= |columns| && forall k | 0 <= k < i :: columns[k].index < c.index
    {
      i := i + 1;
    }
    r := InsertedAt(columns, i, c);
    forall k | i <= k < |columns| ensures c.index < columns[k].index { }
    InsertedBuffers(columns, c, i);
  }

  lemma InsertedBuffers(columns: seq<TableColumn>, c: TableColumn, i: nat)
    requires i <= |columns|
    ensures BuffersOf(columns[..i] + [c] + columns[i..]) == BuffersOf(columns) + {c.buffer}
  {
    var r := columns[..i] + [c] + columns[i..];
    forall b | b in BuffersOf(columns) ensures b in BuffersOf(r) {
      var k :| 0 <= k < |columns| && columns[k].buffer == b;
      assert r[if k < i then k else k + 1] == columns[k];
    }
    assert r[i] == c;
    forall b | b in BuffersOf(r) ensures b in BuffersOf(columns) + {c.buffer} {
      var k :| 0 <= k < |r| && r[k].buffer == b;
      assert k == i || r[k] == columns[if k < i then k else k - 1];
    }
  }

  // ---- flagging key columns

  /** CF_PRIMARY_KEY is set in these buffers. */
  function Marked(of: map<ColumnBuffer, FlagSet>, marked: set<ColumnBuffer>): map<ColumnBuffer, FlagSet> {
    map b | b in of.Keys + marked :: if b in marked then Set(FlagsIn(of, b), CF_PRIMARY_KEY) else of[b]
  }

  lemma MarkedMore(of: map<ColumnBuffer, FlagSet>, marked: set<ColumnBuffer>, more: set<ColumnBuffer>)
    ensures Marked(Marked(of, marked), more) == Marked(of, marked + more)
  {
    forall flags: FlagSet ensures Set(Set(flags, CF_PRIMARY_KEY), CF_PRIMARY_KEY) == Set(flags, CF_PRIMARY_KEY) { }
    hide Set;
  }

  lemma MarkedNothing(of: map<ColumnBuffer, FlagSet>)
    ensures Marked(of, {}) == of
  {
  }

  /** Which columns are key columns afterwards; no other flag changes. */
  lemma MarkedMeaning(columns: seq<TableColumn>, of: map<ColumnBuffer, FlagSet>, marked: set<ColumnBuffer>)
    ensures forall i | 0 <= i < |columns| ::
              var before, after := Look(columns, of)[i], Look(columns, Marked(of, marked))[i];
              && (IsKey(after) <==> IsKey(before) || columns[i].buffer in marked)
              && (IsSelected(after) <==> IsSelected(before)) && (IsInserted(after) <==> IsInserted(before))
              && (IsUpdated(after) <==> IsUpdated(before))
  {
    hide Test, Set;
    forall i | 0 <= i < |columns| {
      KeyMark(Look(columns, of)[i].flags);
    }
  }

  lemma KeyMark(flags: FlagSet)
    ensures var marked := Set(flags, CF_PRIMARY_KEY);
            && Test(marked, CF_PRIMARY_KEY) && Test(marked, CF_SELECT) == Test(flags, CF_SELECT)
            && Test(marked, CF_INSERT) == Test(flags, CF_INSERT) && Test(marked, CF_UPDATE) == Test(flags, CF_UPDATE)
  {
  }

  method Mark(fl: FlagMemory, b: ColumnBuffer)
    modifies fl
    ensures fl.of == Marked(old(fl.of), {b})
  {
    hide Set;
    fl.of := fl.of[b := Set(FlagsIn(fl.of, b), CF_PRIMARY_KEY)];
  }

  predicate HasIndex(columns: seq<TableColumn>, index: nat) {
    exists j :: 0 <= j < |columns| && columns[j].index == index
  }

  predicate HasName(cols: seq<Column>, name: string) {
    exists j :: 0 <= j < |cols| && cols[j].name == name
  }

  function ByIndex(columns: seq<TableColumn>, indexes: set<nat>): set<ColumnBuffer> {
    set i | 0 <= i < |columns| && columns[i].index in indexes :: columns[i].buffer
  }

  /** m_columns.find */
  method FindIndex(columns: seq<TableColumn>, index: nat) returns (found: bool, j: nat)
    requires Ascending(columns)
    ensures found <==> HasIndex(columns, index)
    ensures found ==> j < |columns| && columns[j].index == index && ByIndex(columns, {index}) == {columns[j].buffer}
  {
    for i := 0 to |columns|
      invariant forall k | 0 <= k < i :: columns[k].index != index
    {
      if columns[i].index == index {
        return true, i;
      }
    }
    return false, 0;
  }

  /** Flags the columns with these indexes. A missing index is an exception, and what has been flagged
      by then stays flagged. */
  method MarkIndexes(columns: seq<TableColumn>, indexes: set<nat>, fl: FlagMemory) returns (ok: bool)
    requires Ascending(columns)
    modifies fl
    ensures ok <==> forall index <- indexes :: HasIndex(columns, index)
    ensures ok ==> fl.of == Marked(old(fl.of), ByIndex(columns, indexes))
    ensures exists marked :: marked <= ByIndex(columns, indexes) && fl.of == Marked(old(fl.of), marked)
  {
    hide Marked, Ascending, HasIndex;
    var left := indexes;
    ghost var of := fl.of;
    MarkedNothing(of);
    assert ByIndex(columns, indexes - left) == {};
    while left != {}
      invariant left <= indexes
      invariant fl.of == Marked(of, ByIndex(columns, indexes - left))
      invariant forall index <- indexes - left :: HasIndex(columns, index)
    {
      var index :| index in left;
      var found, j := FindIndex(columns, index);
      if !found { return false; }
      Mark(fl, columns[j].buffer);
      MarkedMore(of, ByIndex(columns, indexes - left), {columns[j].buffer});
      ByIndexNext(columns, indexes, left, index);
      left := left - {index};
    }
    assert indexes - left == indexes;
    ok := true;
  }

  lemma ByIndexNext(columns: seq<TableColumn>, indexes: set<nat>, left: set<nat>, index: nat)
    requires index in left && left <= indexes
    ensures ByIndex(columns, indexes - (left - {index})) == ByIndex(columns, indexes - left) + ByIndex(columns, {index})
  {
  }

  function MatchesOf(cols: seq<Column>, name: string): set<ColumnBuffer> {
    set j: nat | j < |cols| && FirstMatch(cols, name, j) :: cols[j].buffer
  }

  /** For each of the names, the buffer of the first column with that name. */
  function FirstMatches(cols: seq<Column>, names: seq<string>): set<ColumnBuffer> {
    if names == [] then {} else FirstMatches(cols, names[..|names| - 1]) + MatchesOf(cols, names[|names| - 1])
  }

  lemma {:induction false} FirstMatchesMeaning(cols: seq<Column>, names: seq<string>)
    ensures forall i: nat, j: nat | i < |names| && j < |cols| && FirstMatch(cols, names[i], j) :: cols[j].buffer in FirstMatches(cols, names)
    ensures forall b <- FirstMatches(cols, names) :: exists i: nat, j: nat :: i < |names| && j < |cols| && FirstMatch(cols, names[i], j) && cols[j].buffer == b
  {
    hide FirstMatch;
    if names != [] {
      var front := names[..|names| - 1];
      FirstMatchesMeaning(cols, front);
      forall b <- FirstMatches(cols, names)
        ensures exists i: nat, j: nat :: i < |names| && j < |cols| && FirstMatch(cols, names[i], j) && cols[j].buffer == b
      {
        if b in FirstMatches(cols, front) {
          var i: nat, j: nat :| i < |front| && j < |cols| && FirstMatch(cols, front[i], j) && cols[j].buffer == b;
          assert names[i] == front[i];
        }
      }
      forall i: nat, j: nat | i < |names| && j < |cols| && FirstMatch(cols, names[i], j)
        ensures cols[j].buffer in FirstMatches(cols, names)
      {
        if i < |front| { assert front[i] == names[i]; }
      }
    }
  }

  /** QueryPrimaryKeysAndUpdateColumns: flags, for every key column the catalog reports, the first
      column with its name. */
  method MarkKeys(columns: seq<TableColumn>, keys: seq<string>, fl: FlagMemory) returns (ok: bool)
    modifies fl
    ensures ok <==> forall i | 0 <= i < |keys| :: HasName(Look(columns, old(fl.of)), keys[i])
    ensures ok ==> fl.of == Marked(old(fl.of), FirstMatches(Look(columns, old(fl.of)), keys))
    ensures exists marked :: marked <= FirstMatches(Look(columns, old(fl.of)), keys) && fl.of == Marked(old(fl.of), marked)
  {
    hide Marked, Look, HasName, FirstMatch, MatchesOf;
    ghost var of := fl.of;
    ghost var cols := Look(columns, of);
    MarkedNothing(of);
    for i := 0 to |keys|
      invariant fl.of == Marked(of, FirstMatches(cols, keys[..i]))
      invariant forall k | 0 <= k < i :: HasName(cols, keys[k])
    {
      var found, j := FindColumn(Look(columns, fl.of), keys[i]);
      NamesStay(columns, of, fl.of, keys[i]);
      FirstMatchesFewer(cols, keys, i);
      if !found {
        assert !HasName(cols, keys[i]);
        return false;
      }
      OneMatch(cols, keys[i], j);
      Mark(fl, columns[j].buffer);
      MarkedMore(of, FirstMatches(cols, keys[..i]), {columns[j].buffer});
      assert keys[..i + 1][..i] == keys[..i];
    }
    assert keys[..|keys|] == keys;
    ok := true;
  }

  lemma {:induction false} FirstMatchesFewer(cols: seq<Column>, names: seq<string>, n: nat)
    requires n <= |names|
    ensures FirstMatches(cols, names[..n]) <= FirstMatches(cols, names)
  {
    hide MatchesOf;
    if n == |names| {
      assert names[..n] == names;
    } else {
      FirstMatchesFewer(cols, names[..|names| - 1], n);
      assert names[..|names| - 1][..n] == names[..n];
    }
  }

  lemma {:induction false} FirstMatchesWithin(columns: seq<TableColumn>, of: map<ColumnBuffer, FlagSet>, names: seq<string>)
    ensures FirstMatches(Look(columns, of), names) <= BuffersOf(columns)
  {
    if names != [] {
      FirstMatchesWithin(columns, of, names[..|names| - 1]);
      hide Look, FirstMatch;
      assert MatchesOf(Look(columns, of), names[|names| - 1]) <= BuffersOf(columns);
    }
  }

  lemma NamesStay(columns: seq<TableColumn>, of: map<ColumnBuffer, FlagSet>, of': map<ColumnBuffer, FlagSet>, name: string)
    ensures var cols, cols' := Look(columns, of), Look(columns, of');
            && |cols| == |cols'| == |columns|
            && (forall j: nat :: FirstMatch(cols, name, j) <==> FirstMatch(cols', name, j))
            && (forall j | 0 <= j < |cols| :: cols[j].buffer == columns[j].buffer)
            && ((forall j | 0 <= j < |cols'| :: cols'[j].name != name) <==> !HasName(cols, name))
            && (forall j: nat :: FirstMatch(cols, name, j) ==> j < |columns|)
  {
  }

  lemma OneMatch(cols: seq<Column>, name: string, j: nat)
    requires FirstMatch(cols, name, j)
    ensures HasName(cols, name) && MatchesOf(cols, name) == {cols[j].buffer}
  {
  }

  /** For each of the names, the first column with that name is flagged as a key column. */
  ghost predicate KeysFlagged(cols: seq<Column>, names: seq<string>) {
    forall i | 0 <= i < |names| :: NameFlagged(cols, names[i])
  }

  ghost predicate NameFlagged(cols: seq<Column>, name: string) {
    exists j: nat :: FirstMatch(cols, name, j) && IsKey(cols[j])
  }

  /** There is a column with each of the indexes, and it is flagged as a key column. */
  ghost predicate IndexesFlagged(cols: seq<Column>, indexes: set<nat>) {
    forall index <- indexes :: exists j: nat :: j < |cols| && cols[j].index == index && IsKey(cols[j])
  }

  lemma {:induction false} SomeFirstMatch(cols: seq<Column>, name: string, i: nat)
    requires i < |cols| && cols[i].name == name
    ensures exists j: nat :: FirstMatch(cols, name, j)
  {
    if j: nat :| j < i && cols[j].name == name {
      SomeFirstMatch(cols, name, j);
    } else {
      assert FirstMatch(cols, name, i);
    }
  }

  /** After MarkKeys. */
  lemma KeysAreFlagged(columns: seq<TableColumn>, of: map<ColumnBuffer, FlagSet>, names: seq<string>)
    requires forall i | 0 <= i < |names| :: HasName(Look(columns, of), names[i])
    ensures KeysFlagged(Look(columns, Marked(of, FirstMatches(Look(columns, of), names))), names)
  {
    var cols, marked := Look(columns, of), FirstMatches(Look(columns, of), names);
    var of' := Marked(of, marked);
    forall i | 0 <= i < |names| ensures NameFlagged(Look(columns, of'), names[i]) {
      assert HasName(cols, names[i]);
      var k: nat :| k < |cols| && cols[k].name == names[i];
      SomeFirstMatch(cols, names[i], k);
      var j: nat :| FirstMatch(cols, names[i], j);
      KeyIsFlagged(columns, of, names, i, j);
    }
  }

  lemma KeyIsFlagged(columns: seq<TableColumn>, of: map<ColumnBuffer, FlagSet>, names: seq<string>, i: nat, j: nat)
    requires i < |names| && FirstMatch(Look(columns, of), names[i], j)
    ensures var of' := Marked(of, FirstMatches(Look(columns, of), names));
            FirstMatch(Look(columns, of'), names[i], j) && IsKey(Look(columns, of')[j])
  {
    var marked := FirstMatches(Look(columns, of), names);
    NamesStay(columns, of, Marked(of, marked), names[i]);
    hide FirstMatches, Look, LookAt, Marked, IsKey, FirstMatch;
    FirstMatchesMeaning(Look(columns, of), names);
    MarkedMeaning(columns, of, marked);
  }

  /** After MarkIndexes. */
  lemma IndexesAreFlagged(columns: seq<TableColumn>, of: map<ColumnBuffer, FlagSet>, indexes: set<nat>)
    requires forall index <- indexes :: HasIndex(columns, index)
    ensures IndexesFlagged(Look(columns, Marked(of, ByIndex(columns, indexes))), indexes)
  {
    var marked := ByIndex(columns, indexes);
    MarkedMeaning(columns, of, marked);
    forall index <- indexes
      ensures exists j: nat :: j < |columns| && Look(columns, Marked(of, marked))[j].index == index && IsKey(Look(columns, Marked(of, marked))[j])
    {
      assert HasIndex(columns, index);
      var j: nat :| j < |columns| && columns[j].index == index;
      assert columns[j].buffer in marked;
    }
  }

  // ---- checks

  method CheckColumnFlags(cols: seq<Column>, access: FlagSet) returns (ok: bool)
    ensures ok <==> forall c <- cols :: FlagsAllowed(access, c.flags)
  {
    for i := 0 to |cols|
      invariant forall k | 0 <= k < i :: FlagsAllowed(access, cols[k].flags)
    {
      var flags := cols[i].flags;
      if Test(flags, CF_SELECT) && !(Test(access, AF_SELECT_PK) || Test(access, AF_SELECT_WHERE)) { return false; }
      if Test(flags, CF_INSERT) && !Test(access, AF_INSERT) { return false; }
      if Test(flags, CF_UPDATE) && !(Test(access, AF_UPDATE_PK) || Test(access, AF_UPDATE_WHERE)) { return false; }
    }
    ok := true;
  }

  predicate IsSupported(c: TableColumn, types: set<int>) {
    c.buffer.sqlType in types
  }

  /** The columns of supported types, in their order, with their indexes. */
  function Supported(columns: seq<TableColumn>, types: set<int>): (r: seq<TableColumn>)
    ensures |r| <= |columns|
  {
    if columns == [] then []
    else
      var front := Supported(columns[..|columns| - 1], types);
      if IsSupported(columns[|columns| - 1], types) then front + [columns[|columns| - 1]] else front
  }

  lemma {:induction false} SupportedMeaning(columns: seq<TableColumn>, types: set<int>)
    ensures forall c :: c in Supported(columns, types) <==> c in columns && IsSupported(c, types)
  {
    hide IsSupported;
    if columns != [] {
      SupportedMeaning(columns[..|columns| - 1], types);
      assert columns == columns[..|columns| - 1] + [columns[|columns| - 1]];
    }
  }

  lemma {:induction false} SupportedAscending(columns: seq<TableColumn>, types: set<int>)
    requires Ascending(columns)
    ensures Ascending(Supported(columns, types))
    ensures forall i | 0 <= i < |Supported(columns, types)| :: Supported(columns, types)[i].index <= columns[|columns| - 1].index
  {
    hide IsSupported;
    if columns != [] {
      SupportedAscending(columns[..|columns| - 1], types);
    }
  }

  /** What CheckSqlTypes looks at, and what it leaves: the columns whose types are among these, in order. */
  lemma SupportedIs(columns: seq<TableColumn>, types: set<int>)
    ensures AllSupported(columns, types) <==> forall t <- columns :: t.buffer.sqlType in types
    ensures forall t :: t in Supported(columns, types) <==> t in columns && t.buffer.sqlType in types
    ensures Ascending(columns) ==> Ascending(Supported(columns, types))
  {
    SupportedMeaning(columns, types);
    if Ascending(columns) { SupportedAscending(columns, types); }
    hide Supported, Ascending;
    if AllSupported(columns, types) {
      forall t <- columns ensures t.buffer.sqlType in types {
        var k :| 0 <= k < |columns| && columns[k] == t;
        assert IsSupported(columns[k], types);
      }
    }
  }

  predicate AllSupported(columns: seq<TableColumn>, types: set<int>) {
    forall k | 0 <= k < |columns| :: IsSupported(columns[k], types)
  }

  /** The loop of CheckSqlTypes has looked at n columns and its iterator stands at it. */
  ghost predicate Erasing(left: seq<TableColumn>, it: nat, columns: seq<TableColumn>, n: nat, types: set<int>) {
    && n <= |columns| && it == |Supported(columns[..n], types)|
    && left == Supported(columns[..n], types) + columns[n..]
  }

  lemma ErasingNext(left: seq<TableColumn>, it: nat, columns: seq<TableColumn>, n: nat, types: set<int>)
    requires Erasing(left, it, columns, n, types) && it < |left|
    ensures n < |columns| && left[it] == columns[n]
    ensures if IsSupported(left[it], types) then Erasing(left, it + 1, columns, n + 1, types)
            else Erasing(left[..it] + left[it + 1..], it, columns, n + 1, types)
  {
    assert columns[..n + 1][..n] == columns[..n];
    hide IsSupported;
  }

  lemma ErasingEnds(left: seq<TableColumn>, it: nat, columns: seq<TableColumn>, n: nat, types: set<int>)
    requires Erasing(left, it, columns, n, types) && |left| <= it
    ensures n == |columns| && left == Supported(columns, types)
  {
    assert columns[..|columns|] == columns;
  }

  /** CheckSqlTypes: erases, while it iterates, the columns whose type the database does not support. */
  method CheckSqlTypes(columns: seq<TableColumn>, types: set<int>, removeUnsupported: bool) returns (ok: bool, left: seq<TableColumn>)
    ensures ok <==> removeUnsupported || AllSupported(columns, types)
    ensures left == if ok then Supported(columns, types) else columns
  {
    left := columns;
    var it: nat := 0;
    ghost var n := 0;
    assert Erasing(left, it, columns, n, types);
    hide Erasing, Supported;
    while it < |left|
      invariant n <= |columns| && Erasing(left, it, columns, n, types)
      invariant removeUnsupported || forall k | 0 <= k < n :: IsSupported(columns[k], types)
      decreases |columns| - n
    {
      ErasingNext(left, it, columns, n, types);
      if left[it].buffer.sqlType !in types {
        if !removeUnsupported { return false, columns; }
        left := left[..it] + left[it + 1..];
      } else {
        it := it + 1;
      }
      n := n + 1;
    }
    ErasingEnds(left, it, columns, n, types);
    ok := true;
  }
}
