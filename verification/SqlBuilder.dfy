// The statement texts Table builds from its columns, and which column each parameter marker is for.
module SqlBuilder {
  import opened Flags
  import opened Text
  import opened BindingSpec

  /** An element of m_columns, with the buffer's name and flags at the moment it is looked at. */
  datatype Column = Column(index: nat, buffer: ColumnBuffer, name: string, flags: FlagSet)

  /** A std::map is iterated in the order of its keys, which are distinct. */
  predicate Ordered(cols: seq<Column>) {
    forall i, j | 0 <= i < j < |cols| :: cols[i].index < cols[j].index
  }

  predicate IsKey(c: Column) { Test(c.flags, CF_PRIMARY_KEY) }
  predicate IsSelected(c: Column) { Test(c.flags, CF_SELECT) }
  predicate IsInserted(c: Column) { Test(c.flags, CF_INSERT) }
  predicate IsUpdated(c: Column) { Test(c.flags, CF_UPDATE) }
  predicate IsSet(c: Column) { IsUpdated(c) && !IsKey(c) }

  /** The columns that satisfy p, in their order. */
  function Filter(cols: seq<Column>, p: Column -> bool): (r: seq<Column>)
    ensures |r| <= |cols|
  {
    if cols == [] then []
    else
      var front := Filter(cols[..|cols| - 1], p);
      if p(cols[|cols| - 1]) then front + [cols[|cols| - 1]] else front
  }

  lemma {:induction false} FilterMeaning(cols: seq<Column>, p: Column -> bool)
    ensures forall c <- Filter(cols, p) :: c in cols && p(c)
    ensures forall c <- cols :: p(c) ==> c in Filter(cols, p)
  {
    if cols != [] {
      FilterMeaning(cols[..|cols| - 1], p);
    }
  }

  lemma {:induction false} FilterStays(cols: seq<Column>, p: Column -> bool, bufs: set<ColumnBuffer>)
    requires forall c <- cols :: c.buffer in bufs
    ensures forall c <- Filter(cols, p) :: c.buffer in bufs
  {
    if cols != [] {
      FilterStays(cols[..|cols| - 1], p, bufs);
    }
  }

  /** Filtering keeps the order of the indexes, so nothing is listed twice. */
  lemma {:induction false} FilterOrdered(cols: seq<Column>, p: Column -> bool)
    requires Ordered(cols)
    ensures Ordered(Filter(cols, p))
    ensures forall i | 0 <= i < |Filter(cols, p)| :: Filter(cols, p)[i].index <= cols[|cols| - 1].index
  {
    if cols != [] {
      var front := cols[..|cols| - 1];
      FilterOrdered(front, p);
    }
  }

  function Names(cols: seq<Column>): (r: seq<string>)
    ensures |r| == |cols|
  {
    if cols == [] then [] else Names(cols[..|cols| - 1]) + [cols[|cols| - 1].name]
  }

  function Markers(cols: seq<Column>): (r: seq<string>)
    ensures |r| == |cols|
  {
    if cols == [] then [] else Markers(cols[..|cols| - 1]) + [cols[|cols| - 1].name + " = ?"]
  }

  function Marks(n: nat): (r: seq<string>)
    ensures |r| == n
  {
    if n == 0 then [] else Marks(n - 1) + ["?"]
  }

  const SEP: string := ", "

  function MarkerList(cols: seq<Column>): string { Join(Markers(cols), SEP) }

  function FieldList(cols: seq<Column>): string { Join(Names(Filter(cols, IsSelected)), SEP) }

  function UpdateText(table: string, set': seq<Column>, where: string): string {
    "UPDATE " + table + " SET " + MarkerList(set') + " WHERE " + where
  }

  function DeleteText(table: string, where: string): string {
    "DELETE FROM " + table + " WHERE " + where
  }

  function InsertText(table: string, cols: seq<Column>): string {
    "INSERT INTO " + table + " (" + Join(Names(cols), SEP) + ") VALUES(" + Join(Marks(|cols|), SEP) + ")"
  }

  function SelectText(fields: string, table: string): string {
    "SELECT " + fields + " FROM " + table
  }

  // ---- the builder loops

  lemma LastOf(cols: seq<Column>, i: nat)
    requires i < |cols|
    ensures cols[..i + 1][..i] == cols[..i] && cols[..i + 1][i] == cols[i]
  {
  }

  lemma FilterNext(cols: seq<Column>, p: Column -> bool, i: nat)
    requires i < |cols|
    ensures Filter(cols[..i + 1], p) == Filter(cols[..i], p) + (if p(cols[i]) then [cols[i]] else [])
  {
    LastOf(cols, i);
  }

  lemma AppendEachAppend(items: seq<string>, item: string, sep: string)
    ensures AppendEach(items + [item], sep) == AppendEach(items, sep) + item + sep
  {
    assert (items + [item])[..|items|] == items;
  }

  method AppendField(fields: string, ghost before: seq<Column>, c: Column) returns (r: string)
    requires fields == AppendEach(Names(before), SEP)
    ensures r == AppendEach(Names(before + [c]), SEP)
  {
    AppendEachAppend(Names(before), c.name, SEP);
    assert (before + [c])[..|before|] == before;
    r := fields + c.name;
    r := r + ", ";
  }

  lemma NoFields(cols: seq<Column>)
    ensures AppendEach(Names(Filter(cols[..0], IsSelected)), SEP) == ""
  {
  }

  /** Table::BuildSelectFieldsStatement */
  method BuildSelectFields(cols: seq<Column>) returns (fields: string)
    ensures fields == FieldList(cols)
  {
    hide Filter, Names, AppendEach, EraseLast, Join, Test;
    NoFields(cols);
    fields := "";
    for i := 0 to |cols|
      invariant fields == AppendEach(Names(Filter(cols[..i], IsSelected)), SEP)
    {
      FilterNext(cols, IsSelected, i);
      if Test(cols[i].flags, CF_SELECT) {
        fields := AppendField(fields, Filter(cols[..i], IsSelected), cols[i]);
      } else {
        assert Filter(cols[..i], IsSelected) + [] == Filter(cols[..i], IsSelected);
      }
    }
    assert cols[..|cols|] == cols;
    EraseLastJoins(Names(Filter(cols, IsSelected)), SEP);
    fields := EraseLast(fields, ", ");
  }

  /** What a loop has gathered of the first i columns: those that satisfy p, and a marker for each. */
  ghost predicate Gathered(markers: string, toBind: seq<Column>, cols: seq<Column>, i: nat, p: Column -> bool) {
    i <= |cols| && toBind == Filter(cols[..i], p) && markers == AppendEach(Markers(toBind), SEP)
  }

  lemma NothingGathered(cols: seq<Column>, p: Column -> bool)
    ensures Gathered("", [], cols, 0, p)
  {
  }

  lemma GatheredAnyway(markers: string, toBind: seq<Column>, cols: seq<Column>, i: nat, p: Column -> bool)
    requires Gathered(markers, toBind, cols, i, p) && i < |cols| && !p(cols[i])
    ensures Gathered(markers, toBind, cols, i + 1, p)
  {
    FilterNext(cols, p, i);
    hide Filter, AppendEach, Markers;
  }

  lemma AllGathered(markers: string, toBind: seq<Column>, cols: seq<Column>, p: Column -> bool)
    requires Gathered(markers, toBind, cols, |cols|, p)
    ensures toBind == Filter(cols, p) && EraseLast(markers, ", ") == MarkerList(toBind)
  {
    hide Filter, AppendEach, Markers, EraseLast, Join;
    assert cols[..|cols|] == cols;
    EraseLastJoins(Markers(toBind), SEP);
  }

  method AppendMarker(markers: string, ghost before: seq<Column>, c: Column) returns (r: string)
    requires markers == AppendEach(Markers(before), SEP)
    ensures r == AppendEach(Markers(before + [c]), SEP)
  {
    AppendEachAppend(Markers(before), c.name + " = ?", SEP);
    assert (before + [c])[..|before|] == before;
    r := markers + c.name;
    r := r + " = ?, ";
  }

  method GatherNext(markers: string, toBind: seq<Column>, cols: seq<Column>, i: nat, ghost p: Column -> bool)
      returns (markers': string, toBind': seq<Column>)
    requires Gathered(markers, toBind, cols, i, p) && i < |cols| && p(cols[i])
    ensures Gathered(markers', toBind', cols, i + 1, p)
  {
    hide Filter, AppendEach, Markers;
    FilterNext(cols, p, i);
    markers' := AppendMarker(markers, toBind, cols[i]);
    toBind' := toBind + [cols[i]];
  }

  /** The loop that Delete, Select by key and Update share: a marker list for the columns that
      satisfy p, and the columns to bind to the markers. */
  method BuildMarkers(cols: seq<Column>, p: Column -> bool) returns (markers: string, toBind: seq<Column>)
    ensures toBind == Filter(cols, p) && markers == MarkerList(toBind)
  {
    hide Gathered, Filter, MarkerList, EraseLast;
    markers, toBind := "", [];
    NothingGathered(cols, p);
    for i := 0 to |cols|
      invariant Gathered(markers, toBind, cols, i, p)
    {
      if p(cols[i]) {
        markers, toBind := GatherNext(markers, toBind, cols, i, p);
      } else {
        GatheredAnyway(markers, toBind, cols, i, p);
      }
    }
    AllGathered(markers, toBind, cols, p);
    markers := EraseLast(markers, ", ");
  }

  /** The loop of BindUpdatePkParameters: a key column goes to the WHERE list, another column to be
      updated goes to the SET list. */
  method BuildUpdatePk(table: string, cols: seq<Column>)
      returns (stmt: string, setParams: seq<Column>, whereParams: seq<Column>)
    ensures setParams == Filter(cols, IsSet) && whereParams == Filter(cols, IsKey)
    ensures stmt == UpdateText(table, setParams, MarkerList(whereParams))
  {
    hide Gathered, Filter, MarkerList, EraseLast, Test;
    var setMarkers, whereMarkers := "", "";
    setParams, whereParams := [], [];
    NothingGathered(cols, IsSet);
    NothingGathered(cols, IsKey);
    for i := 0 to |cols|
      invariant Gathered(setMarkers, setParams, cols, i, IsSet)
      invariant Gathered(whereMarkers, whereParams, cols, i, IsKey)
    {
      if !IsSet(cols[i]) { GatheredAnyway(setMarkers, setParams, cols, i, IsSet); }
      if !IsKey(cols[i]) { GatheredAnyway(whereMarkers, whereParams, cols, i, IsKey); }
      if Test(cols[i].flags, CF_PRIMARY_KEY) {
        whereMarkers, whereParams := GatherNext(whereMarkers, whereParams, cols, i, IsKey);
      } else if Test(cols[i].flags, CF_UPDATE) {
        setMarkers, setParams := GatherNext(setMarkers, setParams, cols, i, IsSet);
      }
    }
    AllGathered(setMarkers, setParams, cols, IsSet);
    AllGathered(whereMarkers, whereParams, cols, IsKey);
    setMarkers := EraseLast(setMarkers, ", ");
    whereMarkers := EraseLast(whereMarkers, ", ");
    stmt := "UPDATE " + table + " SET " + setMarkers + " WHERE " + whereMarkers;
  }

  /** What the loop of BindInsertParameters has gathered of the first i columns: those flagged CF_INSERT,
      their names, and a marker for each. */
  ghost predicate Listed(fields: string, markers: string, toBind: seq<Column>, cols: seq<Column>, i: nat) {
    i <= |cols| && toBind == Filter(cols[..i], IsInserted)
    && fields == AppendEach(Names(toBind), SEP) && markers == AppendEach(Marks(|toBind|), SEP)
  }

  lemma NothingListed(cols: seq<Column>)
    ensures Listed("", "", [], cols, 0)
  {
  }

  lemma ListedAnyway(fields: string, markers: string, toBind: seq<Column>, cols: seq<Column>, i: nat)
    requires Listed(fields, markers, toBind, cols, i) && i < |cols| && !IsInserted(cols[i])
    ensures Listed(fields, markers, toBind, cols, i + 1)
  {
    hide Filter, AppendEach, Names, Marks;
    FilterNext(cols, IsInserted, i);
  }

  method ListNext(fields: string, markers: string, toBind: seq<Column>, cols: seq<Column>, i: nat)
      returns (fields': string, markers': string, toBind': seq<Column>)
    requires Listed(fields, markers, toBind, cols, i) && i < |cols| && IsInserted(cols[i])
    ensures Listed(fields', markers', toBind', cols, i + 1)
  {
    hide Filter, AppendEach, Names, Marks;
    FilterNext(cols, IsInserted, i);
    OneMoreMark(|toBind|);
    fields' := AppendField(fields, toBind, cols[i]);
    markers' := markers + "?, ";
    toBind' := toBind + [cols[i]];
  }

  lemma OneMoreMark(n: nat)
    ensures AppendEach(Marks(n + 1), SEP) == AppendEach(Marks(n), SEP) + "?, "
  {
    AppendEachAppend(Marks(n), "?", SEP);
    hide AppendEach;
  }

  lemma AllListed(fields: string, markers: string, toBind: seq<Column>, cols: seq<Column>)
    requires Listed(fields, markers, toBind, cols, |cols|)
    ensures toBind == Filter(cols, IsInserted)
    ensures EraseLast(fields, ", ") == Join(Names(toBind), SEP) && EraseLast(markers, ", ") == Join(Marks(|toBind|), SEP)
  {
    hide Filter, AppendEach, Names, Marks, EraseLast, Join;
    assert cols[..|cols|] == cols;
    EraseLastJoins(Names(toBind), SEP);
    EraseLastJoins(Marks(|toBind|), SEP);
  }

  /** The loop of BindInsertParameters: fields and markers side by side. */
  method BuildInsert(table: string, cols: seq<Column>) returns (stmt: string, toBind: seq<Column>)
    ensures toBind == Filter(cols, IsInserted) && stmt == InsertText(table, toBind)
  {
    hide Listed, Filter, Names, Marks, Join, EraseLast, Test;
    var fields, markers := "", "";
    toBind := [];
    NothingListed(cols);
    for i := 0 to |cols|
      invariant Listed(fields, markers, toBind, cols, i)
    {
      if Test(cols[i].flags, CF_INSERT) {
        fields, markers, toBind := ListNext(fields, markers, toBind, cols, i);
      } else {
        ListedAnyway(fields, markers, toBind, cols, i);
      }
    }
    AllListed(fields, markers, toBind, cols);
    fields := EraseLast(fields, ", ");
    markers := EraseLast(markers, ", ");
    stmt := "INSERT INTO " + table + " (" + fields + ") VALUES(" + markers + ")";
  }

  // ---- which column a marker is for

  predicate NamesFree(cols: seq<Column>) {
    forall i | 0 <= i < |cols| :: '?' !in cols[i].name
  }

  /** Up to and including its marker number first + k, the text is pre and then the marker list of the
      first k + 1 columns, which ends in "name = ?" for column k: that marker is column k's. */
  ghost predicate MarkerIs(text: string, first: nat, pre: string, cols: seq<Column>, k: nat)
    requires k < |cols|
  {
    && first + k < |Positions(text, '?')|
    && var p := Positions(text, '?')[first + k];
       p < |text| && text[..p + 1] == pre + MarkerList(cols[..k + 1])
  }

  /** The columns own the markers from number first on, in their order. */
  ghost predicate MarkersFollow(text: string, first: nat, pre: string, cols: seq<Column>) {
    forall k | 0 <= k < |cols| :: MarkerIs(text, first, pre, cols, k)
  }

  /** The list of the first k + 1 columns ends with column k's marker. */
  lemma LastMarker(cols: seq<Column>, k: nat)
    requires k < |cols|
    ensures MarkerList(cols[..k + 1]) == (if k == 0 then "" else MarkerList(cols[..k]) + ", ") + (cols[k].name + " = ?")
  {
    assert cols[..k + 1][..k] == cols[..k];
    if k == 0 {
      assert Markers(cols[..1]) == Markers([]) + [cols[0].name + " = ?"];
    } else {
      JoinAppend(Markers(cols[..k]), [cols[k].name + " = ?"], SEP);
    }
  }

  lemma OneMarker(name: string)
    requires '?' !in name
    ensures Positions(name + " = ?", '?') == [|name| + 3]
  {
    hide Positions;
    NoPositions(name + " = ", '?');
    assert name + " = ?" == (name + " = ") + "?";
    PositionsConcat(name + " = ", "?", '?');
    BareMarker();
    assert Shift([0], |name + " = "|) == [|name| + 3];
  }

  /** A separator and a piece with a single marker, at p, come after s. */
  lemma AppendPiece(s: string, sep: string, piece: string, p: nat)
    requires '?' !in sep && Positions(piece, '?') == [p]
    ensures Positions(s + sep + piece, '?') == Positions(s, '?') + [|s| + |sep| + p]
  {
    hide Positions;
    PositionsConcat(s + sep, piece, '?');
    PositionsConcat(s, sep, '?');
    NoPositions(sep, '?');
    assert Shift([p], |s + sep|) == [|s| + |sep| + p];
  }

  lemma BareMarker()
    ensures Positions("?", '?') == [0]
  {
    assert "?"[..0] == "";
  }

  /** A marker list has one marker per column, each its own column's. */
  lemma {:induction false} MarkerListMarkers(cols: seq<Column>)
    requires NamesFree(cols)
    ensures |Positions(MarkerList(cols), '?')| == |cols|
    ensures MarkersFollow(MarkerList(cols), 0, "", cols)
  {
    hide Positions;
    if cols == [] {
      NoPositions("", '?');
    } else {
      var n := |cols| - 1;
      var front, s := cols[..n], MarkerList(cols);
      LastMarker(cols, n);
      assert cols[..n + 1] == cols;
      MarkerListMarkers(front);
      if n == 0 {
        OneMarker(cols[0].name);
      } else {
        OneMarker(cols[n].name);
        AppendPiece(MarkerList(front), ", ", cols[n].name + " = ?", |cols[n].name| + 3);
      }
      forall k | 0 <= k < |cols| ensures MarkerIs(s, 0, "", cols, k) {
        if k < n {
          assert front[..k + 1] == cols[..k + 1];
          assert MarkerIs(MarkerList(front), 0, "", front, k);
        }
      }
    }
  }

  /** Text in front that has no '?' shifts the markers, text behind does not matter. */
  lemma MarkersInside(before: string, first: nat, pre: string, cols: seq<Column>, post: string)
    requires |Positions(before, '?')| == first && '?' !in pre && NamesFree(cols)
    ensures var t := before + pre + MarkerList(cols) + post;
            && MarkersFollow(t, first, before + pre, cols)
            && |Positions(t, '?')| == first + |cols| + |Positions(post, '?')|
  {
    hide Positions, Markers, Join;
    var s := MarkerList(cols);
    var t := before + pre + s + post;
    MarkerListMarkers(cols);
    PositionsConcat(before + pre + s, post, '?');
    PositionsConcat(before + pre, s, '?');
    PositionsConcat(before, pre, '?');
    NoPositions(pre, '?');
    forall k | 0 <= k < |cols| ensures MarkerIs(t, first, before + pre, cols, k) {
      assert MarkerIs(s, 0, "", cols, k);
      var q := Positions(s, '?')[k];
      assert Positions(t, '?')[first + k] == |before + pre| + q;
      assert t[..|before + pre| + q + 1] == before + pre + s[..q + 1];
    }
  }

  // ---- main results: markers and parameters agree

  /** UPDATE by key: the SET columns own the first markers, the WHERE columns the rest; there are no others. */
  lemma UpdateMarkers(table: string, set': seq<Column>, where: seq<Column>)
    requires '?' !in table && NamesFree(set') && NamesFree(where)
    ensures var t := UpdateText(table, set', MarkerList(where));
            && |Positions(t, '?')| == |set' + where|
            && MarkersFollow(t, 0, "UPDATE " + table + " SET ", set')
            && MarkersFollow(t, |set'|, "UPDATE " + table + " SET " + MarkerList(set') + " WHERE ", where)
  {
    hide Positions, Markers, Join;
    var pre := "UPDATE " + table + " SET ";
    var post := " WHERE " + MarkerList(where);
    NoPositions("", '?');
    MarkersInside("", 0, pre, set', post);
    assert "" + pre == pre;
    assert pre + MarkerList(set') + post == UpdateText(table, set', MarkerList(where));
    PositionsConcat(" WHERE ", MarkerList(where), '?');
    NoPositions(" WHERE ", '?');
    MarkerListMarkers(where);
    MarkersInside("", 0, pre, set', "");
    assert pre + MarkerList(set') + "" == pre + MarkerList(set');
    MarkersInside(pre + MarkerList(set'), |set'|, " WHERE ", where, "");
    assert pre + MarkerList(set') + " WHERE " + MarkerList(where) + "" == UpdateText(table, set', MarkerList(where));
  }

  /** DELETE by key, and the WHERE part of SELECT by key: one marker per key column, in order. */
  lemma KeyMarkers(pre: string, where: seq<Column>)
    requires '?' !in pre && NamesFree(where)
    ensures |Positions(pre + MarkerList(where), '?')| == |where|
    ensures MarkersFollow(pre + MarkerList(where), 0, pre, where)
  {
    hide Positions, Markers, Join;
    NoPositions("", '?');
    MarkersInside("", 0, pre, where, "");
    assert "" + pre == pre && pre + MarkerList(where) + "" == pre + MarkerList(where);
  }

  /** The text starts with pre, and up to and including its marker number k it is pre and then k + 1 marks. */
  ghost predicate MarkIs(text: string, pre: string, k: nat) {
    && pre <= text && k < |Positions(text, '?')|
    && var p := Positions(text, '?')[k];
       p < |text| && text[..p + 1] == pre + Join(Marks(k + 1), SEP)
  }

  /** INSERT: marker k is element k of the VALUES list, as column k is element k of the field list. */
  lemma InsertMarkers(table: string, cols: seq<Column>)
    requires '?' !in table && NamesFree(cols)
    ensures var t := InsertText(table, cols);
            var pre := "INSERT INTO " + table + " (" + Join(Names(cols), SEP) + ") VALUES(";
            && |Positions(t, '?')| == |cols|
            && pre <= t && forall k | 0 <= k < |cols| :: MarkIs(t, pre, k)
  {
    hide Positions, Markers, Join, Names, Marks;
    var pre, marks := "INSERT INTO " + table + " (" + Join(Names(cols), SEP) + ") VALUES(", Join(Marks(|cols|), SEP);
    JoinFree(cols);
    NoPositions(pre, '?');
    NoPositions(")", '?');
    PositionsConcat(pre + marks, ")", '?');
    PositionsConcat(pre, marks, '?');
    var t := InsertText(table, cols);
    assert t == pre + marks + ")";
    MarksMarkers(|cols|);
    forall k | 0 <= k < |cols| ensures MarkIs(t, pre, k) {
      assert MarkIs(marks, "", k);
      var q := Positions(marks, '?')[k];
      assert marks[..q + 1] == "" + Join(Marks(k + 1), SEP) == Join(Marks(k + 1), SEP);
      assert Positions(t, '?')[k] == |pre| + q;
      assert t[..|pre| + q + 1] == pre + marks[..q + 1];
    }
  }

  lemma {:induction false} JoinFree(cols: seq<Column>)
    requires NamesFree(cols)
    ensures '?' !in Join(Names(cols), SEP)
  {
    if |cols| == 1 {
      assert Names(cols) == Names([]) + [cols[0].name];
    } else if |cols| > 1 {
      var n := |cols| - 1;
      JoinFree(cols[..n]);
      JoinAppend(Names(cols[..n]), [cols[n].name], SEP);
    }
  }

  lemma {:induction false} MarksMarkers(n: nat)
    ensures |Positions(Join(Marks(n), SEP), '?')| == n
    ensures forall k | 0 <= k < n :: MarkIs(Join(Marks(n), SEP), "", k)
  {
    hide Positions;
    if n == 0 {
      NoPositions("", '?');
    } else if n == 1 {
      assert Marks(1) == Marks(0) + ["?"];
      BareMarker();
    } else {
      MarksMarkers(n - 1);
      JoinAppend(Marks(n - 1), ["?"], SEP);
      BareMarker();
      var front, s := Join(Marks(n - 1), SEP), Join(Marks(n), SEP);
      AppendPiece(front, ", ", "?", 0);
      hide Marks, Join;
      assert s == front + ", " + "?";
      forall k | 0 <= k < n ensures MarkIs(s, "", k) {
        if k < n - 1 {
          assert MarkIs(front, "", k);
          assert s[..Positions(front, '?')[k] + 1] == front[..Positions(front, '?')[k] + 1];
        } else {
          assert s[..|s|] == "" + s;
        }
      }
    }
  }

  // ---- with names that may hold a '?'

  /** The '?' that the names bring in. */
  function Stray(cols: seq<Column>): nat {
    if cols == [] then 0 else Stray(cols[..|cols| - 1]) + |Positions(cols[|cols| - 1].name, '?')|
  }

  lemma {:induction false} StrayIff(cols: seq<Column>)
    ensures Stray(cols) == 0 <==> NamesFree(cols)
  {
    if cols != [] {
      StrayIff(cols[..|cols| - 1]);
      NoPositions(cols[|cols| - 1].name, '?');
    }
  }

  lemma {:induction false} MarkerListCount(cols: seq<Column>)
    ensures |Positions(MarkerList(cols), '?')| == |cols| + Stray(cols)
  {
    hide Positions;
    if cols == [] {
      NoPositions("", '?');
    } else {
      var n := |cols| - 1;
      LastMarker(cols, n);
      assert cols[..n + 1] == cols;
      MarkerListCount(cols[..n]);
      MarkerCount(cols[n].name);
      if n > 0 {
        PositionsConcat(MarkerList(cols[..n]) + ", ", cols[n].name + " = ?", '?');
        PositionsConcat(MarkerList(cols[..n]), ", ", '?');
        NoPositions(", ", '?');
      }
    }
  }

  lemma MarkerCount(name: string)
    ensures |Positions(name + " = ?", '?')| == |Positions(name, '?')| + 1
  {
    PositionsConcat(name, " = ?", '?');
    assert Positions(" = ?", '?') == [3] by {
      assert " = ?"[..3] == " = " && " = "[..2] == " =" && " ="[..1] == " " && " "[..0] == "";
    }
  }

  /** The UPDATE statement has exactly as many markers as parameters when, and only when, neither
      the table's name nor a listed column's name holds a '?'. */
  lemma UpdateCountIff(table: string, set': seq<Column>, where: seq<Column>)
    ensures |Positions(UpdateText(table, set', MarkerList(where)), '?')| == |set' + where|
       <==> '?' !in table && NamesFree(set') && NamesFree(where)
  {
    hide Positions, Markers, Join;
    var l, m := MarkerList(set'), MarkerList(where);
    PositionsConcat("UPDATE " + table + " SET " + l + " WHERE ", m, '?');
    PositionsConcat("UPDATE " + table + " SET " + l, " WHERE ", '?');
    PositionsConcat("UPDATE " + table + " SET ", l, '?');
    PositionsConcat("UPDATE " + table, " SET ", '?');
    PositionsConcat("UPDATE ", table, '?');
    NoPositions("UPDATE ", '?');
    NoPositions(" SET ", '?');
    NoPositions(" WHERE ", '?');
    NoPositions(table, '?');
    MarkerListCount(set');
    MarkerListCount(where);
    StrayIff(set');
    StrayIff(where);
  }

  /** A text of two parts has the markers of both. */
  lemma CountOf(a: string, b: string)
    ensures |Positions(a + b, '?')| == |Positions(a, '?')| + |Positions(b, '?')|
  {
    PositionsConcat(a, b, '?');
  }

  lemma {:induction false} NameListCount(cols: seq<Column>)
    ensures |Positions(Join(Names(cols), SEP), '?')| == Stray(cols)
  {
    hide Positions;
    if cols == [] {
      NoPositions("", '?');
    } else {
      var n := |cols| - 1;
      NameListCount(cols[..n]);
      if n == 0 {
        assert Names(cols) == [cols[0].name];
      } else {
        JoinAppend(Names(cols[..n]), [cols[n].name], SEP);
        CountOf(Join(Names(cols[..n]), SEP) + SEP, cols[n].name);
        CountOf(Join(Names(cols[..n]), SEP), SEP);
        NoPositions(SEP, '?');
      }
    }
  }

  /** DELETE by key: the same. */
  lemma DeleteCountIff(table: string, where: seq<Column>)
    ensures |Positions(DeleteText(table, MarkerList(where)), '?')| == |where| <==> '?' !in table && NamesFree(where)
  {
    hide Positions, Markers, Join;
    CountOf("DELETE FROM " + table + " WHERE ", MarkerList(where));
    CountOf("DELETE FROM " + table, " WHERE ");
    CountOf("DELETE FROM ", table);
    NoPositions("DELETE FROM ", '?');
    NoPositions(" WHERE ", '?');
    NoPositions(table, '?');
    MarkerListCount(where);
    StrayIff(where);
  }

  /** SELECT by key: the field list must be free of them as well. */
  lemma SelectCountIff(table: string, fields: seq<Column>, where: seq<Column>)
    ensures |Positions(SelectText(Join(Names(fields), SEP), table) + " WHERE " + MarkerList(where), '?')| == |where|
       <==> '?' !in table && NamesFree(fields) && NamesFree(where)
  {
    hide Positions, Markers, Join, Names;
    var list := Join(Names(fields), SEP);
    CountOf(SelectText(list, table) + " WHERE ", MarkerList(where));
    CountOf(SelectText(list, table), " WHERE ");
    CountOf("SELECT " + list + " FROM ", table);
    CountOf("SELECT " + list, " FROM ");
    CountOf("SELECT ", list);
    NoPositions("SELECT ", '?');
    NoPositions(" FROM ", '?');
    NoPositions(" WHERE ", '?');
    NoPositions(table, '?');
    NameListCount(fields);
    MarkerListCount(where);
    StrayIff(fields);
    StrayIff(where);
  }

  /** INSERT: each stray question mark in the field list is one too many. */
  lemma InsertCountIff(table: string, cols: seq<Column>)
    ensures |Positions(InsertText(table, cols), '?')| == |cols| <==> '?' !in table && NamesFree(cols)
  {
    hide Positions, Markers, Join, Names, Marks;
    var list, marks := Join(Names(cols), SEP), Join(Marks(|cols|), SEP);
    CountOf("INSERT INTO " + table + " (" + list + ") VALUES(" + marks, ")");
    CountOf("INSERT INTO " + table + " (" + list + ") VALUES(", marks);
    CountOf("INSERT INTO " + table + " (" + list, ") VALUES(");
    CountOf("INSERT INTO " + table + " (", list);
    CountOf("INSERT INTO " + table, " (");
    CountOf("INSERT INTO ", table);
    NoPositions("INSERT INTO ", '?');
    NoPositions(" (", '?');
    NoPositions(") VALUES(", '?');
    NoPositions(")", '?');
    NoPositions(table, '?');
    NameListCount(cols);
    MarksMarkers(|cols|);
    StrayIff(cols);
  }

  /** In UPDATE by key no column is both set and compared, and no column is listed twice. */
  lemma SetAndWhereDisjoint(cols: seq<Column>)
    requires Ordered(cols)
    ensures Ordered(Filter(cols, IsSet)) && Ordered(Filter(cols, IsKey))
    ensures forall c, d | c in Filter(cols, IsSet) && d in Filter(cols, IsKey) :: c.index != d.index
  {
    FilterOrdered(cols, IsSet);
    FilterOrdered(cols, IsKey);
    FilterMeaning(cols, IsSet);
    FilterMeaning(cols, IsKey);
    forall c, d | c in Filter(cols, IsSet) && d in Filter(cols, IsKey) ensures c.index != d.index {
      var i :| 0 <= i < |cols| && cols[i] == c;
      var j :| 0 <= j < |cols| && cols[j] == d;
      assert i != j;
    }
  }
}
