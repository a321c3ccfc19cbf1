// What an open table has bound agrees with the texts it has prepared and builds: the k-th marker
// belongs to the column bound as parameter k, and the k-th selected name to result column k.
module TableMarkers {
  import opened Flags
  import opened Text
  import opened BindingSpec
  import opened SqlBuilder
  import opened TableStatements
  import opened TableBinding
  import opened TableOpen

  /** Marker number first + k of the text belongs to column k, which is bound as that parameter. */
  ghost predicate BoundAsMarked(text: string, first: nat, pre: string, cols: seq<Column>, bound: map<nat, ColumnBuffer>) {
    && MarkersFollow(text, first, pre, cols)
    && forall k | 0 <= k < |cols| :: first + k + 1 in bound && bound[first + k + 1] == cols[k].buffer
  }

  /** There are as many parameters as markers. */
  ghost predicate AsManyAsMarkers(text: string, bound: map<nat, ColumnBuffer>) {
    forall nr: nat :: nr in bound <==> 1 <= nr <= |Positions(text, '?')|
  }

  lemma {:induction false} FilterFree(cols: seq<Column>, p: Column -> bool)
    requires NamesFree(cols)
    ensures NamesFree(Filter(cols, p))
  {
    if cols != [] {
      FilterFree(cols[..|cols| - 1], p);
    }
  }

  lemma NumberedFrom(first: seq<Column>, cols: seq<Column>)
    ensures var bound := Numbered(Buffers(first + cols));
            && (forall nr: nat :: nr in bound <==> 1 <= nr <= |first| + |cols|)
            && (forall k | 0 <= k < |first| :: bound[k + 1] == first[k].buffer)
            && (forall k | 0 <= k < |cols| :: bound[|first| + k + 1] == cols[k].buffer)
  {
    var both := first + cols;
    NumberedFromOne(both);
    forall k | 0 <= k < |first| ensures Numbered(Buffers(both))[k + 1] == first[k].buffer {
      assert both[k] == first[k];
    }
    forall k | 0 <= k < |cols| ensures Numbered(Buffers(both))[|first| + k + 1] == cols[k].buffer {
      assert both[|first| + k] == cols[k];
    }
    hide Numbered, Buffers;
  }

  /** UPDATE by key: SET columns first, WHERE columns after them. */
  lemma UpdateParametersMatch(table: string, cols: seq<Column>)
    requires '?' !in table && NamesFree(cols)
    ensures var set', where := Filter(cols, IsSet), Filter(cols, IsKey);
            var t, bound := UpdatePkText(table, cols), Numbered(Buffers(UpdateParams(cols)));
            var pre := "UPDATE " + table + " SET ";
            && BoundAsMarked(t, 0, pre, set', bound)
            && BoundAsMarked(t, |set'|, pre + MarkerList(set') + " WHERE ", where, bound)
            && AsManyAsMarkers(t, bound)
  {
    hide Numbered, Buffers, MarkersFollow, Filter, Positions, MarkerList, NamesFree;
    FilterFree(cols, IsSet);
    FilterFree(cols, IsKey);
    UpdateMarkers(table, Filter(cols, IsSet), Filter(cols, IsKey));
    NumberedFrom(Filter(cols, IsSet), Filter(cols, IsKey));
  }

  /** DELETE by key. */
  lemma DeleteParametersMatch(table: string, cols: seq<Column>)
    requires '?' !in table && NamesFree(cols)
    ensures var t, bound := DeletePkText(table, cols), Numbered(Buffers(Keys(cols)));
            BoundAsMarked(t, 0, "DELETE FROM " + table + " WHERE ", Keys(cols), bound) && AsManyAsMarkers(t, bound)
  {
    hide Numbered, Buffers, MarkersFollow, Filter, Positions, MarkerList, NamesFree;
    FilterFree(cols, IsKey);
    KeyMarkers("DELETE FROM " + table + " WHERE ", Keys(cols));
    NumberedFrom([], Keys(cols));
    assert [] + Keys(cols) == Keys(cols);
  }

  /** SELECT by key. */
  lemma SelectParametersMatch(table: string, cols: seq<Column>)
    requires '?' !in table && NamesFree(cols)
    ensures var t, bound := SelectPkText(table, cols), Numbered(Buffers(Keys(cols)));
            var pre := "SELECT " + Join(Names(Selected(cols)), SEP) + " FROM " + table + " WHERE ";
            BoundAsMarked(t, 0, pre, Keys(cols), bound) && AsManyAsMarkers(t, bound)
  {
    hide Numbered, Buffers, MarkersFollow, Filter, Positions, MarkerList, NamesFree, Join;
    FilterFree(cols, IsKey);
    FilterFree(cols, IsSelected);
    JoinFree(Filter(cols, IsSelected));
    KeyMarkers("SELECT " + Join(Names(Selected(cols)), SEP) + " FROM " + table + " WHERE ", Keys(cols));
    NumberedFrom([], Keys(cols));
    assert [] + Keys(cols) == Keys(cols);
  }

  /** INSERT: parameter k is column k of the field list, and its marker element k of VALUES. */
  ghost predicate InsertAgrees(text: string, table: string, cols: seq<Column>, bound: map<nat, ColumnBuffer>) {
    var ins := Inserted(cols);
    var pre := "INSERT INTO " + table + " (" + Join(Names(ins), SEP) + ") VALUES(";
    && |Positions(text, '?')| == |ins| && pre <= text
    && forall k | 0 <= k < |ins| ::
         k + 1 in bound && bound[k + 1] == ins[k].buffer && Names(ins)[k] == ins[k].name && MarkIs(text, pre, k)
  }

  lemma InsertParametersMatch(table: string, cols: seq<Column>)
    requires '?' !in table && NamesFree(cols)
    ensures var t, bound := InsertText(table, Inserted(cols)), Numbered(Buffers(Inserted(cols)));
            AsManyAsMarkers(t, bound) && InsertAgrees(t, table, cols, bound)
  {
    hide Numbered, Buffers, Filter, Positions, NamesFree, Join, Names, Marks;
    FilterFree(cols, IsInserted);
    InsertMarkers(table, Inserted(cols));
    NamesOf(Inserted(cols));
    NumberedFrom([], Inserted(cols));
    assert [] + Inserted(cols) == Inserted(cols);
  }

  /** These are the columns with this flag, in index order. */
  ghost predicate ExactlyFlagged(cols: seq<Column>, part: seq<Column>, flag: FlagSet) {
    && (forall c <- cols :: c in part <==> Test(c.flags, flag))
    && (forall c <- part :: c in cols)
    && (Ordered(cols) ==> Ordered(part))
  }

  /** ... and these those with CF_UPDATE that are not key columns. */
  ghost predicate ExactlySet(cols: seq<Column>, part: seq<Column>) {
    && (forall c <- cols :: c in part <==> Test(c.flags, CF_UPDATE) && !Test(c.flags, CF_PRIMARY_KEY))
    && (forall c <- part :: c in cols)
    && (Ordered(cols) ==> Ordered(part))
  }

  /** The names of these columns, and their markers. */
  ghost predicate Spelled(part: seq<Column>) {
    forall k | 0 <= k < |part| :: Names(part)[k] == part[k].name && Markers(part)[k] == part[k].name + " = ?"
  }

  /** The statements that are prepared for the access flags, word for word. */
  ghost predicate Prepared(texts: seq<Prep>, access: FlagSet, table: string, cols: seq<Column>)
    requires |texts| == STATEMENTS
  {
    var set', keys, ins, sel := Filter(cols, IsSet), Keys(cols), Inserted(cols), Selected(cols);
    && ExactlySet(cols, set') && ExactlyFlagged(cols, keys, CF_PRIMARY_KEY) && ExactlyFlagged(cols, ins, CF_INSERT)
    && ExactlyFlagged(cols, sel, CF_SELECT)
    && Spelled(set') && Spelled(keys) && Spelled(ins) && Spelled(sel)
    && (Test(access, AF_UPDATE_PK) ==>
          texts[UPDATE_PK] == Prep(true, "UPDATE " + table + " SET " + Join(Markers(set'), ", ") + " WHERE " + Join(Markers(keys), ", ")))
    && (Test(access, AF_DELETE_PK) ==> texts[DELETE_PK] == Prep(true, "DELETE FROM " + table + " WHERE " + Join(Markers(keys), ", ")))
    && (Test(access, AF_SELECT_PK) ==>
          texts[SELECT] == Prep(true, "SELECT " + Join(Names(sel), ", ") + " FROM " + table + " WHERE " + Join(Markers(keys), ", ")))
    && (Test(access, AF_INSERT) ==>
          texts[INSERT] == Prep(true, "INSERT INTO " + table + " (" + Join(Names(ins), ", ") + ") VALUES(" + Join(Marks(|ins|), ", ") + ")"))
  }

  lemma TextsArePrepared(texts: seq<Prep>, access: FlagSet, table: string, cols: seq<Column>)
    requires |texts| == STATEMENTS && OpenTexts(texts, access, table, cols)
    ensures Prepared(texts, access, table, cols)
  {
    hide Filter, Join, Names, Markers, Marks, Test, ExactlyFlagged, ExactlySet, Spelled;
    ListsMean(cols);
    EachSpelled(Filter(cols, IsSet));
    EachSpelled(Keys(cols));
    EachSpelled(Inserted(cols));
    EachSpelled(Selected(cols));
  }

  lemma ListsMean(cols: seq<Column>)
    ensures ExactlySet(cols, Filter(cols, IsSet)) && ExactlyFlagged(cols, Keys(cols), CF_PRIMARY_KEY)
    ensures ExactlyFlagged(cols, Inserted(cols), CF_INSERT) && ExactlyFlagged(cols, Selected(cols), CF_SELECT)
  {
    if Ordered(cols) {
      FilterOrdered(cols, IsSet);
      FilterOrdered(cols, IsKey);
      FilterOrdered(cols, IsInserted);
    }
    FilterMeaning(cols, IsSet);
    FilterMeaning(cols, IsKey);
    FilterMeaning(cols, IsInserted);
    SelectedMeans(cols);
    hide Ordered, Filter, Test;
  }

  lemma {:induction false} EachSpelled(part: seq<Column>)
    ensures Spelled(part)
  {
    if part != [] {
      EachSpelled(part[..|part| - 1]);
    }
  }

  /** Which statements are initialised, and what the driver has bound to them; nothing else is. The count
      buffer belongs to COUNT, the result columns to the SELECT statement, parameters to the others. */
  ghost predicate AsAskedFor(f: Five, access: FlagSet, cols: seq<Column>, countBuffer: ColumnBuffer?)
    requires f.Sized()
  {
    && (if Test(access, AF_COUNT_WHERE) then
          HasHandle(f, COUNT_WHERE) && countBuffer != null && f.bounds[COUNT_WHERE].columns == Bindings(map[1 := countBuffer], {countBuffer})
        else HasNone(f, COUNT_WHERE) && countBuffer == null && f.bounds[COUNT_WHERE].columns == NONE)
    && f.bounds[COUNT_WHERE].params == NONE
    && (if Test(access, AF_SELECT_WHERE) || Test(access, AF_SELECT_PK) then
          HasHandle(f, SELECT) && BoundInOrder(f.bounds[SELECT].columns, Selected(cols))
        else HasNone(f, SELECT) && f.bounds[SELECT].columns == NONE)
    && (if Test(access, AF_SELECT_PK) then BoundInOrder(f.bounds[SELECT].params, Keys(cols)) else f.bounds[SELECT].params == NONE)
    && (if Test(access, AF_INSERT) then HasHandle(f, INSERT) && BoundInOrder(f.bounds[INSERT].params, Inserted(cols))
        else HasNone(f, INSERT) && f.bounds[INSERT].params == NONE)
    && (if Test(access, AF_UPDATE_PK) then
          HasHandle(f, UPDATE_PK) && BoundInOrder(f.bounds[UPDATE_PK].params, Filter(cols, IsSet) + Keys(cols))
        else HasNone(f, UPDATE_PK) && f.bounds[UPDATE_PK].params == NONE)
    && (if Test(access, AF_DELETE_PK) then HasHandle(f, DELETE_PK) && BoundInOrder(f.bounds[DELETE_PK].params, Keys(cols))
        else HasNone(f, DELETE_PK) && f.bounds[DELETE_PK].params == NONE)
    && f.bounds[INSERT].columns == f.bounds[UPDATE_PK].columns == f.bounds[DELETE_PK].columns == NONE
  }

  predicate HasHandle(f: Five, k: nat)
    requires f.Sized() && k < STATEMENTS
  {
    f.handles[k].0 && f.handles[k].1 != null
  }

  predicate HasNone(f: Five, k: nat)
    requires f.Sized() && k < STATEMENTS
  {
    !f.handles[k].0 && f.handles[k].1 == null
  }

  /** The columns are bound with the numbers from one on, each has an entry, and nothing else. */
  ghost predicate BoundInOrder(b: Bindings, part: seq<Column>) {
    && (forall nr: nat :: nr in b.bound <==> 1 <= nr <= |part|)
    && (forall k | 0 <= k < |part| :: b.bound[k + 1] == part[k].buffer)
    && (forall k | 0 <= k < |part| :: part[k].buffer in b.entered)
    && (forall x <- b.entered :: exists k :: 0 <= k < |part| && part[k].buffer == x)
  }

  lemma InOrderIsBound(part: seq<Column>)
    ensures BoundInOrder(InOrder(part), part)
  {
    hide Numbered, Buffers;
    var b := InOrder(part);
    NumberedFromOne(part);
    assert b.bound == Numbered(Buffers(part)) && b.entered == BufferSet(part);
    assert forall k | 0 <= k < |part| :: part[k].buffer in b.entered;
    assert forall x <- b.entered :: exists k :: 0 <= k < |part| && part[k].buffer == x;
    assert forall k | 0 <= k < |part| :: b.bound[k + 1] == part[k].buffer;
  }

  lemma OpenAsAsked(f: Five, access: FlagSet, table: string, cols: seq<Column>, countBuffer: ColumnBuffer?)
    requires f.Sized() && Opened(f, access, table, cols, countBuffer)
    ensures AsAskedFor(f, access, cols, countBuffer)
  {
    hide BoundInOrder, InOrder, Filter, Test, OpenTexts, Bindable;
    InOrderIsBound(Selected(cols));
    InOrderIsBound(Keys(cols));
    InOrderIsBound(Inserted(cols));
    InOrderIsBound(UpdateParams(cols));
    assert map[][1 := countBuffer] == map[1 := countBuffer];
  }

  /** The field list holds the names of the columns flagged CF_SELECT, in index order, and the k-th of
      them is bound as result column k. */
  ghost predicate SelectListMatches(fields: string, cols: seq<Column>, bound: map<nat, ColumnBuffer>) {
    var sel := Selected(cols);
    && ExactlyFlagged(cols, sel, CF_SELECT)
    && fields == Join(Names(sel), SEP)
    && (forall nr: nat :: nr in bound <==> 1 <= nr <= |sel|)
    && forall k | 0 <= k < |sel| :: Names(sel)[k] == sel[k].name && bound[k + 1] == sel[k].buffer
  }

  lemma SelectColumnsMatch(cols: seq<Column>)
    ensures SelectListMatches(FieldList(cols), cols, Numbered(Buffers(Selected(cols))))
  {
    var sel := Selected(cols);
    assert FieldList(cols) == Join(Names(sel), SEP);
    SelectedMeans(cols);
    hide Numbered, Buffers, Selected, FieldList, Join, Names, ExactlyFlagged;
    NumberedFromOne(sel);
    NamesOf(sel);
  }

  lemma NumberedFromOne(cols: seq<Column>)
    ensures var bound := Numbered(Buffers(cols));
            && (forall nr: nat :: nr in bound <==> 1 <= nr <= |cols|)
            && (forall k | 0 <= k < |cols| :: bound[k + 1] == cols[k].buffer)
  {
    NumberedMeaning(Buffers(cols));
    hide Numbered;
  }

  lemma SelectedMeans(cols: seq<Column>)
    ensures ExactlyFlagged(cols, Selected(cols), CF_SELECT)
  {
    if Ordered(cols) { FilterOrdered(cols, IsSelected); }
    FilterMeaning(cols, IsSelected);
    hide Ordered, Filter;
  }

  lemma {:induction false} NamesOf(cols: seq<Column>)
    ensures forall k | 0 <= k < |cols| :: Names(cols)[k] == cols[k].name
  {
    if cols != [] {
      NamesOf(cols[..|cols| - 1]);
    }
  }

  /** An open table: whatever it has prepared agrees with what it has bound. */
  lemma OpenTableMatches(f: Five, access: FlagSet, table: string, cols: seq<Column>, countBuffer: ColumnBuffer?)
    requires f.Sized() && Opened(f, access, table, cols, countBuffer)
    ensures AsAskedFor(f, access, cols, countBuffer) && Prepared(f.texts, access, table, cols)
    ensures Test(access, AF_SELECT_WHERE) || Test(access, AF_SELECT_PK) ==> SelectListMatches(FieldList(cols), cols, f.bounds[SELECT].columns.bound)
    ensures '?' !in table && NamesFree(cols) ==>
              && (Test(access, AF_UPDATE_PK) ==> AsManyAsMarkers(f.texts[UPDATE_PK].text, f.bounds[UPDATE_PK].params.bound)
                                                 && UpdateAgrees(f.texts[UPDATE_PK].text, table, cols, f.bounds[UPDATE_PK].params.bound))
              && (Test(access, AF_DELETE_PK) ==> AsManyAsMarkers(f.texts[DELETE_PK].text, f.bounds[DELETE_PK].params.bound)
                                                 && BoundAsMarked(f.texts[DELETE_PK].text, 0, "DELETE FROM " + table + " WHERE ", Keys(cols),
                                                                  f.bounds[DELETE_PK].params.bound))
              && (Test(access, AF_SELECT_PK) ==> AsManyAsMarkers(f.texts[SELECT].text, f.bounds[SELECT].params.bound)
                                                 && BoundAsMarked(f.texts[SELECT].text, 0,
                                                                  "SELECT " + Join(Names(Selected(cols)), SEP) + " FROM " + table + " WHERE ", Keys(cols),
                                                                  f.bounds[SELECT].params.bound))
              && (Test(access, AF_INSERT) ==> AsManyAsMarkers(f.texts[INSERT].text, f.bounds[INSERT].params.bound)
                                              && InsertAgrees(f.texts[INSERT].text, table, cols, f.bounds[INSERT].params.bound))
  {
    hide InsertAgrees, SelectListMatches, AsManyAsMarkers, UpdateAgrees, BoundAsMarked, FieldList, Keys, Inserted, Selected, NamesFree, SomeKey, Ready,
      UpdatePkText, DeletePkText, SelectPkText, InsertText, UpdateParams, Numbered, Buffers, Positions, Join, MarkerList, AsAskedFor, Prepared;
    OpenAsAsked(f, access, table, cols, countBuffer);
    TextsArePrepared(f.texts, access, table, cols);
    SelectColumnsMatch(cols);
    if '?' !in table && NamesFree(cols) {
      UpdateMatches(table, cols);
      DeleteParametersMatch(table, cols);
      SelectParametersMatch(table, cols);
      InsertParametersMatch(table, cols);
    }
  }

  /** The SET columns own the first markers and parameters, the WHERE columns the others. */
  ghost predicate UpdateAgrees(text: string, table: string, cols: seq<Column>, bound: map<nat, ColumnBuffer>) {
    var set', where := Filter(cols, IsSet), Filter(cols, IsKey);
    var pre := "UPDATE " + table + " SET ";
    && BoundAsMarked(text, 0, pre, set', bound)
    && BoundAsMarked(text, |set'|, pre + MarkerList(set') + " WHERE ", where, bound)
  }

  lemma UpdateMatches(table: string, cols: seq<Column>)
    requires '?' !in table && NamesFree(cols)
    ensures var t, bound := UpdatePkText(table, cols), Numbered(Buffers(UpdateParams(cols)));
            UpdateAgrees(t, table, cols, bound) && AsManyAsMarkers(t, bound)
  {
    hide BoundAsMarked, AsManyAsMarkers, Filter, MarkerList, UpdatePkText, UpdateParams, Numbered, Buffers, NamesFree;
    UpdateParametersMatch(table, cols);
  }

  lemma AsManyIff(text: string, cols: seq<Column>)
    ensures AsManyAsMarkers(text, Numbered(Buffers(cols))) <==> |Positions(text, '?')| == |cols|
  {
    NumberedMeaning(Buffers(cols));
    var n: nat, bound := |Positions(text, '?')|, Numbered(Buffers(cols));
    hide Numbered, Positions;
    if AsManyAsMarkers(text, bound) {
      assert n > 0 ==> n in bound;
      assert cols != [] ==> |cols| in bound;
    }
  }

  /** Without the assumption on names: an open table has as many parameters as markers in each of its
      prepared texts exactly when neither the table's name nor that of a column it lists holds a '?'. */
  lemma OpenCountsIff(f: Five, access: FlagSet, table: string, cols: seq<Column>, countBuffer: ColumnBuffer?)
    requires f.Sized() && Opened(f, access, table, cols, countBuffer)
    ensures Test(access, AF_UPDATE_PK) ==>
              (AsManyAsMarkers(f.texts[UPDATE_PK].text, f.bounds[UPDATE_PK].params.bound)
               <==> '?' !in table && NamesFree(Filter(cols, IsSet)) && NamesFree(Keys(cols)))
    ensures Test(access, AF_DELETE_PK) ==>
              (AsManyAsMarkers(f.texts[DELETE_PK].text, f.bounds[DELETE_PK].params.bound) <==> '?' !in table && NamesFree(Keys(cols)))
    ensures Test(access, AF_SELECT_PK) ==>
              (AsManyAsMarkers(f.texts[SELECT].text, f.bounds[SELECT].params.bound)
               <==> '?' !in table && NamesFree(Selected(cols)) && NamesFree(Keys(cols)))
    ensures Test(access, AF_INSERT) ==>
              (AsManyAsMarkers(f.texts[INSERT].text, f.bounds[INSERT].params.bound) <==> '?' !in table && NamesFree(Inserted(cols)))
  {
    hide AsManyAsMarkers, NamesFree, SomeKey, Ready, Filter, Numbered, Buffers, Positions, Join, Names, MarkerList, UpdateText, DeleteText,
      InsertText, SelectText, Test;
    UpdateCountIff(table, Filter(cols, IsSet), Filter(cols, IsKey));
    DeleteCountIff(table, Keys(cols));
    SelectCountIff(table, Selected(cols), Keys(cols));
    InsertCountIff(table, Inserted(cols));
    AsManyIff(UpdatePkText(table, cols), UpdateParams(cols));
    AsManyIff(DeletePkText(table, cols), Keys(cols));
    AsManyIff(SelectPkText(table, cols), Keys(cols));
    AsManyIff(InsertText(table, Inserted(cols)), Inserted(cols));
  }

  /** Where the columns of an open table are replaced by others, the buffers in gone being destroyed, the
      select list and the bound columns agree exactly when nothing is selected any more and nothing was
      bound or one of the buffers that were bound is gone: it has then unbound all of them. */
  lemma ReplacedColumnsMatchIff(old': seq<Column>, new': seq<Column>, gone: set<ColumnBuffer>)
    requires forall c, d | c in old' && d in new' :: c.buffer != d.buffer
    ensures SelectListMatches(FieldList(new'), new', InOrder(Selected(old')).Without(gone).bound)
       <==> Selected(new') == [] && (Selected(old') == [] || exists c :: c in Selected(old') && c.buffer in gone)
  {
    hide Numbered, Buffers, Selected, FieldList, ExactlyFlagged, BufferSet, Join, Names;
    var old1, new1 := Selected(old'), Selected(new');
    var left := InOrder(old1).Without(gone);
    NumberedFromOne(old1);
    NumberedFromOne(new1);
    SelectColumnsMatch(new');
    SelectedWithin(old');
    SelectedWithin(new');
    SomeGone(old1, gone);
    if BufferSet(old1) !! gone {
      assert left.bound == Numbered(Buffers(old1));
      if old1 != [] {
        assert 1 in left.bound && left.bound[0 + 1] == old1[0].buffer && old1[0] in old1;
        if new1 != [] { assert new1[0] in new1; }
      } else {
        assert 1 !in left.bound;
      }
    } else {
      assert left.bound == map[] && 1 !in left.bound;
    }
    if new1 == [] && (old1 == [] || left.bound == map[]) {
      assert left.bound == Numbered(Buffers(new1));
    }
  }

  lemma SelectedWithin(cols: seq<Column>)
    ensures forall c <- Selected(cols) :: c in cols
  {
    SelectedMeans(cols);
  }

  lemma SomeGone(cols: seq<Column>, gone: set<ColumnBuffer>)
    ensures BufferSet(cols) !! gone <==> !exists c :: c in cols && c.buffer in gone
  {
    if c :| c in cols && c.buffer in gone {
      var i :| 0 <= i < |cols| && cols[i] == c;
      assert c.buffer in BufferSet(cols);
    }
  }
}
