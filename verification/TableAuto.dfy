// Table::CreateAutoColumnBufferPtrs: one buffer per catalog column, flagged after the access flags.
module TableAuto {
  import opened Flags
  import opened BindingSpec
  import opened Binding
  import opened Statement
  import opened SqlBuilder
  import opened TableColumns
  import opened TableStatements
  import opened TableBuffers

  /** The columns made from these catalog entries: numbered from zero, flagged as the loop flags them and
      some of them as keys, each with a buffer of its own. */
  ghost predicate MadeFrom(cols: seq<Column>, access: FlagSet, created: seq<CatalogColumn>, keys: set<nat>) {
    && |cols| == |created|
    && (forall i | 0 <= i < |cols| ::
          && cols[i] == Column(i, cols[i].buffer, created[i].queryName, MadeFlags(access, created, keys, i))
          && cols[i].buffer.sqlType == created[i].sqlType)
    && (forall i, j | 0 <= i < j < |cols| :: cols[i].buffer != cols[j].buffer)
  }

  function MadeFlags(access: FlagSet, created: seq<CatalogColumn>, keys: set<nat>, i: nat): FlagSet
    requires i < |created|
  {
    if i in keys then Set(FlagsOf(access, created, i), CF_PRIMARY_KEY) else FlagsOf(access, created, i)
  }

  lemma MadeNext(cols: seq<Column>, access: FlagSet, created: seq<CatalogColumn>, info: CatalogColumn, c: Column)
    requires MadeFrom(cols, access, created, {})
    requires c == Column(|cols|, c.buffer, info.queryName, FlagsAfter(access, created + [info])) && c.buffer.sqlType == info.sqlType
    requires forall i | 0 <= i < |cols| :: cols[i].buffer != c.buffer
    ensures MadeFrom(cols + [c], access, created + [info], {})
  {
    var cols', created' := cols + [c], created + [info];
    assert created'[..|cols| + 1] == created';
    forall i | 0 <= i < |cols| ensures FlagsOf(access, created', i) == FlagsOf(access, created, i) {
      assert created'[..i + 1] == created[..i + 1];
    }
    hide FlagsAfter, FlagsOf;
  }

  lemma LookNext(columns: seq<TableColumn>, of: map<ColumnBuffer, FlagSet>, c: TableColumn, flags: FlagSet)
    requires c.buffer !in BuffersOf(columns)
    ensures Look(columns + [c], of[c.buffer := flags]) == Look(columns, of) + [Column(c.index, c.buffer, c.buffer.queryName, flags)]
    ensures BuffersOf(columns + [c]) == BuffersOf(columns) + {c.buffer}
  {
    var both := columns + [c];
    assert both[..|columns|] == columns;
    OtherFlags(columns, of, c.buffer, flags);
    assert both[|columns|] == c;
    assert forall i | 0 <= i < |columns| :: both[i] == columns[i];
  }

  lemma OtherFlags(columns: seq<TableColumn>, of: map<ColumnBuffer, FlagSet>, b: ColumnBuffer, flags: FlagSet)
    requires b !in BuffersOf(columns)
    ensures Look(columns, of[b := flags]) == Look(columns, of)
  {
    var cols, cols' := Look(columns, of), Look(columns, of[b := flags]);
    assert forall i | 0 <= i < |columns| :: columns[i].buffer in BuffersOf(columns);
    hide Look;
    assert forall i | 0 <= i < |columns| :: cols'[i] == cols[i];
  }

  method CreateOne(stmts: seq<ExecutableStatement>, m: Memory, info: CatalogColumn, ghost w0: World) returns (b: ColumnBuffer)
    requires Shape(stmts, m) && HeldSince(stmts, m, w0)
    modifies m
    ensures Shape(stmts, m) && HeldSince(stmts, m, w0)
    ensures b.queryName == info.queryName && b.sqlType == info.sqlType
    ensures b !in old(m.bufs) && m.bufs == old(m.bufs) + {b} && m.bound == old(m.bound) && m.entries == old(m.entries)
    ensures m.alive == old(m.alive)
  {
    hide Shape, StillHeld, Step;
    ghost var w := m.View();
    b := TableStatements.NewBuffer(stmts, m, info.queryName, info.sqlType);
    NewBufferFrame(w, b);
    forall k | 0 <= k < STATEMENTS && stmts[k].stmt != null ensures StillHeld(w0, m.View(), stmts[k].stmt) {
      NewBufferHeld(w0, w, b, stmts[k].stmt);
    }
  }

  lemma NewBufferHeld(w0: World, w: World, b: ColumnBuffer, s: SqlStmtHandle)
    requires StillHeld(w0, w, s)
    ensures StillHeld(w0, Step(w, Op.NewBuffer(b)), s)
  {
  }

  lemma NewBufferFrame(w: World, b: ColumnBuffer)
    ensures Step(w, Op.NewBuffer(b)).driver == w.driver && Step(w, Op.NewBuffer(b)).heap.entries == w.heap.entries
  {
  }

  /** The flags variable of the loop, after a column that has been created. */
  method NextFlags(flags: FlagSet, access: FlagSet, ghost created: seq<CatalogColumn>, info: CatalogColumn) returns (next: FlagSet)
    requires flags == FlagsAfter(access, created)
    ensures next == FlagsAfter(access, created + [info])
  {
    assert (created + [info])[..|created|] == created;
    next := if info.nullable then Set(flags, CF_NULLABLE) else flags;
  }

  predicate CanCreate(info: CatalogColumn, skip: bool) {
    info.creation == Created || (skip && info.creation == Unsupported)
  }

  predicate AllCreatable(infos: seq<CatalogColumn>, skip: bool) {
    forall i | 0 <= i < |infos| :: CanCreate(infos[i], skip)
  }

  lemma CreatableNext(infos: seq<CatalogColumn>, skip: bool, i: nat)
    requires i < |infos|
    ensures AllCreatable(infos[..i], skip) && CanCreate(infos[i], skip) ==> AllCreatable(infos[..i + 1], skip)
    ensures AllCreatable(infos, skip) ==> CanCreate(infos[i], skip)
  {
    hide CanCreate;
  }

  lemma CreatedNext(infos: seq<CatalogColumn>, i: nat)
    requires i < |infos|
    ensures CreatedOf(infos[..i + 1]) == if infos[i].creation == Created then CreatedOf(infos[..i]) + [infos[i]] else CreatedOf(infos[..i])
  {
    assert infos[..i + 1][..i] == infos[..i];
  }

  /** The state in which the loop starts: the live buffers, their flags, what is bound, and what is allocated. */
  datatype Start = Start(bufs: set<ColumnBuffer>, of: map<ColumnBuffer, FlagSet>, entries: map<EntryKey, Entry>, bound: map<Key, map<nat, ColumnBuffer>>,
    alive: set<nat>)

  ghost function StartOf(m: Memory, fl: FlagMemory): Start
    reads m, fl
  {
    Start(m.bufs, fl.of, m.entries, m.bound, m.alive)
  }

  /** What was there has kept its flags and its bindings. */
  ghost predicate Kept(m: Memory, of: map<ColumnBuffer, FlagSet>, start: Start)
    reads m
  {
    && (forall b <- start.bufs :: FlagsIn(of, b) == FlagsIn(start.of, b))
    && m.entries == start.entries && m.bound == start.bound && m.alive <= start.alive
    && forall x <- start.entries :: x.buffer in start.bufs
  }

  /** Between two iterations: the buffers made so far are the only ones that came to be. */
  ghost predicate Making(bufs: set<ColumnBuffer>, of: map<ColumnBuffer, FlagSet>, access: FlagSet, created: seq<CatalogColumn>,
      flags: FlagSet, made: seq<TableColumn>, start: Start)
  {
    && flags == FlagsAfter(access, created) && MadeFrom(Look(made, of), access, created, {})
    && BuffersOf(made) !! start.bufs && bufs == start.bufs + BuffersOf(made)
  }

  /** The loop over the catalog's columns; on an exception the buffers made so far are destroyed. What
      is bound, and the flags of other buffers, stay as they are. */
  method CreateBuffers(stmts: seq<ExecutableStatement>, m: Memory, fl: FlagMemory, access: FlagSet, infos: seq<CatalogColumn>, skip: bool, ghost w0: World)
      returns (ok: bool, made: seq<TableColumn>)
    requires Shape(stmts, m) && HeldSince(stmts, m, w0)
    modifies m, fl
    ensures Shape(stmts, m) && HeldSince(stmts, m, w0) && Kept(m, fl.of, old(StartOf(m, fl)))
    ensures ok <==> AllCreatable(infos, skip)
    ensures !ok ==> m.bufs == old(m.bufs)
    ensures ok ==> MadeFrom(Look(made, fl.of), access, CreatedOf(infos), {})
    ensures ok ==> BuffersOf(made) !! old(m.bufs) && m.bufs == old(m.bufs) + BuffersOf(made)
  {
    NothingMade(stmts, m, fl, access, infos, skip);
    hide Shape, HeldSince, Making, Kept, MadeFrom, CreatedOf, BuffersOf, Look, LookAt, AutoFlags, FlagsAfter, AllCreatable;
    made := [];
    var flags := AutoFlags(access);
    ghost var start := StartOf(m, fl);
    for i := 0 to |infos|
      invariant Shape(stmts, m)
      invariant HeldSince(stmts, m, w0)
      invariant Kept(m, fl.of, start)
      invariant Making(m.bufs, fl.of, access, CreatedOf(infos[..i]), flags, made, start)
      invariant AllCreatable(infos[..i], skip)
    {
      ok, flags, made := CreateNext(stmts, m, fl, access, infos, i, skip, flags, made, w0, start);
      if !ok { return; }
    }
    AllMade(m.bufs, fl.of, access, infos, flags, made, start);
    assert infos[..|infos|] == infos;
    ok := true;
  }

  method CreateNext(stmts: seq<ExecutableStatement>, m: Memory, fl: FlagMemory, access: FlagSet, infos: seq<CatalogColumn>, i: nat, skip: bool,
      flags: FlagSet, made: seq<TableColumn>, ghost w0: World, ghost start: Start) returns (ok: bool, flags': FlagSet, made': seq<TableColumn>)
    requires Shape(stmts, m) && HeldSince(stmts, m, w0) && Kept(m, fl.of, start) && i < |infos|
    requires Making(m.bufs, fl.of, access, CreatedOf(infos[..i]), flags, made, start)
    modifies m, fl
    ensures Shape(stmts, m) && HeldSince(stmts, m, w0) && Kept(m, fl.of, start)
    ensures ok && AllCreatable(infos[..i], skip) ==> AllCreatable(infos[..i + 1], skip)
    ensures !ok ==> !AllCreatable(infos, skip)
    ensures ok ==> Making(m.bufs, fl.of, access, CreatedOf(infos[..i + 1]), flags', made', start)
    ensures !ok ==> m.bufs == start.bufs
  {
    hide Shape, HeldSince, Making, Kept, CreatedOf, BuffersOf, Look, FlagsAfter, AllCreatable;
    CreatedNext(infos, i);
    CreatableNext(infos, skip, i);
    ok, flags', made' := true, flags, made;
    if infos[i].creation == Created {
      flags', made' := AppendOne(stmts, m, fl, access, CreatedOf(infos[..i]), infos[i], flags, made, w0, start);
    } else if !(skip && infos[i].creation == Unsupported) {
      GiveUp(stmts, m, fl.of, access, CreatedOf(infos[..i]), flags, made, w0, start);
      ok, made' := false, [];
    }
  }

  lemma AllMade(bufs: set<ColumnBuffer>, of: map<ColumnBuffer, FlagSet>, access: FlagSet, infos: seq<CatalogColumn>,
      flags: FlagSet, made: seq<TableColumn>, start: Start)
    requires Making(bufs, of, access, CreatedOf(infos[..|infos|]), flags, made, start)
    ensures MadeFrom(Look(made, of), access, CreatedOf(infos), {})
    ensures BuffersOf(made) !! start.bufs && bufs == start.bufs + BuffersOf(made)
  {
    hide MadeFrom, Look, BuffersOf, CreatedOf;
    assert infos[..|infos|] == infos;
  }

  lemma NothingMade(stmts: seq<ExecutableStatement>, m: Memory, fl: FlagMemory, access: FlagSet, infos: seq<CatalogColumn>, skip: bool)
    requires Shape(stmts, m)
    ensures Making(m.bufs, fl.of, access, CreatedOf(infos[..0]), AutoFlags(access), [], StartOf(m, fl)) && AllCreatable(infos[..0], skip)
    ensures Kept(m, fl.of, StartOf(m, fl))
  {
    assert BuffersOf([]) == {} && infos[..0] == [];
    EntriesInBuffers(m.View());
    hide Inv;
  }

  lemma EntriesInBuffers(w: World)
    requires Inv(w)
    ensures forall x <- w.heap.entries :: x.buffer in w.heap.bufs
  {
  }

  method GiveUp(stmts: seq<ExecutableStatement>, m: Memory, ghost of: map<ColumnBuffer, FlagSet>, access: FlagSet, ghost created: seq<CatalogColumn>,
      flags: FlagSet, made: seq<TableColumn>, ghost w0: World, ghost start: Start)
    requires Shape(stmts, m) && HeldSince(stmts, m, w0) && Kept(m, of, start)
    requires Making(m.bufs, of, access, created, flags, made, start)
    modifies m
    ensures Shape(stmts, m) && HeldSince(stmts, m, w0) && Kept(m, of, start) && m.bufs == start.bufs
  {
    hide Shape, HeldSince, MadeFrom, BuffersOf;
    LetGo(stmts, m, BuffersOf(made), w0);
  }

  method AppendOne(stmts: seq<ExecutableStatement>, m: Memory, fl: FlagMemory, access: FlagSet, ghost created: seq<CatalogColumn>, info: CatalogColumn,
      flags: FlagSet, made: seq<TableColumn>, ghost w0: World, ghost start: Start) returns (flags': FlagSet, made': seq<TableColumn>)
    requires Shape(stmts, m) && HeldSince(stmts, m, w0) && Kept(m, fl.of, start)
    requires Making(m.bufs, fl.of, access, created, flags, made, start)
    modifies m, fl
    ensures Shape(stmts, m) && HeldSince(stmts, m, w0) && Kept(m, fl.of, start)
    ensures Making(m.bufs, fl.of, access, created + [info], flags', made', start)
  {
    hide Shape, HeldSince, Making, FlagsAfter;
    MakingSoFar(m.bufs, fl.of, access, created, flags, made, start);
    flags' := NextFlags(flags, access, created, info);
    ghost var bufs := m.bufs;
    var b := CreateOne(stmts, m, info, w0);
    made' := made + [TableColumn(|made|, b)];
    MakingNext(bufs, fl.of, access, created, info, flags, flags', made, b, start);
    SetFlags(stmts, m, fl, b, flags', w0);
  }

  lemma MakingSoFar(bufs: set<ColumnBuffer>, of: map<ColumnBuffer, FlagSet>, access: FlagSet, created: seq<CatalogColumn>,
      flags: FlagSet, made: seq<TableColumn>, start: Start)
    requires Making(bufs, of, access, created, flags, made, start)
    ensures flags == FlagsAfter(access, created) && start.bufs <= bufs
  {
    hide FlagsAfter, MadeFrom, Look, BuffersOf;
  }

  method SetFlags(stmts: seq<ExecutableStatement>, m: Memory, fl: FlagMemory, b: ColumnBuffer, flags: FlagSet, ghost w0: World)
    requires Shape(stmts, m) && HeldSince(stmts, m, w0)
    modifies fl
    ensures Shape(stmts, m) && HeldSince(stmts, m, w0) && m.View() == old(m.View())
    ensures fl.of == old(fl.of)[b := flags]
  {
    hide Shape, HeldSince;
    fl.of := fl.of[b := flags];
  }

  lemma MakingNext(bufs: set<ColumnBuffer>, of: map<ColumnBuffer, FlagSet>, access: FlagSet, created: seq<CatalogColumn>, info: CatalogColumn,
      flags: FlagSet, flags': FlagSet, made: seq<TableColumn>, b: ColumnBuffer, start: Start)
    requires Making(bufs, of, access, created, flags, made, start) && flags' == FlagsAfter(access, created + [info])
    requires b.queryName == info.queryName && b.sqlType == info.sqlType && b !in bufs
    ensures Making(bufs + {b}, of[b := flags'], access, created + [info], flags', made + [TableColumn(|made|, b)], start)
  {
    hide FlagsAfter, MadeFrom, Look, BuffersOf;
    AppendedIsMade(made, of, access, created, info, TableColumn(|made|, b), flags');
  }

  lemma AppendedIsMade(made: seq<TableColumn>, of: map<ColumnBuffer, FlagSet>, access: FlagSet, created: seq<CatalogColumn>, info: CatalogColumn,
      c: TableColumn, flags: FlagSet)
    requires MadeFrom(Look(made, of), access, created, {}) && c.buffer !in BuffersOf(made) && c.index == |made|
    requires c.buffer.queryName == info.queryName && c.buffer.sqlType == info.sqlType
    requires flags == FlagsAfter(access, created + [info])
    ensures MadeFrom(Look(made + [c], of[c.buffer := flags]), access, created + [info], {})
    ensures BuffersOf(made + [c]) == BuffersOf(made) + {c.buffer}
  {
    hide FlagsAfter, MadeFrom, Look, LookAt, BuffersOf;
    LookNext(made, of, c, flags);
    NotMade(made, of, c.buffer);
    SizesAgree(Look(made, of), access, created);
    MadeNext(Look(made, of), access, created, info, Column(c.index, c.buffer, c.buffer.queryName, flags));
  }

  lemma NotMade(made: seq<TableColumn>, of: map<ColumnBuffer, FlagSet>, b: ColumnBuffer)
    requires b !in BuffersOf(made)
    ensures forall i | 0 <= i < |made| :: Look(made, of)[i].buffer != b
  {
    hide Look;
  }

  lemma SizesAgree(cols: seq<Column>, access: FlagSet, created: seq<CatalogColumn>)
    requires MadeFrom(cols, access, created, {})
    ensures |cols| == |created|
  {
  }

  /** Buffers lose their last owner. */
  method LetGo(stmts: seq<ExecutableStatement>, m: Memory, bs: set<ColumnBuffer>, ghost w0: World)
    requires Shape(stmts, m) && HeldSince(stmts, m, w0) && bs <= m.bufs
    modifies m
    ensures Shape(stmts, m) && HeldSince(stmts, m, w0)
    ensures Shrinks(old(m.View()), m.View())
    ensures m.Unbinds() ==> AllLeft(stmts, m, old(m.View()), bs)
    ensures m.bufs == old(m.bufs) - bs
    ensures (forall x <- old(m.entries) :: x.buffer !in bs) ==> m.bound == old(m.bound) && m.entries == old(m.entries)
  {
    hide Shape, HeldSince, AllLeft, GrownBy;
    DestroyAll(stmts, bs, m, w0);
  }
}
