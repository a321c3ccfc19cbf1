// The columns of a Table: flags derived from the access flags, the checks of Open, and the names
// by which key columns are found.
module TableColumns {
  import opened Flags
  import opened SqlBuilder

  // ---- flags of automatically created columns

  /** What CreateAutoColumnBufferPtrs derives from the access flags for every column. */
  function AutoFlags(access: FlagSet): FlagSet {
    var f0 := if Test(access, AF_SELECT_WHERE) || Test(access, AF_SELECT_PK) then Set(CF_NONE, CF_SELECT) else CF_NONE;
    var f1 := if Test(access, AF_UPDATE_WHERE) || Test(access, AF_UPDATE_PK) then Set(f0, CF_UPDATE) else f0;
    if Test(access, AF_INSERT) then Set(f1, CF_INSERT) else f1
  }

  /** One column's flags against the access flags, as CheckColumnFlags tests them. */
  predicate FlagsAllowed(access: FlagSet, flags: FlagSet) {
    && (Test(flags, CF_SELECT) ==> Test(access, AF_SELECT_PK) || Test(access, AF_SELECT_WHERE))
    && (Test(flags, CF_INSERT) ==> Test(access, AF_INSERT))
    && (Test(flags, CF_UPDATE) ==> Test(access, AF_UPDATE_PK) || Test(access, AF_UPDATE_WHERE))
  }

  /** CF_NULLABLE and CF_PRIMARY_KEY do not bear on the check. */
  lemma AllowedWithMarks(access: FlagSet, flags: FlagSet, mark: FlagSet)
    requires mark == CF_NULLABLE || mark == CF_PRIMARY_KEY
    ensures FlagsAllowed(access, Set(flags, mark)) <==> FlagsAllowed(access, flags)
  {
    assert Test(Set(flags, mark), CF_SELECT) == Test(flags, CF_SELECT);
    assert Test(Set(flags, mark), CF_INSERT) == Test(flags, CF_INSERT);
    assert Test(Set(flags, mark), CF_UPDATE) == Test(flags, CF_UPDATE);
  }

  /** Whatever the access flags are, the derived flags pass the check. */
  lemma AutoFlagsAllowed(access: FlagSet)
    ensures FlagsAllowed(access, AutoFlags(access))
  {
    AutoFlagsMeaning(access);
  }

  lemma AutoFlagsMeaning(access: FlagSet)
    ensures Test(AutoFlags(access), CF_SELECT) <==> Test(access, AF_SELECT_WHERE) || Test(access, AF_SELECT_PK)
    ensures Test(AutoFlags(access), CF_UPDATE) <==> Test(access, AF_UPDATE_WHERE) || Test(access, AF_UPDATE_PK)
    ensures Test(AutoFlags(access), CF_INSERT) <==> Test(access, AF_INSERT)
    ensures !Test(AutoFlags(access), CF_NULLABLE) && !Test(AutoFlags(access), CF_PRIMARY_KEY)
  {
  }

  // ---- what the catalog reports

  datatype Creation = Created | Unsupported | Fails

  /** A column of the table, and what comes of creating a buffer for it: an unsupported type may be
      skipped, any other exception may not. */
  datatype CatalogColumn = CatalogColumn(queryName: string, sqlType: int, nullable: bool, creation: Creation)

  function CreatedOf(infos: seq<CatalogColumn>): seq<CatalogColumn> {
    if infos == [] then []
    else
      var front := CreatedOf(infos[..|infos| - 1]);
      if infos[|infos| - 1].creation == Created then front + [infos[|infos| - 1]] else front
  }

  /** The columns for which a buffer is created, all of them, in the order in which the catalog reports them. */
  lemma {:induction false} CreatedMeaning(infos: seq<CatalogColumn>) returns (at: seq<nat>)
    ensures |at| == |CreatedOf(infos)| && (forall i, j | 0 <= i < j < |at| :: at[i] < at[j])
    ensures forall i | 0 <= i < |at| :: at[i] < |infos| && infos[at[i]] == CreatedOf(infos)[i]
    ensures forall p | 0 <= p < |infos| :: infos[p].creation == Created <==> p in at
  {
    at := [];
    if infos != [] {
      var n := |infos| - 1;
      at := CreatedMeaning(infos[..n]);
      CreatedLast(infos);
      hide CreatedOf;
      assert forall p | 0 <= p < n :: infos[..n][p] == infos[p];
      ghost var before := at;
      if infos[n].creation == Created { at := before + [n]; }
      assert n in at <==> infos[n].creation == Created;
    }
  }

  lemma CreatedLast(infos: seq<CatalogColumn>)
    requires infos != []
    ensures var n := |infos| - 1;
            CreatedOf(infos) == CreatedOf(infos[..n]) + if infos[n].creation == Created then [infos[n]] else []
  {
  }

  /** The loop's flags variable after these created columns: CF_NULLABLE, once set, is never cleared. */
  function FlagsAfter(access: FlagSet, created: seq<CatalogColumn>): FlagSet {
    if created == [] then AutoFlags(access)
    else
      var flags := FlagsAfter(access, created[..|created| - 1]);
      if created[|created| - 1].nullable then Set(flags, CF_NULLABLE) else flags
  }

  lemma NullableMark(flags: FlagSet)
    ensures var marked := Set(flags, CF_NULLABLE);
            && Test(marked, CF_NULLABLE) && Test(marked, CF_SELECT) == Test(flags, CF_SELECT)
            && Test(marked, CF_UPDATE) == Test(flags, CF_UPDATE) && Test(marked, CF_INSERT) == Test(flags, CF_INSERT)
            && Test(marked, CF_PRIMARY_KEY) == Test(flags, CF_PRIMARY_KEY)
  {
  }

  lemma {:induction false} FlagsAfterMeaning(access: FlagSet, created: seq<CatalogColumn>)
    ensures Test(FlagsAfter(access, created), CF_NULLABLE) <==> exists j :: 0 <= j < |created| && created[j].nullable
    ensures FlagsAllowed(access, FlagsAfter(access, created))
    ensures Test(FlagsAfter(access, created), CF_SELECT) <==> Test(access, AF_SELECT_WHERE) || Test(access, AF_SELECT_PK)
    ensures Test(FlagsAfter(access, created), CF_UPDATE) <==> Test(access, AF_UPDATE_WHERE) || Test(access, AF_UPDATE_PK)
    ensures Test(FlagsAfter(access, created), CF_INSERT) <==> Test(access, AF_INSERT)
    ensures !Test(FlagsAfter(access, created), CF_PRIMARY_KEY)
  {
    if created == [] {
      AutoFlagsAllowed(access);
      AutoFlagsMeaning(access);
    } else {
      var front := created[..|created| - 1];
      FlagsAfterMeaning(access, front);
      var flags := FlagsAfter(access, front);
      AllowedWithMarks(access, flags, CF_NULLABLE);
      NullableMark(flags);
      hide Test, Set, AutoFlags, FlagsAllowed;
      assert forall j | 0 <= j < |front| :: front[j] == created[j];
    }
  }

  /** The flags that created column i ends up with. */
  function FlagsOf(access: FlagSet, created: seq<CatalogColumn>, i: nat): FlagSet
    requires i < |created|
  {
    FlagsAfter(access, created[..i + 1])
  }

  /** A created column is flagged nullable exactly when it or one before it is; so every column is
      flagged as it should be exactly when no column that is not nullable follows one that is. */
  lemma NullableLeakIff(access: FlagSet, created: seq<CatalogColumn>)
    ensures (forall i | 0 <= i < |created| :: Test(FlagsOf(access, created, i), CF_NULLABLE) <==> created[i].nullable)
       <==> (forall i, j | 0 <= i < j < |created| :: created[i].nullable ==> created[j].nullable)
  {
    forall i | 0 <= i < |created|
      ensures Test(FlagsOf(access, created, i), CF_NULLABLE) <==> exists j :: 0 <= j <= i && created[j].nullable
    {
      FlagsAfterMeaning(access, created[..i + 1]);
      var upTo := created[..i + 1];
      if j :| 0 <= j <= i && created[j].nullable {
        assert upTo[j].nullable;
      }
    }
  }

  // ---- key columns

  /** GetColumnBufferIndex: the position of the first column with this name. */
  predicate FirstMatch(cols: seq<Column>, name: string, i: nat) {
    i < |cols| && cols[i].name == name && forall j | 0 <= j < i :: cols[j].name != name
  }

  /** The same of what the catalog reports. */
  predicate FirstNamed(created: seq<CatalogColumn>, name: string, i: nat) {
    i < |created| && created[i].queryName == name && forall j | 0 <= j < i :: created[j].queryName != name
  }

  predicate IsNamedKey(created: seq<CatalogColumn>, names: seq<string>, i: nat) {
    exists n :: 0 <= n < |names| && FirstNamed(created, names[n], i)
  }

  /** The positions of the first columns with these names. */
  function NamedKeys(created: seq<CatalogColumn>, names: seq<string>): set<nat> {
    set i: nat | i < |created| && IsNamedKey(created, names, i)
  }

  predicate IsNamed(created: seq<CatalogColumn>, name: string) {
    exists j :: 0 <= j < |created| && created[j].queryName == name
  }

  predicate AllNamedIn(created: seq<CatalogColumn>, names: seq<string>) {
    forall n | 0 <= n < |names| :: IsNamed(created, names[n])
  }

  method FindColumn(cols: seq<Column>, name: string) returns (found: bool, i: nat)
    ensures found ==> FirstMatch(cols, name, i)
    ensures !found <==> forall j | 0 <= j < |cols| :: cols[j].name != name
  {
    i := 0;
    while i < |cols|
      invariant i <= |cols|
      invariant forall j | 0 <= j < i :: cols[j].name != name
    {
      if cols[i].name == name { return true, i; }
      i := i + 1;
    }
    found := false;
  }
}
