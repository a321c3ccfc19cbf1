// EnumFlags: a set of flags, and the flags the library defines (all of them below 0x100).
module Flags {
  type FlagSet = bv8

  const CF_NONE: FlagSet := 0x0
  const CF_SELECT: FlagSet := 0x1
  const CF_UPDATE: FlagSet := 0x2
  const CF_INSERT: FlagSet := 0x4
  const CF_NULLABLE: FlagSet := 0x8
  const CF_PRIMARY_KEY: FlagSet := 0x10

  const AF_NONE: FlagSet := 0x0
  const AF_SELECT_PK: FlagSet := 0x1
  const AF_SELECT_WHERE: FlagSet := 0x2
  const AF_UPDATE_PK: FlagSet := 0x4
  const AF_UPDATE_WHERE: FlagSet := 0x8
  const AF_INSERT: FlagSet := 0x10
  const AF_DELETE_PK: FlagSet := 0x20
  const AF_DELETE_WHERE: FlagSet := 0x40
  const AF_COUNT_WHERE: FlagSet := 0x80

  const TOF_CHECK_EXISTANCE: FlagSet := 0x1
  const TOF_SKIP_UNSUPPORTED_COLUMNS: FlagSet := 0x4
  const TOF_DO_NOT_QUERY_PRIMARY_KEYS: FlagSet := 0x20
  const TOF_CHECK_DB_TYPE_INFOS: FlagSet := 0x40
  const TOF_SCROLLABLE_CURSORS: FlagSet := 0x80

  function Test(flags: FlagSet, flag: FlagSet): bool { flags & flag == flag }

  function Set(flags: FlagSet, flag: FlagSet): FlagSet { flags | flag }

  function Clear(flags: FlagSet, flag: FlagSet): FlagSet { flags & !flag }

  lemma TestMeans(flags: FlagSet, tested: FlagSet)
    ensures Test(flags, tested) <==> tested & !flags == 0
  {
  }

  const COLUMN_FLAGS: set<FlagSet> := {CF_SELECT, CF_UPDATE, CF_INSERT, CF_NULLABLE, CF_PRIMARY_KEY}

  const ACCESS_FLAGS: set<FlagSet> :=
    {AF_SELECT_PK, AF_SELECT_WHERE, AF_UPDATE_PK, AF_UPDATE_WHERE, AF_INSERT, AF_DELETE_PK, AF_DELETE_WHERE, AF_COUNT_WHERE}

  /** The flags of a kind are different ones, and setting or clearing one does not bear on another. */
  lemma FlagsAreIndependent(flags: FlagSet, changed: FlagSet, tested: FlagSet)
    ensures |COLUMN_FLAGS| == 5 && |ACCESS_FLAGS| == 8
    ensures {changed, tested} <= COLUMN_FLAGS || {changed, tested} <= ACCESS_FLAGS ==>
              && (Test(Set(flags, changed), tested) <==> Test(flags, tested) || tested == changed)
              && (Test(Clear(flags, changed), tested) <==> Test(flags, tested) && tested != changed)
  {
  }

  /** What Set does to every later Test, of single flags and of combinations. */
  lemma TestAfterSet(flags: FlagSet, changed: FlagSet, tested: FlagSet)
    ensures Test(Set(flags, changed), tested) <==> Test(flags, Clear(tested, changed))
  {
    hide Test;
    TestMeans(Set(flags, changed), tested);
    TestMeans(flags, Clear(tested, changed));
    assert tested & !(flags | changed) == (tested & !changed) & !flags;
  }
}
