// The five statement members of Table: allocating, resetting and freeing them. They are kept in a
// sequence, in the order in which FreeStatements resets them.
module TableStatements {
  import opened Flags
  import opened BindingSpec
  import opened Binding
  import opened Statement

  const COUNT_WHERE: nat := 0
  const SELECT: nat := 1
  const INSERT: nat := 2
  const UPDATE_PK: nat := 3
  const DELETE_PK: nat := 4

  const STATEMENTS: nat := 5

  /** Which statements the access flags call for. */
  predicate Needed(access: FlagSet, k: nat) {
    if k == SELECT then Test(access, AF_SELECT_WHERE) || Test(access, AF_SELECT_PK)
    else if k == COUNT_WHERE then Test(access, AF_COUNT_WHERE)
    else if k == DELETE_PK then Test(access, AF_DELETE_PK)
    else if k == UPDATE_PK then Test(access, AF_UPDATE_PK)
    else Test(access, AF_INSERT)
  }

  /** The five statements are distinct objects with distinct handle objects, each valid. */
  ghost predicate Shape(stmts: seq<ExecutableStatement>, m: Memory)
    reads m, stmts
    ensures Shape(stmts, m) ==> |stmts| == STATEMENTS
  {
    && |stmts| == STATEMENTS
    && (forall i, j | 0 <= i < j < STATEMENTS :: stmts[i] != stmts[j])
    && Inv(m.View())
    && (forall k | 0 <= k < STATEMENTS :: stmts[k].Valid(m))
    && (forall i, j | 0 <= i < STATEMENTS && 0 <= j < STATEMENTS && i != j && stmts[i].stmt != null :: stmts[i].stmt != stmts[j].stmt)
  }

  lemma Apart(stmts: seq<ExecutableStatement>, m: Memory)
    requires Shape(stmts, m)
    ensures forall i, j | 0 <= i < STATEMENTS && 0 <= j < STATEMENTS && i != j :: stmts[i] != stmts[j]
  {
  }

  predicate AllEmpty(stmts: seq<ExecutableStatement>)
    reads stmts
    requires |stmts| == STATEMENTS
  {
    forall k | 0 <= k < STATEMENTS :: stmts[k].Empty()
  }

  /** The statement members of a new Table. */
  method NewStatements(m: Memory) returns (stmts: seq<ExecutableStatement>)
    requires Inv(m.View())
    ensures fresh(stmts) && Shape(stmts, m) && AllEmpty(stmts)
  {
    hide Inv, Held, Shape, AllEmpty;
    var count := new ExecutableStatement();
    var select := new ExecutableStatement();
    var insert := new ExecutableStatement();
    var update := new ExecutableStatement();
    var delete := new ExecutableStatement();
    stmts := [count, select, insert, update, delete];
    EmptyShape(stmts, m);
  }

  lemma EmptyShape(stmts: seq<ExecutableStatement>, m: Memory)
    requires |stmts| == STATEMENTS && Inv(m.View())
    requires forall i, j | 0 <= i < j < STATEMENTS :: stmts[i] != stmts[j]
    requires forall k | 0 <= k < STATEMENTS :: stmts[k].Empty()
    ensures Shape(stmts, m) && AllEmpty(stmts)
  {
    hide Inv, Held;
  }

  predicate NothingBound(stmts: seq<ExecutableStatement>)
    reads stmts
    requires |stmts| == STATEMENTS
  {
    forall k | 0 <= k < STATEMENTS :: !stmts[k].boundColumns && !stmts[k].boundParams
  }

  /** What is left of a statement's native handle once it is gone: freed once more than before, no
      longer allocated, and in no buffer's maps. */
  ghost predicate FreedOnce(w: World, w': World, handle: nat) {
    && handle !in w'.driver.alive
    && w'.driver.freed[handle] == w.driver.freed[handle] + 1
    && forall x <- w'.heap.entries :: x.key.handle != handle
  }

  ghost predicate StillHeld(w: World, w': World, s: SqlStmtHandle) {
    && HandleOf(w'.heap, s) == HandleOf(w.heap, s) && HandleOf(w.heap, s) != SQL_NULL_HANDLE
    && HandleOf(w.heap, s) in w'.driver.alive
    && w'.driver.freed[HandleOf(w.heap, s)] == w.driver.freed[HandleOf(w.heap, s)]
  }

  /** Every statement that has a handle has kept it since w0. */
  ghost predicate HeldSince(stmts: seq<ExecutableStatement>, m: Memory, w0: World)
    reads stmts, m
    requires |stmts| == STATEMENTS
  {
    forall k | 0 <= k < STATEMENTS && stmts[k].stmt != null :: StillHeld(w0, m.View(), stmts[k].stmt)
  }

  /** Reset of one statement, as the others and their handles see it. */
  lemma ResetSeen(w0: World, w: World, s: SqlStmtHandle, columns: bool, params: bool)
    requires Inv(w) && Held(w, s, columns, params) && StillHeld(w0, w, s)
    ensures FreedOnce(w0, AfterReset(w, s, columns, params), HandleOf(w0.heap, s))
  {
    ResetDestroys(w, s, columns, params);
  }

  lemma ResetUnseen(w0: World, w: World, s: SqlStmtHandle, columns: bool, params: bool, t: SqlStmtHandle)
    requires Inv(w) && Held(w, s, columns, params) && t != s && StillHeld(w0, w, t)
    ensures StillHeld(w0, AfterReset(w, s, columns, params), t)
  {
    ResetDestroys(w, s, columns, params);
    assert HandleOf(w.heap, t) != HandleOf(w.heap, s);
  }

  lemma ResetKeepsFreed(w0: World, w: World, s: SqlStmtHandle, columns: bool, params: bool, handle: nat)
    requires Inv(w) && Held(w, s, columns, params)
    requires FreedOnce(w0, w, handle)
    ensures FreedOnce(w0, AfterReset(w, s, columns, params), handle)
  {
    ResetDestroys(w, s, columns, params);
    assert HandleOf(w.heap, s) in w.driver.alive;
  }

  method ResetOne(stmts: seq<ExecutableStatement>, k: nat, m: Memory) returns (ok: bool)
    requires Shape(stmts, m) && k < STATEMENTS
    modifies stmts[k], m
    ensures Shape(stmts, m)
    ensures ok <==> stmts[k].Empty()
    ensures !ok ==> stmts[k].stmt == old(stmts[k].stmt)
    ensures (!old(stmts[k].boundColumns) && !old(stmts[k].boundParams)) || m.Unbinds() ==> ok
    ensures m.bufs == old(m.bufs) && Shrinks(old(m.View()), m.View())
    ensures old(stmts[k].stmt) == null ==> m.View() == old(m.View())
    ensures old(stmts[k].stmt) != null && ok ==>
              m.View() == AfterReset(old(m.View()), old(stmts[k].stmt), old(stmts[k].boundColumns), old(stmts[k].boundParams))
  {
    hide Inv, Held, OnlyTouches, AfterReset, AfterFreeStmt, GrownBy;
    ghost var s, w := stmts[k].stmt, m.View();
    ghost var columns, params := stmts[k].boundColumns, stmts[k].boundParams;
    ok := stmts[k].Reset(m);
    GrowsNot(w, {});
    if s != null {
      ResetShrinks(w, s, columns, params);
      FreeStmtShrinks(w, s, Columns, columns && !stmts[k].boundColumns);
    }
    if s != null && ok {
      ResetDestroys(w, s, columns, params);
    }
    if s != null {
      SameBuffers(w, m.View(), s);
    }
    forall j | 0 <= j < STATEMENTS && j != k && stmts[j].stmt != null
      ensures Held(m.View(), stmts[j].stmt, stmts[j].boundColumns, stmts[j].boundParams)
    {
      assert old(stmts[j].Valid(m));
      if s != null {
        OthersStayHeld(w, m.View(), s, stmts[j].stmt, stmts[j].boundColumns, stmts[j].boundParams);
      }
    }
  }

  lemma SameBuffers(w: World, w': World, s: SqlStmtHandle)
    requires OnlyTouches(w, w', s)
    ensures w'.heap.bufs == w.heap.bufs
  {
  }

  lemma HeldAtFirst(w: World, s: SqlStmtHandle, columns: bool, params: bool)
    requires Inv(w) && Held(w, s, columns, params)
    ensures StillHeld(w, w, s)
  {
  }

  ghost function Befores(stmts: seq<ExecutableStatement>): (r: seq<Fields>)
    reads stmts
    requires |stmts| == STATEMENTS
    ensures |r| == STATEMENTS
  {
    seq(STATEMENTS, k requires 0 <= k < STATEMENTS && |stmts| == STATEMENTS reads stmts => stmts[k].Now())
  }

  /** The resets came as far as statement k, which keeps its handle; those after it are untouched. */
  ghost predicate StoppedAt(stmts: seq<ExecutableStatement>, before: seq<Fields>, k: nat)
    reads stmts
  {
    && k < |stmts| == |before|
    && (forall j | 0 <= j < k :: stmts[j].Empty())
    && !stmts[k].Empty() && stmts[k].stmt == before[k].stmt
    && (forall j | k < j < |stmts| :: stmts[j].Now() == before[j])
  }

  ghost predicate Stopped(stmts: seq<ExecutableStatement>, before: seq<Fields>)
    reads stmts
  {
    exists k :: StoppedAt(stmts, before, k)
  }

  /** Every native handle that the statements had has been freed exactly once since w0, is no longer
      allocated, and no buffer's maps mention it. */
  ghost predicate AllFreed(before: seq<Fields>, w0: World, w: World) {
    forall k | 0 <= k < |before| && before[k].stmt != null :: FreedOnce(w0, w, HandleOf(w0.heap, before[k].stmt))
  }

  /** The first n resets have been done. */
  ghost predicate Resetting(stmts: seq<ExecutableStatement>, m: Memory, w0: World, before: seq<Fields>, n: nat)
    reads stmts, m
  {
    && Shape(stmts, m) && |before| == STATEMENTS && n <= STATEMENTS
    && (forall j | 0 <= j < n :: stmts[j].Empty())
    && (forall j | 0 <= j < n && before[j].stmt != null :: FreedOnce(w0, m.View(), HandleOf(w0.heap, before[j].stmt)))
    && (forall j | n <= j < STATEMENTS :: stmts[j].Now() == before[j])
    && (forall j | n <= j < STATEMENTS && stmts[j].stmt != null :: StillHeld(w0, m.View(), stmts[j].stmt))
  }

  method ResetNext(stmts: seq<ExecutableStatement>, k: nat, m: Memory, ghost w0: World, ghost before: seq<Fields>) returns (ok: bool)
    requires Resetting(stmts, m, w0, before, k) && k < STATEMENTS
    modifies stmts[k], m
    ensures Shape(stmts, m) && m.bufs == old(m.bufs) && Shrinks(old(m.View()), m.View())
    ensures if ok then Resetting(stmts, m, w0, before, k + 1) else StoppedAt(stmts, before, k)
    ensures (!before[k].boundColumns && !before[k].boundParams) || m.Unbinds() ==> ok
  {
    hide Inv, Held, OnlyTouches, AfterReset, StillHeld, FreedOnce, GrownBy;
    ghost var s, w := stmts[k].stmt, m.View();
    ghost var columns, params := stmts[k].boundColumns, stmts[k].boundParams;
    assert stmts[k].Valid(m) && stmts[k].Now() == before[k];
    ok := ResetOne(stmts, k, m);
    if ok && s != null {
      ResetSeen(w0, w, s, columns, params);
      forall j | k < j < STATEMENTS && stmts[j].stmt != null ensures StillHeld(w0, m.View(), stmts[j].stmt) {
        ResetUnseen(w0, w, s, columns, params, stmts[j].stmt);
      }
      forall j | 0 <= j < k && before[j].stmt != null ensures FreedOnce(w0, m.View(), HandleOf(w0.heap, before[j].stmt)) {
        ResetKeepsFreed(w0, w, s, columns, params, HandleOf(w0.heap, before[j].stmt));
      }
    }
  }

  lemma NothingReset(stmts: seq<ExecutableStatement>, m: Memory, w0: World)
    requires Shape(stmts, m) && HeldSince(stmts, m, w0)
    ensures Resetting(stmts, m, w0, Befores(stmts), 0)
    ensures NothingBound(stmts) ==> forall k | 0 <= k < STATEMENTS :: !Befores(stmts)[k].boundColumns && !Befores(stmts)[k].boundParams
  {
    hide Inv, Held, StillHeld;
  }

  lemma AllReset(stmts: seq<ExecutableStatement>, m: Memory, w0: World, before: seq<Fields>)
    requires Resetting(stmts, m, w0, before, STATEMENTS)
    ensures Shape(stmts, m) && AllEmpty(stmts) && AllFreed(before, w0, m.View())
  {
    hide Inv, Held, FreedOnce;
  }

  lemma StoppedIsNotEmpty(stmts: seq<ExecutableStatement>, before: seq<Fields>, k: nat)
    requires |stmts| == STATEMENTS && StoppedAt(stmts, before, k)
    ensures !AllEmpty(stmts) && Stopped(stmts, before)
  {
  }

  /** The resets of FreeStatements, up to the first that throws. When all succeed, every native handle
      has been freed exactly once and no buffer has an entry for it. */
  method ResetAll(stmts: seq<ExecutableStatement>, m: Memory, ghost w0: World) returns (ok: bool)
    requires Shape(stmts, m) && HeldSince(stmts, m, w0)
    modifies stmts, m
    ensures Shape(stmts, m)
    ensures ok <==> AllEmpty(stmts)
    ensures old(NothingBound(stmts)) || m.Unbinds() ==> ok
    ensures !ok ==> Stopped(stmts, old(Befores(stmts)))
    ensures m.bufs == old(m.bufs) && Shrinks(old(m.View()), m.View())
    ensures ok ==> AllFreed(old(Befores(stmts)), w0, m.View())
  {
    hide Shape, HeldSince, Resetting, StoppedAt, Stopped, AllEmpty, AllFreed, Befores, NothingBound, GrownBy;
    ghost var before, start := Befores(stmts), m.View();
    GrowsNot(start, {});
    NothingReset(stmts, m, w0);
    for k := 0 to STATEMENTS
      invariant Resetting(stmts, m, w0, before, k) && m.bufs == old(m.bufs) && Shrinks(start, m.View())
    {
      ghost var w := m.View();
      ok := ResetNext(stmts, k, m, w0, before);
      GrowOn(start, w, m.View(), {});
      if !ok {
        StoppedIsNotEmpty(stmts, before, k);
        return;
      }
    }
    AllReset(stmts, m, w0, before);
    ok := true;
  }

  // ---- what is bound to a statement

  /** The driver's bindings of one kind, and the buffers that have an entry for them. */
  datatype Bindings = Bindings(bound: map<nat, ColumnBuffer>, entered: set<ColumnBuffer>) {
    function Plus(nr: nat, b: ColumnBuffer): Bindings { Bindings(bound[nr := b], entered + {b}) }

    /** A buffer with an entry takes all bindings with it when it goes. */
    function Without(gone: set<ColumnBuffer>): Bindings { if entered !! gone then this else NONE }
  }

  const NONE: Bindings := Bindings(map[], {})

  ghost function EnteredIn(h: Heap, key: Key): set<ColumnBuffer> {
    set x | x in h.entries && x.key == key :: x.buffer
  }

  ghost function BindingsIn(w: World, s: SqlStmtHandle?, kind: Kind): Bindings {
    if s == null then NONE
    else Bindings(BoundTo(w.driver, KeyOf(w.heap, s, kind)), EnteredIn(w.heap, KeyOf(w.heap, s, kind)))
  }

  /** What the buffers in gone have left of the bindings of s. */
  ghost predicate LeftBy(w: World, w': World, s: SqlStmtHandle, gone: set<ColumnBuffer>) {
    forall kind :: BindingsIn(w', s, kind) == BindingsIn(w, s, kind).Without(gone)
  }

  lemma NothingGone(w: World, s: SqlStmtHandle)
    ensures LeftBy(w, w, s, {})
  {
  }

  /** One more buffer goes, and every call of SQLFreeStmt succeeds. */
  lemma OneMoreGone(w0: World, w: World, b: ColumnBuffer, s: SqlStmtHandle, gone: set<ColumnBuffer>, columns: bool, params: bool)
    requires Inv(w) && Held(w, s, columns, params) && LeftBy(w0, w, s, gone)
    ensures LeftBy(w0, Destroyed(w, b, {}), s, gone + {b})
  {
    DestroyedKeepsHeld(w, b, {}, s, columns, params);
    forall kind ensures BindingsIn(Destroyed(w, b, {}), s, kind) == BindingsIn(w, s, kind).Without({b}) {
      DestroyedLeaves(w, b, s, kind);
    }
    hide Inv, Held, Destroyed, BindingsIn;
  }

  lemma DestroyedLeaves(w: World, b: ColumnBuffer, s: SqlStmtHandle, kind: Kind)
    requires Inv(w) && HandleOf(w.heap, s) in Destroyed(w, b, {}).driver.alive
    requires HandleOf(Destroyed(w, b, {}).heap, s) == HandleOf(w.heap, s)
    ensures BindingsIn(Destroyed(w, b, {}), s, kind) == BindingsIn(w, s, kind).Without({b})
  {
    hide Inv, Destroyed, KeysOfBuffer, EnteredIn, HandleOf;
    var w', key := Destroyed(w, b, {}), KeyOf(w.heap, s, kind);
    DestroyedMeaning(w, b, {});
    DestroyedBound(w, b, {});
    EnteredLeft(w.heap, w'.heap, b, key);
    HasEntered(w.heap, b, key);
  }

  lemma HasEntered(h: Heap, b: ColumnBuffer, key: Key)
    ensures key in KeysOfBuffer(h, b) <==> EntryKey(b, key) in h.entries
    ensures b in EnteredIn(h, key) <==> EntryKey(b, key) in h.entries
  {
    assert forall x <- h.entries :: x == EntryKey(x.buffer, x.key);
    if EntryKey(b, key) in h.entries {
      assert EntryKey(b, key).key == key && EntryKey(b, key).buffer == b;
    }
  }

  lemma EnteredLeft(h: Heap, h': Heap, b: ColumnBuffer, key: Key)
    requires forall x :: x in h'.entries <==> x in h.entries && x.buffer != b && x.key !in KeysOfBuffer(h, b)
    ensures EnteredIn(h', key) == if b in EnteredIn(h, key) then {} else EnteredIn(h, key)
  {
    HasEntered(h, b, key);
    forall c ensures c in EnteredIn(h', key) <==> b !in EnteredIn(h, key) && c in EnteredIn(h, key) {
      HasEntered(h, c, key);
      HasEntered(h', c, key);
    }
    hide EnteredIn, KeysOfBuffer;
  }

  /** What the buffers in gone have left of the bindings of all five. */
  ghost predicate AllLeft(stmts: seq<ExecutableStatement>, m: Memory, w0: World, gone: set<ColumnBuffer>)
    reads stmts, m
    requires |stmts| == STATEMENTS
  {
    forall k | 0 <= k < STATEMENTS && stmts[k].stmt != null :: LeftBy(w0, m.View(), stmts[k].stmt, gone)
  }

  lemma AllAreLeft(stmts: seq<ExecutableStatement>, m: Memory)
    requires |stmts| == STATEMENTS
    ensures AllLeft(stmts, m, m.View(), {})
  {
    hide LeftBy;
    forall k | 0 <= k < STATEMENTS && stmts[k].stmt != null ensures LeftBy(m.View(), m.View(), stmts[k].stmt, {}) {
      NothingGone(m.View(), stmts[k].stmt);
    }
  }

  /** Buffers that lost their last shared_ptr are destroyed; the statements that ExecutableStatements
      hold stay as they are, with the bindings that those buffers leave them. */
  method DestroyAll(stmts: seq<ExecutableStatement>, bs: set<ColumnBuffer>, m: Memory, ghost w0: World)
    requires Shape(stmts, m) && HeldSince(stmts, m, w0) && bs <= m.bufs
    modifies m
    ensures Shape(stmts, m) && HeldSince(stmts, m, w0)
    ensures m.bufs == old(m.bufs) - bs && Shrinks(old(m.View()), m.View())
    ensures m.Unbinds() ==> AllLeft(stmts, m, old(m.View()), bs)
    ensures (forall x <- old(m.entries) :: x.buffer !in bs) ==> m.bound == old(m.bound) && m.entries == old(m.entries)
  {
    hide Shape, HeldSince, AllLeft, GrownBy;
    var left := bs;
    ghost var w := m.View();
    AllAreLeft(stmts, m);
    GrowsNot(w, {});
    assert bs - left == {};
    while left != {}
      invariant left <= bs && Shape(stmts, m) && HeldSince(stmts, m, w0) && m.bufs == old(m.bufs) - (bs - left)
      invariant Shrinks(w, m.View())
      invariant m.Unbinds() ==> AllLeft(stmts, m, w, bs - left)
      invariant (forall x <- old(m.entries) :: x.buffer !in bs) ==> m.bound == old(m.bound) && m.entries == old(m.entries)
      decreases left
    {
      var b :| b in left;
      ghost var w1 := m.View();
      DestroyNext(stmts, b, m, w0, w, bs - left);
      GrowOn(w, w1, m.View(), {});
      assert bs - left + {b} == bs - (left - {b});
      left := left - {b};
    }
    assert bs - left == bs;
  }

  method DestroyNext(stmts: seq<ExecutableStatement>, b: ColumnBuffer, m: Memory, ghost w0: World, ghost start: World, ghost gone: set<ColumnBuffer>)
    requires Shape(stmts, m) && HeldSince(stmts, m, w0) && b in m.bufs
    requires m.Unbinds() ==> AllLeft(stmts, m, start, gone)
    modifies m
    ensures Shape(stmts, m) && HeldSince(stmts, m, w0)
    ensures m.bufs == old(m.bufs) - {b} && Shrinks(old(m.View()), m.View())
    ensures m.Unbinds() ==> AllLeft(stmts, m, start, gone + {b})
    ensures (forall x <- old(m.entries) :: x.buffer != b) ==> m.bound == old(m.bound) && m.entries == old(m.entries)
  {
    hide Inv, Held, StillHeld, Destroyed, LeftBy, GrownBy;
    ghost var w := m.View();
    assert forall k | 0 <= k < STATEMENTS && stmts[k].stmt != null :: Held(w, stmts[k].stmt, stmts[k].boundColumns, stmts[k].boundParams) by {
      assert forall k | 0 <= k < STATEMENTS :: stmts[k].Valid(m);
    }
    var failing := m.DestroyBuffer(b);
    DestroyedBuffers(w, b, failing);
    DestroyedUnbound(w, b, failing);
    forall k | 0 <= k < STATEMENTS && stmts[k].stmt != null
      ensures Held(m.View(), stmts[k].stmt, stmts[k].boundColumns, stmts[k].boundParams)
      ensures StillHeld(w0, m.View(), stmts[k].stmt)
      ensures m.Unbinds() ==> LeftBy(start, m.View(), stmts[k].stmt, gone + {b})
    {
      DestroyUnseen(w0, w, b, failing, stmts[k].stmt, stmts[k].boundColumns, stmts[k].boundParams);
      if m.Unbinds() { OneMoreGone(start, w, b, stmts[k].stmt, gone, stmts[k].boundColumns, stmts[k].boundParams); }
    }
  }

  /** Destroying a buffer that was never bound affects no binding. */
  lemma DestroyedUnbound(w: World, b: ColumnBuffer, failing: set<Key>)
    requires Inv(w)
    ensures (forall x <- w.heap.entries :: x.buffer != b) ==>
              Destroyed(w, b, failing).driver.bound == w.driver.bound && Destroyed(w, b, failing).heap.entries == w.heap.entries
  {
    if forall x <- w.heap.entries :: x.buffer != b {
      NothingOfIt(w.heap, b);
      NobodyDies(w.heap, b);
      hide Inv, Gone, Dying, Collected, KeysOfBuffer, Unshared;
      assert {} - failing == {} && w.driver.bound - {} == w.driver.bound;
      CollectedNothing(World(w.driver, w.heap.(bufs := w.heap.bufs - {b})));
    }
  }

  lemma NothingOfIt(h: Heap, b: ColumnBuffer)
    requires OwnersOk(h) && forall x <- h.entries :: x.buffer != b
    ensures KeysOfBuffer(h, b) == {} && Gone(Dying(h, b, {}, {}), b) == h.(bufs := h.bufs - {b})
  {
    var h' := Gone(Dying(h, b, {}, {}), b);
    assert h'.slots == h.slots && h'.owners == h.owners && h'.entries == h.entries;
  }

  lemma NobodyDies(h: Heap, b: ColumnBuffer)
    requires AllShared(h)
    ensures Unshared(h.(bufs := h.bufs - {b})) == {}
  {
    var h' := h.(bufs := h.bufs - {b});
    forall s <- h'.handleOf ensures Shared(h', s) {
      assert Shared(h, s);
      var o :| o in h.owners && o.stmt == s;
      assert o in h'.owners;
    }
  }

  lemma DestroyedBuffers(w: World, b: ColumnBuffer, failing: set<Key>)
    ensures Destroyed(w, b, failing).heap.bufs == w.heap.bufs - {b}
    ensures Shrinks(w, Destroyed(w, b, failing))
  {
  }

  lemma DestroyUnseen(w0: World, w: World, b: ColumnBuffer, failing: set<Key>, t: SqlStmtHandle, columns: bool, params: bool)
    requires Inv(w) && Held(w, t, columns, params) && StillHeld(w0, w, t)
    ensures Held(Destroyed(w, b, failing), t, columns, params) && StillHeld(w0, Destroyed(w, b, failing), t)
  {
    DestroyedKeepsHeld(w, b, failing, t, columns, params);
  }

  function CountBuffers(countBuffer: ColumnBuffer?): set<ColumnBuffer> {
    if countBuffer == null then {} else {countBuffer}
  }

  /** FreeStatements: the count buffer goes first, then the statements are reset. */
  method FreeStatements(stmts: seq<ExecutableStatement>, countBuffer: ColumnBuffer?, m: Memory, ghost w0: World) returns (ok: bool)
    requires Shape(stmts, m) && HeldSince(stmts, m, w0) && CountBuffers(countBuffer) <= m.bufs
    modifies stmts, m
    ensures Shape(stmts, m)
    ensures ok <==> AllEmpty(stmts)
    ensures old(NothingBound(stmts)) || m.Unbinds() ==> ok
    ensures !ok ==> Stopped(stmts, old(Befores(stmts)))
    ensures m.bufs == old(m.bufs) - CountBuffers(countBuffer) && Shrinks(old(m.View()), m.View())
    ensures ok ==> AllFreed(old(Befores(stmts)), w0, m.View())
  {
    hide Shape, HeldSince, Stopped, AllEmpty, AllFreed, AllLeft, Befores, NothingBound, GrownBy;
    ghost var w := m.View();
    DestroyAll(stmts, CountBuffers(countBuffer), m, w0);
    ghost var w1 := m.View();
    ok := ResetAll(stmts, m, w0);
    GrowOn(w, w1, m.View(), {});
  }

  /** Every statement that has a handle is held as of now. */
  lemma AllStillHeld(stmts: seq<ExecutableStatement>, m: Memory)
    requires Shape(stmts, m)
    ensures HeldSince(stmts, m, m.View())
  {
    hide Inv, Held, StillHeld;
    forall k | 0 <= k < STATEMENTS && stmts[k].stmt != null ensures StillHeld(m.View(), m.View(), stmts[k].stmt) {
      assert stmts[k].Valid(m);
      HeldAtFirst(m.View(), stmts[k].stmt, stmts[k].boundColumns, stmts[k].boundParams);
    }
  }

  /** A statement that Init has just readied: a handle the driver had not allocated before, nothing bound. */
  ghost predicate Readied(e: ExecutableStatement, m: Memory, aliveBefore: set<nat>)
    reads e, m
  {
    && e.hasDb && e.stmt != null && !e.boundColumns && !e.boundParams
    && HandleOf(m.View().heap, e.stmt) !in aliveBefore
  }

  ghost function HandlesIn(w: World, fields: seq<Fields>): set<nat> {
    set k | 0 <= k < |fields| && fields[k].stmt != null :: HandleOf(w.heap, fields[k].stmt)
  }

  /** The native handles of the five. */
  ghost function OwnHandles(stmts: seq<ExecutableStatement>, m: Memory): set<nat>
    reads stmts, m
    requires |stmts| == STATEMENTS
  {
    HandlesIn(m.View(), Befores(stmts))
  }

  /** No native handle has been allocated but the five's. */
  ghost predicate OnlyOwn(stmts: seq<ExecutableStatement>, m: Memory, aliveBefore: set<nat>)
    reads stmts, m
    requires |stmts| == STATEMENTS
  {
    m.alive <= aliveBefore + OwnHandles(stmts, m)
  }

  method InitOne(stmts: seq<ExecutableStatement>, k: nat, m: Memory, dbIsOpen: bool, ghost aliveBefore: set<nat>) returns (ok: bool)
    requires Shape(stmts, m) && k < STATEMENTS && aliveBefore <= m.alive && OnlyOwn(stmts, m, aliveBefore)
    modifies stmts[k], m
    ensures Shape(stmts, m)
    ensures m.bufs == old(m.bufs) && m.bound == old(m.bound) && m.entries == old(m.entries) && aliveBefore <= m.alive
    ensures OnlyOwn(stmts, m, aliveBefore)
    ensures ok ==> !old(stmts[k].hasDb) && Readied(stmts[k], m, aliveBefore)
    ensures m.reliable && dbIsOpen && !old(stmts[k].hasDb) ==> ok
    ensures !ok && !old(stmts[k].hasDb) ==> stmts[k].stmt == null && !stmts[k].boundColumns && !stmts[k].boundParams
    ensures !ok && old(stmts[k].hasDb) ==> unchanged(stmts[k])
    ensures forall j | 0 <= j < STATEMENTS && j != k && stmts[j].stmt != null ::
              HandleOf(m.View().heap, stmts[j].stmt) == old(HandleOf(m.View().heap, stmts[j].stmt))
  {
    hide Shape, HandleOf, OwnHandles, HandlesBefore;
    ghost var w, own, before := m.View(), OwnHandles(stmts, m), Befores(stmts);
    OwnOf(stmts, m);
    Apart(stmts, m);
    ok := InitShaped(stmts, k, m, dbIsOpen, aliveBefore);
    OthersOwn(stmts, m, w, own, k, before);
  }

  method InitShaped(stmts: seq<ExecutableStatement>, k: nat, m: Memory, dbIsOpen: bool, ghost aliveBefore: set<nat>) returns (ok: bool)
    requires Shape(stmts, m) && k < STATEMENTS && aliveBefore <= m.alive
    modifies stmts[k], m
    ensures Shape(stmts, m)
    ensures m.bufs == old(m.bufs) && m.bound == old(m.bound) && m.entries == old(m.entries)
    ensures old(m.alive) <= m.alive <= old(m.alive) + if stmts[k].stmt != null then {HandleOf(m.View().heap, stmts[k].stmt)} else {}
    ensures old(stmts[k].stmt) == null ||
              (stmts[k].stmt == old(stmts[k].stmt) && HandleOf(m.View().heap, stmts[k].stmt) == old(HandleOf(m.View().heap, stmts[k].stmt)))
    ensures ok ==> !old(stmts[k].hasDb) && Readied(stmts[k], m, aliveBefore)
    ensures m.reliable && dbIsOpen && !old(stmts[k].hasDb) ==> ok
    ensures !ok && !old(stmts[k].hasDb) ==> stmts[k].stmt == null && !stmts[k].boundColumns && !stmts[k].boundParams
    ensures !ok && old(stmts[k].hasDb) ==> unchanged(stmts[k])
    ensures forall j | 0 <= j < STATEMENTS && j != k && stmts[j].stmt != null ::
              HandleOf(m.View().heap, stmts[j].stmt) == old(HandleOf(m.View().heap, stmts[j].stmt))
  {
    hide Inv, Held;
    ghost var w := m.View();
    assert forall j | 0 <= j < STATEMENTS :: stmts[j].Valid(m);
    ok := stmts[k].Init(m, dbIsOpen);
    forall j | 0 <= j < STATEMENTS && j != k && stmts[j].stmt != null
      ensures Held(m.View(), stmts[j].stmt, stmts[j].boundColumns, stmts[j].boundParams)
      ensures HandleOf(m.View().heap, stmts[j].stmt) == HandleOf(w.heap, stmts[j].stmt)
      ensures ok ==> stmts[k].stmt != stmts[j].stmt
    {
      if ok {
        NotYetThere(w, stmts[j].stmt, stmts[j].boundColumns, stmts[j].boundParams);
        OthersStayHeld(w, m.View(), stmts[k].stmt, stmts[j].stmt, stmts[j].boundColumns, stmts[j].boundParams);
      } else {
        HeldSameHeap(w, m.View(), stmts[j].stmt, stmts[j].boundColumns, stmts[j].boundParams);
      }
    }
  }

  /** The native handles that the five had are still theirs. */
  lemma OthersOwn(stmts: seq<ExecutableStatement>, m: Memory, w: World, own: set<nat>, k: nat, before: seq<Fields>)
    requires |stmts| == |before| == STATEMENTS && k < STATEMENTS && HandlesBefore(own, before, w)
    requires forall j | 0 <= j < STATEMENTS && before[j].stmt != null :: stmts[j].stmt == before[j].stmt
    requires forall j | 0 <= j < STATEMENTS && before[j].stmt != null :: HandleOf(m.View().heap, stmts[j].stmt) == HandleOf(w.heap, before[j].stmt)
    ensures own <= OwnHandles(stmts, m)
    ensures stmts[k].stmt != null ==> HandleOf(m.View().heap, stmts[k].stmt) in OwnHandles(stmts, m)
  {
    forall h <- own ensures h in OwnHandles(stmts, m) {
      var j :| 0 <= j < |before| && before[j].stmt != null && HandleOf(w.heap, before[j].stmt) == h;
      assert Befores(stmts)[j].stmt == stmts[j].stmt && HandleOf(m.View().heap, stmts[j].stmt) == h;
    }
    assert Befores(stmts)[k].stmt == stmts[k].stmt;
  }

  lemma NotYetThere(w: World, s: SqlStmtHandle, columns: bool, params: bool)
    requires Held(w, s, columns, params)
    ensures s in w.heap.handleOf
  {
  }

  /** A new buffer does not concern the statements. */
  method NewBuffer(stmts: seq<ExecutableStatement>, m: Memory, queryName: string, sqlType: int) returns (b: ColumnBuffer)
    requires Shape(stmts, m)
    modifies m
    ensures Shape(stmts, m)
    ensures fresh(b) && b.queryName == queryName && b.sqlType == sqlType
    ensures b !in old(m.bufs) && m.bufs == old(m.bufs) + {b}
    ensures m.View() == Step(old(m.View()), Op.NewBuffer(b))
    ensures forall s :: HandleOf(m.View().heap, s) == HandleOf(old(m.View()).heap, s)
  {
    hide Inv, Held;
    ghost var w := m.View();
    assert forall k | 0 <= k < STATEMENTS :: stmts[k].Valid(m);
    b := m.NewBuffer(queryName, sqlType);
    NewBufferKeepsInv(w, b);
    forall k | 0 <= k < STATEMENTS && stmts[k].stmt != null
      ensures Held(m.View(), stmts[k].stmt, stmts[k].boundColumns, stmts[k].boundParams)
    {
      NewBufferUnseen(w, b, stmts[k].stmt, stmts[k].boundColumns, stmts[k].boundParams);
    }
  }

  lemma NewBufferUnseen(w: World, b: ColumnBuffer, s: SqlStmtHandle, columns: bool, params: bool)
    requires Held(w, s, columns, params)
    ensures Held(Step(w, Op.NewBuffer(b)), s, columns, params)
  {
  }

  /** How far AllocateStatements has come: of the statements in done, those the access flags call for
      are readied and had not been initialised before; the others are as they were. */
  ghost predicate Progress(stmts: seq<ExecutableStatement>, m: Memory, access: FlagSet, done: set<nat>, before: seq<Fields>, alive: set<nat>)
    reads stmts, m
    ensures Progress(stmts, m, access, done, before, alive) ==> |stmts| == |before| == STATEMENTS
  {
    && Shape(stmts, m) && |before| == STATEMENTS && alive <= m.alive && OnlyOwn(stmts, m, alive)
    && (forall k | 0 <= k < STATEMENTS ::
          if k in done && Needed(access, k) then Readied(stmts[k], m, alive) && !before[k].hasDb else stmts[k].Now() == before[k])
  }

  method AllocateOne(stmts: seq<ExecutableStatement>, k: nat, m: Memory, access: FlagSet, dbIsOpen: bool,
      ghost done: set<nat>, ghost before: seq<Fields>, ghost alive: set<nat>) returns (ok: bool)
    requires Progress(stmts, m, access, done, before, alive) && k < STATEMENTS && k !in done
    modifies stmts[k], m
    ensures Shape(stmts, m) && m.bound == old(m.bound) && m.entries == old(m.entries) && m.bufs == old(m.bufs)
    ensures ok ==> Progress(stmts, m, access, done + {k}, before, alive)
    ensures OnlyOwn(stmts, m, alive)
    ensures !ok ==> Needed(access, k)
    ensures m.reliable && dbIsOpen && (Needed(access, k) ==> !before[k].hasDb) ==> ok
    ensures old(NothingBound(stmts)) ==> NothingBound(stmts)
  {
    hide Inv, Held, Needed;
    ok := true;
    if Needed(access, k) {
      ok := InitOne(stmts, k, m, dbIsOpen, alive);
    }
  }

  /** The count statement comes with the buffer that its result is bound to. */
  method MakeCountBuffer(stmts: seq<ExecutableStatement>, m: Memory, access: FlagSet,
      ghost done: set<nat>, ghost before: seq<Fields>, ghost alive: set<nat>) returns (countBuffer: ColumnBuffer?)
    requires Progress(stmts, m, access, done, before, alive)
    modifies m
    ensures Progress(stmts, m, access, done, before, alive) && m.bound == old(m.bound) && m.entries == old(m.entries)
    ensures countBuffer != null <==> Needed(access, COUNT_WHERE)
    ensures countBuffer != null ==> fresh(countBuffer)
    ensures m.bufs == old(m.bufs) + CountBuffers(countBuffer) && CountBuffers(countBuffer) !! old(m.bufs)
  {
    hide Inv, Held, Needed;
    countBuffer := null;
    if Needed(access, COUNT_WHERE) {
      countBuffer := NewBuffer(stmts, m, "", 0);
    }
  }

  /** None of the statements that the access flags call for is initialised yet. */
  predicate NoneReady(before: seq<Fields>, access: FlagSet)
    requires |before| == STATEMENTS
  {
    forall k | 0 <= k < STATEMENTS :: Needed(access, k) ==> !before[k].hasDb
  }

  const ALL_FIVE: set<nat> := {COUNT_WHERE, SELECT, INSERT, UPDATE_PK, DELETE_PK}

  /** The try block of AllocateStatements. */
  method TryAllocate(stmts: seq<ExecutableStatement>, m: Memory, access: FlagSet, dbIsOpen: bool,
      ghost before: seq<Fields>, ghost alive: set<nat>) returns (ok: bool, countBuffer: ColumnBuffer?)
    requires Progress(stmts, m, access, {}, before, alive)
    modifies stmts, m
    ensures Shape(stmts, m) && m.bound == old(m.bound) && m.entries == old(m.entries)
    ensures ok ==> Progress(stmts, m, access, ALL_FIVE, before, alive)
    ensures OnlyOwn(stmts, m, alive)
    ensures ok ==> (countBuffer != null <==> Needed(access, COUNT_WHERE))
    ensures m.reliable && dbIsOpen && NoneReady(before, access) ==> ok
    ensures m.bufs == old(m.bufs) + CountBuffers(countBuffer) && CountBuffers(countBuffer) !! old(m.bufs)
    ensures old(NothingBound(stmts)) ==> NothingBound(stmts)
  {
    hide Inv, Held, Needed, Progress, Shape, NothingBound, OnlyOwn;
    countBuffer := null;
    ok := AllocateOne(stmts, SELECT, m, access, dbIsOpen, {}, before, alive);
    if !ok { return; }
    assert {} + {SELECT} == {SELECT};
    ok := AllocateOne(stmts, COUNT_WHERE, m, access, dbIsOpen, {SELECT}, before, alive);
    if !ok { return; }
    assert {SELECT} + {COUNT_WHERE} == {SELECT, COUNT_WHERE};
    countBuffer := MakeCountBuffer(stmts, m, access, {SELECT, COUNT_WHERE}, before, alive);
    ok := AllocateWriters(stmts, m, access, dbIsOpen, before, alive);
  }

  method AllocateWriters(stmts: seq<ExecutableStatement>, m: Memory, access: FlagSet, dbIsOpen: bool,
      ghost before: seq<Fields>, ghost alive: set<nat>) returns (ok: bool)
    requires Progress(stmts, m, access, {SELECT, COUNT_WHERE}, before, alive)
    modifies stmts, m
    ensures Shape(stmts, m) && m.bound == old(m.bound) && m.entries == old(m.entries) && m.bufs == old(m.bufs)
    ensures ok ==> Progress(stmts, m, access, ALL_FIVE, before, alive)
    ensures OnlyOwn(stmts, m, alive)
    ensures m.reliable && dbIsOpen && NoneReady(before, access) ==> ok
    ensures old(NothingBound(stmts)) ==> NothingBound(stmts)
  {
    hide Inv, Held, Needed, Progress, Shape, NothingBound, OnlyOwn;
    ok := AllocateOne(stmts, DELETE_PK, m, access, dbIsOpen, {SELECT, COUNT_WHERE}, before, alive);
    if !ok { return; }
    assert {SELECT, COUNT_WHERE} + {DELETE_PK} == {SELECT, COUNT_WHERE, DELETE_PK};
    ok := AllocateOne(stmts, UPDATE_PK, m, access, dbIsOpen, {SELECT, COUNT_WHERE, DELETE_PK}, before, alive);
    if !ok { return; }
    assert {SELECT, COUNT_WHERE, DELETE_PK} + {UPDATE_PK} == {SELECT, COUNT_WHERE, DELETE_PK, UPDATE_PK};
    ok := AllocateOne(stmts, INSERT, m, access, dbIsOpen, {SELECT, COUNT_WHERE, DELETE_PK, UPDATE_PK}, before, alive);
    assert {SELECT, COUNT_WHERE, DELETE_PK, UPDATE_PK} + {INSERT} == ALL_FIVE;
  }

  lemma NoProgress(stmts: seq<ExecutableStatement>, m: Memory, access: FlagSet)
    requires Shape(stmts, m)
    ensures Progress(stmts, m, access, {}, Befores(stmts), m.alive)
  {
    hide Inv, Held;
  }

  lemma SoundShape(stmts: seq<ExecutableStatement>, m: Memory)
    requires Shape(stmts, m)
    ensures Inv(m.View())
  {
  }

  lemma OnlyOwnGrown(stmts: seq<ExecutableStatement>, m: Memory, w: World)
    requires |stmts| == STATEMENTS && OnlyOwn(stmts, m, w.driver.alive) && m.bound == w.driver.bound && m.entries == w.heap.entries
    ensures GrownBy(w, m.View(), OwnHandles(stmts, m))
  {
  }

  /** These are the native handles of those statements. */
  ghost predicate HandlesBefore(own: set<nat>, before: seq<Fields>, w: World) {
    forall h <- own :: exists k :: 0 <= k < |before| && before[k].stmt != null && HandleOf(w.heap, before[k].stmt) == h
  }

  lemma OwnOf(stmts: seq<ExecutableStatement>, m: Memory)
    requires |stmts| == STATEMENTS
    ensures HandlesBefore(OwnHandles(stmts, m), Befores(stmts), m.View())
  {
  }

  /** When all native handles of the five have been freed, nothing of theirs is left. */
  lemma AllGivenBack(before: seq<Fields>, own: set<nat>, w: World, w1: World, w2: World)
    requires GrownBy(w, w1, own) && Shrinks(w1, w2) && Inv(w2)
    requires HandlesBefore(own, before, w1) && AllFreed(before, w1, w2)
    ensures Shrinks(w, w2)
  {
    hide Inv, GrownBy;
    forall h <- own ensures h !in w2.driver.alive && forall x <- w2.heap.entries :: x.key.handle != h {
      var k :| 0 <= k < |before| && before[k].stmt != null && HandleOf(w1.heap, before[k].stmt) == h;
      assert FreedOnce(w1, w2, h);
    }
    GivenBack(w, w1, w2, own);
  }

  /** AllocateStatements: readies exactly the statements the access flags call for, and the count
      buffer, or resets all five and lets the count buffer go. */
  method AllocateStatements(stmts: seq<ExecutableStatement>, m: Memory, access: FlagSet, dbIsOpen: bool)
      returns (ok: bool, countBuffer: ColumnBuffer?)
    requires Shape(stmts, m)
    modifies stmts, m
    ensures Shape(stmts, m)
    ensures ok ==> Progress(stmts, m, access, ALL_FIVE, old(Befores(stmts)), old(m.alive))
    ensures ok ==> m.bound == old(m.bound) && m.entries == old(m.entries)
    ensures m.reliable && dbIsOpen && NoneReady(old(Befores(stmts)), access) ==> ok
    ensures countBuffer != null <==> ok && Needed(access, COUNT_WHERE)
    ensures m.bufs == old(m.bufs) + CountBuffers(countBuffer) && CountBuffers(countBuffer) !! old(m.bufs)
    ensures old(NothingBound(stmts)) ==> if ok then NothingBound(stmts) else AllEmpty(stmts)
    ensures m.Unbinds() && !ok ==> AllEmpty(stmts)
    ensures !ok && AllEmpty(stmts) ==> Shrinks(old(m.View()), m.View())
  {
    hide Inv, Held, HeldSince, AllFreed, Stopped, Needed, Progress, Shape, NothingBound, AllEmpty, Befores, GrownBy, OnlyOwn;
    ghost var before, w := Befores(stmts), m.View();
    NoProgress(stmts, m, access);
    ok, countBuffer := TryAllocate(stmts, m, access, dbIsOpen, before, m.alive);
    if !ok {
      ghost var w1, own := m.View(), OwnHandles(stmts, m);
      OnlyOwnGrown(stmts, m, w);
      AllStillHeld(stmts, m);
      OwnOf(stmts, m);
      ghost var before1 := Befores(stmts);
      var cleaned := FreeStatements(stmts, countBuffer, m, w1);
      countBuffer := null;
      SoundShape(stmts, m);
      if cleaned { AllGivenBack(before1, own, w, w1, m.View()); }
    }
  }
}
