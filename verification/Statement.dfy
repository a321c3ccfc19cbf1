// ExecutableStatement: a statement handle with the bindings made through it.
module Statement {
  import opened BindingSpec
  import opened Binding

  // ---- about values

  /** s is allocated, owned by an ExecutableStatement, and has bindings only of the flagged kinds. */
  ghost predicate Held(w: World, s: SqlStmtHandle, columns: bool, params: bool) {
    && HandleOf(w.heap, s) != SQL_NULL_HANDLE
    && Ownership(s, ByStatement) in w.heap.owners
    && forall i <- w.heap.slots :: i.stmt == s ==> (if i.kind == Columns then columns else params)
  }

  /** What an operation on statement s leaves alone: the handles, owners and driver bindings of every
      other statement, and the buffers; slots and entries of other statements are not added. */
  ghost predicate OnlyTouches(w: World, w': World, s: SqlStmtHandle) {
    && w'.heap.bufs == w.heap.bufs
    && (forall t <- w.heap.handleOf :: t != s ==> t in w'.heap.handleOf && w'.heap.handleOf[t] == w.heap.handleOf[t])
    && (forall o <- w.heap.owners :: o.stmt != s ==> o in w'.heap.owners)
    && (forall i <- w'.heap.slots :: i.stmt != s ==> i in w.heap.slots)
    && (forall x <- w'.heap.entries :: x.key.handle != HandleOf(w.heap, s) ==> x in w.heap.entries)
    && (forall x <- w.driver.bound :: x.handle != HandleOf(w.heap, s) ==> x in w'.driver.bound && w'.driver.bound[x] == w.driver.bound[x])
    && (forall x <- w'.driver.bound :: x.handle != HandleOf(w.heap, s) ==> x in w.driver.bound)
  }

  /** At most the handles in own, and bindings and entries of theirs, have come since w; whatever else the
      driver has bound is as it was. */
  ghost predicate GrownBy(w: World, w': World, own: set<nat>) {
    && w'.driver.alive <= w.driver.alive + own
    && (forall x <- w'.driver.bound :: x.handle in own || (x in w.driver.bound && w'.driver.bound[x] == w.driver.bound[x]))
    && (forall x <- w'.heap.entries :: x.key.handle in own || x in w.heap.entries)
  }

  /** No handle, binding or entry has come since w. */
  ghost predicate Shrinks(w: World, w': World) {
    GrownBy(w, w', {})
  }

  lemma GrowOn(w: World, w1: World, w2: World, own: set<nat>)
    requires GrownBy(w, w1, own) && GrownBy(w1, w2, own)
    ensures GrownBy(w, w2, own)
  {
  }

  /** ... and what had come is gone once its handles are no longer allocated. */
  lemma GivenBack(w: World, w1: World, w2: World, own: set<nat>)
    requires GrownBy(w, w1, own) && Shrinks(w1, w2) && Inv(w2)
    requires w2.driver.alive !! own && forall x <- w2.heap.entries :: x.key.handle !in own
    ensures Shrinks(w, w2)
  {
    hide HeapOk;
  }

  lemma GrowsNot(w: World, own: set<nat>)
    ensures GrownBy(w, w, own)
  {
  }

  lemma FreeStmtShrinks(w: World, s: SqlStmtHandle, kind: Kind, ok: bool)
    ensures Shrinks(w, AfterFreeStmt(w, s, kind, ok))
  {
  }

  lemma DropShrinks(w: World, s: SqlStmtHandle)
    ensures Shrinks(w, Dropped(w, s))
  {
  }

  lemma ResetShrinks(w: World, s: SqlStmtHandle, columns: bool, params: bool)
    ensures Shrinks(w, AfterReset(w, s, columns, params))
  {
    hide GrownBy, Dropped, AfterFreeStmt;
    var w1 := AfterFreeStmt(w, s, Columns, columns);
    var w2 := AfterFreeStmt(w1, s, Params, params);
    FreeStmtShrinks(w, s, Columns, columns);
    FreeStmtShrinks(w1, s, Params, params);
    DropShrinks(w2, s);
    GrowOn(w, w1, w2, {});
    GrowOn(w, w2, Dropped(w2, s), {});
  }

  lemma OthersStayHeld(w: World, w': World, s: SqlStmtHandle, t: SqlStmtHandle, columns: bool, params: bool)
    requires OnlyTouches(w, w', s) && t != s && Held(w, t, columns, params)
    ensures Held(w', t, columns, params) && HandleOf(w'.heap, t) == HandleOf(w.heap, t)
  {
  }

  lemma FreeStmtTouches(w: World, s: SqlStmtHandle, kind: Kind, columns: bool, params: bool)
    requires Held(w, s, columns, params)
    ensures OnlyTouches(w, AfterFreeStmt(w, s, kind, true), s)
    ensures Held(AfterFreeStmt(w, s, kind, true), s, columns && kind != Columns, params && kind != Params)
  {
  }

  lemma BoundTouches(w: World, b: ColumnBuffer, s: SqlStmtHandle, kind: Kind, nr: nat, ret: SqlReturn, conn: nat, columns: bool, params: bool)
    requires Held(w, s, columns, params) && CanConnect(w.heap, b, s, kind, conn)
    ensures OnlyTouches(w, Bound(w, b, s, kind, nr, ret, conn), s)
    ensures ret == Success ==> Held(Bound(w, b, s, kind, nr, ret, conn), s, columns || kind == Columns, params || kind == Params)
    ensures ret != Success ==> Held(Bound(w, b, s, kind, nr, ret, conn), s, columns, params)
  {
  }

  lemma BoundSeen(w: World, b: ColumnBuffer, s: SqlStmtHandle, kind: Kind, nr: nat, ret: SqlReturn, conn: nat)
    ensures var w' := Bound(w, b, s, kind, nr, ret, conn);
            && w'.driver.freed == w.driver.freed && w'.driver.alive == w.driver.alive && w'.heap.handleOf == w.heap.handleOf
            && (ret != Success ==> w'.heap == w.heap)
            && (ret == Success ==> w'.heap.entries.Keys == w.heap.entries.Keys + {EntryKey(b, KeyOf(w.heap, s, kind))})
            && (ret == Success ==> w'.driver.bound == w.driver.bound[KeyOf(w.heap, s, kind) := BoundTo(w.driver, KeyOf(w.heap, s, kind))[nr := b]])
  {
  }

  lemma NoFreeStmt(w: World, s: SqlStmtHandle?)
    ensures s != null ==> forall kind :: AfterFreeStmt(w, s, kind, false) == w
  {
  }

  lemma TouchesNothing(w: World, s: SqlStmtHandle)
    ensures OnlyTouches(w, w, s)
  {
  }

  lemma HeldIsAllocated(w: World, s: SqlStmtHandle, columns: bool, params: bool)
    requires Held(w, s, columns, params)
    ensures HandleOf(w.heap, s) != SQL_NULL_HANDLE && Ownership(s, ByStatement) in w.heap.owners
    ensures forall kind, ok :: HandleOf(AfterFreeStmt(w, s, kind, ok).heap, s) == HandleOf(w.heap, s)
  {
  }

  lemma HeldSameHeap(w: World, w': World, s: SqlStmtHandle, columns: bool, params: bool)
    requires Held(w, s, columns, params) && w'.heap == w.heap
    ensures Held(w', s, columns, params)
  {
  }

  /** Without bindings the ExecutableStatement is the only owner. */
  lemma SoleOwner(h: Heap, s: SqlStmtHandle)
    requires HeapOk(h) && HandleOf(h, s) != SQL_NULL_HANDLE && forall i <- h.slots :: i.stmt != s
    ensures forall o <- h.owners :: o.stmt == s ==> o == Ownership(s, ByStatement)
    ensures forall x <- h.entries :: x.key.handle != HandleOf(h, s)
  {
    forall x <- h.entries ensures x.key.handle != HandleOf(h, s) {
      assert Slot(h.entries[x].stmt, x.key.kind, h.entries[x].conn) in h.slots;
    }
    assert forall o <- h.owners :: o.stmt == s && o.owner.ByEntry? ==> EntryKey(o.owner.buffer, KeyOf(h, s, o.owner.kind)) in h.entries;
  }

  /** Letting go of an unbound statement destroys it, and it alone: its handle is freed once. */
  lemma DropDestroys(w: World, s: SqlStmtHandle)
    requires Inv(w) && Held(w, s, false, false)
    ensures var h := w.heap.(owners := w.heap.owners - {Ownership(s, ByStatement)});
            Unshared(h) == {s} && HandlesOf(h, Unshared(h)) == {HandleOf(w.heap, s)}
    ensures Dropped(w, s) == FreeOne(w.(heap := w.heap.(owners := w.heap.owners - {Ownership(s, ByStatement)})), s)
  {
    var h := w.heap.(owners := w.heap.owners - {Ownership(s, ByStatement)});
    SoleOwner(w.heap, s);
    assert !Shared(h, s);
    forall t <- w.heap.handleOf | t != s ensures Shared(h, t) {
      assert Shared(w.heap, t);
      var o :| o in w.heap.owners && o.stmt == t;
      assert o in h.owners;
    }
    assert Unshared(h) == {s};
    OneHandle(h, s);
  }

  lemma OneHandle(h: Heap, s: SqlStmtHandle)
    requires HandleOf(h, s) != SQL_NULL_HANDLE
    ensures HandlesOf(h, {s}) == {HandleOf(h, s)}
  {
    assert HandleOf(h, s) in HandlesOf(h, {s});
  }

  ghost function Unbinding(w: World, s: SqlStmtHandle, columns: bool, params: bool): World {
    AfterFreeStmt(AfterFreeStmt(w, s, Columns, columns), s, Params, params)
  }

  /** ExecutableStatement::Reset: unbind what was bound, then let go of the handle object. */
  ghost function AfterReset(w: World, s: SqlStmtHandle, columns: bool, params: bool): World {
    Dropped(Unbinding(w, s, columns, params), s)
  }

  lemma UnbindingTouches(w: World, s: SqlStmtHandle, columns: bool, params: bool)
    requires Inv(w) && Held(w, s, columns, params)
    ensures var w' := Unbinding(w, s, columns, params);
            Inv(w') && Held(w', s, false, false) && OnlyTouches(w, w', s)
    ensures Unbinding(w, s, columns, params).driver.freed == w.driver.freed
    ensures Unbinding(w, s, columns, params).driver.alive == w.driver.alive
    ensures HandleOf(Unbinding(w, s, columns, params).heap, s) == HandleOf(w.heap, s)
  {
    hide Inv;
    var w1 := AfterFreeStmt(w, s, Columns, columns);
    FreeStmtKeepsInv(w, s, Columns, columns);
    if columns { FreeStmtTouches(w, s, Columns, columns, params); }
    FreeStmtKeepsInv(w1, s, Params, params);
    if params { FreeStmtTouches(w1, s, Params, false, params); }
  }

  lemma DropTouches(w: World, s: SqlStmtHandle)
    requires Inv(w) && Held(w, s, false, false)
    ensures var w' := Dropped(w, s);
            && Inv(w') && OnlyTouches(w, w', s)
            && s !in w'.heap.handleOf
            && w'.driver.alive == w.driver.alive - {HandleOf(w.heap, s)}
            && w'.driver.freed == w.driver.freed + multiset{HandleOf(w.heap, s)}
            && (forall x <- w'.heap.entries :: x.key.handle != HandleOf(w.heap, s))
  {
    DropDestroys(w, s);
    DroppedKeepsInv(w, s);
    SoleOwner(w.heap, s);
    hide Inv;
    assert multiset({HandleOf(w.heap, s)}) == multiset{HandleOf(w.heap, s)};
  }

  /** After Reset no buffer has an entry for the statement's handle, the handle object is gone, its
      native handle has been freed exactly once more, and other statements are as they were. */
  lemma ResetDestroys(w: World, s: SqlStmtHandle, columns: bool, params: bool)
    requires Inv(w) && Held(w, s, columns, params)
    ensures var w' := AfterReset(w, s, columns, params);
            && Inv(w') && OnlyTouches(w, w', s)
            && s !in w'.heap.handleOf
            && w'.driver.alive == w.driver.alive - {HandleOf(w.heap, s)}
            && w'.driver.freed == w.driver.freed + multiset{HandleOf(w.heap, s)}
            && (forall x <- w'.heap.entries :: x.key.handle != HandleOf(w.heap, s))
  {
    hide Inv;
    var w1 := Unbinding(w, s, columns, params);
    UnbindingTouches(w, s, columns, params);
    DropTouches(w1, s);
  }

  lemma AllocatedTouches(w: World, s: SqlStmtHandle, handle: nat)
    requires Inv(w) && CanAllocate(w, s, handle)
    ensures OnlyTouches(w, Allocated(w, s, handle), s) && Held(Allocated(w, s, handle), s, false, false)
    ensures s !in w.heap.handleOf && handle !in w.driver.alive && HandleOf(Allocated(w, s, handle).heap, s) == handle
    ensures Allocated(w, s, handle).driver == w.driver.(alive := w.driver.alive + {handle})
  {
    assert forall i <- w.heap.slots :: i.stmt in w.heap.handleOf;
  }

  /** A statement that is allocated and let go again leaves no trace but the freed handle. */
  lemma AllocatedAndDropped(w: World, s: SqlStmtHandle, handle: nat)
    requires Inv(w) && CanAllocate(w, s, handle)
    ensures Dropped(Allocated(w, s, handle), s) == w.(driver := w.driver.(freed := w.driver.freed + multiset{handle}))
  {
    FreeingUndoes(w, s, handle);
    hide Inv;
    AllocatedKeepsInv(w, s, handle);
    AllocatedTouches(w, s, handle);
    DropDestroys(Allocated(w, s, handle), s);
  }

  lemma FreeingUndoes(w: World, s: SqlStmtHandle, handle: nat)
    requires DriverOk(w) && OwnersOk(w.heap) && CanAllocate(w, s, handle)
    ensures var w1 := Allocated(w, s, handle);
            FreeOne(w1.(heap := w1.heap.(owners := w1.heap.owners - {Ownership(s, ByStatement)})), s)
            == w.(driver := w.driver.(freed := w.driver.freed + multiset{handle}))
  {
    assert forall o <- w.heap.owners :: o.stmt in w.heap.handleOf;
    assert Allocated(w, s, handle).heap.owners - {Ownership(s, ByStatement)} == w.heap.owners;
    assert forall x <- w.driver.bound :: x.handle in w.driver.alive;
    assert multiset({handle}) == multiset{handle};
  }

  /** Destroying a buffer leaves the statements alone that an ExecutableStatement holds. */
  lemma DestroyedKeepsHeld(w: World, b: ColumnBuffer, failing: set<Key>, t: SqlStmtHandle, columns: bool, params: bool)
    requires Inv(w) && Held(w, t, columns, params)
    ensures var w' := Destroyed(w, b, failing);
            && Held(w', t, columns, params) && HandleOf(w'.heap, t) == HandleOf(w.heap, t)
            && w'.driver.freed[HandleOf(w.heap, t)] == w.driver.freed[HandleOf(w.heap, t)]
            && HandleOf(w.heap, t) in w'.driver.alive
  {
    var keys := KeysOfBuffer(w.heap, b);
    var h := Gone(Dying(w.heap, b, keys, keys - failing), b);
    assert Ownership(t, ByStatement) in h.owners;
    assert Shared(h, t);
    NotDead(w.heap, h, t);
  }

  // ---- the class

  datatype Fields = Fields(hasDb: bool, stmt: SqlStmtHandle?, isPrepared: bool, prepared: string, boundColumns: bool, boundParams: bool)

  class ExecutableStatement {
    var hasDb: bool              // m_pDb is set
    var stmt: SqlStmtHandle?     // m_pHStmt
    var isPrepared: bool
    var prepared: string         // the text the driver has prepared
    var boundColumns: bool
    var boundParams: bool

    constructor ()
      ensures Empty() && !isPrepared
    {
      hasDb, stmt, isPrepared, prepared, boundColumns, boundParams := false, null, false, "", false, false;
    }

    function Now(): Fields
      reads this
    {
      Fields(hasDb, stmt, isPrepared, prepared, boundColumns, boundParams)
    }

    predicate IsInitialized()
      reads this
    {
      hasDb
    }

    /** As constructed, but for the prepared flag, which Reset leaves alone. */
    predicate Empty()
      reads this
    {
      !hasDb && stmt == null && !boundColumns && !boundParams
    }

    /** The statement's handle holds bindings only of the kinds the flags announce. */
    ghost predicate Valid(m: Memory)
      reads this, m
    {
      if stmt == null then !boundColumns && !boundParams
      else hasDb && Held(m.View(), stmt, boundColumns, boundParams)
    }

    /** Init. Where it fails, m_pDb may already be set: SQLAllocHandle is called after that, and only a
        failure of SetCursorOptions is undone by Init itself. */
    method Init(m: Memory, dbIsOpen: bool) returns (ok: bool)
      requires Inv(m.View()) && Valid(m)
      modifies this, m
      ensures Inv(m.View()) && Valid(m)
      ensures old(hasDb) || !dbIsOpen ==> !ok && unchanged(this) && m.View() == old(m.View())
      ensures ok ==> hasDb && stmt != null && !boundColumns && !boundParams
      ensures m.reliable && !old(hasDb) && dbIsOpen ==> ok
      ensures ok ==> stmt !in old(m.handleOf) && HandleOf(m.View().heap, stmt) !in old(m.alive)
      ensures ok ==> OnlyTouches(old(m.View()), m.View(), stmt) && m.bound == old(m.bound)
      ensures m.entries == old(m.entries)
      ensures m.alive == old(m.alive) + if ok then {HandleOf(m.View().heap, stmt)} else {}
      ensures !ok ==> SameButFreed(old(m.View()), m.View())
      ensures !ok && !old(hasDb) ==> stmt == null && !boundColumns && !boundParams
      ensures isPrepared == old(isPrepared) && prepared == old(prepared)
    {
      hide Inv, Held, OnlyTouches, Dropped;
      if hasDb || !dbIsOpen { return false; }
      hasDb := true;
      ghost var w := m.View();
      var s := m.AllocateStatement();
      if s == null { return false; }
      ghost var handle :| CanAllocate(w, s, handle) && m.View() == Allocated(w, s, handle);
      stmt := s;
      AllocatedKeepsInv(w, s, handle);
      AllocatedTouches(w, s, handle);
      hide Allocated, CanAllocate;
      var cursorOk: bool := *;
      if !cursorOk && !m.reliable {
        AllocatedAndDropped(w, s, handle);
        var cleaned := Reset(m);
        return false;
      }
      ok := true;
    }

    /** Reset: stops at the first SQLFreeStmt that fails, and then the statement keeps its handle. */
    method Reset(m: Memory) returns (ok: bool)
      requires Inv(m.View()) && Valid(m)
      modifies this, m
      ensures Inv(m.View()) && Valid(m)
      ensures ok ==> Empty()
      ensures (!old(boundColumns) && !old(boundParams)) || m.Unbinds() ==> ok
      ensures !ok ==> hasDb == old(hasDb) && stmt == old(stmt) && stmt != null
      ensures old(stmt) == null ==> ok && m.View() == old(m.View())
      ensures old(stmt) != null && ok ==> m.View() == AfterReset(old(m.View()), old(stmt), old(boundColumns), old(boundParams))
      ensures !ok ==> OnlyTouches(old(m.View()), m.View(), stmt)
      ensures !ok ==> m.View() == AfterFreeStmt(old(m.View()), stmt, Columns, old(boundColumns) && !boundColumns)
      ensures isPrepared == old(isPrepared) && prepared == old(prepared)
    {
      hide Inv, Held, OnlyTouches, AfterFreeStmt, Dropped;
      ghost var w := m.View();
      if stmt != null {
        TouchesNothing(w, stmt);
        NoFreeStmt(w, stmt);
        HeldIsAllocated(w, stmt, boundColumns, boundParams);
      }
      if boundColumns {
        FreeStmtTouches(w, stmt, Columns, boundColumns, boundParams);
        ok := m.FreeStmt(stmt, Columns);
        if !ok { return; }
        boundColumns := false;
        HeldIsAllocated(m.View(), stmt, boundColumns, boundParams);
      }
      NoFreeStmt(m.View(), stmt);
      if boundParams {
        FreeStmtTouches(m.View(), stmt, Params, boundColumns, boundParams);
        ok := m.FreeStmt(stmt, Params);
        if !ok { return; }
        boundParams := false;
      }
      if stmt != null {
        m.Drop(stmt);
      }
      stmt := null;
      hasDb := false;
      ok := true;
    }

    /** ~ExecutableStatement: parameters first; failures are only logged, and the handle object lives
        on as long as a buffer still shares it. */
    method Destroy(m: Memory)
      requires Inv(m.View()) && Valid(m)
      modifies this, m
      ensures Inv(m.View())
      ensures old(stmt) == null ==> m.View() == old(m.View())
      ensures old(stmt) != null ==>
                exists columns, params | (columns ==> old(boundColumns)) && (params ==> old(boundParams)) ::
                  (m.Unbinds() ==> columns == old(boundColumns) && params == old(boundParams))
                  && m.View() == AfterDestroy(old(m.View()), old(stmt), columns, params)
    {
      hide Inv, Dropped, Unbound;
      ghost var w := m.View();
      var columns, params := false, false;
      if boundParams {
        FreeStmtTouches(w, stmt, Params, boundColumns, boundParams);
        params := m.FreeStmt(stmt, Params);
      }
      if boundColumns {
        columns := m.FreeStmt(stmt, Columns);
      }
      if stmt != null {
        m.Drop(stmt);
        assert m.View() == AfterDestroy(w, stmt, columns, params);
      }
    }

    /** BindColumn: anything but plain success of the driver is an exception. */
    method BindColumn(m: Memory, b: ColumnBuffer, nr: nat) returns (ok: bool)
      requires Inv(m.View()) && Valid(m) && b in m.bufs
      modifies this`boundColumns, m
      ensures Inv(m.View()) && Valid(m)
      ensures AfterBind(old(m.View()), m.View(), stmt, b, Columns, nr, ok)
      ensures m.reliable && stmt != null && nr > 0 ==> ok
    {
      hide Inv, Held, AfterBind;
      ok := BindAs(m, b, Columns, nr, true);
      if ok { boundColumns := true; }
    }

    /** BindParameter: describing the parameter may fail before anything is bound. */
    method BindParameter(m: Memory, b: ColumnBuffer, nr: nat) returns (ok: bool)
      requires Inv(m.View()) && Valid(m) && b in m.bufs
      modifies this`boundParams, m
      ensures Inv(m.View()) && Valid(m)
      ensures AfterBind(old(m.View()), m.View(), stmt, b, Params, nr, ok)
      ensures m.reliable && stmt != null && nr > 0 ==> ok
    {
      hide Inv, Held, AfterBind;
      var described: bool := *;
      ok := BindAs(m, b, Params, nr, hasDb && (described || m.reliable));
      if ok { boundParams := true; }
    }

    method BindAs(m: Memory, b: ColumnBuffer, kind: Kind, nr: nat, ready: bool) returns (ok: bool)
      requires Inv(m.View()) && Valid(m) && b in m.bufs
      modifies m
      ensures Inv(m.View())
      ensures AfterBind(old(m.View()), m.View(), stmt, b, kind, nr, ok)
      ensures stmt == null ==> !ok
      ensures m.reliable && stmt != null && nr > 0 && ready ==> ok
      ensures stmt != null ==> Held(m.View(), stmt, boundColumns || (ok && kind == Columns), boundParams || (ok && kind == Params))
    {
      if stmt == null || nr == 0 || !ready { return false; }
      hide Inv, Connected;
      ghost var w := m.View();
      var ret := m.Bind(b, stmt, kind, nr);
      ghost var conn :| CanConnect(w.heap, b, stmt, kind, conn) && m.View() == Bound(w, b, stmt, kind, nr, ret, conn);
      BoundTouches(w, b, stmt, kind, nr, ret, conn, boundColumns, boundParams);
      BoundSeen(w, b, stmt, kind, nr, ret, conn);
      hide Held, OnlyTouches, Bound;
      ok := ret == Success;
    }

    /** Prepare: the driver may refuse the text. */
    method Prepare(m: Memory, text: string) returns (ok: bool)
      modifies this`isPrepared, this`prepared
      ensures m.reliable && stmt != null && text != "" ==> ok
      ensures ok ==> stmt != null && isPrepared && prepared == text
      ensures !ok ==> isPrepared == old(isPrepared)
    {
      if stmt == null || text == "" { return false; }
      ok := *;
      ok := ok || m.reliable;
      if ok { isPrepared, prepared := true, text; }
    }
  }

  /** What remains of the destructor: which kinds it managed to unbind. */
  ghost function AfterDestroy(w: World, s: SqlStmtHandle, columns: bool, params: bool): World {
    Dropped(AfterFreeStmt(AfterFreeStmt(w, s, Params, params), s, Columns, columns), s)
  }

  /** The entries of s that a destructor leaves when these are the kinds it unbinds. */
  predicate StaysEntered(x: EntryKey, handle: nat, columns: bool, params: bool) {
    x.key.handle == handle ==> !(if x.key.kind == Columns then columns else params)
  }

  /** ~ExecutableStatement takes exactly the entries of the kinds it could unbind; the native handle is freed,
      once, if and only if no entry for it is left, and otherwise the buffers share it on. */
  lemma DestroyFreesIff(w: World, s: SqlStmtHandle, columns: bool, params: bool)
    requires Inv(w) && HandleOf(w.heap, s) != SQL_NULL_HANDLE && Ownership(s, ByStatement) in w.heap.owners
    ensures var w', handle := AfterDestroy(w, s, columns, params), HandleOf(w.heap, s);
            && Inv(w')
            && (forall x :: x in w'.heap.entries <==> x in w.heap.entries && StaysEntered(x, handle, columns, params))
            && (handle in w'.driver.alive <==> exists x :: x in w'.heap.entries && x.key.handle == handle)
            && w'.driver.alive == (if handle in w'.driver.alive then w.driver.alive else w.driver.alive - {handle})
            && w'.driver.freed == (if handle in w'.driver.alive then w.driver.freed else w.driver.freed + multiset{handle})
  {
    hide Inv, Dropped, AfterFreeStmt;
    var w1 := AfterFreeStmt(w, s, Params, params);
    var w2 := AfterFreeStmt(w1, s, Columns, columns);
    FreeStmtKeepsInv(w, s, Params, params);
    FreeStmtLeaves(w, s, Params, params);
    FreeStmtKeepsInv(w1, s, Columns, columns);
    FreeStmtLeaves(w1, s, Columns, columns);
    DroppedKeepsInv(w2, s);
    DropFreesIff(w2, s);
  }

  lemma FreeStmtLeaves(w: World, s: SqlStmtHandle, kind: Kind, ok: bool)
    ensures var w', handle := AfterFreeStmt(w, s, kind, ok), HandleOf(w.heap, s);
            && w'.driver.alive == w.driver.alive && w'.driver.freed == w.driver.freed && w'.heap.handleOf == w.heap.handleOf
            && (Ownership(s, ByStatement) in w.heap.owners ==> Ownership(s, ByStatement) in w'.heap.owners)
            && forall x :: x in w'.heap.entries <==> x in w.heap.entries && !(ok && x.key.handle == handle && x.key.kind == kind)
  {
    assert forall x: Key :: x == Key(x.kind, x.handle);
  }

  lemma DropFreesIff(w: World, s: SqlStmtHandle)
    requires Inv(w) && HandleOf(w.heap, s) != SQL_NULL_HANDLE && Ownership(s, ByStatement) in w.heap.owners
    ensures var w', handle := Dropped(w, s), HandleOf(w.heap, s);
            && w'.heap.entries == w.heap.entries
            && (handle in w'.driver.alive <==> exists x :: x in w.heap.entries && x.key.handle == handle)
            && w'.driver.alive == (if handle in w'.driver.alive then w.driver.alive else w.driver.alive - {handle})
            && w'.driver.freed == (if handle in w'.driver.alive then w.driver.freed else w.driver.freed + multiset{handle})
  {
    var h := w.heap.(owners := w.heap.owners - {Ownership(s, ByStatement)});
    forall t <- w.heap.handleOf | t != s ensures Shared(h, t) {
      assert Shared(w.heap, t);
      var o :| o in w.heap.owners && o.stmt == t;
      assert o in h.owners;
    }
    SharedByEntriesIff(w.heap, s);
    if Shared(h, s) {
      assert Unshared(h) == {};
      assert HandlesOf(h, {}) == {};
    } else {
      assert Unshared(h) == {s};
      OneHandle(h, s);
      assert multiset({HandleOf(h, s)}) == multiset{HandleOf(h, s)};
    }
  }

  /** Beside the ExecutableStatement, who owns a statement are the buffers with an entry for it. */
  lemma SharedByEntriesIff(h: Heap, s: SqlStmtHandle)
    requires HeapOk(h) && HandleOf(h, s) != SQL_NULL_HANDLE
    ensures Shared(h.(owners := h.owners - {Ownership(s, ByStatement)}), s) <==> exists x :: x in h.entries && x.key.handle == HandleOf(h, s)
  {
    var h' := h.(owners := h.owners - {Ownership(s, ByStatement)});
    if o :| o in h'.owners && o.stmt == s {
      assert EntryKey(o.owner.buffer, KeyOf(h, s, o.owner.kind)) in h.entries;
    }
    if x :| x in h.entries && x.key.handle == HandleOf(h, s) {
      assert Ownership(s, ByEntry(x.key.kind, x.buffer)) in h'.owners;
    }
  }

  /** Binding b as number nr, seen from outside: on success the driver's bindings of the statement
      are those before with b as number nr, and the entries those before with b's; on failure no buffer has changed. */
  ghost predicate AfterBind(w: World, w': World, s: SqlStmtHandle?, b: ColumnBuffer, kind: Kind, nr: nat, ok: bool) {
    if s == null then !ok && w' == w
    else
      && OnlyTouches(w, w', s)
      && w'.driver.freed == w.driver.freed && w'.driver.alive == w.driver.alive && w'.heap.handleOf == w.heap.handleOf
      && (if ok then
            w'.heap.entries.Keys == w.heap.entries.Keys + {EntryKey(b, KeyOf(w.heap, s, kind))}
            && w'.driver.bound == w.driver.bound[KeyOf(w.heap, s, kind) := BoundTo(w.driver, KeyOf(w.heap, s, kind))[nr := b]]
          else w'.heap == w.heap)
  }

  /** Nothing has changed but the count of calls to SQLFreeHandle. */
  ghost predicate SameButFreed(w: World, w': World) {
    w' == w.(driver := w.driver.(freed := w'.driver.freed)) && w.driver.freed <= w'.driver.freed
  }
}
