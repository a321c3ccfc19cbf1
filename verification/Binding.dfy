// SqlHandle's signals, ColumnBindable and the ODBC driver's bindings, imperatively. Handle objects
// and buffers refer to each other, so their fields are kept in one memory, a map per field.
module Binding {
  import opened BindingSpec

  class Memory {
    // the ODBC driver
    const reliable: bool                       // every call of it succeeds
    const unbinds: bool                        // SQLFreeStmt succeeds, whatever else may fail
    var alive: set<nat>
    var bound: map<Key, map<nat, ColumnBuffer>>
    var freed: multiset<nat>
    // SqlHandle: m_handle, the slots of the two signals, and the shared_ptr owners
    var handleOf: map<SqlStmtHandle, nat>
    var slots: map<Slot, ColumnBuffer>
    var owners: set<Ownership>
    // ColumnBindable: the live buffers and their two connection maps
    var bufs: set<ColumnBuffer>
    var entries: map<EntryKey, Entry>

    ghost function View(): World
      reads this
    {
      World(Driver(alive, bound, freed), Heap(handleOf, slots, owners, bufs, entries))
    }

    predicate Unbinds() { reliable || unbinds }

    constructor (reliable: bool, unbinds: bool)
      ensures View() == EMPTY && this.reliable == reliable && this.unbinds == unbinds
    {
      this.reliable, this.unbinds := reliable, unbinds;
      alive, bound, freed := {}, map[], multiset{};
      handleOf, slots, owners := map[], map[], {};
      bufs, entries := {}, map[];
    }

    /** The driver frees a handle and forgets its bindings. */
    method SQLFreeHandle(handle: nat)
      modifies this`alive, this`bound, this`freed
      ensures View().driver == HandlesFreed(old(View()).driver, {handle})
    {
      alive := alive - {handle};
      bound := map x | x in bound && x.handle !in {handle} :: bound[x];
      freed := freed + multiset({handle});
    }

    /** SQLFreeStmt with SQL_UNBIND or SQL_RESET_PARAMS. */
    method SQLFreeStmt(key: Key) returns (ok: bool)
      modifies this`bound
      ensures View().driver == if ok then Forgotten(old(View()).driver, key) else old(View()).driver
      ensures Unbinds() ==> ok
    {
      ok := *;
      ok := ok || Unbinds();
      if ok { bound := bound - {key}; }
    }

    method Disconnect(i: Slot)
      modifies this`slots
      ensures View().heap == WithoutSlot(old(View()).heap, i)
    {
      slots := slots - {i};
    }

    /** make_shared<SqlStmtHandle>(parent): null when SQLAllocHandle fails. */
    method AllocateStatement() returns (s: SqlStmtHandle?)
      modifies this
      ensures (s == null ==> View() == old(View())) && (reliable ==> s != null)
      ensures s != null ==> exists handle :: CanAllocate(old(View()), s, handle) && View() == Allocated(old(View()), s, handle)
    {
      var ok: bool := *;
      if !ok && !reliable { return null; }
      FreshHandle(alive);
      var handle: nat :| handle !in alive && handle != SQL_NULL_HANDLE;
      var obj := new SqlStmtHandle();
      assert CanAllocate(old(View()), obj, handle);
      alive := alive + {handle};
      handleOf := handleOf[obj := handle];
      owners := owners + {Ownership(obj, ByStatement)};
      s := obj;
    }

    method NewBuffer(queryName: string, sqlType: int) returns (b: ColumnBuffer)
      modifies this
      ensures fresh(b) && b.queryName == queryName && b.sqlType == sqlType
      ensures Enabled(old(View()), Op.NewBuffer(b)) && View() == Step(old(View()), Op.NewBuffer(b))
    {
      b := new ColumnBuffer(queryName, sqlType);
      bufs := bufs + {b};
    }

    /** BindColumnImpl and BindParamImpl. */
    method Bind(b: ColumnBuffer, s: SqlStmtHandle, kind: Kind, nr: nat) returns (ret: SqlReturn)
      requires Inv(View()) && b in bufs && HandleOf(View().heap, s) != SQL_NULL_HANDLE
      modifies this
      ensures exists conn :: CanConnect(old(View()).heap, b, s, kind, conn) && View() == Bound(old(View()), b, s, kind, nr, ret, conn)
      ensures Inv(View()) && (reliable ==> ret == Success)
    {
      hide Inv, Tracked, Connected;
      ghost var w := View();
      var key := Key(kind, handleOf[s]);
      ret := *;
      if reliable { ret := Success; }
      var conn := FreshConnection(s, kind);
      BoundKeepsInv(w, b, s, kind, nr, ret, conn);
      if ret != Error {
        bound := bound[key := BoundTo(Driver(alive, bound, freed), key)[nr := b]];
      }
      if ret != Success { return; }
      if EntryKey(b, key) !in entries {
        Connect(b, s, kind, conn);
      }
    }

    method Connect(b: ColumnBuffer, s: SqlStmtHandle, kind: Kind, conn: nat)
      requires s in handleOf
      modifies this`slots, this`entries, this`owners
      ensures View().heap == Connected(old(View()).heap, b, s, kind, conn)
    {
      slots := slots[Slot(s, kind, conn) := b];
      entries := entries[EntryKey(b, Key(kind, handleOf[s])) := Entry(conn, s)];
      owners := owners + {Ownership(s, ByEntry(kind, b))};
    }

    method FreshConnection(s: SqlStmtHandle, kind: Kind) returns (conn: nat)
      ensures Slot(s, kind, conn) !in slots
    {
      FreshSlot(slots.Keys, s, kind);
      conn :| Slot(s, kind, conn) !in slots;
    }

    /** OnResetParams and OnUnbindColumns: the buffer forgets the statement that notifies it. */
    method OnUnbound(b: ColumnBuffer, s: SqlStmtHandle, kind: Kind)
      modifies this
      requires s in handleOf
      ensures var x := EntryKey(b, KeyOf(old(View()).heap, s, kind));
              View() == if x !in old(entries) then old(View()) else
                World(old(View()).driver, old(View()).heap.(
                  slots := old(slots) - {Slot(old(entries)[x].stmt, kind, old(entries)[x].conn)},
                  owners := old(owners) - {Ownership(old(entries)[x].stmt, ByEntry(kind, b))},
                  entries := old(entries) - {x}))
    {
      var x := EntryKey(b, Key(kind, handleOf[s]));
      if x in entries {
        var e := entries[x];
        slots := slots - {Slot(e.stmt, kind, e.conn)};
        entries := entries - {x};
        owners := owners - {Ownership(e.stmt, ByEntry(kind, b))};
      }
    }

    /** A signal calls its slots; each called buffer disconnects itself meanwhile. */
    method Notify(s: SqlStmtHandle, kind: Kind)
      requires s in handleOf && Answered(View().heap, s, kind)
      modifies this
      ensures View() == World(old(View()).driver,
                              Notified(old(View()).heap, s, kind, Listeners(old(View()).heap, s, kind)))
    {
      ghost var w := View();
      ghost var hit: set<ColumnBuffer> := {};
      assert Notified(w.heap, s, kind, {}) == w.heap;
      while exists i :: i in slots && i.stmt == s && i.kind == kind
        invariant s in handleOf && hit <= Listeners(w.heap, s, kind)
        invariant View() == World(w.driver, Notified(w.heap, s, kind, hit))
        decreases Listeners(w.heap, s, kind) - hit
      {
        var i :| i in slots && i.stmt == s && i.kind == kind;
        var b := slots[i];
        NotifiedStep(w.heap, s, kind, hit, i);
        OnUnbound(b, s, kind);
        hit := hit + {b};
      }
      AllNotified(w.heap, s, kind, hit);
    }

    /** ResetParams and UnbindColumns of a statement whose caller shares it. SQLFreeStmt may fail, and
        then nothing happens. */
    method FreeStmt(s: SqlStmtHandle, kind: Kind) returns (ok: bool)
      requires Inv(View()) && HandleOf(View().heap, s) != SQL_NULL_HANDLE && Ownership(s, ByStatement) in owners
      modifies this
      ensures View() == AfterFreeStmt(old(View()), s, kind, ok)
      ensures Inv(View()) && (Unbinds() ==> ok)
    {
      ghost var w := View();
      ok := SQLFreeStmt(Key(kind, handleOf[s]));
      FreeStmtKeepsInv(w, s, kind, ok);
      if !ok { return; }
      NotifiedIsUnbound(w.heap, s, kind);
      Notify(s, kind);
    }

    /** ~SqlHandle */
    method DestroyStatement(s: SqlStmtHandle)
      requires s in handleOf
      modifies this`alive, this`bound, this`freed, this`handleOf
      ensures View() == FreeOne(old(View()), s)
    {
      if handleOf[s] != SQL_NULL_HANDLE {
        SQLFreeHandle(handleOf[s]);
      }
      handleOf := handleOf - {s};
    }

    /** A handle object that lost its last owner runs its destructor. */
    method Collect()
      requires Distinct(View().heap)
      modifies this
      ensures View() == Collected(old(View()))
    {
      ghost var w := View();
      while exists s :: s in handleOf && !exists o :: o in owners && o.stmt == s
        invariant Distinct(View().heap) && Collected(View()) == Collected(w)
        decreases handleOf.Keys
      {
        var s :| s in handleOf && !exists o :: o in owners && o.stmt == s;
        assert s in Unshared(View().heap);
        CollectStep(View(), s);
        DestroyStatement(s);
      }
      assert Unshared(View().heap) == {};
      CollectedNothing(View());
    }

    /** The ExecutableStatement's m_pHStmt.reset(). */
    method Drop(s: SqlStmtHandle)
      requires Inv(View())
      modifies this
      ensures View() == Dropped(old(View()), s)
      ensures Inv(View())
    {
      DroppedKeepsInv(View(), s);
      owners := owners - {Ownership(s, ByStatement)};
      Collect();
    }

    /** SqlHandle::Free called by hand: the handle is null by the time the signals fire. */
    method FreeByHand(s: SqlStmtHandle)
      requires Inv(View()) && HandleOf(View().heap, s) != SQL_NULL_HANDLE
      modifies this
      ensures View() == FreedByHand(old(View()), s)
    {
      SQLFreeHandle(handleOf[s]);
      handleOf := handleOf[s := SQL_NULL_HANDLE];
    }

    /** ~ColumnBindable: parameters first, then columns, then the maps go. Reports the statements for
        which SQLFreeStmt failed; those failures are only logged. */
    method DestroyBuffer(b: ColumnBuffer) returns (failing: set<Key>)
      requires Inv(View()) && b in bufs
      modifies this
      ensures View() == Destroyed(old(View()), b, failing)
      ensures failing <= KeysOfBuffer(old(View()).heap, b) && (Unbinds() ==> failing == {})
      ensures Inv(View())
    {
      hide Inv, Distinct, DyingWorld, Gone, Collected, Destroyed, KeysOfBuffer;
      ghost var w := View();
      SoundHeap(w);
      DyingNothing(w, b);
      var done: set<Key>;
      done, failing := UnbindOwn(b, Params, {}, {}, w);
      done, failing := UnbindOwn(b, Columns, done, failing, w);
      assert {} + KeysOfKind(w.heap, b, Params) == KeysOfKind(w.heap, b, Params);
      BothKinds(w, b, failing);
      DestroyMaps(b);
      Collect();
    }

    /** The buffer's memory and its two maps go, and with the map values their ownerships. */
    method DestroyMaps(b: ColumnBuffer)
      modifies this`owners, this`bufs, this`entries
      ensures View().heap == Gone(old(View()).heap, b)
    {
      owners := set o | o in owners && !(o.owner.ByEntry? && o.owner.buffer == b);
      bufs := bufs - {b};
      entries := map x | x in entries && x.buffer != b :: entries[x];
    }

    /** One of the destructor's two loops. */
    method UnbindOwn(b: ColumnBuffer, kind: Kind, before: set<Key>, failingBefore: set<Key>, ghost w: World)
        returns (done: set<Key>, failing: set<Key>)
      requires HeapOk(w.heap) && failingBefore <= before <= KeysOfBuffer(w.heap, b)
      requires View() == DyingWorld(w, b, before, failingBefore)
      modifies this
      ensures failing <= done && done == before + KeysOfKind(w.heap, b, kind)
      ensures Unbinds() && failingBefore == {} ==> failing == {}
      ensures View() == DyingWorld(w, b, done, failing)
    {
      hide HeapOk;
      done, failing := before, failingBefore;
      while exists x :: x in entries && x.buffer == b && x.key.kind == kind && x.key !in done
        invariant failing <= done <= KeysOfBuffer(w.heap, b)
        invariant Unbinds() && failingBefore == {} ==> failing == {}
        invariant before <= done && forall x <- done :: x in before || x.kind == kind
        invariant View() == DyingWorld(w, b, done, failing)
        decreases KeysOfBuffer(w.heap, b) - done
      {
        var x :| x in entries && x.buffer == b && x.key.kind == kind && x.key !in done;
        assert x == EntryKey(b, x.key);
        var ok := UnbindOne(b, x.key, done, failing, w);
        done, failing := done + {x.key}, if ok then failing else failing + {x.key};
      }
      AllUnbound(w.heap, b, kind, before, done, failing);
    }

    /** One iteration: disconnect first, then unbind the statement. */
    method UnbindOne(b: ColumnBuffer, key: Key, done: set<Key>, failing: set<Key>, ghost w: World) returns (ok: bool)
      requires HeapOk(w.heap) && failing <= done
      requires EntryKey(b, key) in entries && key !in done
      requires View() == DyingWorld(w, b, done, failing)
      modifies this
      ensures key in KeysOfBuffer(w.heap, b)
      ensures View() == DyingWorld(w, b, done + {key}, if ok then failing else failing + {key})
      ensures Unbinds() ==> ok
    {
      hide HeapOk, DyingWorld, Notified, Listeners, Answered;
      var e := entries[EntryKey(b, key)];
      UnbindOneStep(w, b, key, done, failing);
      Disconnect(Slot(e.stmt, key.kind, e.conn));
      ok := SQLFreeStmt(key);
      if ok {
        Notify(e.stmt, key.kind);
      }
    }
  }

  ghost function KeysOfKind(h: Heap, b: ColumnBuffer, kind: Kind): set<Key> {
    set x | x in KeysOfBuffer(h, b) && x.kind == kind
  }

  lemma SoundHeap(w: World)
    requires Inv(w)
    ensures HeapOk(w.heap)
  {
  }

  /** The two loops reach every key; what is left then is to destroy the maps and collect. */
  lemma BothKinds(w: World, b: ColumnBuffer, failing: set<Key>)
    requires Inv(w)
    ensures var keys := KeysOfKind(w.heap, b, Params) + KeysOfKind(w.heap, b, Columns);
            var d := DyingWorld(w, b, keys, failing);
            && keys == KeysOfBuffer(w.heap, b)
            && Distinct(Gone(d.heap, b))
            && Collected(World(d.driver, Gone(d.heap, b))) == Destroyed(w, b, failing)
            && Inv(Destroyed(w, b, failing))
  {
    var keys := KeysOfKind(w.heap, b, Params) + KeysOfKind(w.heap, b, Columns);
    assert keys == KeysOfBuffer(w.heap, b);
    DestroyedKeepsInv(w, b, failing);
  }

  /** The loop ends with all of b's keys of this kind done. */
  lemma AllUnbound(h: Heap, b: ColumnBuffer, kind: Kind, before: set<Key>, done: set<Key>, failing: set<Key>)
    requires before <= done <= KeysOfBuffer(h, b) && forall x <- done :: x in before || x.kind == kind
    requires !exists x :: x in Dying(h, b, done, done - failing).entries && x.buffer == b && x.key.kind == kind && x.key !in done
    ensures done == before + KeysOfKind(h, b, kind)
  {
    forall x | x in KeysOfBuffer(h, b) && x.kind == kind ensures x in done {
      DyingKeepsOwnEntries(h, b, done, done - failing);
      assert EntryKey(b, x) in Dying(h, b, done, done - failing).entries;
    }
  }

  /** What the steps of one iteration come to. */
  lemma UnbindOneStep(w: World, b: ColumnBuffer, key: Key, done: set<Key>, failing: set<Key>)
    requires HeapOk(w.heap) && failing <= done && key !in done
    requires EntryKey(b, key) in DyingWorld(w, b, done, failing).heap.entries
    ensures key in KeysOfBuffer(w.heap, b)
    ensures var d := DyingWorld(w, b, done, failing);
            var e := d.heap.entries[EntryKey(b, key)];
            var h := WithoutSlot(d.heap, Slot(e.stmt, key.kind, e.conn));
            && e.stmt in h.handleOf && KeyOf(h, e.stmt, key.kind) == key && Answered(h, e.stmt, key.kind)
            && World(d.driver, h) == DyingWorld(w, b, done + {key}, failing + {key})
            && World(Forgotten(d.driver, key), Notified(h, e.stmt, key.kind, Listeners(h, e.stmt, key.kind)))
            == DyingWorld(w, b, done + {key}, failing)
  {
    hide HeapOk, Dying, Notified, Listeners, Answered;
    OwnEntryOfDying(w.heap, b, done, done - failing, key);
    DyingStep(w.heap, b, done, done - failing, key);
    assert done + {key} - (failing + {key}) == done - failing;
    assert done + {key} - failing == done - failing + {key};
  }

  lemma OwnEntryOfDying(h: Heap, b: ColumnBuffer, done: set<Key>, unbound: set<Key>, key: Key)
    requires HeapOk(h) && EntryKey(b, key) in Dying(h, b, done, unbound).entries
    ensures EntryKey(b, key) in h.entries && Dying(h, b, done, unbound).entries[EntryKey(b, key)] == h.entries[EntryKey(b, key)]
    ensures key in KeysOfBuffer(h, b)
    ensures var s := h.entries[EntryKey(b, key)].stmt;
            && s in h.handleOf && KeyOf(h, s, key.kind) == key && Dying(h, b, done, unbound).handleOf == h.handleOf
  {
  }

  /** The world halfway through the destructor's loops. */
  ghost function DyingWorld(w: World, b: ColumnBuffer, done: set<Key>, failing: set<Key>): World {
    World(w.driver.(bound := w.driver.bound - (done - failing)), Dying(w.heap, b, done, done - failing))
  }

  lemma DyingNothing(w: World, b: ColumnBuffer)
    ensures DyingWorld(w, b, {}, {}) == w
  {
    assert Dying(w.heap, b, {}, {}) == w.heap;
  }

  lemma AllNotified(h: Heap, s: SqlStmtHandle, kind: Kind, hit: set<ColumnBuffer>)
    requires hit <= Listeners(h, s, kind)
    requires !exists i :: i in Notified(h, s, kind, hit).slots && i.stmt == s && i.kind == kind
    ensures hit == Listeners(h, s, kind)
  {
    forall b | b in Listeners(h, s, kind) ensures b in hit {
      var i :| i in h.slots && i.stmt == s && i.kind == kind && h.slots[i] == b;
      assert i !in Notified(h, s, kind, hit).slots;
    }
  }

  lemma FreshHandle(used: set<nat>)
    ensures exists handle: nat :: handle !in used && handle != SQL_NULL_HANDLE
  {
    var top := UpperBound(used);
    assert top + 1 !in used;
  }

  lemma {:induction false} UpperBound(used: set<nat>) returns (top: nat)
    ensures forall k <- used :: k <= top
    decreases |used|
  {
    if used == {} {
      top := 0;
    } else {
      var k :| k in used;
      assert used == used - {k} + {k};
      var rest := UpperBound(used - {k});
      top := if rest < k then k else rest;
    }
  }

  lemma FreshSlot(used: set<Slot>, s: SqlStmtHandle, kind: Kind)
    ensures exists conn: nat :: Slot(s, kind, conn) !in used
  {
    var conns := set i | i in used :: i.conn;
    var top := UpperBound(conns);
    assert forall i <- used :: i.conn in conns;
    assert Slot(s, kind, top + 1) !in used;
  }

  /** Notifying the buffer of one more slot. */
  lemma NotifiedStep(h: Heap, s: SqlStmtHandle, kind: Kind, hit: set<ColumnBuffer>, i: Slot)
    requires Answered(h, s, kind)
    requires i in Notified(h, s, kind, hit).slots && i.stmt == s && i.kind == kind
    ensures var n := Notified(h, s, kind, hit);
            var x := EntryKey(h.slots[i], KeyOf(h, s, kind));
            && x in n.entries && n.entries[x] == Entry(i.conn, s)
            && Notified(h, s, kind, hit + {h.slots[i]})
            == n.(slots := n.slots - {i}, owners := n.owners - {Ownership(s, ByEntry(kind, h.slots[i]))}, entries := n.entries - {x})
  {
    var n, n' := Notified(h, s, kind, hit), Notified(h, s, kind, hit + {h.slots[i]});
    assert forall j | j in h.slots && j.stmt == s && j.kind == kind && h.slots[j] == h.slots[i] :: j == i;
    assert n'.slots == n.slots - {i};
  }
}
