// The relation between statement handles, column buffers and the ODBC driver, as a value:
// who holds which slot, entry, ownership and driver binding, and what every operation makes of it.
module BindingSpec {
  /** SQLFreeStmt, SQLBindCol and SQLBindParameter as far as this model looks at them. */
  datatype SqlReturn = Success | SuccessWithInfo | Error

  datatype Kind = Columns | Params

  /** One kind of binding on one native statement handle. */
  datatype Key = Key(kind: Kind, handle: nat)

  /** A slot connected to the signal of this kind of a statement. */
  datatype Slot = Slot(stmt: SqlStmtHandle, kind: Kind, conn: nat)

  /** A key of m_unbindColumnsConnections or m_resetParamsConnections of a buffer, and its value. */
  datatype EntryKey = EntryKey(buffer: ColumnBuffer, key: Key)
  datatype Entry = Entry(conn: nat, stmt: SqlStmtHandle)

  /** Who shares a statement handle object: the ExecutableStatement or a map entry. */
  datatype Owner = ByStatement | ByEntry(kind: Kind, buffer: ColumnBuffer)
  datatype Ownership = Ownership(stmt: SqlStmtHandle, owner: Owner)

  const SQL_NULL_HANDLE: nat := 0

  /** The identity of a SqlHandle object for statements. Its fields are kept per object in Heap. */
  class SqlStmtHandle {
    constructor () { }
  }

  /** The identity of a column buffer, with the fields that never change. */
  class ColumnBuffer {
    const queryName: string
    const sqlType: int

    constructor (queryName: string, sqlType: int)
      ensures this.queryName == queryName && this.sqlType == sqlType
    {
      this.queryName := queryName;
      this.sqlType := sqlType;
    }
  }

  datatype Driver = Driver(
    alive: set<nat>,                           // native statement handles that are allocated
    bound: map<Key, map<nat, ColumnBuffer>>,   // column and parameter bindings
    freed: multiset<nat>)                      // calls of SQLFreeHandle

  datatype Heap = Heap(
    handleOf: map<SqlStmtHandle, nat>,         // the live handle objects and their m_handle
    slots: map<Slot, ColumnBuffer>,            // the slots of their signals
    owners: set<Ownership>,                    // the shared_ptr owners of each
    bufs: set<ColumnBuffer>,                   // the live buffers
    entries: map<EntryKey, Entry>)             // their connection maps

  datatype World = World(driver: Driver, heap: Heap)

  const EMPTY: World := World(Driver({}, map[], multiset{}), Heap(map[], map[], {}, {}, map[]))

  function HandleOf(h: Heap, s: SqlStmtHandle): nat {
    if s in h.handleOf then h.handleOf[s] else SQL_NULL_HANDLE
  }

  function KeyOf(h: Heap, s: SqlStmtHandle, kind: Kind): Key {
    Key(kind, HandleOf(h, s))
  }

  // ---- invariants

  ghost predicate Distinct(h: Heap) {
    forall s <- h.handleOf, t <- h.handleOf ::
      h.handleOf[s] == h.handleOf[t] && h.handleOf[s] != SQL_NULL_HANDLE ==> s == t
  }

  /** Every entry of a live buffer is backed by a slot for that buffer and owns its statement. */
  ghost predicate EntriesOk(h: Heap) {
    forall x <- h.entries ::
      var e := h.entries[x];
      var i := Slot(e.stmt, x.key.kind, e.conn);
      && x.buffer in h.bufs && e.stmt in h.handleOf
      && x.key.handle == h.handleOf[e.stmt] && x.key.handle != SQL_NULL_HANDLE
      && i in h.slots && h.slots[i] == x.buffer
      && Ownership(e.stmt, ByEntry(x.key.kind, x.buffer)) in h.owners
  }

  /** Every slot is the one that an entry of its buffer records. */
  ghost predicate SlotsOk(h: Heap) {
    forall i <- h.slots ::
      var x := EntryKey(h.slots[i], KeyOf(h, i.stmt, i.kind));
      i.stmt in h.handleOf && x in h.entries && h.entries[x] == Entry(i.conn, i.stmt)
  }

  ghost predicate Shared(h: Heap, s: SqlStmtHandle) {
    exists o :: o in h.owners && o.stmt == s
  }

  /** Ownerships are of live statements and, when by a buffer, recorded in it. */
  ghost predicate OwnersOk(h: Heap) {
    forall o <- h.owners :: o.stmt in h.handleOf
      && (o.owner.ByEntry? ==> EntryKey(o.owner.buffer, KeyOf(h, o.stmt, o.owner.kind)) in h.entries)
  }

  /** Nothing lives unowned. */
  ghost predicate AllShared(h: Heap) {
    forall s <- h.handleOf :: Shared(h, s)
  }

  ghost predicate HeapOk(h: Heap) {
    Distinct(h) && EntriesOk(h) && SlotsOk(h) && OwnersOk(h) && AllShared(h)
  }

  /** The handles the library holds, and the statements the driver has bindings for, are allocated. */
  ghost predicate DriverOk(w: World) {
    && SQL_NULL_HANDLE !in w.driver.alive
    && (forall s <- w.heap.handleOf :: w.heap.handleOf[s] != SQL_NULL_HANDLE ==> w.heap.handleOf[s] in w.driver.alive)
    && (forall x <- w.driver.bound :: x.handle in w.driver.alive)
  }

  ghost predicate Inv(w: World) {
    DriverOk(w) && HeapOk(w.heap)
  }

  /** Every buffer the driver may read or write is alive and has an entry for the statement. */
  ghost predicate Tracked(w: World) {
    forall x, n | x in w.driver.bound && n in w.driver.bound[x] :: EntryKey(w.driver.bound[x][n], x) in w.heap.entries
  }

  /** In a consistent heap a buffer has an entry for a statement exactly when that statement has a
      slot for it, and then it has exactly one. */
  lemma OneSlotPerEntry(h: Heap, b: ColumnBuffer, s: SqlStmtHandle, kind: Kind)
    requires HeapOk(h) && HandleOf(h, s) != SQL_NULL_HANDLE
    ensures EntryKey(b, KeyOf(h, s, kind)) in h.entries
       <==> exists i :: i in h.slots && i.stmt == s && i.kind == kind && h.slots[i] == b
    ensures forall i, j | i in h.slots && j in h.slots && i.stmt == j.stmt && i.kind == j.kind && h.slots[i] == h.slots[j] :: i == j
  {
    var x := EntryKey(b, KeyOf(h, s, kind));
    if x in h.entries {
      var i := Slot(h.entries[x].stmt, kind, h.entries[x].conn);
      assert i in h.slots && h.slots[i] == b;
    }
  }

  // ---- a statement handle is allocated

  predicate CanAllocate(w: World, s: SqlStmtHandle, handle: nat) {
    s !in w.heap.handleOf && handle !in w.driver.alive && handle != SQL_NULL_HANDLE
  }

  /** make_shared<SqlStmtHandle>(parent) of an ExecutableStatement, with this driver handle. */
  function Allocated(w: World, s: SqlStmtHandle, handle: nat): World {
    World(w.driver.(alive := w.driver.alive + {handle}),
          w.heap.(handleOf := w.heap.handleOf[s := handle], owners := w.heap.owners + {Ownership(s, ByStatement)}))
  }

  lemma AllocatedKeepsInv(w: World, s: SqlStmtHandle, handle: nat)
    requires Inv(w) && CanAllocate(w, s, handle)
    ensures Inv(Allocated(w, s, handle)) && (Tracked(w) ==> Tracked(Allocated(w, s, handle)))
  {
    var h' := Allocated(w, s, handle).heap;
    MoreOwners(w.heap.(handleOf := h'.handleOf), h', s);
    assert Ownership(s, ByStatement) in h'.owners;
    assert EntriesOk(h');
    assert SlotsOk(h');
    assert OwnersOk(h');
  }

  lemma MoreOwners(h: Heap, h': Heap, s: SqlStmtHandle)
    requires h.owners <= h'.owners
    ensures forall t | t != s && Shared(h, t) :: Shared(h', t)
  {
    forall t | t != s && Shared(h, t) ensures Shared(h', t) {
      var o :| o in h.owners && o.stmt == t;
      assert o in h'.owners;
    }
  }

  // ---- a statement handle is released

  /** SQLFreeHandle has been called once for each of these handles. */
  function HandlesFreed(d: Driver, handles: set<nat>): Driver {
    Driver(d.alive - handles, map x | x in d.bound && x.handle !in handles :: d.bound[x], d.freed + multiset(handles))
  }

  /** The statements without an owner are destroyed: the driver frees their handles and forgets
      their bindings. */
  ghost function Collected(w: World): World {
    var dead := Unshared(w.heap);
    var handles := HandlesOf(w.heap, dead);
    World(HandlesFreed(w.driver, handles),
          w.heap.(handleOf := w.heap.handleOf - dead))
  }

  ghost function Unshared(h: Heap): set<SqlStmtHandle> {
    set s | s in h.handleOf && !Shared(h, s)
  }

  /** The native handles these statements hold. */
  ghost function HandlesOf(h: Heap, ss: set<SqlStmtHandle>): set<nat> {
    set s | s in ss && HandleOf(h, s) != SQL_NULL_HANDLE :: HandleOf(h, s)
  }

  /** Collecting restores the one clause it is for and keeps the others. */
  lemma CollectedKeepsInv(w: World)
    requires DriverOk(w) && Distinct(w.heap) && EntriesOk(w.heap) && SlotsOk(w.heap) && OwnersOk(w.heap)
    ensures Inv(Collected(w))
    ensures Tracked(w) ==> Tracked(Collected(w))
  {
    var w' := Collected(w);
    assert w'.heap.owners == w.heap.owners;
    forall o <- w.heap.owners ensures o.stmt in w'.heap.handleOf {
      assert Shared(w.heap, o.stmt);
    }
    forall s <- w'.heap.handleOf ensures Shared(w'.heap, s) {
      assert Shared(w.heap, s);
      var o :| o in w.heap.owners && o.stmt == s;
      assert o in w'.heap.owners;
    }
  }

  // ---- SqlHandle::Free called by hand

  /** The handle is nulled before the signals fire, so no slot finds its entry and nothing is
      disconnected. */
  function FreedByHand(w: World, s: SqlStmtHandle): World {
    var handle := HandleOf(w.heap, s);
    World(HandlesFreed(w.driver, {handle}),
          w.heap.(handleOf := w.heap.handleOf[s := SQL_NULL_HANDLE]))
  }

  /** No buffer listens to the statement. */
  predicate NoSlots(h: Heap, s: SqlStmtHandle) {
    forall i <- h.slots :: i.stmt != s
  }

  /** Freeing by hand keeps the relation exactly when nothing is bound to the statement. */
  lemma FreedByHandIff(w: World, s: SqlStmtHandle)
    requires Inv(w) && HandleOf(w.heap, s) != SQL_NULL_HANDLE
    ensures Inv(FreedByHand(w, s)) <==> NoSlots(w.heap, s)
    ensures Tracked(w) ==> Tracked(FreedByHand(w, s))
  {
    var h, h' := w.heap, FreedByHand(w, s).heap;
    if i :| i in h.slots && i.stmt == s {
      assert i in h'.slots && KeyOf(h', s, i.kind).handle == SQL_NULL_HANDLE;
    } else {
      forall x <- h.entries ensures h.entries[x].stmt != s {
        assert Slot(h.entries[x].stmt, x.key.kind, h.entries[x].conn) in h.slots;
      }
      MoreOwners(h, h', s);
      assert Shared(h, s) ==> Shared(h', s);
      assert SlotsOk(h');
      assert OwnersOk(h');
    }
  }

  // ---- binding

  function BoundTo(d: Driver, key: Key): map<nat, ColumnBuffer> {
    if key in d.bound then d.bound[key] else map[]
  }

  /** BindColumnImpl and BindParamImpl: the driver binds b as column or parameter nr unless it
      reports an error; only after plain success does the buffer connect a slot, and only when it
      has no entry for the statement yet. */
  function Bound(w: World, b: ColumnBuffer, s: SqlStmtHandle, kind: Kind, nr: nat, ret: SqlReturn, conn: nat): World {
    var key := KeyOf(w.heap, s, kind);
    World(if ret == Error then w.driver
          else w.driver.(bound := w.driver.bound[key := BoundTo(w.driver, key)[nr := b]]),
          if ret != Success || EntryKey(b, key) in w.heap.entries then w.heap
          else Connected(w.heap, b, s, kind, conn))
  }

  function Connected(h: Heap, b: ColumnBuffer, s: SqlStmtHandle, kind: Kind, conn: nat): Heap {
    h.(slots := h.slots[Slot(s, kind, conn) := b],
       owners := h.owners + {Ownership(s, ByEntry(kind, b))},
       entries := h.entries[EntryKey(b, KeyOf(h, s, kind)) := Entry(conn, s)])
  }

  predicate CanConnect(h: Heap, b: ColumnBuffer, s: SqlStmtHandle, kind: Kind, conn: nat) {
    b in h.bufs && HandleOf(h, s) != SQL_NULL_HANDLE && Slot(s, kind, conn) !in h.slots
  }

  lemma ConnectedKeepsHeap(h: Heap, b: ColumnBuffer, s: SqlStmtHandle, kind: Kind, conn: nat)
    requires HeapOk(h) && CanConnect(h, b, s, kind, conn)
    requires EntryKey(b, KeyOf(h, s, kind)) !in h.entries
    ensures HeapOk(Connected(h, b, s, kind, conn))
  {
    var h' := Connected(h, b, s, kind, conn);
    assert EntriesOk(h') by { ConnectedEntries(h, b, s, kind, conn); }
    assert SlotsOk(h') by { ConnectedSlots(h, b, s, kind, conn); }
    assert AllShared(h') by {
      MoreOwners(h, h', s);
      assert Ownership(s, ByEntry(kind, b)) in h'.owners;
    }
  }

  lemma ConnectedEntries(h: Heap, b: ColumnBuffer, s: SqlStmtHandle, kind: Kind, conn: nat)
    requires EntriesOk(h) && CanConnect(h, b, s, kind, conn)
    ensures EntriesOk(Connected(h, b, s, kind, conn))
  {
  }

  lemma ConnectedSlots(h: Heap, b: ColumnBuffer, s: SqlStmtHandle, kind: Kind, conn: nat)
    requires SlotsOk(h) && CanConnect(h, b, s, kind, conn)
    requires EntryKey(b, KeyOf(h, s, kind)) !in h.entries
    ensures SlotsOk(Connected(h, b, s, kind, conn))
  {
  }

  /** Binding keeps the relation whatever the driver returns. The driver's bindings stay tracked
      unless it bound with SQL_SUCCESS_WITH_INFO a buffer that had no entry yet: the source then
      throws and leaves the driver holding a buffer that will not unbind itself. */
  lemma BoundKeepsInv(w: World, b: ColumnBuffer, s: SqlStmtHandle, kind: Kind, nr: nat, ret: SqlReturn, conn: nat)
    requires Inv(w) && CanConnect(w.heap, b, s, kind, conn)
    ensures Inv(Bound(w, b, s, kind, nr, ret, conn))
    ensures Tracked(w) ==> (Tracked(Bound(w, b, s, kind, nr, ret, conn))
       <==> !(ret == SuccessWithInfo && EntryKey(b, KeyOf(w.heap, s, kind)) !in w.heap.entries))
  {
    var key := KeyOf(w.heap, s, kind);
    var w' := Bound(w, b, s, kind, nr, ret, conn);
    if ret == Success && EntryKey(b, key) !in w.heap.entries {
      ConnectedKeepsHeap(w.heap, b, s, kind, conn);
    }
    if ret == SuccessWithInfo {
      assert w'.driver.bound[key][nr] == b;
    }
  }

  // ---- unbinding

  /** The buffers in hit have been notified that statement s unbound this kind: their slots are
      disconnected and their entries and ownerships are gone. */
  ghost function Notified(h: Heap, s: SqlStmtHandle, kind: Kind, hit: set<ColumnBuffer>): Heap {
    var key := KeyOf(h, s, kind);
    h.(slots := (map i | i in h.slots && !(i.stmt == s && i.kind == kind && h.slots[i] in hit) :: h.slots[i]),
       owners := (set o | o in h.owners && !(o.stmt == s && o.owner.ByEntry? && o.owner.kind == kind && o.owner.buffer in hit)),
       entries := (map x | x in h.entries && !(x.key == key && x.buffer in hit) :: h.entries[x]))
  }

  /** The buffers with a slot on this signal. */
  ghost function Listeners(h: Heap, s: SqlStmtHandle, kind: Kind): set<ColumnBuffer> {
    set i | i in h.slots && i.stmt == s && i.kind == kind :: h.slots[i]
  }

  /** Each slot of this signal is the one its buffer's entry records. */
  ghost predicate Answered(h: Heap, s: SqlStmtHandle, kind: Kind) {
    forall i | i in h.slots && i.stmt == s && i.kind == kind ::
      var x := EntryKey(h.slots[i], KeyOf(h, s, kind));
      x in h.entries && h.entries[x] == Entry(i.conn, s)
  }

  /** Nothing of this kind is left on the statement, anywhere. */
  function Unbound(h: Heap, s: SqlStmtHandle, kind: Kind): Heap {
    var key := KeyOf(h, s, kind);
    h.(slots := (map i | i in h.slots && !(i.stmt == s && i.kind == kind) :: h.slots[i]),
       owners := (set o | o in h.owners && !(o.stmt == s && o.owner.ByEntry? && o.owner.kind == kind)),
       entries := (map x | x in h.entries && x.key != key :: h.entries[x]))
  }

  function Forgotten(d: Driver, key: Key): Driver {
    d.(bound := d.bound - {key})
  }

  /** ResetParams or UnbindColumns on a statement that its caller owns; ok is whether SQLFreeStmt succeeded. */
  function AfterFreeStmt(w: World, s: SqlStmtHandle, kind: Kind, ok: bool): World {
    if ok then World(Forgotten(w.driver, KeyOf(w.heap, s, kind)), Unbound(w.heap, s, kind)) else w
  }

  /** In a consistent heap the notifications reach every buffer that has an entry for the
      statement, so unbinding removes exactly the statement's entries of this kind from every buffer. */
  lemma NotifiedIsUnbound(h: Heap, s: SqlStmtHandle, kind: Kind)
    requires HeapOk(h) && HandleOf(h, s) != SQL_NULL_HANDLE
    ensures Answered(h, s, kind)
    ensures Notified(h, s, kind, Listeners(h, s, kind)) == Unbound(h, s, kind)
  {
    var key := KeyOf(h, s, kind);
    forall x | x in h.entries && x.key == key ensures x.buffer in Listeners(h, s, kind) {
      assert Slot(h.entries[x].stmt, kind, h.entries[x].conn) in h.slots;
    }
    forall o | o in h.owners && o.stmt == s && o.owner.ByEntry? && o.owner.kind == kind
      ensures o.owner.buffer in Listeners(h, s, kind)
    {
      assert EntryKey(o.owner.buffer, key) in h.entries;
    }
  }

  lemma UnboundKeepsHeap(h: Heap, s: SqlStmtHandle, kind: Kind)
    requires HeapOk(h) && HandleOf(h, s) != SQL_NULL_HANDLE && Ownership(s, ByStatement) in h.owners
    ensures HeapOk(Unbound(h, s, kind))
  {
    UnboundKeepsShared(h, s, kind);
  }

  lemma UnboundKeepsShared(h: Heap, s: SqlStmtHandle, kind: Kind)
    requires AllShared(h) && Ownership(s, ByStatement) in h.owners
    ensures AllShared(Unbound(h, s, kind))
  {
    var h' := Unbound(h, s, kind);
    forall t <- h.handleOf ensures Shared(h', t) {
      if t == s {
        assert Ownership(s, ByStatement) in h'.owners;
      } else {
        assert Shared(h, t);
        var o :| o in h.owners && o.stmt == t;
        assert o in h'.owners;
      }
    }
  }

  lemma FreeStmtKeepsInv(w: World, s: SqlStmtHandle, kind: Kind, ok: bool)
    requires Inv(w) && HandleOf(w.heap, s) != SQL_NULL_HANDLE && Ownership(s, ByStatement) in w.heap.owners
    ensures Inv(AfterFreeStmt(w, s, kind, ok))
    ensures Tracked(w) ==> Tracked(AfterFreeStmt(w, s, kind, ok))
  {
    if ok {
      UnboundKeepsHeap(w.heap, s, kind);
    }
  }

  // ---- a buffer is destroyed

  ghost function KeysOfBuffer(h: Heap, b: ColumnBuffer): set<Key> {
    set x | x in h.entries && x.buffer == b :: x.key
  }

  /** Halfway through the destructor's loops over b's entries: for the keys in done b's slots are
      disconnected, and where SQLFreeStmt succeeded (unbound) the other buffers have been notified. */
  ghost function Dying(h: Heap, b: ColumnBuffer, done: set<Key>, unbound: set<Key>): Heap {
    h.(slots := (map i | i in h.slots && !(h.slots[i] == b && KeyOf(h, i.stmt, i.kind) in done)
                         && KeyOf(h, i.stmt, i.kind) !in unbound :: h.slots[i]),
       owners := (set o | o in h.owners && !(o.owner.ByEntry? && o.owner.buffer != b && KeyOf(h, o.stmt, o.owner.kind) in unbound)),
       entries := (map x | x in h.entries && !(x.buffer != b && x.key in unbound) :: h.entries[x]))
  }

  /** The maps the destructor iterates over never change under it. */
  lemma DyingKeepsOwnEntries(h: Heap, b: ColumnBuffer, done: set<Key>, unbound: set<Key>)
    ensures KeysOfBuffer(Dying(h, b, done, unbound), b) == KeysOfBuffer(h, b)
    ensures forall x <- h.entries | x.buffer == b ::
              x in Dying(h, b, done, unbound).entries && Dying(h, b, done, unbound).entries[x] == h.entries[x]
  {
    forall key ensures key in KeysOfBuffer(Dying(h, b, done, unbound), b) <==> key in KeysOfBuffer(h, b) {
      assert EntryKey(b, key).key == key;
    }
  }

  function WithoutSlot(h: Heap, i: Slot): Heap {
    h.(slots := h.slots - {i})
  }

  /** One iteration: disconnect b's slot for key, and then notify the others if SQLFreeStmt succeeded. */
  lemma DyingStep(h: Heap, b: ColumnBuffer, done: set<Key>, unbound: set<Key>, key: Key)
    requires HeapOk(h) && unbound <= done && key !in done && EntryKey(b, key) in h.entries
    ensures var e := h.entries[EntryKey(b, key)];
            var h' := WithoutSlot(Dying(h, b, done, unbound), Slot(e.stmt, key.kind, e.conn));
            && h' == Dying(h, b, done + {key}, unbound)
            && Answered(h', e.stmt, key.kind)
            && Notified(h', e.stmt, key.kind, Listeners(h', e.stmt, key.kind)) == Dying(h, b, done + {key}, unbound + {key})
  {
    DyingDisconnected(h, b, done, unbound, key);
    DyingNotified(h, b, done, unbound, key);
    DyingListeners(h, b, done, unbound, key);
    hide HeapOk, Dying, Notified, Listeners, Answered;
  }

  /** The slot of b's entry for key is the only one of b's that this disconnects. */
  lemma DyingDisconnected(h: Heap, b: ColumnBuffer, done: set<Key>, unbound: set<Key>, key: Key)
    requires HeapOk(h) && unbound <= done && key !in done && EntryKey(b, key) in h.entries
    ensures var e := h.entries[EntryKey(b, key)];
            WithoutSlot(Dying(h, b, done, unbound), Slot(e.stmt, key.kind, e.conn)) == Dying(h, b, done + {key}, unbound)
  {
    hide HeapOk;
    OwnSlot(h, b, key);
    var e := h.entries[EntryKey(b, key)];
    assert WithoutSlot(Dying(h, b, done, unbound), Slot(e.stmt, key.kind, e.conn)).slots == Dying(h, b, done + {key}, unbound).slots;
  }

  lemma OwnSlot(h: Heap, b: ColumnBuffer, key: Key)
    requires HeapOk(h) && EntryKey(b, key) in h.entries
    ensures var e := h.entries[EntryKey(b, key)];
            forall i <- h.slots :: h.slots[i] == b && KeyOf(h, i.stmt, i.kind) == key <==> i == Slot(e.stmt, key.kind, e.conn)
  {
    var e := h.entries[EntryKey(b, key)];
    OneSlotPerEntry(h, b, e.stmt, key.kind);
    SlotsOfKey(h, e.stmt, key.kind);
  }

  /** After b has been disconnected, the signal for key reaches the other buffers with such an entry,
      and nobody else. */
  lemma DyingListeners(h: Heap, b: ColumnBuffer, done: set<Key>, unbound: set<Key>, key: Key)
    requires HeapOk(h) && unbound <= done && key !in done && EntryKey(b, key) in h.entries
    ensures var e := h.entries[EntryKey(b, key)];
            var h' := Dying(h, b, done + {key}, unbound);
            && KeyOf(h, e.stmt, key.kind) == key
            && Answered(h', e.stmt, key.kind)
            && b !in Listeners(h', e.stmt, key.kind)
            && (forall x | x in h.entries && x.key == key && x.buffer != b :: x.buffer in Listeners(h', e.stmt, key.kind))
  {
    var e := h.entries[EntryKey(b, key)];
    var h' := Dying(h, b, done + {key}, unbound);
    forall x | x in h.entries && x.key == key && x.buffer != b ensures x.buffer in Listeners(h', e.stmt, key.kind) {
      assert Slot(h.entries[x].stmt, key.kind, h.entries[x].conn) in h'.slots;
    }
  }

  lemma DyingNotified(h: Heap, b: ColumnBuffer, done: set<Key>, unbound: set<Key>, key: Key)
    requires HeapOk(h) && unbound <= done && key !in done && EntryKey(b, key) in h.entries
    ensures var e := h.entries[EntryKey(b, key)];
            var h' := Dying(h, b, done + {key}, unbound);
            && Answered(h', e.stmt, key.kind)
            && Notified(h', e.stmt, key.kind, Listeners(h', e.stmt, key.kind)) == Dying(h, b, done + {key}, unbound + {key})
  {
    hide HeapOk;
    DyingListeners(h, b, done, unbound, key);
    var e := h.entries[EntryKey(b, key)];
    var h' := Dying(h, b, done + {key}, unbound);
    var n := Notified(h', e.stmt, key.kind, Listeners(h', e.stmt, key.kind));
    var d := Dying(h, b, done + {key}, unbound + {key});
    assert n.entries == d.entries;
    assert n.slots == d.slots by { DyingNotifiedSlots(h, b, done, unbound, key); }
    assert n.owners == d.owners by { DyingNotifiedOwners(h, b, done, unbound, key); }
  }

  lemma DyingNotifiedSlots(h: Heap, b: ColumnBuffer, done: set<Key>, unbound: set<Key>, key: Key)
    requires HeapOk(h) && unbound <= done && key !in done && EntryKey(b, key) in h.entries
    ensures var e := h.entries[EntryKey(b, key)];
            var h' := Dying(h, b, done + {key}, unbound);
            Notified(h', e.stmt, key.kind, Listeners(h', e.stmt, key.kind)).slots == Dying(h, b, done + {key}, unbound + {key}).slots
  {
    hide HeapOk, Answered;
    DyingListeners(h, b, done, unbound, key);
    EntryIsAllocated(h, b, key);
    SlotsOfKey(h, h.entries[EntryKey(b, key)].stmt, key.kind);
  }

  lemma EntryIsAllocated(h: Heap, b: ColumnBuffer, key: Key)
    requires HeapOk(h) && EntryKey(b, key) in h.entries
    ensures HandleOf(h, h.entries[EntryKey(b, key)].stmt) != SQL_NULL_HANDLE
  {
  }

  lemma SlotsOfKey(h: Heap, s: SqlStmtHandle, kind: Kind)
    requires HeapOk(h) && HandleOf(h, s) != SQL_NULL_HANDLE
    ensures forall i <- h.slots :: KeyOf(h, i.stmt, i.kind) == KeyOf(h, s, kind) <==> i.stmt == s && i.kind == kind
  {
  }

  lemma DyingNotifiedOwners(h: Heap, b: ColumnBuffer, done: set<Key>, unbound: set<Key>, key: Key)
    requires HeapOk(h) && unbound <= done && key !in done && EntryKey(b, key) in h.entries
    ensures var e := h.entries[EntryKey(b, key)];
            var h' := Dying(h, b, done + {key}, unbound);
            Notified(h', e.stmt, key.kind, Listeners(h', e.stmt, key.kind)).owners == Dying(h, b, done + {key}, unbound + {key}).owners
  {
    DyingListeners(h, b, done, unbound, key);
    var e := h.entries[EntryKey(b, key)];
    forall o | o in h.owners && o.owner.ByEntry? && o.owner.buffer != b && KeyOf(h, o.stmt, o.owner.kind) == key
      ensures o.stmt == e.stmt && EntryKey(o.owner.buffer, key) in h.entries
    {
    }
  }

  /** The buffer and its maps are gone, and the ownerships that the map values held. */
  ghost function Gone(h: Heap, b: ColumnBuffer): Heap {
    h.(owners := (set o | o in h.owners && !(o.owner.ByEntry? && o.owner.buffer == b)),
       bufs := h.bufs - {b},
       entries := (map x | x in h.entries && x.buffer != b :: h.entries[x]))
  }

  /** ~ColumnBindable on b, where SQLFreeStmt failed for the keys in failing. */
  ghost function Destroyed(w: World, b: ColumnBuffer, failing: set<Key>): World {
    var keys := KeysOfBuffer(w.heap, b);
    Collected(World(w.driver.(bound := w.driver.bound - (keys - failing)),
                    Gone(Dying(w.heap, b, keys, keys - failing), b)))
  }

  lemma GoneKeepsHeap(h: Heap, b: ColumnBuffer, unbound: set<Key>)
    requires HeapOk(h) && unbound <= KeysOfBuffer(h, b)
    ensures var h' := Gone(Dying(h, b, KeysOfBuffer(h, b), unbound), b);
            Distinct(h') && EntriesOk(h') && SlotsOk(h') && OwnersOk(h')
  {
    GoneKeepsEntries(h, b, unbound);
    GoneKeepsSlots(h, b, unbound);
  }

  lemma GoneKeepsEntries(h: Heap, b: ColumnBuffer, unbound: set<Key>)
    requires EntriesOk(h)
    ensures EntriesOk(Gone(Dying(h, b, KeysOfBuffer(h, b), unbound), b))
  {
  }

  lemma GoneKeepsSlots(h: Heap, b: ColumnBuffer, unbound: set<Key>)
    requires SlotsOk(h)
    ensures SlotsOk(Gone(Dying(h, b, KeysOfBuffer(h, b), unbound), b))
    ensures forall i | i in Gone(Dying(h, b, KeysOfBuffer(h, b), unbound), b).slots :: h.slots[i] != b
  {
    forall i | i in h.slots && h.slots[i] == b ensures KeyOf(h, i.stmt, i.kind) in KeysOfBuffer(h, b) {
      assert EntryKey(b, KeyOf(h, i.stmt, i.kind)) in h.entries;
    }
  }

  /** Destroying a buffer keeps the relation even when SQLFreeStmt fails. */
  lemma DestroyedKeepsInv(w: World, b: ColumnBuffer, failing: set<Key>)
    requires Inv(w)
    ensures Inv(Destroyed(w, b, failing))
  {
    var keys := KeysOfBuffer(w.heap, b);
    GoneKeepsHeap(w.heap, b, keys - failing);
    CollectedKeepsInv(World(w.driver.(bound := w.driver.bound - (keys - failing)), Gone(Dying(w.heap, b, keys, keys - failing), b)));
  }

  /** Afterwards no slot, entry or ownership mentions the buffer, and every other buffer has lost
      exactly its entries for the statements that were unbound. */
  lemma DestroyedMeaning(w: World, b: ColumnBuffer, failing: set<Key>)
    requires Inv(w)
    ensures var h' := Destroyed(w, b, failing).heap;
            && h'.bufs == w.heap.bufs - {b}
            && (forall i <- h'.slots :: h'.slots[i] != b)
            && (forall o <- h'.owners :: o.owner.ByEntry? ==> o.owner.buffer != b)
            && (forall x :: x in h'.entries <==> x in w.heap.entries && x.buffer != b && !(x.key in KeysOfBuffer(w.heap, b) && x.key !in failing))
            && (forall x <- h'.entries :: h'.entries[x] == w.heap.entries[x])
  {
    GoneKeepsSlots(w.heap, b, KeysOfBuffer(w.heap, b) - failing);
  }

  /** Someone will still own the statement with this handle: not b, nor an entry that is unbound. */
  ghost predicate StaysOwned(w: World, b: ColumnBuffer, failing: set<Key>, handle: nat) {
    exists o :: o in w.heap.owners && HandleOf(w.heap, o.stmt) == handle
      && !(o.owner.ByEntry? && (o.owner.buffer == b || KeyOf(w.heap, o.stmt, o.owner.kind) in KeysOfBuffer(w.heap, b) - failing))
  }

  /** A statement that b was bound to survives b exactly when it stays owned. */
  lemma SurvivesIff(w: World, b: ColumnBuffer, failing: set<Key>, key: Key)
    requires Inv(w) && key in KeysOfBuffer(w.heap, b)
    ensures key.handle in Destroyed(w, b, failing).driver.alive <==> StaysOwned(w, b, failing, key.handle)
  {
    var keys := KeysOfBuffer(w.heap, b);
    var h := Gone(Dying(w.heap, b, keys, keys - failing), b);
    var s := w.heap.entries[EntryKey(b, key)].stmt;
    assert HandleOf(w.heap, s) == key.handle && key.handle in w.driver.alive;
    OwnersLeft(w.heap, b, keys - failing);
    if StaysOwned(w, b, failing, key.handle) {
      var o :| o in w.heap.owners && HandleOf(w.heap, o.stmt) == key.handle
        && !(o.owner.ByEntry? && (o.owner.buffer == b || KeyOf(w.heap, o.stmt, o.owner.kind) in keys - failing));
      assert o in h.owners && o.stmt == s;
      NotDead(w.heap, h, s);
    } else {
      assert !Shared(h, s);
      assert s in Unshared(h) && key.handle in HandlesOf(h, Unshared(h));
    }
  }

  lemma OwnersLeft(h: Heap, b: ColumnBuffer, unbound: set<Key>)
    ensures forall o :: o in Gone(Dying(h, b, KeysOfBuffer(h, b), unbound), b).owners <==>
              o in h.owners && !(o.owner.ByEntry? && (o.owner.buffer == b || KeyOf(h, o.stmt, o.owner.kind) in unbound))
  {
  }

  lemma NotDead(h0: Heap, h: Heap, s: SqlStmtHandle)
    requires Distinct(h0) && h.handleOf == h0.handleOf && HandleOf(h, s) != SQL_NULL_HANDLE && Shared(h, s)
    ensures HandleOf(h, s) !in HandlesOf(h, Unshared(h))
  {
    assert s !in Unshared(h);
  }

  /** The driver's bindings stay tracked exactly when it was bound to b at no statement for which
      SQLFreeStmt failed, or only at statements that nobody but b, and entries that are unbound, own. */
  lemma DestroyedTrackedIff(w: World, b: ColumnBuffer, failing: set<Key>)
    requires Inv(w) && Tracked(w)
    ensures Tracked(Destroyed(w, b, failing))
       <==> forall x, n | x in w.driver.bound && n in w.driver.bound[x] && w.driver.bound[x][n] == b ::
              x !in failing || !StaysOwned(w, b, failing, x.handle)
  {
    forall x, n | x in w.driver.bound && n in w.driver.bound[x] && w.driver.bound[x][n] == b
      ensures x.handle in Destroyed(w, b, failing).driver.alive <==> StaysOwned(w, b, failing, x.handle)
    {
      assert EntryKey(b, x) in w.heap.entries;
      SurvivesIff(w, b, failing, x);
    }
    TrackedWhileAlive(w, b, failing);
    hide Inv, Tracked, Destroyed, StaysOwned;
  }

  lemma TrackedWhileAlive(w: World, b: ColumnBuffer, failing: set<Key>)
    requires Inv(w) && Tracked(w)
    ensures Tracked(Destroyed(w, b, failing))
       <==> forall x, n | x in w.driver.bound && n in w.driver.bound[x] && w.driver.bound[x][n] == b ::
              x !in failing || x.handle !in Destroyed(w, b, failing).driver.alive
  {
    var w' := Destroyed(w, b, failing);
    var keys := KeysOfBuffer(w.heap, b);
    DestroyedMeaning(w, b, failing);
    DestroyedBound(w, b, failing);
    forall x, n | x in w.driver.bound && n in w.driver.bound[x] && w.driver.bound[x][n] == b
      ensures x in keys
    {
      assert EntryKey(b, x) in w.heap.entries;
    }
  }

  /** The driver keeps the bindings of the statements that were not unbound and did not die. */
  lemma DestroyedBound(w: World, b: ColumnBuffer, failing: set<Key>)
    requires Inv(w)
    ensures var d' := Destroyed(w, b, failing).driver;
            && (forall x :: x in d'.bound <==> x in w.driver.bound && !(x in KeysOfBuffer(w.heap, b) && x !in failing) && x.handle in d'.alive)
            && (forall x <- d'.bound :: d'.bound[x] == w.driver.bound[x])
  {
  }

  // ---- collecting one statement after the other

  /** The destructor of one unowned handle object. */
  function FreeOne(w: World, s: SqlStmtHandle): World {
    var handle := HandleOf(w.heap, s);
    World(if handle == SQL_NULL_HANDLE then w.driver else HandlesFreed(w.driver, {handle}),
          w.heap.(handleOf := w.heap.handleOf - {s}))
  }

  /** Freeing one unowned statement is a step of collecting them all. */
  lemma CollectStep(w: World, s: SqlStmtHandle)
    requires Distinct(w.heap) && s in Unshared(w.heap)
    ensures Collected(FreeOne(w, s)) == Collected(w)
  {
    var w1 := FreeOne(w, s);
    forall t ensures Shared(w.heap, t) <==> Shared(w1.heap, t) {
      assert w.heap.owners == w1.heap.owners;
    }
    var dead := Unshared(w.heap);
    assert Unshared(w1.heap) == dead - {s};
    HandlesWithout(w.heap, w1.heap, dead, s);
    if HandleOf(w.heap, s) != SQL_NULL_HANDLE {
      FreedInTurn(w.driver, HandleOf(w.heap, s), HandlesOf(w1.heap, dead - {s}));
    }
    assert w1.heap.handleOf - (dead - {s}) == w.heap.handleOf - dead;
  }

  lemma FreedInTurn(d: Driver, handle: nat, handles: set<nat>)
    requires handle !in handles
    ensures HandlesFreed(HandlesFreed(d, {handle}), handles) == HandlesFreed(d, handles + {handle})
  {
    assert multiset(handles + {handle}) == multiset({handle}) + multiset(handles);
  }

  lemma HandlesWithout(h: Heap, h1: Heap, dead: set<SqlStmtHandle>, s: SqlStmtHandle)
    requires Distinct(h) && s in dead && dead <= h.handleOf.Keys && h1.handleOf == h.handleOf - {s}
    ensures HandleOf(h, s) == SQL_NULL_HANDLE ==> HandlesOf(h1, dead - {s}) == HandlesOf(h, dead)
    ensures HandleOf(h, s) != SQL_NULL_HANDLE ==>
              HandleOf(h, s) !in HandlesOf(h1, dead - {s}) && HandlesOf(h, dead) == HandlesOf(h1, dead - {s}) + {HandleOf(h, s)}
  {
    forall t | t in dead && t != s ensures HandleOf(h1, t) == HandleOf(h, t) { }
    forall k | k in HandlesOf(h, dead) && k != HandleOf(h, s) ensures k in HandlesOf(h1, dead - {s}) {
      var t :| t in dead && HandleOf(h, t) == k;
      assert t in dead - {s} && HandleOf(h1, t) == k;
    }
    forall k | k in HandlesOf(h1, dead - {s}) ensures k in HandlesOf(h, dead) {
      var t :| t in dead - {s} && HandleOf(h1, t) == k && k != SQL_NULL_HANDLE;
      assert HandleOf(h, t) == k;
    }
  }

  lemma CollectedNothing(w: World)
    requires Unshared(w.heap) == {}
    ensures Collected(w) == w
  {
    assert HandlesOf(w.heap, {}) == {};
  }

  /** An ExecutableStatement lets go of its handle object. */
  ghost function Dropped(w: World, s: SqlStmtHandle): World {
    Collected(w.(heap := w.heap.(owners := w.heap.owners - {Ownership(s, ByStatement)})))
  }

  lemma DroppedKeepsInv(w: World, s: SqlStmtHandle)
    requires Inv(w)
    ensures Inv(Dropped(w, s)) && (Tracked(w) ==> Tracked(Dropped(w, s)))
  {
    CollectedKeepsInv(w.(heap := w.heap.(owners := w.heap.owners - {Ownership(s, ByStatement)})));
  }

  // ---- runs

  datatype Op =
    | NewBuffer(b: ColumnBuffer)
    | NewStatement(s: SqlStmtHandle, handle: nat)
    | Bind(b: ColumnBuffer, s: SqlStmtHandle, kind: Kind, nr: nat, ret: SqlReturn, conn: nat)
    | FreeStmt(s: SqlStmtHandle, kind: Kind, ok: bool)
    | FreeByHand(s: SqlStmtHandle)
    | DropStatement(s: SqlStmtHandle)
    | DestroyBuffer(b: ColumnBuffer, failing: set<Key>)

  /** What the source asserts, and what the allocator and the driver guarantee, before each operation; and of
      a Free by hand, that nothing is bound to the handle (FreedByHandIff: otherwise the relation breaks). */
  predicate Enabled(w: World, op: Op) {
    match op
    case NewBuffer(b) => b !in w.heap.bufs
    case NewStatement(s, handle) => CanAllocate(w, s, handle)
    case Bind(b, s, kind, nr, ret, conn) => CanConnect(w.heap, b, s, kind, conn)
    case FreeStmt(s, kind, ok) => HandleOf(w.heap, s) != SQL_NULL_HANDLE && Ownership(s, ByStatement) in w.heap.owners
    case FreeByHand(s) => HandleOf(w.heap, s) != SQL_NULL_HANDLE && NoSlots(w.heap, s)
    case DropStatement(s) => Ownership(s, ByStatement) in w.heap.owners
    case DestroyBuffer(b, failing) => b in w.heap.bufs
  }

  ghost function Step(w: World, op: Op): World {
    match op
    case NewBuffer(b) => w.(heap := w.heap.(bufs := w.heap.bufs + {b}))
    case NewStatement(s, handle) => Allocated(w, s, handle)
    case Bind(b, s, kind, nr, ret, conn) => Bound(w, b, s, kind, nr, ret, conn)
    case FreeStmt(s, kind, ok) => AfterFreeStmt(w, s, kind, ok)
    case FreeByHand(s) => FreedByHand(w, s)
    case DropStatement(s) => Dropped(w, s)
    case DestroyBuffer(b, failing) => Destroyed(w, b, failing)
  }

  /** The two ways in which the driver can be left with a buffer that will not unbind itself. */
  ghost predicate Untracks(w: World, op: Op) {
    match op
    case Bind(b, s, kind, nr, ret, conn) => ret == SuccessWithInfo && EntryKey(b, KeyOf(w.heap, s, kind)) !in w.heap.entries
    case DestroyBuffer(b, failing) =>
      exists x, n :: x in w.driver.bound && n in w.driver.bound[x] && w.driver.bound[x][n] == b
        && x in failing && StaysOwned(w, b, failing, x.handle)
    case _ => false
  }

  lemma StepKeepsInv(w: World, op: Op)
    requires Inv(w) && Enabled(w, op)
    ensures Inv(Step(w, op))
    ensures Tracked(w) ==> (Tracked(Step(w, op)) <==> !Untracks(w, op))
  {
    match op
    case NewBuffer(b) => NewBufferKeepsInv(w, b);
    case NewStatement(s, handle) => AllocatedKeepsInv(w, s, handle);
    case Bind(b, s, kind, nr, ret, conn) => BoundKeepsInv(w, b, s, kind, nr, ret, conn);
    case FreeStmt(s, kind, ok) => FreeStmtKeepsInv(w, s, kind, ok);
    case FreeByHand(s) => FreedByHandIff(w, s);
    case DropStatement(s) => DroppedKeepsInv(w, s);
    case DestroyBuffer(b, failing) =>
      DestroyedKeepsInv(w, b, failing);
      if Tracked(w) { DestroyedTrackedIff(w, b, failing); }
  }

  lemma NewBufferKeepsInv(w: World, b: ColumnBuffer)
    requires Inv(w)
    ensures Inv(Step(w, NewBuffer(b))) && (Tracked(w) ==> Tracked(Step(w, NewBuffer(b))))
  {
    var h' := Step(w, NewBuffer(b)).heap;
    assert AllShared(h') by {
      forall s <- h'.handleOf ensures Shared(h', s) { assert Shared(w.heap, s); }
    }
  }

  ghost function Run(w: World, ops: seq<Op>): World {
    if ops == [] then w else Step(Run(w, ops[..|ops| - 1]), ops[|ops| - 1])
  }

  ghost predicate Runs(w: World, ops: seq<Op>) {
    ops != [] ==> Runs(w, ops[..|ops| - 1]) && Enabled(Run(w, ops[..|ops| - 1]), ops[|ops| - 1])
  }

  /** No operation of the run untracks a binding. */
  ghost predicate Tracking(w: World, ops: seq<Op>) {
    ops != [] ==> Tracking(w, ops[..|ops| - 1]) && !Untracks(Run(w, ops[..|ops| - 1]), ops[|ops| - 1])
  }

  /** In every run from the empty world the relation holds; and unless the driver answered a bind
      with information, or failed to unbind a buffer that was being destroyed, every buffer it is
      bound to is alive and will unbind itself. */
  lemma {:induction false} EveryRunKeepsInv(ops: seq<Op>)
    requires Runs(EMPTY, ops)
    ensures Inv(Run(EMPTY, ops))
    ensures Tracking(EMPTY, ops) ==> Tracked(Run(EMPTY, ops))
  {
    if ops != [] {
      EveryRunKeepsInv(ops[..|ops| - 1]);
      StepKeepsInv(Run(EMPTY, ops[..|ops| - 1]), ops[|ops| - 1]);
    }
  }
}
