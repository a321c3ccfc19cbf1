// The allocation protocol of SqlHandle: environment, connection and statement handles, each sharing the
// ownership of its parent, against a driver that may return anything.
module HandleSpec {
  import opened Options

  datatype HandleType = ENV | DBC | STMT

  const SQL_NULL_HANDLE: nat := 0

  /** A SqlHandle object: m_handle, m_pParentHandle, and whether anyone but a child holds a shared_ptr to it. */
  datatype Obj = Obj(kind: HandleType, handle: nat, parent: Option<nat>, held: bool)

  /** A call of SQLFreeHandle that released a handle, the children it had at that moment, and the handles
      that the driver had refused to release to a destructor by then. */
  datatype Released = Released(handle: nat, children: set<nat>, refused: set<nat>)

  datatype World = World(
    objs: map<nat, Obj>,       // the live objects
    alive: map<nat, nat>,      // the driver's allocated handles, each with its parent
    log: seq<Released>,
    rejected: seq<nat>,        // handles that SQLFreeHandle called invalid
    refused: set<nat>)         // handles for which it returned SQL_ERROR to a destructor

  const EMPTY: World := World(map[], map[], [], [], {})

  function ParentType(kind: HandleType): HandleType {
    if kind == STMT then DBC else ENV
  }

  predicate HasChild(objs: map<nat, Obj>, id: nat) {
    exists c :: c in objs && objs[c].parent == Some(id)
  }

  /** The driver's handles under h. */
  function ChildrenOf(alive: map<nat, nat>, h: nat): set<nat> {
    set c | c in alive && alive[c] == h
  }

  // ---- invariants

  predicate ObjOk(w: World, id: nat)
    requires id in w.objs
  {
    var o := w.objs[id];
    && (if o.kind == ENV then o.parent == None else (o.handle != SQL_NULL_HANDLE <==> o.parent.Some?))
    && (o.handle != SQL_NULL_HANDLE ==> o.handle in w.alive && (o.kind == ENV ==> w.alive[o.handle] == SQL_NULL_HANDLE))
    && (o.parent.Some? ==> o.parent.value in w.objs && w.objs[o.parent.value].kind == ParentType(o.kind))
  }

  /** A handle other than an environment has a parent exactly while it is allocated, and its parent object
      lives; every handle an object holds is allocated and held by no other object. */
  predicate Sound(w: World) {
    SQL_NULL_HANDLE !in w.alive && AllOk(w) && Distinct(w.objs)
  }

  predicate AllOk(w: World) {
    forall id <- w.objs :: ObjOk(w, id)
  }

  predicate Distinct(objs: map<nat, Obj>) {
    forall i <- objs, j <- objs :: objs[i].handle == objs[j].handle != SQL_NULL_HANDLE ==> i == j
  }

  predicate Owned(objs: map<nat, Obj>, id: nat) {
    id in objs ==> objs[id].held || HasChild(objs, id)
  }

  /** ... nothing lives unowned, and no handle is lost but those that were refused. */
  predicate Inv(w: World) {
    Sound(w) && AllOwned(w.objs) && Accounted(w)
  }

  predicate AllOwned(objs: map<nat, Obj>) {
    forall id <- objs :: Owned(objs, id)
  }

  /** The parent of an allocated handle is allocated, and the driver has it as the parent too. */
  predicate ParentsAllocated(w: World) {
    forall id <- w.objs :: w.objs[id].parent.Some? && w.objs[id].handle in w.alive ==>
      && w.objs[id].parent.value in w.objs
      && w.objs[w.objs[id].parent.value].handle != SQL_NULL_HANDLE
      && w.alive[w.objs[id].handle] == w.objs[w.objs[id].parent.value].handle
  }

  predicate HeldBySome(w: World, h: nat) {
    exists id :: id in w.objs && w.objs[id].handle == h
  }

  /** A handle is allocated but held by no object exactly when the driver has refused it to a destructor. */
  predicate Accounted(w: World) {
    && (forall h <- w.alive :: HeldBySome(w, h) || h in w.refused)
    && (forall h <- w.refused :: h in w.alive && !HeldBySome(w, h))
  }

  // ---- allocating

  function NewObject(w: World, id: nat, kind: HandleType): World {
    w.(objs := w.objs[id := Obj(kind, SQL_NULL_HANDLE, None, true)])
  }

  /** The assertions of Allocate. */
  predicate CanAllocate(w: World, id: nat)
    requires id in w.objs
  {
    w.objs[id].handle == SQL_NULL_HANDLE && w.objs[id].parent == None && w.objs[id].kind == ENV
  }

  /** Allocate */
  function Allocated(w: World, id: nat, h: nat): World
    requires id in w.objs
  {
    w.(objs := w.objs[id := w.objs[id].(handle := h)], alive := w.alive[h := SQL_NULL_HANDLE])
  }

  /** The assertions of AllocateWithParent. */
  predicate CanAllocateUnder(w: World, id: nat, parent: nat)
    requires id in w.objs && parent in w.objs
  {
    && w.objs[parent].handle != SQL_NULL_HANDLE
    && w.objs[id].handle == SQL_NULL_HANDLE && w.objs[id].parent == None && w.objs[id].kind != ENV
  }

  /** AllocateWithParent */
  function AllocatedUnder(w: World, id: nat, parent: nat, h: nat): World
    requires id in w.objs && parent in w.objs
  {
    w.(objs := w.objs[id := w.objs[id].(handle := h, parent := Some(parent))], alive := w.alive[h := w.objs[parent].handle])
  }

  // ---- freeing

  /** SQLFreeHandle and what Free makes of its return value. */
  function Freed(w: World, id: nat, ret: FreeReturn): World
    requires id in w.objs
  {
    var h := w.objs[id].handle;
    if ret == FreeError then w
    else
      World(w.objs[id := w.objs[id].(handle := SQL_NULL_HANDLE, parent := None)],
            w.alive - {h},
            if ret == FreeSuccess then w.log + [Released(h, ChildrenOf(w.alive, h), w.refused)] else w.log,
            if ret == FreeSuccess then w.rejected else w.rejected + [h],
            w.refused)
  }

  predicate Unowned(objs: map<nat, Obj>, id: nat) {
    id in objs && !objs[id].held && !HasChild(objs, id)
  }

  /** ~SqlHandle: free if allocated, whatever comes of it, and be gone. */
  function Destroyed(w: World, id: nat, ret: FreeReturn): World
    requires id in w.objs
  {
    var h := w.objs[id].handle;
    var w1 := if h != SQL_NULL_HANDLE then Freed(w, id, ret) else w;
    w1.(objs := w1.objs - {id}, refused := if h != SQL_NULL_HANDLE && ret == FreeError then w1.refused + {h} else w1.refused)
  }

  /** What SQLFreeHandle returns for each object's handle. */
  function RetOf(rets: map<nat, FreeReturn>, id: nat): FreeReturn {
    if id in rets then rets[id] else FreeSuccess
  }

  /** An object without an owner is destroyed, and then its parent if that has lost its last owner. */
  function Collected(w: World, id: nat, rets: map<nat, FreeReturn>): World
    decreases |w.objs|
  {
    if !Unowned(w.objs, id) then w
    else
      var w' := Destroyed(w, id, RetOf(rets, id));
      assert w'.objs.Keys == w.objs.Keys - {id};
      assert |w'.objs.Keys| < |w.objs.Keys|;
      if w.objs[id].parent.Some? then Collected(w', w.objs[id].parent.value, rets) else w'
  }

  /** Free, called by hand: giving up the parent may destroy it. */
  function AfterFree(w: World, id: nat, ret: FreeReturn, rets: map<nat, FreeReturn>): World
    requires id in w.objs
  {
    var w1 := Freed(w, id, ret);
    if ret != FreeError && w.objs[id].parent.Some? then Collected(w1, w.objs[id].parent.value, rets) else w1
  }

  /** The last shared_ptr outside goes. */
  function LetGo(w: World, id: nat): World
    requires id in w.objs
  {
    w.(objs := w.objs[id := w.objs[id].(held := false)])
  }

  function AfterLetGo(w: World, id: nat, rets: map<nat, FreeReturn>): World
    requires id in w.objs
  {
    Collected(LetGo(w, id), id, rets)
  }

  // ---- steps

  datatype Op =
    | New(id: nat, kind: HandleType)
    | Allocate(id: nat, ok: bool, h: nat)
    | AllocateWithParent(id: nat, parent: nat, ok: bool, h: nat)
    | Free(id: nat, ret: FreeReturn, rets: map<nat, FreeReturn>)
    | Release(id: nat, rets: map<nat, FreeReturn>)

  /** What the language and the driver guarantee: objects are referred to while they live, and a handle
      that is handed out is not in use. */
  predicate Enabled(w: World, op: Op) {
    match op
    case New(id, kind) => id !in w.objs
    case Allocate(id, ok, h) => id in w.objs && h != SQL_NULL_HANDLE && h !in w.alive
    case AllocateWithParent(id, parent, ok, h) => id in w.objs && parent in w.objs && w.objs[parent].kind == ParentType(w.objs[id].kind)
                                                  && h != SQL_NULL_HANDLE && h !in w.alive
    case Free(id, ret, rets) => id in w.objs
    case Release(id, rets) => id in w.objs && w.objs[id].held
  }

  /** A failed assertion, or a failed SQLAllocHandle, changes nothing. */
  function Step(w: World, op: Op): World
    requires Enabled(w, op)
  {
    match op
    case New(id, kind) => NewObject(w, id, kind)
    case Allocate(id, ok, h) => if CanAllocate(w, id) && ok then Allocated(w, id, h) else w
    case AllocateWithParent(id, parent, ok, h) =>
      if CanAllocateUnder(w, id, parent) && ok then AllocatedUnder(w, id, parent, h) else w
    case Free(id, ret, rets) => if w.objs[id].handle == SQL_NULL_HANDLE then w else AfterFree(w, id, ret, rets)
    case Release(id, rets) => AfterLetGo(w, id, rets)
  }

  lemma NewKeepsInv(w: World, id: nat, kind: HandleType)
    requires Inv(w) && id !in w.objs
    ensures Inv(NewObject(w, id, kind))
    ensures ParentsAllocated(w) ==> ParentsAllocated(NewObject(w, id, kind))
  {
    var w' := NewObject(w, id, kind);
    NewIsOk(w, id, kind);
    hide AllOk, Distinct, ParentsAllocated, ObjOk;
    KeepsOwned(w.objs, w'.objs, id);
    KeepsAccounted(w, w', SQL_NULL_HANDLE);
    hide Owned, HeldBySome;
  }

  lemma NewIsOk(w: World, id: nat, kind: HandleType)
    requires AllOk(w) && id !in w.objs
    ensures AllOk(NewObject(w, id, kind))
    ensures Distinct(w.objs) ==> Distinct(NewObject(w, id, kind).objs)
    ensures ParentsAllocated(w) ==> ParentsAllocated(NewObject(w, id, kind))
  {
    assert forall j <- w.objs :: ObjOk(w, j) ==> ObjOk(NewObject(w, id, kind), j);
  }

  /** Objects that keep their parents and owners keep being owned. */
  lemma KeepsOwned(objs: map<nat, Obj>, objs': map<nat, Obj>, id: nat)
    requires AllOwned(objs) && objs'.Keys == objs.Keys + {id} && Owned(objs', id)
    requires forall j <- objs :: j in objs' && objs'[j].held == objs[j].held && (objs[j].parent.Some? ==> objs'[j].parent == objs[j].parent)
    ensures AllOwned(objs')
  {
    forall j <- objs ensures Owned(objs', j) {
      assert Owned(objs, j);
      if !objs[j].held {
        var c :| c in objs && objs[c].parent == Some(j);
        assert objs'[c].parent == Some(j);
      }
    }
  }

  /** Objects keep the handles they have, and one may get a new one, h. */
  lemma KeepsAccounted(w: World, w': World, h: nat)
    requires forall j <- w.objs :: j in w'.objs && (w.objs[j].handle != SQL_NULL_HANDLE ==> w'.objs[j].handle == w.objs[j].handle)
    requires forall j <- w'.objs :: w'.objs[j].handle in {SQL_NULL_HANDLE, h} || (j in w.objs && w'.objs[j].handle == w.objs[j].handle)
    requires SQL_NULL_HANDLE !in w.alive && h !in w.alive && w'.refused == w.refused
    requires w.alive.Keys <= w'.alive.Keys <= w.alive.Keys + {h} && (h in w'.alive ==> HeldBySome(w', h))
    ensures Accounted(w) ==> Accounted(w')
  {
    if Accounted(w) {
      forall k <- w'.alive ensures HeldBySome(w', k) || k in w'.refused {
        if k != h && k !in w.refused {
          assert HeldBySome(w, k);
          var j :| j in w.objs && w.objs[j].handle == k;
          assert w'.objs[j].handle == k;
        }
      }
      forall k <- w'.refused ensures !HeldBySome(w', k) {
        if j :| j in w'.objs && w'.objs[j].handle == k {
          assert false;
        }
      }
    }
  }

  lemma AllocatedKeepsInv(w: World, id: nat, h: nat)
    requires Inv(w) && id in w.objs && CanAllocate(w, id) && h != SQL_NULL_HANDLE && h !in w.alive
    ensures Inv(Allocated(w, id, h))
    ensures ParentsAllocated(w) ==> ParentsAllocated(Allocated(w, id, h))
  {
    hide AllOk, Distinct, ParentsAllocated, ObjOk, Owned;
    var w' := Allocated(w, id, h);
    assert w'.objs[id].handle == h;
    assert HeldBySome(w', h);
    AllocatedIsOk(w, id, h);
    OwnedAsBefore(w.objs, w'.objs, id);
    KeepsOwned(w.objs, w'.objs, id);
    KeepsAccounted(w, w', h);
  }

  lemma OwnedAsBefore(objs: map<nat, Obj>, objs': map<nat, Obj>, id: nat)
    requires AllOwned(objs) && id in objs && objs'.Keys == objs.Keys
    requires forall j <- objs :: objs'[j].held == objs[j].held && (objs[j].parent.Some? ==> objs'[j].parent == objs[j].parent)
    ensures Owned(objs', id)
  {
    assert Owned(objs, id);
    if !objs[id].held {
      var c :| c in objs && objs[c].parent == Some(id);
      assert objs'[c].parent == Some(id);
    }
  }

  lemma AllocatedIsOk(w: World, id: nat, h: nat)
    requires Sound(w) && id in w.objs && CanAllocate(w, id) && h != SQL_NULL_HANDLE && h !in w.alive
    ensures Sound(Allocated(w, id, h))
    ensures ParentsAllocated(w) ==> ParentsAllocated(Allocated(w, id, h))
  {
    var w' := Allocated(w, id, h);
    assert ObjOk(w', id);
    forall j <- w.objs ensures ObjOk(w', j) && (w.objs[j].handle != SQL_NULL_HANDLE ==> w.objs[j].handle != h) {
      assert ObjOk(w, j);
    }
  }

  lemma AllocatedUnderKeepsInv(w: World, id: nat, parent: nat, h: nat)
    requires Inv(w) && id in w.objs && parent in w.objs && w.objs[parent].kind == ParentType(w.objs[id].kind)
    requires CanAllocateUnder(w, id, parent) && h != SQL_NULL_HANDLE && h !in w.alive
    ensures Inv(AllocatedUnder(w, id, parent, h))
    ensures ParentsAllocated(w) ==> ParentsAllocated(AllocatedUnder(w, id, parent, h))
  {
    hide AllOk, Distinct, ParentsAllocated, ObjOk, Owned;
    var w' := AllocatedUnder(w, id, parent, h);
    assert w'.objs[id].handle == h;
    assert HeldBySome(w', h);
    AllocatedUnderIsOk(w, id, parent, h);
    OwnedAsBefore(w.objs, w'.objs, id);
    KeepsOwned(w.objs, w'.objs, id);
    KeepsAccounted(w, w', h);
  }

  lemma AllocatedUnderIsOk(w: World, id: nat, parent: nat, h: nat)
    requires Sound(w) && id in w.objs && parent in w.objs && w.objs[parent].kind == ParentType(w.objs[id].kind)
    requires CanAllocateUnder(w, id, parent) && h != SQL_NULL_HANDLE && h !in w.alive
    ensures Sound(AllocatedUnder(w, id, parent, h))
    ensures ParentsAllocated(w) ==> ParentsAllocated(AllocatedUnder(w, id, parent, h))
  {
    hide ParentsAllocated, Distinct;
    AllocatedUnderKeepsParents(w, id, parent, h);
    var w' := AllocatedUnder(w, id, parent, h);
    assert ObjOk(w', id);
    forall j <- w.objs ensures ObjOk(w', j) {
      assert ObjOk(w, j);
    }
  }

  lemma AllocatedUnderKeepsParents(w: World, id: nat, parent: nat, h: nat)
    requires Sound(w) && id in w.objs && parent in w.objs
    requires CanAllocateUnder(w, id, parent) && h != SQL_NULL_HANDLE && h !in w.alive
    ensures Distinct(AllocatedUnder(w, id, parent, h).objs)
    ensures ParentsAllocated(w) ==> ParentsAllocated(AllocatedUnder(w, id, parent, h))
  {
    forall j <- w.objs ensures w.objs[j].handle != SQL_NULL_HANDLE ==> w.objs[j].handle != h {
      assert ObjOk(w, j);
    }
  }

  /** Freeing an allocated handle keeps what there is sound; its parent alone may have lost its last owner. */
  lemma FreedKeepsSound(w: World, id: nat, ret: FreeReturn)
    requires Sound(w) && id in w.objs && w.objs[id].handle != SQL_NULL_HANDLE
    ensures Sound(Freed(w, id, ret))
    ensures forall j <- w.objs | Owned(w.objs, j) && w.objs[id].parent != Some(j) :: Owned(Freed(w, id, ret).objs, j)
  {
    hide Owned;
    FreedKeepsOwned(w, id, ret);
    if ret != FreeError {
      var w' := Freed(w, id, ret);
      forall j <- w.objs ensures ObjOk(w', j) {
        assert ObjOk(w, j) && (j != id && w.objs[j].handle != SQL_NULL_HANDLE ==> w.objs[j].handle != w.objs[id].handle);
      }
    }
  }

  lemma FreedKeepsOwned(w: World, id: nat, ret: FreeReturn)
    requires id in w.objs && w.objs[id].handle != SQL_NULL_HANDLE
    ensures forall j <- w.objs | Owned(w.objs, j) && w.objs[id].parent != Some(j) :: Owned(Freed(w, id, ret).objs, j)
  {
    var w' := Freed(w, id, ret);
    forall j <- w.objs | Owned(w.objs, j) && w.objs[id].parent != Some(j) ensures Owned(w'.objs, j) {
      if !w.objs[j].held {
        var c :| c in w.objs && w.objs[c].parent == Some(j);
        assert w'.objs[c].parent == Some(j);
      }
    }
  }

  /** Destroying an object that no other refers to keeps the others sound. */
  lemma DestroyedKeepsSound(w: World, id: nat, ret: FreeReturn)
    requires Sound(w) && Unowned(w.objs, id)
    ensures Sound(Destroyed(w, id, ret))
    ensures forall j <- w.objs | Owned(w.objs, j) && w.objs[id].parent != Some(j) :: Owned(Destroyed(w, id, ret).objs, j)
  {
    hide Owned;
    if w.objs[id].handle != SQL_NULL_HANDLE { FreedKeepsSound(w, id, ret); }
    DestroyedKeepsOwned(w, id, ret);
  }

  lemma DestroyedKeepsOwned(w: World, id: nat, ret: FreeReturn)
    requires Unowned(w.objs, id)
    ensures forall j <- w.objs | Owned(w.objs, j) && w.objs[id].parent != Some(j) :: Owned(Destroyed(w, id, ret).objs, j)
  {
    var w' := Destroyed(w, id, ret);
    if w.objs[id].handle != SQL_NULL_HANDLE { FreedKeepsOwned(w, id, ret); }
    forall j <- w.objs | Owned(w.objs, j) && w.objs[id].parent != Some(j) && j != id ensures Owned(w'.objs, j) {
      if !w.objs[j].held {
        var c :| c in w.objs && w.objs[c].parent == Some(j);
        assert w'.objs[c].parent == Some(j);
      }
    }
  }

  /** A destructor leaves no child without its parent. */
  lemma DestroyedKeepsParents(w: World, id: nat, ret: FreeReturn)
    requires Sound(w) && ParentsAllocated(w) && Unowned(w.objs, id)
    ensures ParentsAllocated(Destroyed(w, id, ret))
  {
    var w' := Destroyed(w, id, ret);
    forall j <- w'.objs | w'.objs[j].parent.Some? && w'.objs[j].handle in w'.alive
      ensures w'.objs[j].parent.value in w'.objs && w'.objs[w'.objs[j].parent.value].handle != SQL_NULL_HANDLE
      ensures w'.alive[w'.objs[j].handle] == w'.objs[w'.objs[j].parent.value].handle
    {
      assert ObjOk(w, j);
      assert w.objs[j].parent != Some(id);
    }
  }

  /** An object that no other refers to: whatever is still allocated under its handle when the destructor
      frees it has been refused to a destructor before. */
  lemma DestroyedLast(w: World, id: nat, ret: FreeReturn)
    requires Sound(w) && ParentsAllocated(w) && Accounted(w) && Unowned(w.objs, id)
    ensures Accounted(Destroyed(w, id, ret))
    ensures w.objs[id].handle != SQL_NULL_HANDLE ==> ChildrenOf(w.alive, w.objs[id].handle) <= w.refused
    ensures Destroyed(w, id, ret).log ==
              if w.objs[id].handle != SQL_NULL_HANDLE && ret == FreeSuccess
              then w.log + [Released(w.objs[id].handle, ChildrenOf(w.alive, w.objs[id].handle), w.refused)] else w.log
  {
    hide Distinct, HeldBySome, ParentsAllocated, Accounted;
    DestroyedKeepsAccounted(w, id, ret);
    if w.objs[id].handle != SQL_NULL_HANDLE {
      RefusedUnder(w, id);
    }
  }

  lemma DestroyedKeepsAccounted(w: World, id: nat, ret: FreeReturn)
    requires Sound(w) && Accounted(w) && id in w.objs
    ensures Accounted(Destroyed(w, id, ret))
  {
    hide AllOk;
    var w' := Destroyed(w, id, ret);
    HoldsItsOwn(w, id);
    forall k <- w'.alive ensures HeldBySome(w', k) || k in w'.refused {
      if k !in w'.refused {
        assert HeldBySome(w, k);
        var j :| j in w.objs && w.objs[j].handle == k;
        assert j != id && w'.objs[j].handle == k;
      }
    }
    forall k <- w'.refused ensures k in w'.alive && !HeldBySome(w', k) {
      if j :| j in w'.objs && w'.objs[j].handle == k {
        assert false;
      }
    }
  }

  /** What an object holds is allocated, and has not been refused to another. */
  lemma HoldsItsOwn(w: World, id: nat)
    requires Sound(w) && Accounted(w) && id in w.objs
    ensures w.objs[id].handle !in w.refused && (w.objs[id].handle != SQL_NULL_HANDLE ==> w.objs[id].handle in w.alive)
  {
    assert ObjOk(w, id) && HeldBySome(w, w.objs[id].handle);
  }

  lemma FreedKeepsAccounted(w: World, id: nat, ret: FreeReturn)
    requires Sound(w) && Accounted(w) && id in w.objs && w.objs[id].handle != SQL_NULL_HANDLE
    ensures Accounted(Freed(w, id, ret))
  {
    hide AllOk;
    var w' := Freed(w, id, ret);
    HoldsItsOwn(w, id);
    if ret != FreeError {
      forall k <- w'.alive ensures HeldBySome(w', k) || k in w'.refused {
        if k !in w'.refused {
          assert HeldBySome(w, k);
          var j :| j in w.objs && w.objs[j].handle == k;
          assert j != id && w'.objs[j].handle == k;
        }
      }
      forall k <- w'.refused ensures k in w'.alive && !HeldBySome(w', k) {
        if j :| j in w'.objs && w'.objs[j].handle == k {
          assert false;
        }
      }
    }
  }

  /** What is allocated under the handle of an object without children has been refused. */
  lemma RefusedUnder(w: World, id: nat)
    requires Sound(w) && ParentsAllocated(w) && Accounted(w) && id in w.objs && !HasChild(w.objs, id) && w.objs[id].handle != SQL_NULL_HANDLE
    ensures ChildrenOf(w.alive, w.objs[id].handle) <= w.refused
  {
    var h := w.objs[id].handle;
    forall c <- w.alive | c !in w.refused ensures w.alive[c] != h {
      assert HeldBySome(w, c);
      var j :| j in w.objs && w.objs[j].handle == c;
      assert ObjOk(w, j);
      if w.objs[j].parent.Some? {
        assert w.objs[j].parent.value in w.objs && w.objs[j].parent.value != id;
      }
    }
  }

  predicate OthersOwned(objs: map<nat, Obj>, id: nat) {
    forall j <- objs :: j != id ==> Owned(objs, j)
  }

  /** Whatever was allocated under a handle when it was released had been refused by then. */
  predicate ChildrenFirst(log: seq<Released>) {
    forall i | 0 <= i < |log| :: log[i].children <= log[i].refused
  }

  /** The chain of destructors that one lost owner sets off. */
  lemma {:induction false} CollectedKeepsInv(w: World, id: nat, rets: map<nat, FreeReturn>)
    requires Sound(w) && OthersOwned(w.objs, id) && Accounted(w)
    ensures Inv(Collected(w, id, rets))
    ensures ParentsAllocated(w) ==> ParentsAllocated(Collected(w, id, rets))
    ensures ParentsAllocated(w) && ChildrenFirst(w.log) ==> ChildrenFirst(Collected(w, id, rets).log)
    decreases |w.objs|
  {
    hide Sound, ParentsAllocated, Accounted, Unowned, AllOwned, OthersOwned, ChildrenFirst, Destroyed;
    if Unowned(w.objs, id) {
      var ret := RetOf(rets, id);
      DestroyedIsFewer(w, id, ret);
      var w' := Destroyed(w, id, ret);
      DestroyedKeepsSound(w, id, ret);
      DestroyedKeepsOthers(w, id, ret);
      DestroyedKeepsAccounted(w, id, ret);
      if ParentsAllocated(w) {
        DestroyedKeepsParents(w, id, ret);
        if ChildrenFirst(w.log) { DestroyedInOrder(w, id, ret); }
      }
      if w.objs[id].parent.Some? {
        CollectedKeepsInv(w', w.objs[id].parent.value, rets);
      }
    } else {
      NotUnowned(w.objs, id);
    }
  }

  lemma NotUnowned(objs: map<nat, Obj>, id: nat)
    requires OthersOwned(objs, id) && !Unowned(objs, id)
    ensures AllOwned(objs)
  {
    hide HasChild;
  }

  /** Giving up an object destroys it if and only if no other refers to it; its handle is then no longer
      allocated, unless the driver refuses that. Objects that are held stay, with their handles. */
  lemma ReleaseDestroysIff(w: World, id: nat, rets: map<nat, FreeReturn>)
    requires Inv(w) && id in w.objs
    ensures var w', h := AfterLetGo(w, id, rets), w.objs[id].handle;
            && (id in w'.objs <==> HasChild(w.objs, id))
            && (id !in w'.objs && h != SQL_NULL_HANDLE ==> (h in w'.alive <==> RetOf(rets, id) == FreeError))
            && forall j <- w.objs :: j != id && w.objs[j].held ==> j in w'.objs && w'.objs[j] == w.objs[j]
  {
    hide Sound, Destroyed, AllOwned, Freed, HasChild, ParentsAllocated, OthersOwned, HeldBySome, ChildrenFirst, Collected;
    var w1 := LetGo(w, id);
    LetGoKeepsSound(w, id);
    CollectedKeepsInv(w1, id, rets);
    SameChildren(w, id);
    CollectedOnce(w1, id, rets);
    if Unowned(w1.objs, id) {
      var ret := RetOf(rets, id);
      var w2 := Destroyed(w1, id, ret);
      DestroyedIsFewer(w1, id, ret);
      DestroyedAlone(w1, id, ret);
      if w1.objs[id].parent.Some? {
        CollectedLeaves(w2, w1.objs[id].parent.value, rets);
      }
    }
  }

  lemma CollectedOnce(w: World, id: nat, rets: map<nat, FreeReturn>)
    ensures Collected(w, id, rets) ==
              if !Unowned(w.objs, id) then w
              else
                var w' := Destroyed(w, id, RetOf(rets, id));
                if w.objs[id].parent.Some? then Collected(w', w.objs[id].parent.value, rets) else w'
  {
    hide Unowned, Destroyed;
  }

  lemma SameChildren(w: World, id: nat)
    requires id in w.objs
    ensures HasChild(LetGo(w, id).objs, id) <==> HasChild(w.objs, id)
  {
    var objs := LetGo(w, id).objs;
    if c :| c in w.objs && w.objs[c].parent == Some(id) { assert objs[c].parent == Some(id); }
  }

  lemma DestroyedAlone(w: World, id: nat, ret: FreeReturn)
    requires id in w.objs
    ensures var w', h := Destroyed(w, id, ret), w.objs[id].handle;
            && w'.objs == w.objs - {id} && w.refused <= w'.refused && w'.alive.Keys <= w.alive.Keys
            && (h != SQL_NULL_HANDLE ==> if ret == FreeError then h in w'.refused else h !in w'.alive)
  {
  }

  /** The chain of destructors takes no object that is held, and brings nothing back. */
  lemma {:induction false} CollectedLeaves(w: World, id: nat, rets: map<nat, FreeReturn>)
    ensures var w' := Collected(w, id, rets);
            && (forall j <- w'.objs :: j in w.objs && w'.objs[j] == w.objs[j])
            && (forall j <- w.objs :: w.objs[j].held ==> j in w'.objs)
            && w'.alive.Keys <= w.alive.Keys && w.refused <= w'.refused
    decreases |w.objs|
  {
    hide Destroyed, Freed, HasChild, Collected;
    CollectedOnce(w, id, rets);
    if Unowned(w.objs, id) {
      var ret := RetOf(rets, id);
      DestroyedIsFewer(w, id, ret);
      DestroyedAlone(w, id, ret);
      if w.objs[id].parent.Some? {
        CollectedLeaves(Destroyed(w, id, ret), w.objs[id].parent.value, rets);
      }
    }
  }

  lemma DestroyedIsFewer(w: World, id: nat, ret: FreeReturn)
    requires Unowned(w.objs, id)
    ensures id in w.objs && |Destroyed(w, id, ret).objs| < |w.objs|
  {
    assert Destroyed(w, id, ret).objs.Keys == w.objs.Keys - {id};
    assert |Destroyed(w, id, ret).objs.Keys| < |w.objs.Keys|;
  }

  lemma DestroyedKeepsOthers(w: World, id: nat, ret: FreeReturn)
    requires Sound(w) && Unowned(w.objs, id) && OthersOwned(w.objs, id)
    ensures var objs' := Destroyed(w, id, ret).objs;
            if w.objs[id].parent.Some? then OthersOwned(objs', w.objs[id].parent.value) else AllOwned(objs')
  {
    DestroyedKeepsSound(w, id, ret);
    hide Owned, Sound;
  }

  lemma DestroyedInOrder(w: World, id: nat, ret: FreeReturn)
    requires Sound(w) && ParentsAllocated(w) && Accounted(w) && Unowned(w.objs, id) && ChildrenFirst(w.log)
    ensures ChildrenFirst(Destroyed(w, id, ret).log)
  {
    hide Sound, ParentsAllocated, Accounted, Destroyed;
    DestroyedLast(w, id, ret);
  }

  /** Free called by hand keeps parents allocated exactly when nothing was allocated under the handle. */
  lemma FreeKeepsParentsIff(w: World, id: nat, ret: FreeReturn)
    requires Inv(w) && ParentsAllocated(w) && id in w.objs && w.objs[id].handle != SQL_NULL_HANDLE && ret != FreeError
    ensures ParentsAllocated(Freed(w, id, ret)) <==> !HasChild(w.objs, id)
  {
    var w' := Freed(w, id, ret);
    if c :| c in w.objs && w.objs[c].parent == Some(id) {
      assert ObjOk(w, c) && ObjOk(w, id);
      assert c != id;
      assert w'.objs[c].parent.Some? && w'.objs[c].handle in w'.alive;
    } else {
      forall j <- w'.objs | w'.objs[j].parent.Some? && w'.objs[j].handle in w'.alive
        ensures w'.objs[j].parent.value in w'.objs && w'.objs[w'.objs[j].parent.value].handle != SQL_NULL_HANDLE
        ensures w'.alive[w'.objs[j].handle] == w'.objs[w'.objs[j].parent.value].handle
      {
        assert ObjOk(w, j);
        assert w.objs[j].parent != Some(id);
      }
    }
  }

  /** Free whose SQLFreeHandle returns SQL_ERROR changes nothing; otherwise the object ends up without
      handle and parent. */
  lemma FreeMeans(w: World, id: nat, ret: FreeReturn)
    requires Sound(w) && id in w.objs && w.objs[id].handle != SQL_NULL_HANDLE
    ensures ret == FreeError ==> Freed(w, id, ret) == w
    ensures ret != FreeError ==> Freed(w, id, ret).objs[id] == w.objs[id].(handle := SQL_NULL_HANDLE, parent := None)
                                 && Freed(w, id, ret).alive.Keys == w.alive.Keys - {w.objs[id].handle}
    ensures w.objs[id].handle in w.alive
  {
    assert ObjOk(w, id);
  }

  /** A Free by hand that takes the handle away under a child's. */
  predicate Orphans(w: World, op: Op) {
    op.Free? && op.id in w.objs && w.objs[op.id].handle != SQL_NULL_HANDLE && op.ret != FreeError && HasChild(w.objs, op.id)
  }

  lemma StepKeepsInv(w: World, op: Op)
    requires Inv(w) && Enabled(w, op)
    ensures Inv(Step(w, op))
    ensures ParentsAllocated(w) && !Orphans(w, op) ==> ParentsAllocated(Step(w, op))
    ensures ParentsAllocated(w) && !Orphans(w, op) && ChildrenFirst(w.log) ==> ChildrenFirst(Step(w, op).log)
  {
    hide Inv, ParentsAllocated, ChildrenFirst, AfterFree, AfterLetGo, HasChild;
    match op
    case New(id, kind) => NewKeepsInv(w, id, kind);
    case Allocate(id, ok, h) => if CanAllocate(w, id) && ok { AllocatedKeepsInv(w, id, h); }
    case AllocateWithParent(id, parent, ok, h) => if CanAllocateUnder(w, id, parent) && ok { AllocatedUnderKeepsInv(w, id, parent, h); }
    case Free(id, ret, rets) => if w.objs[id].handle != SQL_NULL_HANDLE { FreeKeepsInv(w, id, ret, rets); }
    case Release(id, rets) => ReleaseKeepsInv(w, id, rets);
  }

  lemma FreeKeepsInv(w: World, id: nat, ret: FreeReturn, rets: map<nat, FreeReturn>)
    requires Inv(w) && id in w.objs && w.objs[id].handle != SQL_NULL_HANDLE
    ensures Inv(AfterFree(w, id, ret, rets))
    ensures ParentsAllocated(w) && (ret == FreeError || !HasChild(w.objs, id)) ==> ParentsAllocated(AfterFree(w, id, ret, rets))
    ensures ParentsAllocated(w) && (ret == FreeError || !HasChild(w.objs, id)) && ChildrenFirst(w.log) ==>
              ChildrenFirst(AfterFree(w, id, ret, rets).log)
  {
    hide Sound, Accounted, HasChild, Owned, ParentsAllocated, ChildrenFirst, Collected;
    if ret != FreeError {
      var w1 := Freed(w, id, ret);
      FreedKeepsSound(w, id, ret);
      FreedKeepsAccounted(w, id, ret);
      FreedKeepsOthers(w, id, ret);
      if ParentsAllocated(w) && !HasChild(w.objs, id) {
        FreeKeepsParentsIff(w, id, ret);
        RefusedUnder(w, id);
        if ChildrenFirst(w.log) { FreedInOrder(w, id, ret); }
      }
      if w.objs[id].parent.Some? {
        CollectedKeepsInv(w1, w.objs[id].parent.value, rets);
      }
    }
  }

  lemma FreedKeepsOthers(w: World, id: nat, ret: FreeReturn)
    requires Inv(w) && id in w.objs && w.objs[id].handle != SQL_NULL_HANDLE && ret != FreeError
    ensures var objs' := Freed(w, id, ret).objs;
            if w.objs[id].parent.Some? then OthersOwned(objs', w.objs[id].parent.value) else AllOwned(objs')
  {
    hide Owned, Sound, Accounted;
    FreedKeepsSound(w, id, ret);
  }

  lemma FreedInOrder(w: World, id: nat, ret: FreeReturn)
    requires id in w.objs && ChildrenOf(w.alive, w.objs[id].handle) <= w.refused && ChildrenFirst(w.log)
    ensures ChildrenFirst(Freed(w, id, ret).log)
  {
    hide ChildrenOf;
  }

  lemma ReleaseKeepsInv(w: World, id: nat, rets: map<nat, FreeReturn>)
    requires Inv(w) && id in w.objs
    ensures Inv(AfterLetGo(w, id, rets))
    ensures ParentsAllocated(w) ==> ParentsAllocated(AfterLetGo(w, id, rets))
    ensures ParentsAllocated(w) && ChildrenFirst(w.log) ==> ChildrenFirst(AfterLetGo(w, id, rets).log)
  {
    hide Inv, Sound, Accounted, ObjOk, HasChild, ParentsAllocated, ChildrenFirst, LetGo;
    LetGoKeepsSound(w, id);
    CollectedKeepsInv(LetGo(w, id), id, rets);
  }

  lemma LetGoKeepsSound(w: World, id: nat)
    requires Inv(w) && id in w.objs
    ensures Sound(LetGo(w, id)) && OthersOwned(LetGo(w, id).objs, id)
    ensures ParentsAllocated(w) ==> ParentsAllocated(LetGo(w, id))
    ensures Accounted(LetGo(w, id))
    ensures LetGo(w, id).log == w.log
  {
    hide AllOk, Distinct, ParentsAllocated, ObjOk, HeldBySome, Accounted;
    LetGoIsOk(w, id);
    LetGoOwned(w, id);
    KeepsAccounted(w, LetGo(w, id), SQL_NULL_HANDLE);
  }

  lemma LetGoOwned(w: World, id: nat)
    requires Inv(w) && id in w.objs
    ensures OthersOwned(LetGo(w, id).objs, id)
  {
    hide Sound, Accounted, ChildrenFirst;
    var w' := LetGo(w, id);
    forall j <- w'.objs | j != id ensures Owned(w'.objs, j) {
      assert Owned(w.objs, j);
      if !w.objs[j].held {
        var c :| c in w.objs && w.objs[c].parent == Some(j);
        assert w'.objs[c].parent == Some(j);
      }
    }
  }

  lemma LetGoIsOk(w: World, id: nat)
    requires Sound(w) && id in w.objs
    ensures Sound(LetGo(w, id))
    ensures ParentsAllocated(w) ==> ParentsAllocated(LetGo(w, id))
  {
    forall j <- w.objs ensures ObjOk(LetGo(w, id), j) {
      assert ObjOk(w, j);
    }
  }

  // ---- no handle is released twice

  function Releases(log: seq<Released>): multiset<nat> {
    if log == [] then multiset{} else Releases(log[..|log| - 1]) + multiset{log[|log| - 1].handle}
  }

  /** The handles that are allocated, have been released, and have been rejected as invalid. */
  function Handles(w: World): multiset<nat> {
    multiset(w.alive.Keys) + Releases(w.log) + multiset(w.rejected)
  }

  lemma FreedHandles(w: World, id: nat, ret: FreeReturn)
    requires id in w.objs && w.objs[id].handle in w.alive
    ensures Handles(Freed(w, id, ret)) == Handles(w)
  {
    var h := w.objs[id].handle;
    if ret != FreeError {
      assert (w.alive - {h}).Keys == w.alive.Keys - {h};
      var r := Released(h, ChildrenOf(w.alive, h), w.refused);
      assert (w.log + [r])[..|w.log|] == w.log;
      assert multiset(w.alive.Keys) == multiset(w.alive.Keys - {h}) + multiset{h};
      hide ChildrenOf;
    }
  }

  lemma {:induction false} CollectedHandles(w: World, id: nat, rets: map<nat, FreeReturn>)
    requires Sound(w)
    ensures Handles(Collected(w, id, rets)) == Handles(w)
    decreases |w.objs|
  {
    hide Sound, Handles, Unowned, Destroyed;
    if Unowned(w.objs, id) {
      var ret := RetOf(rets, id);
      DestroyedIsFewer(w, id, ret);
      DestroyedKeepsSound(w, id, ret);
      DestroyedHandles(w, id, ret);
      if w.objs[id].parent.Some? {
        CollectedHandles(Destroyed(w, id, ret), w.objs[id].parent.value, rets);
      }
    }
  }

  lemma DestroyedHandles(w: World, id: nat, ret: FreeReturn)
    requires Sound(w) && id in w.objs
    ensures Handles(Destroyed(w, id, ret)) == Handles(w)
  {
    if w.objs[id].handle != SQL_NULL_HANDLE {
      assert ObjOk(w, id);
      FreedHandles(w, id, ret);
    }
    hide Freed, Sound;
  }

  /** The handle that this step has handed out. */
  function HandedOut(w: World, op: Op): multiset<nat>
    requires Enabled(w, op)
  {
    match op
    case Allocate(id, ok, h) => if CanAllocate(w, id) && ok then multiset{h} else multiset{}
    case AllocateWithParent(id, parent, ok, h) => if CanAllocateUnder(w, id, parent) && ok then multiset{h} else multiset{}
    case _ => multiset{}
  }

  /** A handle that is handed out is allocated, until it is released or rejected, once. */
  lemma StepHandles(w: World, op: Op)
    requires Inv(w) && Enabled(w, op)
    ensures Handles(Step(w, op)) == Handles(w) + HandedOut(w, op)
  {
    hide Inv, Handles, CanAllocate, CanAllocateUnder, AfterFree, AfterLetGo, Allocated, AllocatedUnder;
    match op
    case New(id, kind) => NewHandles(w, id, kind);
    case Allocate(id, ok, h) => AllocatedHandles(w, id, h);
    case AllocateWithParent(id, parent, ok, h) => AllocatedUnderHandles(w, id, parent, h);
    case Free(id, ret, rets) => if w.objs[id].handle != SQL_NULL_HANDLE { FreeHandles(w, id, ret, rets); }
    case Release(id, rets) => ReleaseHandles(w, id, rets);
  }

  lemma NewHandles(w: World, id: nat, kind: HandleType)
    ensures Handles(NewObject(w, id, kind)) == Handles(w)
  {
  }

  lemma AllocatedHandles(w: World, id: nat, h: nat)
    requires id in w.objs && h !in w.alive
    ensures Handles(Allocated(w, id, h)) == Handles(w) + multiset{h}
  {
    MoreHandles(w, h, SQL_NULL_HANDLE);
  }

  lemma AllocatedUnderHandles(w: World, id: nat, parent: nat, h: nat)
    requires id in w.objs && parent in w.objs && h !in w.alive
    ensures Handles(AllocatedUnder(w, id, parent, h)) == Handles(w) + multiset{h}
  {
    MoreHandles(w, h, w.objs[parent].handle);
  }

  lemma FreeHandles(w: World, id: nat, ret: FreeReturn, rets: map<nat, FreeReturn>)
    requires Inv(w) && id in w.objs && w.objs[id].handle != SQL_NULL_HANDLE
    ensures Handles(AfterFree(w, id, ret, rets)) == Handles(w)
  {
    hide ObjOk, Distinct, AllOwned, Handles, Collected, Freed;
    FreeMeans(w, id, ret);
    FreedHandles(w, id, ret);
    FreedKeepsSound(w, id, ret);
    if w.objs[id].parent.Some? { CollectedHandles(Freed(w, id, ret), w.objs[id].parent.value, rets); }
  }

  lemma ReleaseHandles(w: World, id: nat, rets: map<nat, FreeReturn>)
    requires Inv(w) && id in w.objs
    ensures Handles(AfterLetGo(w, id, rets)) == Handles(w)
  {
    hide Inv, Sound, Collected;
    LetGoKeepsSound(w, id);
    CollectedHandles(LetGo(w, id), id, rets);
  }

  lemma MoreHandles(w: World, h: nat, parent: nat)
    requires h !in w.alive
    ensures multiset(w.alive[h := parent].Keys) == multiset(w.alive.Keys) + multiset{h}
  {
    assert w.alive[h := parent].Keys == w.alive.Keys + {h};
  }

  // ---- runs

  predicate Runs(w: World, ops: seq<Op>)
    decreases |ops|, 0
  {
    ops != [] ==> Runs(w, ops[..|ops| - 1]) && Enabled(Run(w, ops[..|ops| - 1]), ops[|ops| - 1])
  }

  function Run(w: World, ops: seq<Op>): World
    requires Runs(w, ops)
    decreases |ops|, 1
  {
    if ops == [] then w else Step(Run(w, ops[..|ops| - 1]), ops[|ops| - 1])
  }

  function AllHandedOut(w: World, ops: seq<Op>): multiset<nat>
    requires Runs(w, ops)
  {
    if ops == [] then multiset{} else AllHandedOut(w, ops[..|ops| - 1]) + HandedOut(Run(w, ops[..|ops| - 1]), ops[|ops| - 1])
  }

  /** No Free by hand of the run orphans a handle. */
  predicate Orderly(w: World, ops: seq<Op>)
    requires Runs(w, ops)
  {
    ops != [] ==> Orderly(w, ops[..|ops| - 1]) && !Orphans(Run(w, ops[..|ops| - 1]), ops[|ops| - 1])
  }

  lemma NothingYet()
    ensures Inv(EMPTY) && ParentsAllocated(EMPTY) && ChildrenFirst(EMPTY.log) && Handles(EMPTY) == multiset{}
  {
  }

  /** In every run, whatever the driver returns: a handle other than an environment has a parent exactly
      while it is allocated; a handle is allocated exactly while one object holds it, or once it has been
      refused to a destructor; and each handle that was handed out is still allocated, released or
      rejected, and only one of the three, once. Unless a Free by hand orphans a handle, parents stay
      allocated as long as their children, and a handle is released while another is allocated under it
      only if that one's own release has been refused before. */
  lemma {:induction false} EveryRunKeepsInv(ops: seq<Op>)
    requires Runs(EMPTY, ops)
    ensures Inv(Run(EMPTY, ops))
    ensures Handles(Run(EMPTY, ops)) == AllHandedOut(EMPTY, ops)
    ensures Orderly(EMPTY, ops) ==> ParentsAllocated(Run(EMPTY, ops)) && ChildrenFirst(Run(EMPTY, ops).log)
  {
    hide Inv, ParentsAllocated, ChildrenFirst, Step, Handles, HandedOut, Orphans;
    if ops == [] {
      NothingYet();
    } else {
      var before, op := ops[..|ops| - 1], ops[|ops| - 1];
      EveryRunKeepsInv(before);
      StepKeepsInv(Run(EMPTY, before), op);
      StepHandles(Run(EMPTY, before), op);
    }
  }

  // ---- when the driver refuses no release

  predicate NoneRefused(rets: map<nat, FreeReturn>) {
    forall id <- rets :: rets[id] != FreeError
  }

  /** No destructor of the run meets SQL_ERROR. */
  predicate NeverRefused(ops: seq<Op>) {
    forall i | 0 <= i < |ops| :: ops[i].Release? || ops[i].Free? ==> NoneRefused(ops[i].rets)
  }

  predicate Unrefused(w: World) {
    w.refused == {} && forall i | 0 <= i < |w.log| :: w.log[i].refused == {}
  }

  lemma {:induction false} CollectedUnrefused(w: World, id: nat, rets: map<nat, FreeReturn>)
    requires Unrefused(w) && NoneRefused(rets)
    ensures Unrefused(Collected(w, id, rets))
    decreases |w.objs|
  {
    hide Unowned, Unrefused, Destroyed, NoneRefused;
    if Unowned(w.objs, id) {
      DestroyedIsFewer(w, id, RetOf(rets, id));
      DestroyedUnrefused(w, id, rets);
      if w.objs[id].parent.Some? {
        CollectedUnrefused(Destroyed(w, id, RetOf(rets, id)), w.objs[id].parent.value, rets);
      }
    }
  }

  lemma DestroyedUnrefused(w: World, id: nat, rets: map<nat, FreeReturn>)
    requires Unrefused(w) && NoneRefused(rets) && id in w.objs
    ensures Unrefused(Destroyed(w, id, RetOf(rets, id)))
  {
    hide ChildrenOf;
  }

  lemma StepUnrefused(w: World, op: Op)
    requires Unrefused(w) && Enabled(w, op) && (op.Release? || op.Free? ==> NoneRefused(op.rets))
    ensures Unrefused(Step(w, op))
  {
    hide Collected, ChildrenOf, NoneRefused;
    match op
    case Free(id, ret, rets) =>
      if w.objs[id].handle != SQL_NULL_HANDLE && ret != FreeError && w.objs[id].parent.Some? {
        CollectedUnrefused(Freed(w, id, ret), w.objs[id].parent.value, rets);
      }
    case Release(id, rets) => CollectedUnrefused(LetGo(w, id), id, rets);
    case _ =>
  }

  /** When no destructor is refused either, the objects hold all that is allocated, and every handle is
      released after those under it. */
  lemma {:induction false} UnrefusedRun(ops: seq<Op>)
    requires Runs(EMPTY, ops) && NeverRefused(ops)
    ensures forall h <- Run(EMPTY, ops).alive :: HeldBySome(Run(EMPTY, ops), h)
    ensures Orderly(EMPTY, ops) ==> forall r <- Run(EMPTY, ops).log :: r.children == {}
  {
    RunUnrefused(ops);
    EveryRunKeepsInv(ops);
    hide Orderly, Runs, Run, Sound, AllOwned, ParentsAllocated;
  }

  lemma {:induction false} RunUnrefused(ops: seq<Op>)
    requires Runs(EMPTY, ops) && NeverRefused(ops)
    ensures Unrefused(Run(EMPTY, ops))
  {
    hide Unrefused, NoneRefused, Step;
    if ops == [] {
      UnrefusedYet();
    } else {
      var before := ops[..|ops| - 1];
      assert NeverRefused(before);
      RunUnrefused(before);
      StepUnrefused(Run(EMPTY, before), ops[|ops| - 1]);
    }
  }

  lemma UnrefusedYet()
    ensures Unrefused(EMPTY)
  {
  }

  // ---- when it does

  /** A run without Free by hand that leads to w. */
  predicate LeadsTo(ops: seq<Op>, w: World) {
    Runs(EMPTY, ops) && Orderly(EMPTY, ops) && Run(EMPTY, ops) == w && forall op <- ops :: !op.Free?
  }

  lemma OneMore(ops: seq<Op>, w: World, op: Op)
    requires LeadsTo(ops, w) && Enabled(w, op) && !op.Free?
    ensures LeadsTo(ops + [op], Step(w, op))
  {
    assert (ops + [op])[..|ops|] == ops;
    hide Step, Enabled;
  }

  function Connected(held: bool): World {
    World(map[0 := Obj(ENV, 1, None, true), 1 := Obj(DBC, 2, Some(0), true), 2 := Obj(STMT, 3, Some(1), held)],
          map[1 := 0, 2 := 1, 3 := 2], [], [], {})
  }

  /** An environment, a connection and a statement, each under the other. */
  lemma Connect() returns (ops: seq<Op>)
    ensures LeadsTo(ops, Connected(true))
  {
    hide LeadsTo, HasChild, AfterFree, AfterLetGo;
    NothingDone();
    var w := EMPTY;
    ops := [];
    OneMore(ops, w, New(0, ENV));
    ops, w := ops + [New(0, ENV)], Step(w, New(0, ENV));
    OneMore(ops, w, Allocate(0, true, 1));
    ops, w := ops + [Allocate(0, true, 1)], Step(w, Allocate(0, true, 1));
    OneMore(ops, w, New(1, DBC));
    ops, w := ops + [New(1, DBC)], Step(w, New(1, DBC));
    OneMore(ops, w, AllocateWithParent(1, 0, true, 2));
    ops, w := ops + [AllocateWithParent(1, 0, true, 2)], Step(w, AllocateWithParent(1, 0, true, 2));
    OneMore(ops, w, New(2, STMT));
    ops, w := ops + [New(2, STMT)], Step(w, New(2, STMT));
    OneMore(ops, w, AllocateWithParent(2, 1, true, 3));
    ops, w := ops + [AllocateWithParent(2, 1, true, 3)], Step(w, AllocateWithParent(2, 1, true, 3));
    assert w == Connected(true);
  }

  lemma NothingDone()
    ensures LeadsTo([], EMPTY)
  {
  }

  /** The statement's release is refused. */
  const REFUSED: World := World(map[0 := Obj(ENV, 1, None, true), 1 := Obj(DBC, 2, Some(0), true)], map[1 := 0, 2 := 1, 3 := 2], [], [], {3})

  /** Then the connection's succeeds. */
  const OUTLIVED: World := World(map[0 := Obj(ENV, 1, None, true)], map[1 := 0, 3 := 2], [Released(2, {3}, {3})], [], {3})

  lemma ReleaseRefused()
    ensures Step(Connected(true), Release(2, map[2 := FreeError])) == REFUSED
  {
    var w, rets := Connected(false), map[2 := FreeError];
    assert LetGo(Connected(true), 2) == w;
    assert Unowned(w.objs, 2);
    assert Destroyed(w, 2, FreeError) == REFUSED;
    assert !Unowned(REFUSED.objs, 1);
    assert Collected(REFUSED, 1, rets) == REFUSED;
  }

  lemma ReleaseSucceeds()
    ensures Step(REFUSED, Release(1, map[])) == OUTLIVED
  {
    var w := REFUSED.(objs := map[0 := Obj(ENV, 1, None, true), 1 := Obj(DBC, 2, Some(0), false)]);
    assert LetGo(REFUSED, 1) == w;
    assert Unowned(w.objs, 1);
    assert ChildrenOf(w.alive, 2) == {3};
    assert Destroyed(w, 1, FreeSuccess) == OUTLIVED;
    assert !Unowned(OUTLIVED.objs, 0);
    assert Collected(OUTLIVED, 0, map[]) == OUTLIVED;
  }

  /** A statement whose release is refused outlives its connection: without any Free by hand, the
      connection's handle is released while the statement's is still allocated under it. */
  lemma StatementOutlivesConnection() returns (ops: seq<Op>)
    ensures Runs(EMPTY, ops) && Orderly(EMPTY, ops) && forall op <- ops :: !op.Free?
    ensures Run(EMPTY, ops).log == [Released(2, {3}, {3})] && Run(EMPTY, ops).alive.Keys == {1, 3}
  {
    hide Step, Runs, Run, Orderly;
    ops := Connect();
    ReleaseRefused();
    ReleaseSucceeds();
    OneMore(ops, Connected(true), Release(2, map[2 := FreeError]));
    ops := ops + [Release(2, map[2 := FreeError])];
    OneMore(ops, REFUSED, Release(1, map[]));
    ops := ops + [Release(1, map[])];
  }
}
