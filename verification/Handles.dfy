// SqlHandle, imperatively: the objects' fields in one memory, a method per member function.
module Handles {
  import opened Options
  import opened HandleSpec

  class HandleMemory {
    var objs: map<nat, Obj>
    var alive: map<nat, nat>
    var log: seq<Released>
    var rejected: seq<nat>
    var refused: set<nat>

    ghost function View(): World
      reads this
    {
      World(objs, alive, log, rejected, refused)
    }

    constructor ()
      ensures View() == EMPTY
    {
      objs, alive, log, rejected, refused := map[], map[], [], [], {};
    }

    method New(id: nat, kind: HandleType)
      requires id !in objs
      modifies this`objs
      ensures View() == Step(old(View()), Op.New(id, kind))
    {
      objs := objs[id := Obj(kind, SQL_NULL_HANDLE, None, true)];
    }

    method Allocate(id: nat, succeeds: bool, h: nat) returns (ok: bool)
      requires Enabled(View(), Op.Allocate(id, succeeds, h))
      modifies this`objs, this`alive
      ensures View() == Step(old(View()), Op.Allocate(id, succeeds, h))
      ensures ok == (CanAllocate(old(View()), id) && succeeds)
    {
      var o := objs[id];
      if o.handle != SQL_NULL_HANDLE || o.parent.Some? { return false; }
      if o.kind != ENV { return false; }
      if !succeeds { return false; }
      alive := alive[h := SQL_NULL_HANDLE];
      objs := objs[id := o.(handle := h)];
      ok := true;
    }

    method AllocateWithParent(id: nat, parent: nat, succeeds: bool, h: nat) returns (ok: bool)
      requires Enabled(View(), Op.AllocateWithParent(id, parent, succeeds, h))
      modifies this`objs, this`alive
      ensures View() == Step(old(View()), Op.AllocateWithParent(id, parent, succeeds, h))
      ensures ok == (CanAllocateUnder(old(View()), id, parent) && succeeds)
    {
      if objs[parent].handle == SQL_NULL_HANDLE { return false; }
      var o := objs[id];
      if o.handle != SQL_NULL_HANDLE || o.parent.Some? { return false; }
      if o.kind == ENV { return false; }
      if !succeeds { return false; }
      alive := alive[h := objs[parent].handle];
      objs := objs[id := o.(handle := h, parent := Some(parent))];
      ok := true;
    }

    /** SQLFreeHandle. A handle that is invalid is not the driver's any more. */
    method SQLFreeHandle(h: nat, ret: FreeReturn)
      modifies this`alive, this`log, this`rejected
      ensures ret == FreeError ==> View() == old(View())
      ensures ret != FreeError ==> alive == old(alive) - {h}
      ensures ret == FreeSuccess ==> log == old(log) + [Released(h, ChildrenOf(old(alive), h), refused)] && rejected == old(rejected)
      ensures ret == FreeInvalidHandle ==> rejected == old(rejected) + [h] && log == old(log)
    {
      match ret {
        case FreeError =>
        case FreeSuccess =>
          log := log + [Released(h, ChildrenOf(alive, h), refused)];
          alive := alive - {h};
        case FreeInvalidHandle =>
          rejected := rejected + [h];
          alive := alive - {h};
      }
    }

    /** Free up to the release of the parent, which it returns. */
    method FreeHandle(id: nat, ret: FreeReturn) returns (parent: Option<nat>)
      requires id in objs
      modifies this
      ensures View() == Freed(old(View()), id, ret)
      ensures parent == if ret == FreeError then None else old(objs)[id].parent
    {
      var o := objs[id];
      SQLFreeHandle(o.handle, ret);
      if ret == FreeError { return None; }
      parent := o.parent;
      objs := objs[id := o.(handle := SQL_NULL_HANDLE, parent := None)];
    }

    /** Free: an exception unless SQLFreeHandle succeeds. */
    method Free(id: nat, ret: FreeReturn, rets: map<nat, FreeReturn>) returns (ok: bool)
      requires id in objs
      modifies this
      ensures View() == Step(old(View()), Op.Free(id, ret, rets))
      ensures ok == (old(objs)[id].handle != SQL_NULL_HANDLE && ret == FreeSuccess)
    {
      if objs[id].handle == SQL_NULL_HANDLE { return false; }
      var parent := FreeHandle(id, ret);
      if parent.Some? {
        Collect(parent.value, rets);
      }
      ok := ret == FreeSuccess;
    }

    /** ~SqlHandle: exceptions of Free are only logged. */
    method Destroy(id: nat, ret: FreeReturn)
      requires id in objs
      modifies this
      ensures View() == Destroyed(old(View()), id, ret)
    {
      var h := objs[id].handle;
      if h != SQL_NULL_HANDLE {
        var parent := FreeHandle(id, ret);
        if ret == FreeError { refused := refused + {h}; }
      }
      objs := objs - {id};
    }

    /** Destructors run up the chain of parents as long as they lose their last owners. */
    method Collect(id: nat, rets: map<nat, FreeReturn>)
      modifies this
      ensures View() == Collected(old(View()), id, rets)
    {
      var next := Some(id);
      while next.Some? && Unowned(objs, next.value)
        invariant Collected(old(View()), id, rets) == if next.Some? then Collected(View(), next.value, rets) else View()
        decreases |objs|
      {
        DestroyedIsFewer(View(), next.value, RetOf(rets, next.value));
        var parent := objs[next.value].parent;
        Destroy(next.value, RetOf(rets, next.value));
        next := parent;
      }
    }

    /** The last shared_ptr but for the children's goes. */
    method Release(id: nat, rets: map<nat, FreeReturn>)
      requires id in objs && objs[id].held
      modifies this
      ensures View() == Step(old(View()), Op.Release(id, rets))
    {
      objs := objs[id := objs[id].(held := false)];
      Collect(id, rets);
    }
  }
}
