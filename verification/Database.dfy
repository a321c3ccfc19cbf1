// Database: opening, closing and the transaction mode, step by step against the state machine of Transactions.
module Database {
  import opened Options
  import opened Transactions

  /** The driver's connection. Each method is one ODBC call; ok is whether it succeeds, and a call that
      fails changes nothing. */
  class Connection {
    var connected: bool
    var autocommit: bool
    var pending: seq<nat>
    var committed: seq<nat>
    var lost: seq<nat>

    ghost function State(): Conn
      reads this
    {
      Conn(connected, autocommit, pending, committed, lost)
    }

    constructor ()
      ensures State() == FRESH.conn
    {
      connected, autocommit, pending, committed, lost := false, true, [], [], [];
    }

    method SQLConnect(ok: bool) returns (ret: bool)
      modifies this`connected
      ensures ret == (ok && !old(connected)) && connected == (old(connected) || ok)
    {
      ret := ok && !connected;
      connected := connected || ok;
    }

    method SQLDisconnect(ok: bool)
      modifies this
      ensures State() == if ok then RolledBack(old(State())).(connected := false) else old(State())
    {
      if ok {
        lost, pending, connected := lost + pending, [], false;
      }
    }

    method SQLEndTran(commit: bool, ok: bool)
      modifies this
      ensures State() == if !ok then old(State()) else if commit then Committed(old(State())) else RolledBack(old(State()))
    {
      if ok {
        if commit {
          committed := committed + pending;
        } else {
          lost := lost + pending;
        }
        pending := [];
      }
    }

    method SetAutocommit(on: bool, ok: bool)
      modifies this
      ensures State() == if ok then Switched(old(State()), on) else old(State())
    {
      if ok {
        if on {
          committed, pending := committed + pending, [];
        }
        autocommit := on;
      }
    }

    method SQLExecDirect(work: nat, ret: ExecReturn)
      modifies this
      ensures State() == if ret == Done then Executed(old(State()), work) else old(State())
    {
      if ret == Done {
        if autocommit {
          committed := committed + [work];
        } else {
          pending := pending + [work];
        }
      }
    }
  }

  class Database {
    const conn: Connection       // m_pHDbc, which Init has allocated
    var dbIsOpen: bool
    var execAllocated: bool      // m_pHStmtExecSql->IsAllocated()
    var commitMode: Mode
    var hasCatalog: bool         // m_pDbCatalog is set

    ghost function State(): Db
      reads this, conn
    {
      Db(conn.State(), dbIsOpen, execAllocated, commitMode, hasCatalog)
    }

    constructor ()
      ensures State() == FRESH && fresh(conn)
    {
      conn := new Connection();
      dbIsOpen, execAllocated, commitMode, hasCatalog := false, false, UNKNOWN, false;
    }

    method CommitTrans(endTran: bool) returns (ok: bool)
      modifies this, conn
      ensures State() == Step(old(State()), Op.CommitTrans(endTran)) && ok == endTran
    {
      conn.SQLEndTran(true, endTran);
      ok := endTran;
    }

    method RollbackTrans(endTran: bool) returns (ok: bool)
      modifies this, conn
      ensures State() == Step(old(State()), Op.RollbackTrans(endTran)) && ok == endTran
    {
      conn.SQLEndTran(false, endTran);
      ok := endTran;
    }

    method ReadCommitMode(read: Option<Mode>) returns (ok: bool)
      modifies this
      ensures State() == Step(old(State()), Op.ReadCommitMode(read)) && ok == read.Some?
    {
      if read.None? { return false; }
      commitMode := read.value;
      ok := true;
    }

    method SetCommitMode(mode: Mode, endTran: bool, setAttr: bool) returns (ok: bool)
      modifies this, conn
      ensures State() == Step(old(State()), Op.SetCommitMode(mode, endTran, setAttr))
      ensures ok == SetCommitModeSucceeds(old(State()), endTran, setAttr)
    {
      if commitMode != AUTO {
        ok := RollbackTrans(endTran);
        if !ok { return; }
      }
      if mode == MANUAL {
        conn.SetAutocommit(false, setAttr);
      } else {
        conn.SetAutocommit(true, setAttr);
      }
      if !setAttr { return false; }
      commitMode := mode;
      ok := true;
    }

    method SetTransactionIsolationMode(closeCursor: bool, endTran: bool, setAttr: bool) returns (ok: bool)
      modifies this, conn
      ensures State() == Step(old(State()), Op.SetTransactionIsolationMode(closeCursor, endTran, setAttr))
      ensures ok == (closeCursor && (old(commitMode) != AUTO ==> endTran) && setAttr)
    {
      if !closeCursor { return false; }
      if commitMode != AUTO {
        ok := RollbackTrans(endTran);
        if !ok { return; }
      }
      ok := setAttr;
    }

    method ExecSql(work: nat, failOnNoData: bool, closeCursor: bool, ret: ExecReturn) returns (ok: bool)
      modifies this, conn
      ensures State() == Step(old(State()), Op.ExecSql(work, failOnNoData, closeCursor, ret))
      ensures ok == (dbIsOpen && execAllocated && closeCursor && (ret == Done || (ret == NoData && !failOnNoData)))
    {
      if !dbIsOpen { return false; }
      if !execAllocated || !closeCursor { return false; }
      conn.SQLExecDirect(work, ret);
      if ret != Done {
        if !(!failOnNoData && ret == NoData) { return false; }
      }
      ok := true;
    }

    /** SqlHandle::Free of the statement handle. */
    method FreeExec(free: FreeReturn) returns (ok: bool)
      modifies this`execAllocated
      ensures ok == (old(execAllocated) && free == FreeSuccess)
      ensures State() == if old(execAllocated) then AfterFree(old(State()), free) else old(State())
    {
      if !execAllocated { return false; }
      if free == FreeError { return false; }
      execAllocated := false;
      ok := free == FreeSuccess;
    }

    method OpenImpl(r: OpenReturns) returns (ok: bool)
      modifies this, conn
      ensures (!old(execAllocated) && AfterOpenImpl(old(State()), r).1) == ok
      ensures State() == if old(execAllocated) then old(State())
                         else if ok then AfterOpenImpl(old(State()), r).0
                         else AfterFree(AfterOpenImpl(old(State()), r).0.(hasCatalog := false), r.free)
    {
      if execAllocated { return false; }
      ok := TryOpenImpl(r);
      if !ok {
        hasCatalog := false;
        if execAllocated {
          var freed := FreeExec(r.free);
        }
      }
    }

    /** The try block of OpenImpl. */
    method TryOpenImpl(r: OpenReturns) returns (ok: bool)
      requires !execAllocated
      modifies this, conn
      ensures (State(), ok) == AfterOpenImpl(old(State()), r)
    {
      if !r.allocate { return false; }
      execAllocated := true;
      if r.info.None? { return false; }
      hasCatalog := true;
      if !r.attributes { return false; }
      ok := ReadCommitMode(r.read);
      if !ok { return; }
      if r.info.value && commitMode != MANUAL {
        ok := SetCommitMode(MANUAL, r.endTran, r.setAttr);
        if !ok { return; }
      }
      ok := r.types;
    }

    method Open(r: OpenReturns) returns (ok: bool)
      modifies this, conn
      ensures State() == Step(old(State()), Op.Open(r))
      ensures ok == (dbIsOpen && !old(dbIsOpen))
    {
      if dbIsOpen { return false; }
      ok := conn.SQLConnect(r.connect);
      if !ok { return; }
      ok := OpenImpl(r);
      if !ok {
        conn.SQLDisconnect(r.disconnect);
        return;
      }
      dbIsOpen := true;
    }

    /** Close. SQLDisconnect is taken to succeed. */
    method Close(endTran: bool, free: FreeReturn) returns (ok: bool)
      modifies this, conn
      ensures State() == Step(old(State()), Op.Close(endTran, free))
      ensures ok == !dbIsOpen
    {
      if !dbIsOpen { return true; }
      if commitMode == MANUAL {
        ok := RollbackTrans(endTran);
        if !ok { return; }
      }
      ok := FreeExec(free);
      if !ok { return; }
      hasCatalog := false;
      conn.SQLDisconnect(true);
      dbIsOpen := false;
      ok := true;
    }
  }
}
