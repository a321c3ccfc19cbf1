// The transaction mode of Database as a state machine: what the driver holds, what Database has cached,
// and what every member function makes of both, for any return codes.
module Transactions {
  import opened Options

  datatype Mode = AUTO | MANUAL | UNKNOWN

  /** The driver's side of a connection. Work is numbered; lost work has been rolled back. */
  datatype Conn = Conn(connected: bool, autocommit: bool, pending: seq<nat>, committed: seq<nat>, lost: seq<nat>)

  function Executed(c: Conn, work: nat): Conn {
    if c.autocommit then c.(committed := c.committed + [work]) else c.(pending := c.pending + [work])
  }

  function Committed(c: Conn): Conn { c.(committed := c.committed + c.pending, pending := []) }

  function RolledBack(c: Conn): Conn { c.(lost := c.lost + c.pending, pending := []) }

  /** SQL_ATTR_AUTOCOMMIT. A driver commits what is pending when autocommit is switched on. */
  function Switched(c: Conn, on: bool): Conn {
    (if on then Committed(c) else c).(autocommit := on)
  }

  datatype ExecReturn = Done | NoData | ExecFailed

  /** How the calls that Open makes return, in their order. None is an exception. */
  datatype OpenReturns = OpenReturns(
    connect: bool, allocate: bool, info: Option<bool>,   // info: whether transactions are supported
    attributes: bool, read: Option<Mode>, endTran: bool, setAttr: bool, types: bool,
    free: FreeReturn, disconnect: bool)

  /** m_dbIsOpen, m_pHStmtExecSql->IsAllocated(), m_commitMode, and whether there is a catalog. */
  datatype Db = Db(conn: Conn, isOpen: bool, execAllocated: bool, mode: Mode, hasCatalog: bool)

  datatype Op =
    | Open(r: OpenReturns)
    | Close(endTran: bool, free: FreeReturn)
    | CommitTrans(endTran: bool)
    | RollbackTrans(endTran: bool)
    | ExecSql(work: nat, failOnNoData: bool, closeCursor: bool, ret: ExecReturn)
    | ReadCommitMode(read: Option<Mode>)
    | SetCommitMode(mode: Mode, endTran: bool, setAttr: bool)
    | SetTransactionIsolationMode(closeCursor: bool, endTran: bool, setAttr: bool)

  /** What a driver may answer about its autocommit attribute: a value that is neither on nor off is possible. */
  predicate Truthful(c: Conn, read: Option<Mode>) {
    read.Some? ==> (read.value == AUTO ==> c.autocommit) && (read.value == MANUAL ==> !c.autocommit)
  }

  predicate Enabled(d: Db, op: Op) {
    match op
    case Open(r) => Truthful(d.conn, r.read)
    case ReadCommitMode(read) => Truthful(d.conn, read)
    case _ => true
  }

  // ---- the steps

  function AfterEndTran(d: Db, commit: bool): Db {
    d.(conn := if commit then Committed(d.conn) else RolledBack(d.conn))
  }

  /** SetCommitMode: everything that is not manual is autocommit. */
  function AfterSetCommitMode(d: Db, mode: Mode, endTran: bool, setAttr: bool): Db {
    if d.mode != AUTO && !endTran then d
    else
      var d1 := if d.mode != AUTO then AfterEndTran(d, false) else d;
      if setAttr then d1.(conn := Switched(d1.conn, mode != MANUAL), mode := mode) else d1
  }

  predicate SetCommitModeSucceeds(d: Db, endTran: bool, setAttr: bool) {
    (d.mode != AUTO ==> endTran) && setAttr
  }

  function AfterFree(d: Db, free: FreeReturn): Db {
    d.(execAllocated := free == FreeError && d.execAllocated)
  }

  /** OpenImpl's try block, and whether it got through. */
  function AfterOpenImpl(d: Db, r: OpenReturns): (Db, bool) {
    if !r.allocate then (d, false)
    else
      var d1 := d.(execAllocated := true);
      if r.info.None? then (d1, false)
      else
        var d2 := d1.(hasCatalog := true);
        if !r.attributes || r.read.None? then (d2, false)
        else
          var d3 := d2.(mode := r.read.value);
          if r.info.value && d3.mode != MANUAL then
            (AfterSetCommitMode(d3, MANUAL, r.endTran, r.setAttr), SetCommitModeSucceeds(d3, r.endTran, r.setAttr) && r.types)
          else (d3, r.types)
  }

  /** Open with its two catch blocks. A connection that cannot be disconnected stays connected. */
  function AfterOpen(d: Db, r: OpenReturns): Db {
    if d.isOpen || d.conn.connected || !r.connect then d
    else
      var d1 := d.(conn := d.conn.(connected := true));
      if d.execAllocated then Disconnected(d1, r.disconnect)
      else
        var (d2, ok) := AfterOpenImpl(d1, r);
        if ok then d2.(isOpen := true)
        else Disconnected(AfterFree(d2.(hasCatalog := false), r.free), r.disconnect)
  }

  /** SQLDisconnect: what is still pending is lost. */
  function Disconnected(d: Db, ok: bool): Db {
    if ok then d.(conn := RolledBack(d.conn).(connected := false)) else d
  }

  function AfterClose(d: Db, endTran: bool, free: FreeReturn): Db {
    if !d.isOpen || (d.mode == MANUAL && !endTran) then d
    else
      var d1 := if d.mode == MANUAL then AfterEndTran(d, false) else d;
      if !d1.execAllocated then d1
      else
        var d2 := AfterFree(d1, free);
        if free != FreeSuccess then d2
        else Disconnected(d2.(hasCatalog := false), true).(isOpen := false)
  }

  function Step(d: Db, op: Op): Db {
    match op
    case Open(r) => AfterOpen(d, r)
    case Close(endTran, free) => AfterClose(d, endTran, free)
    case CommitTrans(endTran) => if endTran then AfterEndTran(d, true) else d
    case RollbackTrans(endTran) => if endTran then AfterEndTran(d, false) else d
    case ExecSql(work, failOnNoData, closeCursor, ret) =>
      if d.isOpen && d.execAllocated && closeCursor && ret == Done then d.(conn := Executed(d.conn, work)) else d
    case ReadCommitMode(read) => if read.Some? then d.(mode := read.value) else d
    case SetCommitMode(mode, endTran, setAttr) => AfterSetCommitMode(d, mode, endTran, setAttr)
    case SetTransactionIsolationMode(closeCursor, endTran, setAttr) =>
      if closeCursor && d.mode != AUTO && endTran then AfterEndTran(d, false) else d
  }

  // ---- invariants

  /** While the database is open, a cached AUTO or MANUAL is what the driver does; with autocommit on, and
      while the database is not open, nothing is pending. */
  predicate Inv(d: Db) {
    && (d.isOpen ==> d.conn.connected && (d.mode == AUTO ==> d.conn.autocommit) && (d.mode == MANUAL ==> !d.conn.autocommit))
    && (d.conn.autocommit || !d.isOpen ==> d.conn.pending == [])
    && (!d.isOpen ==> !d.hasCatalog)
  }

  const FRESH: Db := Db(Conn(false, true, [], [], []), false, false, UNKNOWN, false)

  lemma StepKeepsInv(d: Db, op: Op)
    requires Inv(d) && Enabled(d, op)
    ensures Inv(Step(d, op))
  {
  }

  /** The work that this step makes permanent. */
  function Commits(d: Db, op: Op): seq<nat> {
    match op
    case CommitTrans(endTran) => if endTran then d.conn.pending else []
    case ExecSql(work, _, closeCursor, ret) =>
      if d.isOpen && d.execAllocated && closeCursor && ret == Done && d.conn.autocommit then [work] else []
    case _ => []
  }

  /** Committed work grows by CommitTrans and by executing with autocommit on, and by nothing else, though
      the driver commits whenever autocommit is switched on. */
  lemma CommitsExactly(d: Db, op: Op)
    requires Inv(d) && Enabled(d, op)
    ensures Step(d, op).conn.committed == d.conn.committed + Commits(d, op)
  {
    hide AfterOpen, AfterClose, AfterSetCommitMode;
    match op
    case Open(r) => OpenCommitsNothing(d, r);
    case Close(endTran, free) => CloseCommitsNothing(d, endTran, free);
    case SetCommitMode(mode, endTran, setAttr) => SetCommitModeCommitsNothing(d, mode, endTran, setAttr);
    case _ =>
  }

  lemma OpenCommitsNothing(d: Db, r: OpenReturns)
    requires Inv(d) && Truthful(d.conn, r.read)
    ensures AfterOpen(d, r).conn.committed == d.conn.committed
  {
  }

  lemma CloseCommitsNothing(d: Db, endTran: bool, free: FreeReturn)
    ensures AfterClose(d, endTran, free).conn.committed == d.conn.committed
  {
  }

  lemma SetCommitModeCommitsNothing(d: Db, mode: Mode, endTran: bool, setAttr: bool)
    requires Inv(d)
    ensures AfterSetCommitMode(d, mode, endTran, setAttr).conn.committed == d.conn.committed
  {
  }

  /** The work that this step rolls back: all that is pending, or none. */
  function RollsBack(d: Db, op: Op): seq<nat> {
    match op
    case RollbackTrans(endTran) => if endTran then d.conn.pending else []
    case SetCommitMode(_, endTran, _) => if d.mode != AUTO && endTran then d.conn.pending else []
    case SetTransactionIsolationMode(closeCursor, endTran, _) => if closeCursor && d.mode != AUTO && endTran then d.conn.pending else []
    case Close(endTran, free) =>
      if d.isOpen && (if d.mode == MANUAL then endTran else d.execAllocated && free == FreeSuccess) then d.conn.pending else []
    case _ => []
  }

  /** The work that is pending afterwards: what was, unless the step has ended the transaction, and what is
      executed with autocommit off. */
  function PendingAfter(d: Db, op: Op): seq<nat> {
    match op
    case ExecSql(work, _, closeCursor, ret) =>
      if d.isOpen && d.execAllocated && closeCursor && ret == Done && !d.conn.autocommit then d.conn.pending + [work] else d.conn.pending
    case CommitTrans(endTran) => if endTran then [] else d.conn.pending
    case _ => if RollsBack(d, op) == d.conn.pending then [] else d.conn.pending
  }

  /** The rollbacks of RollbackTrans, of SetCommitMode and SetTransactionIsolationMode where AUTO is not
      cached, and of Close; and nothing else is lost. After one, nothing is pending. */
  lemma RollsBackExactly(d: Db, op: Op)
    requires Inv(d) && Enabled(d, op)
    ensures Step(d, op).conn.lost == d.conn.lost + RollsBack(d, op)
    ensures Step(d, op).conn.pending == PendingAfter(d, op)
    ensures RollsBack(d, op) != [] ==> RollsBack(d, op) == d.conn.pending && Step(d, op).conn.pending == []
  {
    hide AfterOpen, AfterClose, AfterSetCommitMode;
    match op
    case Open(r) => OpenLosesNothing(d, r);
    case Close(endTran, free) => CloseRollsBack(d, endTran, free);
    case SetCommitMode(mode, endTran, setAttr) => SetCommitModeRollsBack(d, mode, endTran, setAttr);
    case _ =>
  }

  lemma OpenLosesNothing(d: Db, r: OpenReturns)
    requires Inv(d) && Truthful(d.conn, r.read)
    ensures AfterOpen(d, r).conn.lost == d.conn.lost && AfterOpen(d, r).conn.pending == d.conn.pending
  {
  }

  lemma CloseRollsBack(d: Db, endTran: bool, free: FreeReturn)
    ensures AfterClose(d, endTran, free).conn.lost == d.conn.lost + RollsBack(d, Close(endTran, free))
    ensures AfterClose(d, endTran, free).conn.pending == PendingAfter(d, Close(endTran, free))
  {
  }

  lemma SetCommitModeRollsBack(d: Db, mode: Mode, endTran: bool, setAttr: bool)
    requires Inv(d)
    ensures AfterSetCommitMode(d, mode, endTran, setAttr).conn.lost == d.conn.lost + RollsBack(d, SetCommitMode(mode, endTran, setAttr))
    ensures AfterSetCommitMode(d, mode, endTran, setAttr).conn.pending == PendingAfter(d, SetCommitMode(mode, endTran, setAttr))
  {
  }

  /** SetCommitMode never commits exactly because of what is cached: with AUTO cached for a driver that has
      work pending, it would. */
  lemma SetCommitModeCommitsIff(d: Db, mode: Mode, setAttr: bool)
    ensures AfterSetCommitMode(d, mode, true, setAttr).conn.committed != d.conn.committed
       <==> d.mode == AUTO && d.conn.pending != [] && mode != MANUAL && setAttr
  {
    if d.conn.pending != [] {
      assert |d.conn.committed + d.conn.pending| > |d.conn.committed|;
    }
  }

  /** What was set is what is cached, and the cached mode says what the driver does unless it is UNKNOWN:
      then the driver has autocommit on, though the cached mode does not say so. */
  lemma SetModeAgreesIff(d: Db, mode: Mode)
    ensures var d' := AfterSetCommitMode(d, mode, true, true);
            d'.mode == mode && (((d'.conn.autocommit <==> d'.mode == AUTO)) <==> mode != UNKNOWN)
  {
  }

  /** Close disconnects with work still pending exactly when the cached mode is UNKNOWN; a driver with
      autocommit on has none. */
  lemma CloseLosesIff(d: Db)
    requires Inv(d) && d.isOpen && d.execAllocated
    ensures var d' := AfterClose(d, true, FreeSuccess);
            !d'.isOpen && d'.conn.committed == d.conn.committed && d'.conn.lost == d.conn.lost + d.conn.pending
    ensures (if d.mode == MANUAL then RolledBack(d.conn) else d.conn).pending != [] <==> d.mode == UNKNOWN && d.conn.pending != []
  {
  }

  /** Open succeeds exactly when each of the calls it makes does: none of the attributes, the commit mode and the
      types fails to be read; and where transactions are supported and the driver is not in manual mode
      already, it can be switched to it, after a rollback if it does not say that it commits by itself. */
  lemma OpenSucceedsIff(d: Db, r: OpenReturns)
    requires !d.isOpen
    ensures AfterOpen(d, r).isOpen
       <==> !d.conn.connected && r.connect && !d.execAllocated && r.allocate && r.info.Some? && r.attributes && r.read.Some? && r.types
            && (r.info.value && r.read.value != MANUAL ==> (r.read.value == AUTO || r.endTran) && r.setAttr)
    ensures AfterOpen(d, r).isOpen ==>
              var d' := AfterOpen(d, r);
              && d'.conn.connected && d'.execAllocated && d'.hasCatalog
              && d'.mode == if r.info.value then MANUAL else r.read.value
  {
  }

  /** Close succeeds exactly when the rollback that MANUAL calls for does, and the statement handle, which
      has to be there, is freed. Then the database is disconnected, with no catalog. */
  lemma CloseSucceedsIff(d: Db, endTran: bool, free: FreeReturn)
    requires Inv(d) && d.isOpen
    ensures var d' := AfterClose(d, endTran, free);
            && (!d'.isOpen <==> (d.mode == MANUAL ==> endTran) && d.execAllocated && free == FreeSuccess)
            && (!d'.isOpen ==> !d'.conn.connected && !d'.execAllocated && !d'.hasCatalog)
  {
  }

  /** The commit mode that is cached, and the driver's attribute, change when the one is read, both when they
      are set, and, apart from Open, by nothing else; the connection only by Open and Close. */
  lemma ModeChangesExactly(d: Db, op: Op)
    requires !op.Open?
    ensures Step(d, op).mode == match op
              case ReadCommitMode(Some(mode)) => mode
              case SetCommitMode(mode, endTran, setAttr) => if (d.mode == AUTO || endTran) && setAttr then mode else d.mode
              case _ => d.mode
    ensures Step(d, op).conn.autocommit == match op
              case SetCommitMode(mode, endTran, setAttr) => if (d.mode == AUTO || endTran) && setAttr then mode != MANUAL else d.conn.autocommit
              case _ => d.conn.autocommit
    ensures !op.Close? ==>
              var d' := Step(d, op);
              d'.conn.connected == d.conn.connected && d'.isOpen == d.isOpen && d'.execAllocated == d.execAllocated && d'.hasCatalog == d.hasCatalog
  {
  }

  /** A failed Open leaves the database as it was but for the cached mode, the driver's autocommit
      attribute, a statement handle that could not be freed and a connection that could not be ended. */
  lemma FailedOpen(d: Db, r: OpenReturns)
    requires Inv(d) && !d.isOpen && Truthful(d.conn, r.read)
    ensures var d' := AfterOpen(d, r);
            !d'.isOpen ==>
              && d'.conn.pending == [] && d'.conn.committed == d.conn.committed && d'.conn.lost == d.conn.lost
              && (d'.conn.connected ==> d.conn.connected || !r.disconnect)
              && (d'.execAllocated ==> d.execAllocated || r.free == FreeError)
              && !d'.hasCatalog
  {
  }

  /** A successful Open leaves the database in manual mode wherever transactions are supported. */
  lemma OpenedManual(d: Db, r: OpenReturns)
    requires Inv(d) && !d.isOpen && Truthful(d.conn, r.read)
    ensures var d' := AfterOpen(d, r);
            d'.isOpen && r.info == Some(true) ==> d'.mode == MANUAL && !d'.conn.autocommit && d'.execAllocated && d'.hasCatalog
  {
  }

  // ---- runs

  function Run(d: Db, ops: seq<Op>): Db {
    if ops == [] then d else Step(Run(d, ops[..|ops| - 1]), ops[|ops| - 1])
  }

  predicate Runs(d: Db, ops: seq<Op>) {
    ops != [] ==> Runs(d, ops[..|ops| - 1]) && Enabled(Run(d, ops[..|ops| - 1]), ops[|ops| - 1])
  }

  /** The work that this step executes. */
  function WorkOf(d: Db, op: Op): multiset<nat> {
    if op.ExecSql? && d.isOpen && d.execAllocated && op.closeCursor && op.ret == Done then multiset{op.work} else multiset{}
  }

  /** The work that the run executes. */
  function Works(d: Db, ops: seq<Op>): multiset<nat> {
    if ops == [] then multiset{} else Works(d, ops[..|ops| - 1]) + WorkOf(Run(d, ops[..|ops| - 1]), ops[|ops| - 1])
  }

  /** All that CommitTrans and autocommit made permanent in the run. */
  function AllCommits(d: Db, ops: seq<Op>): seq<nat> {
    if ops == [] then []
    else AllCommits(d, ops[..|ops| - 1]) + Commits(Run(d, ops[..|ops| - 1]), ops[|ops| - 1])
  }

  /** All that the run rolled back. */
  function AllRollbacks(d: Db, ops: seq<Op>): seq<nat> {
    if ops == [] then []
    else AllRollbacks(d, ops[..|ops| - 1]) + RollsBack(Run(d, ops[..|ops| - 1]), ops[|ops| - 1])
  }

  /** All the work the driver knows of. */
  ghost function Total(c: Conn): multiset<nat> {
    multiset(c.committed) + multiset(c.pending) + multiset(c.lost)
  }

  lemma Totals(c: Conn, on: bool, work: nat)
    ensures Total(Committed(c)) == Total(RolledBack(c)) == Total(Switched(c, on)) == Total(c)
    ensures Total(c.(connected := on)) == Total(c) && Total(Executed(c, work)) == Total(c) + multiset{work}
  {
    EndedTotal(c);
    ExecutedTotal(c, work);
    hide Committed, RolledBack, Executed;
  }

  lemma EndedTotal(c: Conn)
    ensures Total(Committed(c)) == Total(c) && Total(RolledBack(c)) == Total(c)
  {
  }

  lemma ExecutedTotal(c: Conn, work: nat)
    ensures Total(Executed(c, work)) == Total(c) + multiset{work}
  {
  }

  lemma SetCommitModeTotal(d: Db, mode: Mode, endTran: bool, setAttr: bool)
    ensures Total(AfterSetCommitMode(d, mode, endTran, setAttr).conn) == Total(d.conn)
  {
    hide Total, Committed, RolledBack, Switched;
    Totals(d.conn, mode != MANUAL, 0);
    Totals(RolledBack(d.conn), mode != MANUAL, 0);
  }

  lemma DisconnectedTotal(d: Db, ok: bool)
    ensures Total(Disconnected(d, ok).conn) == Total(d.conn)
  {
    hide Total, RolledBack;
    Totals(d.conn, false, 0);
    Totals(RolledBack(d.conn), false, 0);
  }

  lemma OpenTotal(d: Db, r: OpenReturns)
    ensures Total(AfterOpen(d, r).conn) == Total(d.conn)
  {
    hide Total, AfterSetCommitMode, Disconnected;
    Totals(d.conn, true, 0);
    var d1 := d.(conn := d.conn.(connected := true));
    DisconnectedTotal(d1, r.disconnect);
    if r.read.Some? {
      SetCommitModeTotal(d1.(execAllocated := true, hasCatalog := true, mode := r.read.value), MANUAL, r.endTran, r.setAttr);
    }
    DisconnectedTotal(AfterFree(AfterOpenImpl(d1, r).0.(hasCatalog := false), r.free), r.disconnect);
  }

  /** No step loses sight of work, or makes it up. */
  lemma StepTotal(d: Db, op: Op)
    ensures Total(Step(d, op).conn) == Total(d.conn) + WorkOf(d, op)
  {
    hide Total, AfterSetCommitMode, AfterOpen, Executed, Committed, RolledBack;
    match op
    case Open(r) => OpenTotal(d, r);
    case Close(endTran, free) =>
      Totals(d.conn, false, 0);
      CloseTotal(d, endTran, free);
    case ExecSql(work, _, _, _) => Totals(d.conn, false, work);
    case SetCommitMode(mode, endTran, setAttr) => SetCommitModeTotal(d, mode, endTran, setAttr);
    case _ => Totals(d.conn, false, 0);
  }

  lemma CloseTotal(d: Db, endTran: bool, free: FreeReturn)
    ensures Total(AfterClose(d, endTran, free).conn) == Total(d.conn)
  {
    hide Total, RolledBack, Disconnected;
    Totals(d.conn, false, 0);
    var d1 := if d.mode == MANUAL then AfterEndTran(d, false) else d;
    DisconnectedTotal(AfterFree(d1, free).(hasCatalog := false), true);
  }

  /** In every run of a Database: the cached mode agrees with the driver as long as it is open; committed is
      exactly what CommitTrans and autocommit have made permanent, and lost exactly what has been rolled back;
      and every piece of work executed is committed, pending or rolled back, and only one of the three. */
  lemma {:induction false} EveryRun(ops: seq<Op>)
    requires Runs(FRESH, ops)
    ensures Inv(Run(FRESH, ops))
    ensures Run(FRESH, ops).conn.committed == AllCommits(FRESH, ops)
    ensures Run(FRESH, ops).conn.lost == AllRollbacks(FRESH, ops)
    ensures Total(Run(FRESH, ops).conn) == Works(FRESH, ops)
  {
    hide Inv, Commits, RollsBack, Total, Step, WorkOf;
    if ops == [] {
      NothingYet();
    } else {
      var before, op := ops[..|ops| - 1], ops[|ops| - 1];
      EveryRun(before);
      StepKeepsInv(Run(FRESH, before), op);
      CommitsExactly(Run(FRESH, before), op);
      RollsBackExactly(Run(FRESH, before), op);
      StepTotal(Run(FRESH, before), op);
    }
  }

  lemma NothingYet()
    ensures Inv(FRESH) && Total(FRESH.conn) == multiset{}
  {
  }
}
