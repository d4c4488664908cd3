/** A PublicIPClaim and what Reconcile writes to it
    (api/v1alpha1/publicipclaim_types.go, internal/controller/publicipclaim_controller.go:95-394). */
module Claims {
  datatype Phase = Unset | Pending | Provisioning | Ready | Failed

  datatype Spec = Spec(
    poolName: string, host: string, sshSecretRef: string, user: string,
    wanParent: string, command: string, wanInterface: string, macAddress: string)
  {
    /** The required-field checks at :288-311. */
    predicate Complete() {
      poolName != "" && host != "" && sshSecretRef != "" && user != "" && wanParent != "" && command != ""
    }
  }

  datatype Status = Status(phase: Phase, wanInterface: string, mac: string, assignedIP: string)

  const EMPTY_STATUS: Status := Status(Unset, "", "", "")

  datatype Claim = Claim(spec: Spec, finalizer: bool, deleting: bool, event: bool, status: Status)

  // -------------------------------------------------------- interface names

  function LowerOrDash(c: char): char {
    if 'A' <= c <= 'Z' then c + ' '
    else if 'a' <= c <= 'z' || '0' <= c <= '9' || c == '-' then c
    else '-'
  }

  /** sanitizeName, for names over ASCII. */
  function SanitizeName(name: string): string {
    var s := seq(|name|, i requires 0 <= i < |name| => LowerOrDash(name[i]));
    if |s| > 10 then s[..10] else s
  }

  function WanName(spec: Spec, name: string): string {
    if spec.wanInterface != "" then spec.wanInterface else "wan-" + SanitizeName(name)
  }

  // ---------------------------------------------------------- status writes

  /** Clearing the status to re-provision (:175-179 and :222-228). */
  function ResetStatus(s: Status): Status { s.(phase := Pending, wanInterface := "", assignedIP := "") }

  function FailedStatus(s: Status): Status { s.(phase := Failed) }

  /** The write at :332-334 that other reconciles read as "work in progress". */
  function LockedStatus(s: Status, iface: string, mac: string): Status { s.(wanInterface := iface, mac := mac) }

  function ReadyStatus(s: Status, ip: string): Status { s.(phase := Ready, assignedIP := ip) }

  // --------------------------------------------------------------- dispatch

  /** Where one execution of Reconcile is: the next effect it will attempt. */
  datatype Pc =
    | CallCleanup | UnpoolDeleted | DropFinalizer
    | AddFinalizer
    | HandleEvent | ResetForEvent | ClearEvent
    | Verify | ResetForDrift | UnpoolDrifted(ip: string)
    | WriteFailed
    | TakeLock | CallAllocate | AwaitAddress | EnsurePooled(ip: string) | WriteReady(ip: string)
    | Done

  /** The branch Reconcile takes on the claim it has read (:106-311). */
  function Dispatch(c: Claim): Pc {
    if c.deleting then (if c.finalizer then CallCleanup else Done)
    else if !c.finalizer then AddFinalizer
    else if c.event then HandleEvent
    else if c.status.phase == Ready && c.status.assignedIP != "" then Verify
    else if c.status.wanInterface != "" && c.status.phase != Failed then Done
    else if c.status.phase == Failed then Done
    else if !c.spec.Complete() then WriteFailed
    else TakeLock
  }
}

/** Any number of concurrent Reconcile executions of one claim against an API
    server that keeps every version of the object, serves reads of any earlier
    version, and accepts a write only when it was made from the latest version.
    Each API or router call of Reconcile is one step with its own outcome; a
    write may be rejected, or be applied although the caller is told it failed.
    A step that is not enabled leaves the state as it is, so a run is any
    sequence of steps. */
module ClaimRuns {
  import opened Common
  import opened Claims
  import SQ = ShellQuoting

  datatype Writer = Outside | Execution(id: nat)

  /** All persisted versions, oldest first, each with the writer of it. */
  datatype Cell = Cell(versions: seq<Claim>, writers: seq<Writer>, gone: bool) {
    function Latest(): Claim requires versions != [] { versions[|versions| - 1] }
  }

  datatype Exec = Exec(pc: Pc, local: Claim, base: nat)

  /** posted holds the versions whose lock winner has called the agent (history). */
  datatype State = State(name: string, cell: Cell, execs: map<nat, Exec>, posted: set<nat>, allocations: nat)

  datatype Outcome = Outcome(write: WriteResult, ok: bool, reply: string, mac: string)

  datatype Step =
    | EditSpec(spec: Spec)
    | RequestDeletion
    | RouterEvent              // the SSH event handler annotates the claim
    | Begin(e: nat, version: nat)
    | Continue(e: nat, o: Outcome)

  ghost predicate Initial(s: State) {
    && |s.cell.versions| == 1 && s.cell.writers == [Outside] && !s.cell.gone
    && s.cell.versions[0] == Claim(s.cell.versions[0].spec, false, false, false, EMPTY_STATUS)
    && s.execs == map[] && s.posted == {} && s.allocations == 0
  }

  // ------------------------------------------------------------- API server

  /** Optimistic concurrency: only a write based on the latest version is accepted. */
  predicate Accepts(cell: Cell, base: nat) {
    !cell.gone && |cell.versions| == base + 1
  }

  /** Persist one more version; an object marked for deletion disappears with its last finalizer. */
  function Persist(cell: Cell, c: Claim, who: Writer): Cell {
    Cell(cell.versions + [c], cell.writers + [who], c.deleting && !c.finalizer)
  }

  // ---------------------------------------------------------- outside steps

  function DoOutside(s: State, step: Step): State
    requires s.cell.versions != []
  {
    var c := s.cell.Latest();
    if s.cell.gone then s
    else match step
      case EditSpec(spec) => s.(cell := Persist(s.cell, c.(spec := spec), Outside))
      case RouterEvent => s.(cell := Persist(s.cell, c.(event := true), Outside))
      case RequestDeletion =>
        if c.deleting then s
        else if c.finalizer then s.(cell := Persist(s.cell, c.(deleting := true), Outside))
        else s.(cell := s.cell.(gone := true))
      case _ => s
  }

  // -------------------------------------------------------- execution steps

  function Moved(s: State, e: nat, pc: Pc): State
    requires e in s.execs
  {
    s.(execs := s.execs[e := s.execs[e].(pc := pc)])
  }

  function DoBegin(s: State, e: nat, version: nat): State {
    if e in s.execs || version >= |s.cell.versions| then s
    else
      var c := s.cell.versions[version];
      s.(execs := s.execs[e := Exec(Dispatch(c), c, version)])
  }

  /** Reconcile writes the claim here: through Status().Update, or through Update. */
  predicate WritesStatus(pc: Pc) {
    pc.ResetForEvent? || pc.ResetForDrift? || pc.WriteFailed? || pc.TakeLock? || pc.WriteReady?
  }

  predicate WritesMeta(pc: Pc) { pc.DropFinalizer? || pc.AddFinalizer? || pc.ClearEvent? }

  /** The object as the execution has changed it in memory. */
  function Intent(x: Exec, name: string, o: Outcome): Claim {
    var c := x.local;
    match x.pc
    case DropFinalizer => c.(finalizer := false)
    case AddFinalizer => c.(finalizer := true)
    case ClearEvent => c.(event := false)
    case ResetForEvent => c.(status := ResetStatus(c.status))
    case ResetForDrift => c.(status := ResetStatus(c.status))
    case WriteFailed => c.(status := FailedStatus(c.status))
    case WriteReady(ip) => c.(status := ReadyStatus(c.status, ip))
    case TakeLock =>
      var mac := if c.spec.macAddress != "" then c.spec.macAddress else "02:" + o.mac;
      c.(status := LockedStatus(c.status, WanName(c.spec, name), mac))
    case _ => c
  }

  /** What the server stores: Status().Update takes only the status, Update all but the status. */
  function Submitted(cell: Cell, base: nat, c: Claim, statusOnly: bool): Claim
    requires Accepts(cell, base)
  {
    if statusOnly then cell.versions[base].(status := c.status) else c.(status := cell.versions[base].status)
  }

  function AfterWrite(x: Exec): Pc {
    match x.pc
    case ResetForEvent => ClearEvent
    case ResetForDrift => UnpoolDrifted(x.local.status.assignedIP)
    case TakeLock => CallAllocate
    case _ => Done
  }

  /** After an accepted write the execution goes on from the version it wrote. */
  function DoWrite(s: State, e: nat, o: Outcome): State
    requires e in s.execs
  {
    var x := s.execs[e];
    if o.write.Rejected? || !Accepts(s.cell, x.base) then Moved(s, e, Done)
    else
      var c := Submitted(s.cell, x.base, Intent(x, s.name, o), WritesStatus(x.pc));
      var next := if o.write.AppliedButLost? then x.(pc := Done) else Exec(AfterWrite(x), c, x.base + 1);
      s.(cell := Persist(s.cell, c, Execution(e)), execs := s.execs[e := next])
  }

  /** runRouterScript: unless it fails before the request is sent, the agent is called once. */
  function DoCallAllocate(s: State, e: nat, o: Outcome): State
    requires e in s.execs
  {
    if !o.ok then Moved(s, e, WriteFailed)
    else Moved(s, e, AwaitAddress).(posted := s.posted + {s.execs[e].base}, allocations := s.allocations + 1)
  }

  /** The steps of Reconcile that write nothing to the claim. */
  function NextPc(x: Exec, o: Outcome): Pc {
    var st := x.local.status;
    match x.pc
    case CallCleanup => if st.assignedIP != "" then UnpoolDeleted else DropFinalizer
    case UnpoolDeleted => if o.ok then DropFinalizer else Done
    case HandleEvent => if st.wanInterface != "" && !o.ok then ResetForEvent else ClearEvent
    case Verify => if o.ok then Done else ResetForDrift
    case UnpoolDrifted(_) => Done
    case AwaitAddress => if o.ok && o.reply != "" then EnsurePooled(o.reply) else WriteFailed
    case EnsurePooled(ip) => if o.ok then WriteReady(ip) else WriteFailed
    case pc => pc
  }

  function DoContinue(s: State, e: nat, o: Outcome): State {
    if e !in s.execs then s
    else
      var x := s.execs[e];
      if WritesStatus(x.pc) || WritesMeta(x.pc) then DoWrite(s, e, o)
      else if x.pc.CallAllocate? then DoCallAllocate(s, e, o)
      else Moved(s, e, NextPc(x, o))
  }

  function Do(s: State, step: Step): State
    requires s.cell.versions != []
  {
    match step
    case Begin(e, k) => DoBegin(s, e, k)
    case Continue(e, o) => DoContinue(s, e, o)
    case _ => DoOutside(s, step)
  }

  // -------------------------------------------------------------- counting

  predicate Locks(before: Claim, after: Claim) {
    before.status.wanInterface == "" && after.status.wanInterface != ""
  }

  predicate Resets(before: Claim, after: Claim) {
    before.status.wanInterface != "" && after.status.wanInterface == ""
  }

  /** Persisted resets of WanInterface to empty. */
  function ResetCount(v: seq<Claim>): nat {
    if |v| <= 1 then 0
    else ResetCount(v[..|v| - 1]) + (if Resets(v[|v| - 2], v[|v| - 1]) then 1 else 0)
  }

  /** The versions at which WanInterface became non-empty. */
  function LockVersions(v: seq<Claim>): set<nat> {
    set k: nat | k < |v| && LocksAt(v, k)
  }

  predicate LocksAt(v: seq<Claim>, k: nat)
    requires k < |v|
  {
    k >= 1 && Locks(v[k - 1], v[k])
  }

  // -------------------------------------------------------------- invariant

  predicate StatusOk(st: Status) {
    && (st.assignedIP != "" <==> st.phase == Ready)
    && (st.phase == Ready ==> st.wanInterface != "" && st.mac != "")
  }

  /** A version with a status of its own has its finalizer until deletion is under way. */
  predicate VersionOk(c: Claim) {
    && StatusOk(c.status)
    && (c.status != EMPTY_STATUS ==> c.finalizer || c.deleting)
  }

  /** What may follow what in the version history. */
  predicate SuccessorOk(v: seq<Claim>, w: seq<Writer>, k: nat)
    requires k + 1 < |v| == |w|
  {
    var b, a := v[k], v[k + 1];
    && (b.deleting ==> a.deleting && a.status == b.status)
    && (Locks(b, a) ==> a.finalizer && !a.deleting)
    && (a.status.phase == Ready && b.status.phase != Ready ==>
          k >= 1 && Locks(v[k - 1], b) && w[k] == w[k + 1] && w[k].Execution? &&
              a.status.wanInterface == b.status.wanInterface)
  }

  /** e wrote version base, and that write took the lock. */
  predicate WonLock(cell: Cell, e: nat, base: nat) {
    && 1 <= base < |cell.versions| == |cell.writers|
    && cell.writers[base] == Execution(e)
    && Locks(cell.versions[base - 1], cell.versions[base])
  }

  /** What an execution knows about the version it works from. */
  predicate LocalOk(x: Exec) {
    var c := x.local;
    match x.pc
    case CallCleanup | UnpoolDeleted | DropFinalizer => c.deleting && c.finalizer
    case AddFinalizer => Dispatch(c) == AddFinalizer
    case Verify => Dispatch(c) == Verify
    case ResetForDrift => Dispatch(c) == Verify
    case TakeLock => Dispatch(c) == TakeLock
    case Done => true
    case _ =>
      && c.finalizer && !c.deleting
      && (x.pc.ResetForEvent? ==> c.status.wanInterface != "")
      && (x.pc.WriteFailed? || Allocating(x.pc) ==> c.status.phase != Ready)
      && (Allocating(x.pc) ==> c.status.mac != "")
      && (x.pc.EnsurePooled? || x.pc.WriteReady? ==> x.pc.ip != "")
  }

  /** Between taking the lock and writing Ready. */
  predicate Allocating(pc: Pc) {
    pc.CallAllocate? || pc.AwaitAddress? || pc.EnsurePooled? || pc.WriteReady?
  }

  predicate ExecOk(s: State, e: nat)
    requires e in s.execs
  {
    var x := s.execs[e];
    x.pc.Done? ||
    (&& x.base < |s.cell.versions| && x.local == s.cell.versions[x.base]
     && LocalOk(x)
     && (Allocating(x.pc) ==> WonLock(s.cell, e, x.base))
     && (x.pc.CallAllocate? ==> x.base !in s.posted))
  }

  ghost predicate CellOk(cell: Cell) {
    && |cell.versions| == |cell.writers| >= 1
    && cell.versions[0].status == EMPTY_STATUS
    && (cell.Latest().deleting && !cell.Latest().finalizer ==> cell.gone)
    && (forall k :: 0 <= k < |cell.versions| ==> VersionOk(cell.versions[k]))
    && (forall k: nat :: k + 1 < |cell.versions| ==> SuccessorOk(cell.versions, cell.writers, k))
  }

  ghost predicate Inv(s: State) {
    && CellOk(s.cell)
    && (forall e :: e in s.execs ==> ExecOk(s, e))
    && s.posted <= LockVersions(s.cell.versions)
    && s.allocations == |s.posted|
  }

  // ----------------------------------------------------------- preservation

  lemma PersistKeepsCell(cell: Cell, c: Claim, who: Writer)
    requires CellOk(cell) && VersionOk(c)
    requires var v, w := cell.versions + [c], cell.writers + [who]; SuccessorOk(v, w, |cell.versions| - 1)
    ensures CellOk(Persist(cell, c, who))
  {
    var n := Persist(cell, c, who);
    forall k: nat | k + 1 < |n.versions| ensures SuccessorOk(n.versions, n.writers, k) {
      if k + 1 < |cell.versions| {
        assert SuccessorOk(cell.versions, cell.writers, k);
      }
    }
  }

  lemma LockVersionsGrow(v: seq<Claim>, c: Claim)
    ensures LockVersions(v) <= LockVersions(v + [c])
  {
    forall k | k in LockVersions(v) ensures k in LockVersions(v + [c]) {
      assert LocksAt(v, k) && LocksAt(v + [c], k);
    }
  }

  /** More versions do not disturb an execution, nor do agent calls of others. */
  lemma ExecUndisturbed(s: State, n: State, f: nat)
    requires f in s.execs && ExecOk(s, f)
    requires f in n.execs && n.execs[f] == s.execs[f]
    requires s.cell.versions <= n.cell.versions && s.cell.writers <= n.cell.writers
    requires |n.cell.versions| == |n.cell.writers|
    requires n.posted == s.posted || (s.execs[f].pc.CallAllocate? ==> s.execs[f].base !in n.posted)
    ensures ExecOk(n, f)
  {}

  /** A version persisted by anyone, with no execution moved. */
  lemma PersistKeeps(s: State, c: Claim, who: Writer)
    requires Inv(s) && VersionOk(c)
    requires var v, w := s.cell.versions + [c], s.cell.writers + [who]; SuccessorOk(v, w, |s.cell.versions| - 1)
    ensures Inv(s.(cell := Persist(s.cell, c, who)))
  {
    PersistKeepsCell(s.cell, c, who);
    var n := s.(cell := Persist(s.cell, c, who));
    LockVersionsGrow(s.cell.versions, c);
    forall f | f in n.execs ensures ExecOk(n, f) { ExecUndisturbed(s, n, f); }
  }

  lemma OutsideKeeps(s: State, step: Step)
    requires Inv(s)
    ensures Inv(DoOutside(s, step))
  {
    var n := DoOutside(s, step);
    var c := s.cell.Latest();
    assert VersionOk(c);
    if n.cell.versions != s.cell.versions {
      PersistKeeps(s, n.cell.Latest(), Outside);
    } else {
      forall f | f in n.execs ensures ExecOk(n, f) { ExecUndisturbed(s, n, f); }
    }
  }

  lemma BeginKeeps(s: State, e: nat, version: nat)
    requires Inv(s)
    ensures Inv(DoBegin(s, e, version))
  {
    var n := DoBegin(s, e, version);
    forall f | f in n.execs ensures ExecOk(n, f) {
      if f != e { ExecUndisturbed(s, n, f); }
      else if n != s { assert VersionOk(s.cell.versions[version]); }
      else { ExecUndisturbed(s, n, f); }
    }
  }

  /** An execution changes its program counter only. */
  lemma MovedKeeps(s: State, e: nat, pc: Pc)
    requires Inv(s) && e in s.execs && ExecOk(Moved(s, e, pc), e)
    ensures Inv(Moved(s, e, pc))
  {
    var n := Moved(s, e, pc);
    forall f | f in n.execs ensures ExecOk(n, f) {
      if f != e { ExecUndisturbed(s, n, f); }
    }
  }

  /** Everything an execution may write keeps the version history in order. */
  lemma IntentIsOrderly(s: State, e: nat, o: Outcome)
    requires Inv(s) && e in s.execs && Accepts(s.cell, s.execs[e].base)
    requires WritesStatus(s.execs[e].pc) || WritesMeta(s.execs[e].pc)
    ensures var x := s.execs[e];
            var c := Intent(x, s.name, o);
            && Submitted(s.cell, x.base, c, WritesStatus(x.pc)) == c
            && VersionOk(c)
            && c.deleting == x.local.deleting
            && (x.local.deleting ==> c.status == x.local.status)
            && (Locks(x.local, c) ==> c.finalizer && !c.deleting)
            && (c.status.phase == Ready && x.local.status.phase != Ready ==>
                  WonLock(s.cell, e, x.base) && c.status.wanInterface == x.local.status.wanInterface)
            && (x.pc.TakeLock? ==> Locks(x.local, c) && c.status.mac != "" && c.status.phase != Ready)
  {
    assert ExecOk(s, e);
    assert VersionOk(s.cell.versions[s.execs[e].base]);
  }

  /** The writer stands on the version it has just written. */
  lemma WriterGoesOn(s: State, e: nat, o: Outcome)
    requires Inv(s) && e in s.execs && Accepts(s.cell, s.execs[e].base) && !o.write.Rejected?
    requires WritesStatus(s.execs[e].pc) || WritesMeta(s.execs[e].pc)
    ensures ExecOk(DoWrite(s, e, o), e)
  {
    var x := s.execs[e];
    assert ExecOk(s, e);
    IntentIsOrderly(s, e, o);
    assert x.base + 1 !in LockVersions(s.cell.versions);
  }

  lemma DoWriteKeeps(s: State, e: nat, o: Outcome)
    requires Inv(s) && e in s.execs
    requires WritesStatus(s.execs[e].pc) || WritesMeta(s.execs[e].pc)
    ensures Inv(DoWrite(s, e, o))
  {
    var x := s.execs[e];
    if o.write.Rejected? || !Accepts(s.cell, x.base) {
      MovedKeeps(s, e, Done);
    } else {
      var c := Intent(x, s.name, o);
      assert ExecOk(s, e);
      IntentIsOrderly(s, e, o);
      PersistKeeps(s, c, Execution(e));
      WriterGoesOn(s, e, o);
      OneExecChanges(s.(cell := Persist(s.cell, c, Execution(e))), DoWrite(s, e, o), e);
    }
  }

  lemma OneExecChanges(s: State, n: State, e: nat)
    requires Inv(s) && e in s.execs && e in n.execs
    requires n == s.(execs := s.execs[e := n.execs[e]]) && ExecOk(n, e)
    ensures Inv(n)
  {
    forall f | f in n.execs ensures ExecOk(n, f) {
      if f != e { ExecUndisturbed(s, n, f); }
    }
  }

  lemma CallerGoesOn(s: State, e: nat, o: Outcome)
    requires e in s.execs && s.execs[e].pc.CallAllocate? && ExecOk(s, e) && o.ok
    ensures ExecOk(DoCallAllocate(s, e, o), e)
  {}

  lemma CallAllocateKeeps(s: State, e: nat, o: Outcome)
    requires Inv(s) && e in s.execs && s.execs[e].pc.CallAllocate?
    ensures Inv(DoCallAllocate(s, e, o))
  {
    assert ExecOk(s, e);
    if !o.ok {
      MovedKeeps(s, e, WriteFailed);
    } else {
      var n := DoCallAllocate(s, e, o);
      CallerGoesOn(s, e, o);
      forall f | f in n.execs && f != e ensures ExecOk(n, f) {
        assert ExecOk(s, f);
        ExecUndisturbed(s, n, f);
      }
    }
  }

  lemma MovesKeep(s: State, e: nat, o: Outcome)
    requires Inv(s) && e in s.execs && !WritesStatus(s.execs[e].pc) && !WritesMeta(s.execs[e].pc) &&
             !s.execs[e].pc.CallAllocate?
    ensures Inv(Moved(s, e, NextPc(s.execs[e], o)))
  {
    assert ExecOk(s, e);
    MovedKeeps(s, e, NextPc(s.execs[e], o));
  }

  lemma ContinueKeeps(s: State, e: nat, o: Outcome)
    requires Inv(s)
    ensures Inv(DoContinue(s, e, o))
  {
    if e in s.execs {
      var pc := s.execs[e].pc;
      if WritesStatus(pc) || WritesMeta(pc) {
        DoWriteKeeps(s, e, o);
      } else if pc.CallAllocate? {
        CallAllocateKeeps(s, e, o);
      } else {
        MovesKeep(s, e, o);
      }
    }
  }

  /** An execution either leaves the claim alone or persists exactly its intent on the latest version. */
  lemma ContinueWritesIntent(s: State, e: nat, o: Outcome)
    requires Inv(s) && e in s.execs
    ensures var x := s.execs[e];
            var d := DoContinue(s, e, o).cell;
            d == s.cell ||
            ((WritesStatus(x.pc) || WritesMeta(x.pc)) && Accepts(s.cell, x.base) && x.local == s.cell.Latest() &&
             d == Persist(s.cell, Intent(x, s.name, o), Execution(e)))
  {
    var x := s.execs[e];
    assert ExecOk(s, e);
    if (WritesStatus(x.pc) || WritesMeta(x.pc)) && Accepts(s.cell, x.base) {
      IntentIsOrderly(s, e, o);
    }
  }

  lemma StepKeeps(s: State, step: Step)
    requires Inv(s)
    ensures Inv(Do(s, step))
  {
    match step
    case Begin(e, k) => BeginKeeps(s, e, k);
    case Continue(e, o) => ContinueKeeps(s, e, o);
    case _ => OutsideKeeps(s, step);
  }

  // ---------------------------------------------------------------- runs

  function Run(s: State, steps: seq<Step>): (n: State)
    requires s.cell.versions != []
    ensures n.cell.versions != []
  {
    if steps == [] then s else Do(Run(s, steps[..|steps| - 1]), steps[|steps| - 1])
  }

  lemma {:induction false} RunKeeps(s: State, steps: seq<Step>)
    requires Inv(s)
    ensures Inv(Run(s, steps))
    decreases |steps|
  {
    if steps == [] {
    } else {
      RunKeeps(s, steps[..|steps| - 1]);
      StepKeeps(Run(s, steps[..|steps| - 1]), steps[|steps| - 1]);
    }
  }

  /** Locks and resets alternate, whatever else happens between them. */
  lemma {:induction false} LocksFollowResets(v: seq<Claim>)
    requires v != [] && v[0].status.wanInterface == ""
    ensures |LockVersions(v)| == ResetCount(v) + (if v[|v| - 1].status.wanInterface != "" then 1 else 0)
    decreases |v|
  {
    if |v| == 1 {
      assert LockVersions(v) == {};
    } else {
      var u := v[..|v| - 1];
      var last := |v| - 1;
      LocksFollowResets(u);
      forall k: nat | k < |u| ensures LocksAt(u, k) == LocksAt(v, k) {}
      if LocksAt(v, last) {
        assert LockVersions(v) == LockVersions(u) + {last};
      } else {
        assert LockVersions(v) == LockVersions(u);
      }
    }
  }

  // -------------------------------------------------------- main results

  /** s is the state after some run from a newly created claim. */
  ghost predicate Reachable(s: State) {
    exists s0: State, steps: seq<Step> :: Initial(s0) && s == Run(s0, steps)
  }

  lemma ReachableKeeps(s: State)
    requires Reachable(s)
    ensures Inv(s)
  {
    var s0: State, steps: seq<Step> :| Initial(s0) && s == Run(s0, steps);
    RunKeeps(s0, steps);
  }

  /** However many executions run concurrently, whatever they read and whichever
      writes fail, the agent is called for an allocation at most once, plus once
      for each persisted reset of WanInterface to empty. */
  lemma AllocationsAreBounded(s: State)
    requires Reachable(s)
    ensures s.allocations <= 1 + ResetCount(s.cell.versions)
  {
    ReachableKeeps(s);
    SubsetSize(s.posted, LockVersions(s.cell.versions));
    LocksFollowResets(s.cell.versions);
  }

  /** A version becomes Ready only through the execution that took the lock, and
      only directly on top of the version with which it took it. */
  lemma ReadyIsWrittenByTheLockWinner(s: State, k: nat)
    requires Reachable(s)
    requires var v := s.cell.versions;
             1 <= k < |v| && v[k].status.phase == Ready && v[k - 1].status.phase != Ready
    ensures var v, w := s.cell.versions, s.cell.writers;
            && 2 <= k < |w|
            && Locks(v[k - 2], v[k - 1])
            && w[k - 1].Execution? && w[k] == w[k - 1]
            && v[k].status.wanInterface == v[k - 1].status.wanInterface
  {
    ReachableKeeps(s);
    assert SuccessorOk(s.cell.versions, s.cell.writers, k - 1);
  }

  /** In every version ever persisted AssignedIP is set exactly when the phase is
      Ready, and a Ready claim names its interface and MAC address. */
  lemma EveryVersionIsConsistent(s: State, k: nat)
    requires Reachable(s) && k < |s.cell.versions|
    ensures StatusOk(s.cell.versions[k].status)
  {
    ReachableKeeps(s);
    assert VersionOk(s.cell.versions[k]);
  }

  /** No allocation request and no pool addition is made from a version without
      the finalizer: every execution on that path, and every request ever made,
      stands on a persisted version that has it. */
  lemma FinalizerPrecedesEffects(s: State)
    requires Reachable(s)
    ensures forall e :: e in s.execs && Allocating(s.execs[e].pc) ==>
              s.execs[e].base < |s.cell.versions| && s.cell.versions[s.execs[e].base].finalizer
    ensures forall k :: k in s.posted ==> k < |s.cell.versions| && s.cell.versions[k].finalizer
    ensures s.allocations == |s.posted|
  {
    ReachableKeeps(s);
    forall e | e in s.execs && Allocating(s.execs[e].pc)
      ensures s.execs[e].base < |s.cell.versions| && s.cell.versions[s.execs[e].base].finalizer
    {
      assert ExecOk(s, e);
    }
    forall k | k in s.posted ensures k < |s.cell.versions| && s.cell.versions[k].finalizer {
      assert LocksAt(s.cell.versions, k);
      assert SuccessorOk(s.cell.versions, s.cell.writers, k - 1);
    }
  }

  lemma {:induction false} FrozenStatus(cell: Cell, k: nat, m: nat)
    requires CellOk(cell) && k <= m < |cell.versions| && cell.versions[k].deleting
    ensures cell.versions[m].deleting && cell.versions[m].status == cell.versions[k].status
    decreases m
  {
    if k == m {
    } else {
      FrozenStatus(cell, k, m - 1);
      assert SuccessorOk(cell.versions, cell.writers, m - 1);
    }
  }

  /** Once deletion is requested no execution, however stale its copy, changes the status again. */
  lemma DeletionFreezesStatus(s: State, k: nat, m: nat)
    requires Reachable(s) && k <= m < |s.cell.versions| && s.cell.versions[k].deleting
    ensures s.cell.versions[m].deleting && s.cell.versions[m].status == s.cell.versions[k].status
  {
    ReachableKeeps(s);
    FrozenStatus(s.cell, k, m);
  }

  /** What others do to an object that exists: the spec, the event mark and the deletion
      mark change as they ask, the status never, and an object without finalizer goes at once. */
  lemma OutsideChanges(s: State, step: Step)
    requires s.cell.versions != [] && !s.cell.gone && (step.EditSpec? || step.RouterEvent? || step.RequestDeletion?)
    ensures var b, n := s.cell.Latest(), Do(s, step).cell;
            && n.versions != [] && Do(s, step).execs == s.execs
            && var a := n.Latest();
               && a.status == b.status && a.finalizer == b.finalizer
               && (step.EditSpec? ==> a.spec == step.spec && a.event == b.event && a.deleting == b.deleting)
               && (step.RouterEvent? ==> a.event && a.spec == b.spec && a.deleting == b.deleting)
               && (step.RequestDeletion? ==> a.spec == b.spec && a.event == b.event)
               && (step.RequestDeletion? && b.finalizer ==> a.deleting && !n.gone)
               && (step.RequestDeletion? && !b.finalizer && !b.deleting ==> n.gone)
  {}

  predicate IsPlainNameChar(c: char) { 'a' <= c <= 'z' || '0' <= c <= '9' || c == '-' }

  /** A configured interface name is used as it is. A generated one is "wan-" and up to ten
      characters of the claim's name, lower-cased, with a dash for each character that
      interface names do not have; it fits the kernel's limit and the router's name check. */
  lemma GeneratedNameIsUsable(spec: Spec, name: string)
    ensures spec.wanInterface != "" ==> WanName(spec, name) == spec.wanInterface
    ensures spec.wanInterface == "" ==>
            var w := WanName(spec, name);
            && w[..4] == "wan-" && |w| == 4 + Min(|name|, 10) && |w| <= 14 && SQ.ValidInterfaceName(w)
            && forall i :: 0 <= i < |w| - 4 ==>
                 if IsPlainNameChar(name[i]) then w[4 + i] == name[i]
                 else if 'A' <= name[i] <= 'Z' then w[4 + i] as int == name[i] as int + 32
                 else w[4 + i] == '-'
  {
    if spec.wanInterface == "" {
      var w := WanName(spec, name);
      forall i | 0 <= i < |w| - 4 ensures w[4 + i] == LowerOrDash(name[i]) {
        assert w[4 + i] == SanitizeName(name)[i];
      }
      forall i | 0 <= i < |w| ensures SQ.IsNameChar(w[i]) {
        if i >= 4 { assert w[4 + (i - 4)] == LowerOrDash(name[i - 4]); }
      }
    }
  }

  /** Two claims get the same generated name exactly when their names agree, letter
      case and invalid characters aside, up to the tenth character, and neither
      ends before it unless both end together. */
  lemma GeneratedNamesCollideExactlyWhen(spec: Spec, a: string, b: string)
    requires spec.wanInterface == ""
    ensures WanName(spec, a) == WanName(spec, b) <==>
            && (|a| == |b| || (|a| >= 10 && |b| >= 10))
            && forall i :: 0 <= i < 10 && i < |a| && i < |b| ==> LowerOrDash(a[i]) == LowerOrDash(b[i])
  {
    var x, y := SanitizeName(a), SanitizeName(b);
    assert WanName(spec, a)[4..] == x && WanName(spec, b)[4..] == y;
    assert forall i :: 0 <= i < |x| ==> x[i] == LowerOrDash(a[i]);
    assert forall i :: 0 <= i < |y| ==> y[i] == LowerOrDash(b[i]);
    if x == y {
      forall i | 0 <= i < 10 && i < |a| && i < |b| ensures LowerOrDash(a[i]) == LowerOrDash(b[i]) {
        assert x[i] == y[i];
      }
    }
  }

  /** Two claims that differ in their eleventh character. */
  lemma GeneratedNamesCanCollide(spec: Spec)
    requires spec.wanInterface == ""
    ensures WanName(spec, "public-ip-1") == WanName(spec, "public-ip-2")
  {
    GeneratedNamesCollideExactlyWhen(spec, "public-ip-1", "public-ip-2");
  }
}
