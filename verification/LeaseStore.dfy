/** The lease data shared by the agent modules (internal/agent/lease/types.go:26-41). */
module Leases {
  datatype Status = Active | Stale | Expired

  /** A stored lease; the raw DHCP packets and the creation time are carried as opaque text. */
  datatype Lease = Lease(
    iface: string, wanParent: string, ip: string, serverIP: string, mac: string,
    expiresAt: int, leaseTime: int, renewalCount: nat, status: Status,
    interfaceExists: bool, packets: string)

  type LeaseMap = map<string, Lease>

  /** What neither RENEW nor REBIND nor start-up verification changes. */
  predicate SameIdentity(a: Lease, b: Lease) {
    a.iface == b.iface && a.ip == b.ip && a.mac == b.mac && a.wanParent == b.wanParent
  }

  /** What start-up verification finds for one stored lease. */
  datatype Finding =
    | CheckFailed
    | InterfaceMissing
    | RenewalFailed
    | Renewed(leaseTime: int, at: int, packets: string)

  function Verified(l: Lease, f: Finding): Lease {
    match f
    case CheckFailed => l
    case InterfaceMissing => l.(status := Stale, interfaceExists := false)
    case RenewalFailed => l.(status := Stale, interfaceExists := true)
    case Renewed(time, at, packets) =>
      l.(status := Active, interfaceExists := true, expiresAt := at + time, leaseTime := time,
         renewalCount := l.renewalCount + 1, packets := packets)
  }

  /** Who runs inside the agent: the handler of a request from execution `exec` of
      the claim under study, the handler of any other request, or a background
      goroutine (a renewal loop or start-up verification). */
  datatype Caller = FromClaim(exec: nat) | FromElsewhere(n: nat) | Background(n: nat)

  /** The agent's answers: 201, 409, 503, 404, 204 and 500. */
  datatype Reply = Created(ip: string) | Conflict | Unavailable | NotFound | NoContent | ServerError
}

/** The lease store under any number of goroutines and process crashes
    (internal/agent/lease/types.go). Every lock region and every file operation
    of Set, Delete, save and load is one atomic step; a crash may fall between
    any two steps. A step that is not enabled leaves the state as it is, so a
    run is any sequence of steps. */
module LeaseStore {
  import opened Common
  import opened Leases

  // ------------------------------------------------------------------ state

  datatype Op = SetLease(lease: Lease) | DeleteLease(iface: string)

  /** Content of a file: Partial is what a WriteFile that has not finished leaves. */
  datatype File = Absent | Partial | Whole(leases: LeaseMap)

  /** One call of Set or Delete; pos is the position of its update among all updates. */
  datatype Call =
    | Queued(pos: nat)                                  // map updated, waiting for saveMu
    | Saving(pos: nat)                                  // holds saveMu
    | Marshalled(pos: nat, data: LeaseMap, upto: nat)   // has encoded the first `upto` updates
    | Writing(pos: nat, data: LeaseMap, upto: nat)      // temp file truncated
    | Written(pos: nat, data: LeaseMap, upto: nat)      // temp file complete
    | Renamed(pos: nat)                                 // temp file renamed over the state file
    | ReturnedNil(pos: nat)
    | ReturnedError
  {
    predicate HoldsSaveLock() { Saving? || Marshalled? || Writing? || Written? || Renamed? }
  }

  /** log and durable are history variables: the updates made so far, and how
      many of them the state file reflects. */
  datatype Store = Store(
    up: bool, mem: LeaseMap, tmp: File, file: File,
    saveLock: Option<Caller>, calls: map<Caller, Call>,
    log: seq<Op>, durable: nat, acked: set<nat>)

  const FRESH: Store := Store(true, map[], Absent, Absent, None, map[], [], 0, {})

  datatype Step =
    | Update(t: Caller, op: Op)         // s.mu region of Set / Delete
    | LockSave(t: Caller)               // saveMu.Lock
    | Marshal(t: Caller, ok: bool)      // RLock region of save
    | OpenTmp(t: Caller, ok: bool)      // WriteFile: open and truncate
    | FillTmp(t: Caller, ok: bool)      // WriteFile: write
    | Rename(t: Caller, ok: bool)
    | Return(t: Caller)                 // saveMu.Unlock, return nil
    | Crash
    | Restart(ok: bool)              // NewStore and load

  // ------------------------------------------------------- reference meaning

  function ApplyOp(m: LeaseMap, op: Op): LeaseMap {
    match op
    case SetLease(l) => m[l.iface := l]
    case DeleteLease(i) => m - {i}
  }

  /** What a store holding exactly these updates contains. */
  function Replay(log: seq<Op>): LeaseMap {
    if log == [] then map[] else ApplyOp(Replay(log[..|log| - 1]), log[|log| - 1])
  }

  // ------------------------------------------------------------------ steps

  function Fail(s: Store, t: Caller): Store {
    s.(calls := s.calls[t := ReturnedError], saveLock := None)
  }

  function DoUpdate(s: Store, t: Caller, op: Op): Store {
    if s.up && t !in s.calls then
      s.(mem := ApplyOp(s.mem, op), log := s.log + [op], calls := s.calls[t := Queued(|s.log|)])
    else s
  }

  function DoLockSave(s: Store, t: Caller): Store {
    if t in s.calls && s.calls[t].Queued? && s.saveLock.None? then
      s.(saveLock := Some(t), calls := s.calls[t := Saving(s.calls[t].pos)])
    else s
  }

  function DoMarshal(s: Store, t: Caller, ok: bool): Store {
    if t !in s.calls || !s.calls[t].Saving? then s
    else if ok then s.(calls := s.calls[t := Marshalled(s.calls[t].pos, s.mem, |s.log|)])
    else Fail(s, t)
  }

  function DoOpenTmp(s: Store, t: Caller, ok: bool): Store {
    if t !in s.calls || !s.calls[t].Marshalled? then s
    else if ok then
      var c := s.calls[t];
      s.(tmp := Partial, calls := s.calls[t := Writing(c.pos, c.data, c.upto)])
    else Fail(s, t)
  }

  function DoFillTmp(s: Store, t: Caller, ok: bool): Store {
    if t !in s.calls || !s.calls[t].Writing? then s
    else if ok then
      var c := s.calls[t];
      s.(tmp := Whole(c.data), calls := s.calls[t := Written(c.pos, c.data, c.upto)])
    else Fail(s, t)
  }

  function DoRename(s: Store, t: Caller, ok: bool): Store {
    if t !in s.calls || !s.calls[t].Written? then s
    else if ok then
      s.(file := s.tmp, tmp := Absent, durable := s.calls[t].upto,
         calls := s.calls[t := Renamed(s.calls[t].pos)])
    else Fail(s, t)
  }

  function DoReturn(s: Store, t: Caller): Store {
    if t in s.calls && s.calls[t].Renamed? then
      s.(saveLock := None, acked := s.acked + {s.calls[t].pos},
         calls := s.calls[t := ReturnedNil(s.calls[t].pos)])
    else s
  }

  /** The process dies: memory, locks and calls are gone, the files stay. */
  function DoCrash(s: Store): Store {
    if s.durable <= |s.log| then
      s.(up := false, mem := map[], saveLock := None, calls := map[], log := s.log[..s.durable])
    else s
  }

  /** load: a missing file is an empty store, an unreadable or incomplete one an error. */
  function DoRestart(s: Store, ok: bool): Store {
    if s.up || !ok then s
    else match s.file
      case Absent => s.(up := true, mem := map[])
      case Whole(m) => s.(up := true, mem := m)
      case Partial => s
  }

  function Do(s: Store, step: Step): Store {
    match step
    case Update(t, op) => DoUpdate(s, t, op)
    case LockSave(t) => DoLockSave(s, t)
    case Marshal(t, ok) => DoMarshal(s, t, ok)
    case OpenTmp(t, ok) => DoOpenTmp(s, t, ok)
    case FillTmp(t, ok) => DoFillTmp(s, t, ok)
    case Rename(t, ok) => DoRename(s, t, ok)
    case Return(t) => DoReturn(s, t)
    case Crash => DoCrash(s)
    case Restart(ok) => DoRestart(s, ok)
  }

  function Run(s: Store, steps: seq<Step>): Store {
    if steps == [] then s else Do(Run(s, steps[..|steps| - 1]), steps[|steps| - 1])
  }

  // -------------------------------------------------------------- invariant

  ghost predicate CallOk(s: Store, t: Caller)
    requires t in s.calls && s.durable <= |s.log|
  {
    var c := s.calls[t];
    && (c.HoldsSaveLock() ==> s.saveLock == Some(t))
    && (c.Queued? || c.Saving? ==> c.pos < |s.log|)
    && (c.Marshalled? || c.Writing? || c.Written? ==>
          c.pos < c.upto <= |s.log| && s.durable <= c.upto && c.data == Replay(s.log[..c.upto]))
    && (c.Written? ==> s.tmp == Whole(c.data))
    && (c.Renamed? ==> c.pos < s.durable)
    && (c.ReturnedNil? ==> c.pos in s.acked)
  }

  ghost predicate Inv(s: Store) {
    && s.durable <= |s.log|
    && !s.file.Partial?
    && (s.file.Absent? ==> s.durable == 0)
    && (s.file.Whole? ==> s.file.leases == Replay(s.log[..s.durable]))
    && (s.up ==> s.mem == Replay(s.log))
    && (!s.up ==> s.calls == map[] && s.log == s.log[..s.durable])
    && (forall p :: p in s.acked ==> p < s.durable)
    && (forall t :: t in s.calls ==> CallOk(s, t))
  }

  /** What one step may do to the durable past: nothing. */
  ghost predicate Extends(s: Store, n: Store) {
    && s.durable <= |s.log| && n.durable <= |n.log|
    && s.durable <= n.durable
    && n.log[..s.durable] == s.log[..s.durable]
    && s.acked <= n.acked
  }

  lemma ReplayAppend(log: seq<Op>, op: Op)
    ensures Replay(log + [op]) == ApplyOp(Replay(log), op)
  {
    assert (log + [op])[..|log|] == log;
  }

  /** A lease is stored under its own interface. */
  lemma {:induction false} ReplayKeyed(log: seq<Op>)
    ensures forall i :: i in Replay(log) ==> Replay(log)[i].iface == i
    decreases |log|
  {
    if log == [] {
      assert Replay(log) == map[];
    } else {
      ReplayKeyed(log[..|log| - 1]);
    }
  }

  function Target(op: Op): string { if op.SetLease? then op.lease.iface else op.iface }

  /** For each interface the last update made to it decides what the store holds. */
  lemma {:induction false} LastUpdateDecides(log: seq<Op>, p: nat)
    requires p < |log|
    requires forall q :: p < q < |log| ==> Target(log[q]) != Target(log[p])
    ensures match log[p]
            case SetLease(l) => l.iface in Replay(log) && Replay(log)[l.iface] == l
            case DeleteLease(i) => i !in Replay(log)
    decreases |log|
  {
    if p == |log| - 1 {
    } else {
      assert log[..|log| - 1][p] == log[p];
      assert Target(log[|log| - 1]) != Target(log[p]);
      LastUpdateDecides(log[..|log| - 1], p);
    }
  }

  lemma UpdateKeeps(s: Store, t: Caller, op: Op)
    requires Inv(s)
    ensures Inv(DoUpdate(s, t, op)) && Extends(s, DoUpdate(s, t, op))
  {
    var n := DoUpdate(s, t, op);
    if n != s {
      ReplayAppend(s.log, op);
      assert n.log[..s.durable] == s.log[..s.durable];
      forall u | u in n.calls ensures CallOk(n, u) {
        if u != t {
          assert CallOk(s, u);
          var c := s.calls[u];
          if c.Marshalled? || c.Writing? || c.Written? {
            assert n.log[..c.upto] == s.log[..c.upto];
          }
        }
      }
    }
  }

  lemma LockKeeps(s: Store, t: Caller)
    requires Inv(s)
    ensures Inv(DoLockSave(s, t)) && Extends(s, DoLockSave(s, t))
  {
    var n := DoLockSave(s, t);
    forall u | u in n.calls ensures CallOk(n, u) {
      assert u in s.calls && CallOk(s, u);
    }
  }

  lemma MarshalKeeps(s: Store, t: Caller, ok: bool)
    requires Inv(s)
    ensures Inv(DoMarshal(s, t, ok)) && Extends(s, DoMarshal(s, t, ok))
  {
    var n := DoMarshal(s, t, ok);
    assert s.log[..|s.log|] == s.log;
    assert !s.up ==> s.calls == map[];
    forall u | u in n.calls ensures CallOk(n, u) {
      assert u in s.calls && CallOk(s, u);
    }
  }

  lemma OpenKeeps(s: Store, t: Caller, ok: bool)
    requires Inv(s)
    ensures Inv(DoOpenTmp(s, t, ok)) && Extends(s, DoOpenTmp(s, t, ok))
  {
    var n := DoOpenTmp(s, t, ok);
    forall u | u in n.calls ensures CallOk(n, u) {
      assert u in s.calls && CallOk(s, u);
      assert t in s.calls ==> CallOk(s, t);
    }
  }

  lemma FillKeeps(s: Store, t: Caller, ok: bool)
    requires Inv(s)
    ensures Inv(DoFillTmp(s, t, ok)) && Extends(s, DoFillTmp(s, t, ok))
  {
    var n := DoFillTmp(s, t, ok);
    forall u | u in n.calls ensures CallOk(n, u) {
      assert u in s.calls && CallOk(s, u);
      assert t in s.calls ==> CallOk(s, t);
    }
  }

  lemma RenameKeeps(s: Store, t: Caller, ok: bool)
    requires Inv(s)
    ensures Inv(DoRename(s, t, ok)) && Extends(s, DoRename(s, t, ok))
  {
    var n := DoRename(s, t, ok);
    assert t in s.calls ==> CallOk(s, t);
    forall u | u in n.calls ensures CallOk(n, u) {
      assert u in s.calls && CallOk(s, u);
    }
  }

  lemma ReturnKeeps(s: Store, t: Caller)
    requires Inv(s)
    ensures Inv(DoReturn(s, t)) && Extends(s, DoReturn(s, t))
  {
    var n := DoReturn(s, t);
    assert t in s.calls ==> CallOk(s, t);
    forall u | u in n.calls ensures CallOk(n, u) {
      assert u in s.calls && CallOk(s, u);
    }
  }

  lemma CrashAndRestartKeep(s: Store, ok: bool)
    requires Inv(s)
    ensures Inv(DoCrash(s)) && Extends(s, DoCrash(s))
    ensures Inv(DoRestart(s, ok)) && Extends(s, DoRestart(s, ok))
  {
    var c := DoCrash(s);
    assert c.log[..s.durable] == s.log[..s.durable] == c.log;
  }

  lemma StepKeeps(s: Store, step: Step)
    requires Inv(s)
    ensures Inv(Do(s, step)) && Extends(s, Do(s, step))
  {
    match step
    case Update(t, op) => UpdateKeeps(s, t, op);
    case LockSave(t) => LockKeeps(s, t);
    case Marshal(t, ok) => MarshalKeeps(s, t, ok);
    case OpenTmp(t, ok) => OpenKeeps(s, t, ok);
    case FillTmp(t, ok) => FillKeeps(s, t, ok);
    case Rename(t, ok) => RenameKeeps(s, t, ok);
    case Return(t) => ReturnKeeps(s, t);
    case Crash => CrashAndRestartKeep(s, true);
    case Restart(ok) => CrashAndRestartKeep(s, ok);
  }

  lemma {:induction false} RunKeeps(s: Store, steps: seq<Step>)
    requires Inv(s)
    ensures Inv(Run(s, steps)) && Extends(s, Run(s, steps))
    decreases |steps|
  {
    if steps == [] {
    } else {
      var mid := Run(s, steps[..|steps| - 1]);
      RunKeeps(s, steps[..|steps| - 1]);
      StepKeeps(mid, steps[|steps| - 1]);
      var n := Run(s, steps);
      assert n.log[..s.durable] == n.log[..mid.durable][..s.durable];
      assert mid.log[..s.durable] == mid.log[..mid.durable][..s.durable];
    }
  }

  lemma {:induction false} RunSplit(s: Store, a: seq<Step>, b: seq<Step>)
    ensures Run(s, a + b) == Run(Run(s, a), b)
    decreases |b|
  {
    if b == [] {
      assert a + b == a;
    } else {
      assert (a + b)[..|a + b| - 1] == a + b[..|b| - 1];
      RunSplit(s, a, b[..|b| - 1]);
    }
  }

  // ---------------------------------------------------------- main results

  /** In every reachable state the state file is a complete snapshot: what the
      store contained after the first `durable` updates, never a torn write. */
  lemma StateFileIsASnapshot(steps: seq<Step>)
    ensures var s := Run(FRESH, steps);
            && s.durable <= |s.log|
            && (if s.file == Absent then s.durable == 0 else s.file == Whole(Replay(s.log[..s.durable])))
            && (s.up ==> s.mem == Replay(s.log))
  {
    RunKeeps(FRESH, steps);
  }

  /** The state file never goes back: from any point of any run to any later
      point, crashes included, the updates it reflects only grow at the end. */
  lemma StateFileNeverGoesBack(before: seq<Step>, after: seq<Step>)
    ensures var s := Run(FRESH, before);
            var n := Run(FRESH, before + after);
            s.durable <= |s.log| && n.durable <= |n.log| &&
            s.log[..s.durable] <= n.log[..n.durable]
  {
    RunKeeps(FRESH, before);
    RunSplit(FRESH, before, after);
    var s := Run(FRESH, before);
    RunKeeps(s, after);
    var n := Run(FRESH, before + after);
    assert n.log[..n.durable][..s.durable] == n.log[..s.durable];
  }

  /** A Set or Delete that returned nil is in the state file at that moment and
      for ever after, at the position where it was made; so whatever crashes
      follow, the next successful load sees it. */
  lemma AcknowledgedUpdateSurvives(before: seq<Step>, after: seq<Step>, t: Caller)
    requires var s := Run(FRESH, before); t in s.calls && s.calls[t].ReturnedNil?
    ensures var s := Run(FRESH, before);
            var n := Run(FRESH, before + after);
            var p := s.calls[t].pos;
            && p < s.durable <= |s.log| && p < n.durable <= |n.log|
            && n.log[p] == s.log[p]
            && (n.up ==> n.mem == Replay(n.log))
            && (n.file.Whole? && n.file.leases == Replay(n.log[..n.durable]))
  {
    RunKeeps(FRESH, before);
    var s := Run(FRESH, before);
    assert CallOk(s, t);
    RunSplit(FRESH, before, after);
    RunKeeps(s, after);
    var n := Run(FRESH, before + after);
    var p := s.calls[t].pos;
    assert n.log[p] == n.log[..s.durable][p] == s.log[..s.durable][p];
  }

  /** In terms of one lease: once Set(l) has returned nil, a crash and restart
      brings exactly l back, unless an update of the same interface made after
      it has reached the state file too. */
  lemma AcknowledgedLeaseIsReloaded(before: seq<Step>, after: seq<Step>, t: Caller, l: Lease)
    requires var s := Run(FRESH, before);
             t in s.calls && s.calls[t].ReturnedNil? && s.calls[t].pos < |s.log| && s.log[s.calls[t].pos] == SetLease(l)
    ensures var p := Run(FRESH, before).calls[t].pos;
            var n := Run(FRESH, before + after);
            var r := Do(Do(n, Crash), Restart(true));
            n.durable <= |n.log| && r.up &&
            ((forall q :: p < q < n.durable ==> Target(n.log[q]) != l.iface) ==>
              l.iface in r.mem && r.mem[l.iface] == l)
  {
    AcknowledgedUpdateSurvives(before, after, t);
    var p := Run(FRESH, before).calls[t].pos;
    var n := Run(FRESH, before + after);
    RunKeeps(FRESH, before + after);
    var c := Do(n, Crash);
    var d := n.log[..n.durable];
    assert c.log == d && c.log[..n.durable] == d;
    if forall q :: p < q < n.durable ==> Target(n.log[q]) != l.iface {
      assert d[p] == SetLease(l);
      LastUpdateDecides(d, p);
    }
  }

  /** Restarting after a crash always finds a file it can load, and the store
      it loads is the one the durable updates describe. */
  lemma RestartLoadsTheDurableState(steps: seq<Step>)
    requires !Run(FRESH, steps).up
    ensures var s := Run(FRESH, steps);
            var n := Do(s, Restart(true));
            s.durable <= |s.log| && n.up && n.mem == Replay(s.log[..s.durable])
  {
    RunKeeps(FRESH, steps);
  }

  // ---------------------------------------------------- saves that work, and fail

  /** A save that nothing disturbs ends with the memory in the state file and with nil. */
  lemma UndisturbedSaveSucceeds(s: Store, t: Caller)
    requires Inv(s) && t in s.calls && s.calls[t].Queued? && s.saveLock.None?
    ensures var written := Do(Do(Do(Do(s, LockSave(t)), Marshal(t, true)), OpenTmp(t, true)), FillTmp(t, true));
            var n := Do(Do(written, Rename(t, true)), Return(t));
            && n.calls[t] == ReturnedNil(s.calls[t].pos) && n.file == Whole(s.mem) && n.tmp == Absent
            && n.saveLock == None && n.mem == s.mem && n.log == s.log
  {}

  /** A file operation that fails is the call's error; the state file is untouched and the lock is free again. */
  lemma FailedSaveReturnsAnError(s: Store, t: Caller)
    requires t in s.calls
    ensures forall step :: step in {Marshal(t, false), OpenTmp(t, false), FillTmp(t, false), Rename(t, false)} ==>
              var n := Do(s, step);
              || n == s
              || (n.calls == s.calls[t := ReturnedError] && n.saveLock == None && n.file == s.file && n.mem == s.mem)
    ensures s.calls[t].Saving? ==> Do(s, Marshal(t, false)).calls[t].ReturnedError?
    ensures s.calls[t].Marshalled? ==> Do(s, OpenTmp(t, false)).calls[t].ReturnedError?
    ensures s.calls[t].Writing? ==> Do(s, FillTmp(t, false)).calls[t].ReturnedError?
    ensures s.calls[t].Written? ==> Do(s, Rename(t, false)).calls[t].ReturnedError?
  {}
}
