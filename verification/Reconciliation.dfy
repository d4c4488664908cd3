/** One execution of Reconcile as the straight-line code it is
    (internal/controller/publicipclaim_controller.go:106-385, 629-636), against the
    step machine of ClaimRuns: whatever runs beside it, an execution makes the calls
    and writes of this script, and nothing else. */
module Reconciliation {
  import opened Common
  import opened Claims
  import CR = ClaimRuns

  /** A call that Reconcile makes, in the order it makes them. */
  datatype Action =
    | Probe(iface: string)                    // is the interface there, is the configuration in place?
    | Release(iface: string)                  // cleanupRouterInterface
    | Allocate(iface: string, mac: string)    // the request of runRouterScript
    | Receive                                 // its answer
    | Enpool(pool: string, ip: string)
    | Unpool(pool: string, ip: string)
    | Put(claim: Claim)                       // an update of the object or its status

  // ---------------------------------------------------------------- the script

  /** A last call: nothing depends on its outcome. */
  function Last(a: Action, o: seq<CR.Outcome>): seq<Action> { if o == [] then [] else [a] }

  /** fail (:629-636). */
  function Fail(c: Claim, o: seq<CR.Outcome>): seq<Action> {
    var st := c.status;
    Last(Put(c.(status := Status(Failed, st.wanInterface, st.mac, st.assignedIP))), o)
  }

  /** :106-136; o lists the outcomes of the calls made so far. */
  function Delete(c: Claim, o: seq<CR.Outcome>): seq<Action> {
    if o == [] then []
    else
      [Release(c.status.wanInterface)] +
      if c.status.assignedIP == "" then Last(Put(c.(finalizer := false)), o[1..])
      else if o[1..] == [] then []
      else
        [Unpool(c.spec.poolName, c.status.assignedIP)] +
        if o[1].ok then Last(Put(c.(finalizer := false)), o[2..]) else []
  }

  /** The claim with nothing allocated, to be provisioned again. */
  function Unprovisioned(c: Claim): Claim { c.(status := Status(Pending, "", c.status.mac, "")) }

  /** :150-199. */
  function AfterEvent(c: Claim, o: seq<CR.Outcome>): seq<Action> {
    if o == [] then []
    else
      [Probe(c.status.wanInterface)] +
      if c.status.wanInterface == "" || o[0].ok then Last(Put(c.(event := false)), o[1..])
      else if o[1..] == [] then []
      else
        [Put(Unprovisioned(c))] +
        if o[1].write.Applied? then Last(Put(Unprovisioned(c).(event := false)), o[2..]) else []
  }

  /** :202-272. */
  function Reverify(c: Claim, o: seq<CR.Outcome>): seq<Action> {
    if o == [] then []
    else
      [Probe(c.status.wanInterface)] +
      if o[0].ok || o[1..] == [] then []
      else
        [Put(Unprovisioned(c))] +
        if o[1].write.Applied? then Last(Unpool(c.spec.poolName, c.status.assignedIP), o[2..]) else []
  }

  /** :314-385: lock, ask the agent, pool the address, report. */
  function Provision(c: Claim, name: string, o: seq<CR.Outcome>): seq<Action> {
    if o == [] then []
    else
      var mac := if c.spec.macAddress != "" then c.spec.macAddress else "02:" + o[0].mac;
      var locked := c.(status := Status(c.status.phase, WanName(c.spec, name), mac, c.status.assignedIP));
      [Put(locked)] + if o[0].write.Applied? then Ask(locked, o[1..]) else []
  }

  function Ask(c: Claim, o: seq<CR.Outcome>): seq<Action> {
    if o == [] then []
    else
      [Allocate(c.status.wanInterface, c.status.mac)] +
      if !o[0].ok then Fail(c, o[1..])
      else if o[1..] == [] then []
      else
        [Receive] +
        if o[1].ok && o[1].reply != "" then Publish(c, o[1].reply, o[2..]) else Fail(c, o[2..])
  }

  function Publish(c: Claim, ip: string, o: seq<CR.Outcome>): seq<Action> {
    if o == [] then []
    else
      [Enpool(c.spec.poolName, ip)] +
      if o[0].ok then Last(Put(c.(status := Status(Ready, c.status.wanInterface, c.status.mac, ip))), o[1..])
      else Fail(c, o[1..])
  }

  /** :288-311. */
  function RequiredFields(s: Spec): seq<string> { [s.poolName, s.host, s.sshSecretRef, s.user, s.wanParent, s.command] }

  /** What Reconcile does about the claim it has read. */
  function Script(c: Claim, name: string, o: seq<CR.Outcome>): seq<Action> {
    if c.deleting then (if c.finalizer then Delete(c, o) else [])
    else if !c.finalizer then Last(Put(c.(finalizer := true)), o)
    else if c.event then AfterEvent(c, o)
    else if c.status.phase == Ready && c.status.assignedIP != "" then Reverify(c, o)
    else if c.status.wanInterface != "" || c.status.phase == Failed then []
    else if "" in RequiredFields(c.spec) then Fail(c, o)
    else Provision(c, name, o)
  }

  // ---------------------------------------------------- the machine, execution by execution

  predicate Writes(pc: Pc) { CR.WritesStatus(pc) || CR.WritesMeta(pc) }

  /** The call that an execution makes at its program counter. */
  function ActionAt(x: CR.Exec, name: string, o: CR.Outcome): Action {
    var c := x.local;
    match x.pc
    case CallCleanup => Release(c.status.wanInterface)
    case UnpoolDeleted => Unpool(c.spec.poolName, c.status.assignedIP)
    case UnpoolDrifted(ip) => Unpool(c.spec.poolName, ip)
    case EnsurePooled(ip) => Enpool(c.spec.poolName, ip)
    case HandleEvent => Probe(c.status.wanInterface)
    case Verify => Probe(c.status.wanInterface)
    case CallAllocate => Allocate(c.status.wanInterface, c.status.mac)
    case AwaitAddress => Receive
    case _ => Put(CR.Intent(x, name, o))
  }

  /** The execution after that call; a write that conflicts counts as rejected. */
  function After(x: CR.Exec, name: string, o: CR.Outcome): CR.Exec {
    if Writes(x.pc) then
      if o.write.Applied? then CR.Exec(CR.AfterWrite(x), CR.Intent(x, name, o), x.base + 1) else x.(pc := Done)
    else if x.pc.CallAllocate? then x.(pc := if o.ok then AwaitAddress else WriteFailed)
    else x.(pc := CR.NextPc(x, o))
  }

  /** The calls from here on, for the outcomes to come. */
  function Future(x: CR.Exec, name: string, o: seq<CR.Outcome>): seq<Action>
    decreases |o|
  {
    if o == [] || x.pc.Done? then []
    else [ActionAt(x, name, o[0])] + Future(After(x, name, o[0]), name, o[1..])
  }

  lemma FutureStep(x: CR.Exec, name: string, o: seq<CR.Outcome>)
    ensures o != [] && !x.pc.Done? ==>
            Future(x, name, o) == [ActionAt(x, name, o[0])] + Future(After(x, name, o[0]), name, o[1..])
    ensures o == [] || x.pc.Done? ==> Future(x, name, o) == []
  {}

  /** An execution whose next call is its last. */
  lemma LastCall(x: CR.Exec, name: string, o: seq<CR.Outcome>)
    requires !x.pc.Done? && (o != [] ==> After(x, name, o[0]).pc.Done?)
    ensures Future(x, name, o) == if o == [] then [] else [ActionAt(x, name, o[0])]
  {
    if o != [] {
      FutureStep(x, name, o);
      FutureStep(After(x, name, o[0]), name, o[1..]);
    }
  }

  lemma FailFuture(x: CR.Exec, name: string, o: seq<CR.Outcome>)
    requires x.pc == WriteFailed
    ensures Future(x, name, o) == Fail(x.local, o)
  {
    LastCall(x, name, o);
  }

  lemma DropFuture(x: CR.Exec, name: string, o: seq<CR.Outcome>)
    requires x.pc == DropFinalizer
    ensures Future(x, name, o) == Last(Put(x.local.(finalizer := false)), o)
  {
    LastCall(x, name, o);
  }

  lemma DeleteFuture(x: CR.Exec, name: string, o: seq<CR.Outcome>)
    requires x.pc == CallCleanup
    ensures Future(x, name, o) == Delete(x.local, o)
  {
    FutureStep(x, name, o);
    if o != [] {
      var y := After(x, name, o[0]);
      if y.pc == DropFinalizer {
        DropFuture(y, name, o[1..]);
      } else {
        FutureStep(y, name, o[1..]);
        if o[1..] != [] {
          var z := After(y, name, o[1]);
          assert o[1..][1..] == o[2..];
          if o[1].ok { DropFuture(z, name, o[2..]); } else { FutureStep(z, name, o[2..]); }
        }
      }
    }
  }

  lemma EventFuture(x: CR.Exec, name: string, o: seq<CR.Outcome>)
    requires x.pc == HandleEvent
    ensures Future(x, name, o) == AfterEvent(x.local, o)
  {
    FutureStep(x, name, o);
    if o != [] {
      var y := After(x, name, o[0]);
      if y.pc == ClearEvent {
        LastCall(y, name, o[1..]);
      } else {
        FutureStep(y, name, o[1..]);
        if o[1..] != [] {
          assert o[1..][1..] == o[2..];
          var z := After(y, name, o[1]);
          if o[1].write.Applied? { LastCall(z, name, o[2..]); } else { FutureStep(z, name, o[2..]); }
        }
      }
    }
  }

  lemma VerifyFuture(x: CR.Exec, name: string, o: seq<CR.Outcome>)
    requires x.pc == Verify
    ensures Future(x, name, o) == Reverify(x.local, o)
  {
    FutureStep(x, name, o);
    if o != [] {
      var y := After(x, name, o[0]);
      FutureStep(y, name, o[1..]);
      if !o[0].ok && o[1..] != [] {
        assert o[1..][1..] == o[2..];
        var z := After(y, name, o[1]);
        if o[1].write.Applied? { LastCall(z, name, o[2..]); } else { FutureStep(z, name, o[2..]); }
      }
    }
  }

  lemma PublishFuture(x: CR.Exec, name: string, ip: string, o: seq<CR.Outcome>)
    requires x.pc == EnsurePooled(ip)
    ensures Future(x, name, o) == Publish(x.local, ip, o)
  {
    FutureStep(x, name, o);
    if o != [] {
      var y := After(x, name, o[0]);
      if o[0].ok { LastCall(y, name, o[1..]); } else { FailFuture(y, name, o[1..]); }
    }
  }

  lemma AskFuture(x: CR.Exec, name: string, o: seq<CR.Outcome>)
    requires x.pc == CallAllocate
    ensures Future(x, name, o) == Ask(x.local, o)
  {
    FutureStep(x, name, o);
    if o != [] {
      var y := After(x, name, o[0]);
      if !o[0].ok {
        FailFuture(y, name, o[1..]);
      } else {
        FutureStep(y, name, o[1..]);
        if o[1..] != [] {
          assert o[1..][1..] == o[2..];
          var z := After(y, name, o[1]);
          if o[1].ok && o[1].reply != "" {
            PublishFuture(z, name, o[1].reply, o[2..]);
          } else {
            FailFuture(z, name, o[2..]);
          }
        }
      }
    }
  }

  lemma ProvisionFuture(x: CR.Exec, name: string, o: seq<CR.Outcome>)
    requires x.pc == TakeLock
    ensures Future(x, name, o) == Provision(x.local, name, o)
  {
    FutureStep(x, name, o);
    if o != [] {
      var y := After(x, name, o[0]);
      if o[0].write.Applied? { AskFuture(y, name, o[1..]); } else { FutureStep(y, name, o[1..]); }
    }
  }

  /** The machine, left to itself, makes the calls of the script. */
  lemma MachineFollowsScript(c: Claim, name: string, base: nat, o: seq<CR.Outcome>)
    ensures Future(CR.Exec(Dispatch(c), c, base), name, o) == Script(c, name, o)
  {
    var x := CR.Exec(Dispatch(c), c, base);
    match x.pc
    case CallCleanup => DeleteFuture(x, name, o);
    case HandleEvent => EventFuture(x, name, o);
    case Verify => VerifyFuture(x, name, o);
    case TakeLock => ProvisionFuture(x, name, o);
    case WriteFailed => FailFuture(x, name, o);
    case AddFinalizer => LastCall(x, name, o);
    case Done => FutureStep(x, name, o);
  }

  // -------------------------------------------------------------- whole runs

  /** A call and its outcome, as the execution sees it: a conflict is a rejection. */
  datatype Call = Call(act: Action, out: CR.Outcome)

  function Acts(calls: seq<Call>): seq<Action> {
    seq(|calls|, i requires 0 <= i < |calls| => calls[i].act)
  }

  function Outs(calls: seq<Call>): seq<CR.Outcome> {
    seq(|calls|, i requires 0 <= i < |calls| => calls[i].out)
  }

  function Seen(s: CR.State, x: CR.Exec, o: CR.Outcome): CR.Outcome {
    if Writes(x.pc) && !CR.Accepts(s.cell, x.base) then o.(write := Rejected) else o
  }

  /** The step is a call of execution e. */
  predicate Calling(s: CR.State, step: CR.Step, e: nat) {
    step.Continue? && step.e == e && e in s.execs && !s.execs[e].pc.Done?
  }

  function CallMade(s: CR.State, step: CR.Step, e: nat): Call
    requires Calling(s, step, e)
  {
    var seen := Seen(s, s.execs[e], step.o);
    Call(ActionAt(s.execs[e], s.name, seen), seen)
  }

  /** The calls of execution e in a run. */
  function Calls(s0: CR.State, steps: seq<CR.Step>, e: nat): seq<Call>
    requires s0.cell.versions != []
  {
    if steps == [] then []
    else
      var front, step := steps[..|steps| - 1], steps[|steps| - 1];
      var s := CR.Run(s0, front);
      Calls(s0, front, e) + if Calling(s, step, e) then [CallMade(s, step, e)] else []
  }

  /** The version that execution e read. */
  function Origin(s0: CR.State, steps: seq<CR.Step>, e: nat): nat
    requires s0.cell.versions != []
  {
    if steps == [] then 0
    else
      var front, step := steps[..|steps| - 1], steps[|steps| - 1];
      var s := CR.Run(s0, front);
      if step.Begin? && step.e == e && e !in s.execs && step.version < |s.cell.versions| then step.version
      else Origin(s0, front, e)
  }

  /** A write of e that the server accepts persists exactly the object e meant to put. */
  lemma StepOfExecution(s: CR.State, e: nat, o: CR.Outcome)
    requires CR.Inv(s) && e in s.execs
    ensures var x := s.execs[e];
            var seen := Seen(s, x, o);
            var n := CR.DoContinue(s, e, o);
            && e in n.execs && n.execs[e] == After(x, s.name, seen)
            && (forall f :: f in s.execs && f != e ==> f in n.execs && n.execs[f] == s.execs[f])
            && (forall f :: f in n.execs ==> f in s.execs)
            && n.cell == (if Writes(x.pc) && !seen.write.Rejected? then
                            CR.Persist(s.cell, CR.Intent(x, s.name, o), CR.Execution(e)) else s.cell)
  {
    var x := s.execs[e];
    if Writes(x.pc) && CR.Accepts(s.cell, x.base) { CR.IntentIsOrderly(s, e, o); }
    hide CR.Inv, CR.Intent, CR.NextPc, CR.AfterWrite;
  }

  lemma NameStays(s: CR.State, step: CR.Step)
    requires s.cell.versions != []
    ensures CR.Do(s, step).name == s.name
  {}

  lemma OthersOnly(s: CR.State, step: CR.Step, e: nat)
    requires CR.Inv(s) && !Calling(s, step, e) && e in s.execs
    ensures var n := CR.Do(s, step); e in n.execs && n.execs[e] == s.execs[e]
  {
    if step.Continue? && step.e in s.execs { StepOfExecution(s, step.e, step.o); }
    hide CR.Inv;
  }

  lemma VersionsGrow(s: CR.State, step: CR.Step)
    requires CR.Inv(s)
    ensures s.cell.versions <= CR.Do(s, step).cell.versions
  {
    if step.Continue? && step.e in s.execs { StepOfExecution(s, step.e, step.o); }
    hide CR.Inv, CR.DoContinue;
  }

  lemma {:induction false} RunFacts(s0: CR.State, steps: seq<CR.Step>)
    requires CR.Initial(s0)
    ensures CR.Inv(CR.Run(s0, steps)) && CR.Run(s0, steps).name == s0.name
    decreases |steps|
  {
    CR.RunKeeps(s0, steps);
    if steps == [] {
    } else {
      RunFacts(s0, steps[..|steps| - 1]);
      NameStays(CR.Run(s0, steps[..|steps| - 1]), steps[|steps| - 1]);
    }
  }

  /** An execution makes no calls before it begins. */
  lemma {:induction false} NoCallsBefore(s0: CR.State, steps: seq<CR.Step>, e: nat)
    requires CR.Initial(s0) && e !in CR.Run(s0, steps).execs
    ensures Calls(s0, steps, e) == []
    decreases |steps|
  {
    if steps == [] {
    } else {
      var front, step := steps[..|steps| - 1], steps[|steps| - 1];
      var s := CR.Run(s0, front);
      RunFacts(s0, front);
      if e in s.execs {
        if Calling(s, step, e) { StepOfExecution(s, e, step.o); } else { OthersOnly(s, step, e); }
        assert false;
      } else {
        NoCallsBefore(s0, front, e);
      }
    }
  }

  /** The execution as it begins. */
  function Beginning(s: CR.State, v: nat): CR.Exec
    requires v < |s.cell.versions|
  {
    CR.Exec(Dispatch(s.cell.versions[v]), s.cell.versions[v], v)
  }

  ghost predicate OnScript(s0: CR.State, steps: seq<CR.Step>, e: nat, more: seq<CR.Outcome>)
    requires s0.cell.versions != []
  {
    var s, v, calls := CR.Run(s0, steps), Origin(s0, steps, e), Calls(s0, steps, e);
    && e in s.execs && v < |s.cell.versions|
    && Future(Beginning(s, v), s0.name, Outs(calls) + more) == Acts(calls) + Future(s.execs[e], s0.name, more)
  }

  lemma CallFacts(s0: CR.State, steps: seq<CR.Step>, n: nat, e: nat)
    requires CR.Initial(s0) && |steps| == n + 1 && Calling(CR.Run(s0, steps[..n]), steps[n], e)
    ensures var s, t := CR.Run(s0, steps[..n]), CR.Run(s0, steps);
            && Calls(s0, steps, e) == Calls(s0, steps[..n], e) + [CallMade(s, steps[n], e)]
            && Origin(s0, steps, e) == Origin(s0, steps[..n], e)
            && s.name == s0.name && s.cell.versions <= t.cell.versions
            && e in t.execs && t.execs[e] == After(s.execs[e], s0.name, Seen(s, s.execs[e], steps[n].o))
  {
    RunFacts(s0, steps[..n]);
    StepOfExecution(CR.Run(s0, steps[..n]), e, steps[n].o);
    VersionsGrow(CR.Run(s0, steps[..n]), steps[n]);
    hide CR.Inv, CR.DoContinue, After;
  }

  lemma OneMoreCall(calls: seq<Call>, call: Call, more: seq<CR.Outcome>)
    ensures Outs(calls + [call]) + more == Outs(calls) + ([call.out] + more)
    ensures Acts(calls + [call]) == Acts(calls) + [call.act]
  {}

  lemma CallOnScript(s0: CR.State, steps: seq<CR.Step>, n: nat, e: nat, more: seq<CR.Outcome>)
    requires CR.Initial(s0) && |steps| == n + 1 && Calling(CR.Run(s0, steps[..n]), steps[n], e)
    requires OnScript(s0, steps[..n], e, [CallMade(CR.Run(s0, steps[..n]), steps[n], e).out] + more)
    ensures OnScript(s0, steps, e, more)
  {
    var s := CR.Run(s0, steps[..n]);
    var call := CallMade(s, steps[n], e);
    CallFacts(s0, steps, n, e);
    OneMoreCall(Calls(s0, steps[..n], e), call, more);
    FutureStep(s.execs[e], s0.name, [call.out] + more);
    assert ([call.out] + more)[1..] == more;
    hide CR.Run, Calls, Origin, CR.Initial, After, ActionAt, Future, Seen, Outs, Acts;
  }

  lemma {:induction false} StaysOnScript(s0: CR.State, steps: seq<CR.Step>, e: nat, more: seq<CR.Outcome>)
    requires CR.Initial(s0) && e in CR.Run(s0, steps).execs
    ensures OnScript(s0, steps, e, more)
    decreases |steps|
  {
    if steps == [] {
      assert false;
    } else {
      var n := |steps| - 1;
      var front, step := steps[..n], steps[n];
      var s := CR.Run(s0, front);
      RunFacts(s0, front);
      if Calling(s, step, e) {
        StaysOnScript(s0, front, e, [CallMade(s, step, e).out] + more);
        CallOnScript(s0, steps, n, e, more);
      } else if e in s.execs {
        StaysOnScript(s0, front, e, more);
        OthersOnly(s, step, e);
        VersionsGrow(s, step);
        assert Calls(s0, steps, e) == Calls(s0, front, e);
        hide CR.Inv, CR.Do, CR.Initial, Future;
      } else {
        BeginsOnScript(s0, steps, n, e, more);
      }
    }
  }

  lemma BegunFacts(s: CR.State, step: CR.Step, e: nat)
    requires CR.Inv(s) && e !in s.execs && e in CR.Do(s, step).execs
    ensures step.Begin? && step.e == e && step.version < |s.cell.versions|
    ensures var t := CR.Do(s, step); t.cell == s.cell && t.execs[e] == Beginning(s, step.version)
  {
    if step.Continue? && step.e in s.execs { StepOfExecution(s, step.e, step.o); }
    hide CR.Inv, CR.DoContinue;
  }

  lemma BeginsOnScript(s0: CR.State, steps: seq<CR.Step>, n: nat, e: nat, more: seq<CR.Outcome>)
    requires CR.Initial(s0) && |steps| == n + 1 && e !in CR.Run(s0, steps[..n]).execs && e in CR.Run(s0, steps).execs
    ensures OnScript(s0, steps, e, more)
  {
    var s := CR.Run(s0, steps[..n]);
    RunFacts(s0, steps[..n]);
    NoCallsBefore(s0, steps[..n], e);
    BegunFacts(s, steps[n], e);
    assert CR.Run(s0, steps) == CR.Do(s, steps[n]);
    assert Calls(s0, steps, e) == [] && Origin(s0, steps, e) == steps[n].version;
    assert Outs([]) + more == more;
    assert Acts([]) == [];
    hide CR.Inv, CR.Initial, Future, CR.Do, Beginning, CR.Run, Calls, Origin;
    assert forall f: seq<Action> :: [] + f == f;
  }

  /** In every run, beside any number of other executions, stale reads and conflicts:
      the calls of an execution are those of the script for the version it read and the
      outcomes it has seen. */
  lemma ExecutionsFollowTheScript(s0: CR.State, steps: seq<CR.Step>, e: nat)
    requires CR.Initial(s0) && e in CR.Run(s0, steps).execs
    ensures var s, v, calls := CR.Run(s0, steps), Origin(s0, steps, e), Calls(s0, steps, e);
            v < |s.cell.versions| && Acts(calls) == Script(s.cell.versions[v], s0.name, Outs(calls))
  {
    var s, v, calls := CR.Run(s0, steps), Origin(s0, steps, e), Calls(s0, steps, e);
    StaysOnScript(s0, steps, e, []);
    FutureStep(s.execs[e], s0.name, []);
    assert Outs(calls) + [] == Outs(calls);
    MachineFollowsScript(s.cell.versions[v], s0.name, v, Outs(calls));
  }

  // -------------------------------------------------- what executions persist

  /** The versions that execution e has written, oldest first. */
  function WrittenBy(versions: seq<Claim>, writers: seq<CR.Writer>, e: nat): seq<Claim>
    requires |versions| == |writers|
  {
    if versions == [] then []
    else
      var n := |versions| - 1;
      WrittenBy(versions[..n], writers[..n], e) + if writers[n] == CR.Execution(e) then [versions[n]] else []
  }

  function Put1(call: Call): seq<Claim> {
    if call.act.Put? && !call.out.write.Rejected? then [call.act.claim] else []
  }

  /** The objects that calls have put and the server has taken. */
  function Taken(calls: seq<Call>): seq<Claim> {
    if calls == [] then [] else Taken(calls[..|calls| - 1]) + Put1(calls[|calls| - 1])
  }

  lemma WrittenByOneMore(cell: CR.Cell, c: Claim, who: CR.Writer, e: nat)
    requires |cell.versions| == |cell.writers|
    ensures var n := CR.Persist(cell, c, who);
            WrittenBy(n.versions, n.writers, e) ==
            WrittenBy(cell.versions, cell.writers, e) + if who == CR.Execution(e) then [c] else []
  {
    assert (cell.versions + [c])[..|cell.versions|] == cell.versions;
    assert (cell.writers + [who])[..|cell.writers|] == cell.writers;
  }

  lemma TakenOneMore(calls: seq<Call>, call: Call)
    ensures Taken(calls + [call]) == Taken(calls) + Put1(call)
  {
    assert (calls + [call])[..|calls|] == calls;
  }

  /** The object a call puts, if the server takes it, is the one the execution means to write. */
  lemma PutOfCall(s: CR.State, step: CR.Step, e: nat)
    requires Calling(s, step, e)
    ensures var x := s.execs[e];
            Put1(CallMade(s, step, e)) ==
            if Writes(x.pc) && !Seen(s, x, step.o).write.Rejected? then [CR.Intent(x, s.name, step.o)] else []
  {}

  lemma StepWrites(s: CR.State, step: CR.Step, e: nat)
    requires CR.Inv(s)
    ensures var n := CR.Do(s, step).cell;
            && |s.cell.versions| == |s.cell.writers| && |n.versions| == |n.writers|
            && WrittenBy(n.versions, n.writers, e) == WrittenBy(s.cell.versions, s.cell.writers, e) +
               if Calling(s, step, e) then Put1(CallMade(s, step, e)) else []
  {
    assert |s.cell.versions| == |s.cell.writers|;
    if step.Continue? && step.e in s.execs {
      ExecutionWrites(s, step.e, step.o, e);
      if Calling(s, step, e) { PutOfCall(s, step, e); }
      if s.execs[step.e].pc.Done? { assert !Writes(s.execs[step.e].pc); }
    } else {
      OutsideWrites(s, step, e);
    }
    hide CR.Inv, CR.Do, WrittenBy, Put1, CallMade, Seen;
  }

  lemma ExecutionWrites(s: CR.State, f: nat, o: CR.Outcome, e: nat)
    requires CR.Inv(s) && f in s.execs
    ensures var n, x := CR.DoContinue(s, f, o).cell, s.execs[f];
            && |s.cell.versions| == |s.cell.writers| && |n.versions| == |n.writers|
            && WrittenBy(n.versions, n.writers, e) == WrittenBy(s.cell.versions, s.cell.writers, e) +
               if f == e && Writes(x.pc) && !Seen(s, x, o).write.Rejected? then [CR.Intent(x, s.name, o)] else []
  {
    StepOfExecution(s, f, o);
    assert |s.cell.versions| == |s.cell.writers|;
    hide CR.Inv, CR.DoContinue, CR.Intent, WrittenBy, Seen;
    WrittenByOneMore(s.cell, CR.Intent(s.execs[f], s.name, o), CR.Execution(f), e);
  }

  lemma OutsideWrites(s: CR.State, step: CR.Step, e: nat)
    requires CR.Inv(s) && (step.Continue? ==> step.e !in s.execs)
    ensures var n := CR.Do(s, step).cell;
            |n.versions| == |n.writers| &&
            WrittenBy(n.versions, n.writers, e) == WrittenBy(s.cell.versions, s.cell.writers, e)
  {
    var c := s.cell.Latest();
    forall d: Claim ensures WrittenBy(s.cell.versions + [d], s.cell.writers + [CR.Outside], e)
                         == WrittenBy(s.cell.versions, s.cell.writers, e) {
      WrittenByOneMore(s.cell, d, CR.Outside, e);
    }
  }

  /** What e has persisted is what its calls have put. */
  ghost predicate Persisted(s0: CR.State, steps: seq<CR.Step>, e: nat)
    requires s0.cell.versions != []
  {
    var cell := CR.Run(s0, steps).cell;
    |cell.versions| == |cell.writers| && WrittenBy(cell.versions, cell.writers, e) == Taken(Calls(s0, steps, e))
  }

  lemma LastOfRun(s0: CR.State, steps: seq<CR.Step>, n: nat, e: nat)
    requires s0.cell.versions != [] && |steps| == n + 1
    ensures var s := CR.Run(s0, steps[..n]);
            && CR.Run(s0, steps) == CR.Do(s, steps[n])
            && Calls(s0, steps, e) ==
               Calls(s0, steps[..n], e) + if Calling(s, steps[n], e) then [CallMade(s, steps[n], e)] else []
  {
    hide CR.Do, Calling, CallMade;
  }

  lemma PersistedStep(s0: CR.State, steps: seq<CR.Step>, n: nat, e: nat)
    requires s0.cell.versions != [] && |steps| == n + 1 && Persisted(s0, steps[..n], e)
    requires CR.Inv(CR.Run(s0, steps[..n]))
    ensures Persisted(s0, steps, e)
  {
    hide CR.Inv, CR.Do, CR.Run, WrittenBy, Calls, Taken, Put1, Calling, CallMade;
    var s := CR.Run(s0, steps[..n]);
    LastOfRun(s0, steps, n, e);
    StepWrites(s, steps[n], e);
    if Calling(s, steps[n], e) {
      TakenOneMore(Calls(s0, steps[..n], e), CallMade(s, steps[n], e));
    } else {
      assert Calls(s0, steps[..n], e) + [] == Calls(s0, steps[..n], e);
    }
  }

  /** What an execution has persisted is what its script has put and the server has taken, in that order. */
  lemma {:induction false} ExecutionsPersistTheirScript(s0: CR.State, steps: seq<CR.Step>, e: nat)
    requires CR.Initial(s0)
    ensures Persisted(s0, steps, e)
    decreases |steps|
  {
    if steps == [] {
      NothingWrittenYet(s0, e);
    } else {
      var n := |steps| - 1;
      ExecutionsPersistTheirScript(s0, steps[..n], e);
      RunFacts(s0, steps[..n]);
      hide CR.Inv, Persisted;
      PersistedStep(s0, steps, n, e);
    }
  }

  lemma NothingWrittenYet(s0: CR.State, e: nat)
    requires CR.Initial(s0)
    ensures WrittenBy(s0.cell.versions, s0.cell.writers, e) == []
  {
    assert s0.cell.versions[..0] == [] && s0.cell.writers[..0] == [];
  }

  // ------------------------------------------------------------ in particular

  /** A Ready claim as the periodic verification sees it. */
  predicate UnderVerification(c: Claim) {
    c.finalizer && !c.deleting && !c.event && c.status.phase == Ready && c.status.assignedIP != ""
  }

  /** A claim with a router event pending. */
  predicate UnderEvent(c: Claim) { c.finalizer && !c.deleting && c.event }

  /** An execution that finds a Ready claim in order never writes the object; one that
      does not puts the status back to Pending with interface and address empty, writes
      nothing else, and then takes the old address out of the pool. */
  lemma VerificationDecides(s0: CR.State, steps: seq<CR.Step>, e: nat)
    requires CR.Initial(s0) && e in CR.Run(s0, steps).execs
    ensures var s, v, calls := CR.Run(s0, steps), Origin(s0, steps, e), Calls(s0, steps, e);
            && v < |s.cell.versions| && |s.cell.versions| == |s.cell.writers|
            && var c, mine := s.cell.versions[v], WrittenBy(s.cell.versions, s.cell.writers, e);
               UnderVerification(c) && calls != [] ==>
                 && calls[0].act == Probe(c.status.wanInterface)
                 && (calls[0].out.ok ==> |calls| == 1 && mine == [])
                 && (!calls[0].out.ok && |calls| >= 2 ==>
                       mine == if calls[1].out.write.Rejected? then []
                             else [c.(status := c.status.(phase := Pending, wanInterface := "", assignedIP := ""))])
                 && (|calls| >= 3 ==> calls[2].act == Unpool(c.spec.poolName, c.status.assignedIP) && |calls| == 3)
                 && (!calls[0].out.ok && |calls| == 1 ==> mine == [])
  {
    ExecutionsFollowTheScript(s0, steps, e);
    ExecutionsPersistTheirScript(s0, steps, e);
    var s, v, calls := CR.Run(s0, steps), Origin(s0, steps, e), Calls(s0, steps, e);
    hide CR.Run, Calls, Origin, WrittenBy, CR.Initial;
    if UnderVerification(s.cell.versions[v]) && calls != [] { VerificationCalls(s.cell.versions[v], s0.name, calls); }
  }

  lemma {:induction false} VerificationCalls(c: Claim, name: string, calls: seq<Call>)
    requires UnderVerification(c) && calls != [] && Acts(calls) == Script(c, name, Outs(calls))
    ensures calls[0].act == Probe(c.status.wanInterface)
    ensures calls[0].out.ok ==> |calls| == 1
    ensures |calls| == 1 ==> Taken(calls) == []
    ensures |calls| >= 2 ==>
            !calls[0].out.ok && Taken(calls) == if calls[1].out.write.Rejected? then [] else [Unprovisioned(c)]
    ensures |calls| >= 3 ==> calls[2].act == Unpool(c.spec.poolName, c.status.assignedIP) && |calls| == 3
  {
    FirstCalls(calls);
  }

  /** An execution that handles a router event leaves the status alone when the interface
      is there, or when none is recorded; otherwise its first write clears the status. */
  lemma EventDecides(s0: CR.State, steps: seq<CR.Step>, e: nat)
    requires CR.Initial(s0) && e in CR.Run(s0, steps).execs
    ensures var s, v, calls := CR.Run(s0, steps), Origin(s0, steps, e), Calls(s0, steps, e);
            && v < |s.cell.versions| && |s.cell.versions| == |s.cell.writers|
            && var c, mine := s.cell.versions[v], WrittenBy(s.cell.versions, s.cell.writers, e);
               UnderEvent(c) && calls != [] && mine != [] ==>
                 if c.status.wanInterface == "" || calls[0].out.ok then mine == [c.(event := false)]
                 else mine[0] == c.(status := c.status.(phase := Pending, wanInterface := "", assignedIP := "")) &&
                      (mine == [mine[0]] || mine == [mine[0], mine[0].(event := false)])
    ensures var cell := CR.Run(s0, steps).cell;
            Calls(s0, steps, e) == [] ==> WrittenBy(cell.versions, cell.writers, e) == []
  {
    ExecutionsFollowTheScript(s0, steps, e);
    ExecutionsPersistTheirScript(s0, steps, e);
    var s, v, calls := CR.Run(s0, steps), Origin(s0, steps, e), Calls(s0, steps, e);
    hide CR.Run, Calls, Origin, WrittenBy, CR.Initial;
    if UnderEvent(s.cell.versions[v]) && calls != [] { EventCalls(s.cell.versions[v], s0.name, calls); }
  }

  lemma {:induction false} EventCalls(c: Claim, name: string, calls: seq<Call>)
    requires UnderEvent(c) && calls != [] && Acts(calls) == Script(c, name, Outs(calls))
    ensures Taken(calls) != [] ==>
              if c.status.wanInterface == "" || calls[0].out.ok then Taken(calls) == [c.(event := false)]
              else Taken(calls) == [Unprovisioned(c)] ||
                   Taken(calls) == [Unprovisioned(c), Unprovisioned(c).(event := false)]
  {
    FirstCalls(calls);
  }

  /** What the first three calls are and put. */
  lemma FirstCalls(calls: seq<Call>)
    ensures |calls| == 1 ==> Taken(calls) == Put1(calls[0])
    ensures |calls| == 2 ==> Taken(calls) == Put1(calls[0]) + Put1(calls[1])
    ensures |calls| == 3 ==> Taken(calls) == Put1(calls[0]) + Put1(calls[1]) + Put1(calls[2])
    ensures forall i :: 0 <= i < |calls| ==> Acts(calls)[i] == calls[i].act && Outs(calls)[i] == calls[i].out
  {
    assert Taken([]) == [];
    hide Taken, Put1, Acts, Outs;
    if |calls| == 1 {
      OneTaken(calls[0]);
      assert calls == [calls[0]];
    } else if |calls| == 2 {
      TwoTaken(calls[0], calls[1]);
      assert calls == [calls[0], calls[1]];
    } else if |calls| == 3 {
      TwoTaken(calls[0], calls[1]);
      TakenOneMore([calls[0], calls[1]], calls[2]);
      assert calls == [calls[0], calls[1]] + [calls[2]];
    }
    ActsAndOuts(calls);
  }

  lemma ActsAndOuts(calls: seq<Call>)
    ensures |Acts(calls)| == |Outs(calls)| == |calls|
    ensures forall i :: 0 <= i < |calls| ==> Acts(calls)[i] == calls[i].act && Outs(calls)[i] == calls[i].out
  {}

  lemma OneTaken(a: Call)
    ensures Taken([a]) == Put1(a)
  {
    assert Taken([]) == [] && [] + [a] == [a];
    TakenOneMore([], a);
    hide Taken;
    assert [] + Put1(a) == Put1(a);
  }

  lemma TwoTaken(a: Call, b: Call)
    ensures Taken([a, b]) == Put1(a) + Put1(b)
  {
    hide Taken;
    OneTaken(a);
    TakenOneMore([a], b);
    assert [a] + [b] == [a, b];
  }
}
