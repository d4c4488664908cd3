/** Operator and agent together: the concurrent reconciles of one claim, the
    agent's concurrent handlers, its store on disk, and agent crashes
    (internal/controller/publicipclaim_controller.go:342-385, 1049;
    internal/agent/agent.go:150-166, 327-351, 558-606).

    Hypothesis, as a guard of Do: the interfaces this claim uses (`mine`) are
    asked for by no other claim of the router. Requests may be lost, arrive late
    or outlive the execution that sent them; answers may be lost. */
module Agreement {
  import opened Common
  import opened Claims
  import CR = ClaimRuns
  import opened Leases
  import AH = AgentHandlers
  import RC = Reconciliation
  import LS = LeaseStore

  datatype System = System(claim: CR.State, agent: AH.Agent, mine: set<string>)

  datatype Step =
    | Operator(act: CR.Step)
    | Router(move: AH.Step)

  ghost predicate Initial(s: System) {
    CR.Initial(s.claim) && s.agent == AH.FRESH
  }

  // ------------------------------------------------------------------ steps

  /** The request that leaves the operator with an execution's step. */
  function Sent(s: System, e: nat, o: CR.Outcome): AH.Agent {
    if e !in s.claim.execs then s.agent
    else
      var x := s.claim.execs[e];
      var i := x.local.status.wanInterface;
      if x.pc.CallAllocate? && o.ok then AH.DoArrive(s.agent, FromClaim(e), AH.PostAccepted(i))
      else if x.pc.CallCleanup? && o.ok && i != "" then AH.DoArrive(s.agent, FromClaim(e), AH.DeleteAccepted(i))
      else s.agent
  }

  predicate OperatorMay(s: System, step: CR.Step) {
    step.Continue? && step.e in s.claim.execs ==>
      var x := s.claim.execs[step.e];
      && (x.pc.TakeLock? ==> WanName(x.local.spec, s.claim.name) in s.mine)
      && (x.pc.AwaitAddress? && step.o.ok && step.o.reply != "" ==>
            FromClaim(step.e) in s.agent.replies && s.agent.replies[FromClaim(step.e)] == Created(step.o.reply))
  }

  predicate RouterMay(s: System, step: AH.Step) {
    match step
    case Post(h, i) => !h.FromClaim? && i !in s.mine
    case Delete(h, i) => !h.FromClaim? && i !in s.mine
    case _ => true
  }

  function Do(s: System, step: Step): System
    requires s.claim.cell.versions != []
  {
    match step
    case Operator(st) =>
      if !OperatorMay(s, st) then s
      else s.(claim := CR.Do(s.claim, st), agent := if st.Continue? then Sent(s, st.e, st.o) else s.agent)
    case Router(st) => if RouterMay(s, st) then s.(agent := AH.Do(s.agent, st)) else s
  }

  /** The agent takes a request at all. */
  predicate Listens(a: AH.Agent, h: Caller) {
    a.store.up && a.toVerify == {} && h !in a.requests && h !in a.handlers && h !in a.store.calls
  }

  /** The agent hears from an execution exactly through its allocation and clean-up calls. */
  lemma RequestsFollowCalls(s: System, e: nat, o: CR.Outcome)
    requires s.claim.cell.versions != [] && e in s.claim.execs && !s.claim.execs[e].pc.Done?
    requires OperatorMay(s, CR.Continue(e, o))
    ensures var t, act := Do(s, Operator(CR.Continue(e, o))).agent, RC.ActionAt(s.claim.execs[e], s.claim.name, o);
            && (act.Allocate? && o.ok && Listens(s.agent, FromClaim(e)) ==>
                  t.handlers == s.agent.handlers[FromClaim(e) := AH.PostAccepted(act.iface)])
            && (act.Release? && act.iface != "" && o.ok && Listens(s.agent, FromClaim(e)) ==>
                  t.handlers == s.agent.handlers[FromClaim(e) := AH.DeleteAccepted(act.iface)])
            && (!(act.Allocate? || (act.Release? && act.iface != "")) || !o.ok ==> t == s.agent)
  {
    hide CR.Do, CR.Intent;
  }

  // -------------------------------------------------------------- invariant

  predicate Granted(a: AH.Agent, st: Claims.Status, ip: string) { AH.Answered201(st.wanInterface, ip) in a.events }

  /** What an execution knows of its request. */
  ghost predicate RequestOk(s: System, e: nat)
    requires e in s.claim.execs
  {
    var x := s.claim.execs[e];
    match x.pc
    case TakeLock => FromClaim(e) !in s.agent.requests
    case CallAllocate => FromClaim(e) !in s.agent.requests
    case AwaitAddress => FromClaim(e) in s.agent.requests ==>
        s.agent.requests[FromClaim(e)] == x.local.status.wanInterface
    case EnsurePooled(ip) => Granted(s.agent, x.local.status, ip)
    case WriteReady(ip) => Granted(s.agent, x.local.status, ip)
    case _ => true
  }

  ghost predicate VersionsOk(c: CR.State, a: AH.Agent, mine: set<string>) {
    forall k :: 0 <= k < |c.cell.versions| ==>
      && (c.cell.versions[k].status.wanInterface == "" || c.cell.versions[k].status.wanInterface in mine)
      && (c.cell.versions[k].status.phase == Ready ==> Granted(a, c.cell.versions[k].status,
         c.cell.versions[k].status.assignedIP))
  }

  ghost predicate Links(s: System) {
    && s.claim.cell.versions != []
    && AH.Answers(s.agent)
    && (forall e :: FromClaim(e) in s.agent.requests ==> e in s.claim.execs)
    && (forall e :: e in s.claim.execs ==> RequestOk(s, e))
    && VersionsOk(s.claim, s.agent, s.mine)
  }

  /** The interfaces of which the agent gets no DELETE: the claim's, until its deletion is requested. */
  function Kept(s: System): set<string>
    requires s.claim.cell.versions != []
  {
    if s.claim.cell.Latest().deleting then {} else s.mine
  }

  ghost predicate Inv(s: System) {
    CR.Inv(s.claim) && Links(s) && AH.Inv(s.agent, Kept(s))
  }

  // ----------------------------------------------------------- router steps

  /** Agent steps only add events and keep the requests, except for arrivals. */
  lemma EventsGrow(a: AH.Agent, step: AH.Step)
    ensures a.events <= AH.Do(a, step).events
    ensures !step.Post? && !step.Delete? ==> AH.Do(a, step).requests == a.requests
    ensures step.Post? || step.Delete? ==> AH.Do(a, step).requests.Keys <= a.requests.Keys + {step.h}
    ensures forall h :: h in a.requests ==> h in AH.Do(a, step).requests && AH.Do(a, step).requests[h] == a.requests[h]
  {
    if !step.Post? && !step.Delete? { AH.HistoryGrows(a, step); }
    hide AH.DoAcquire, AH.DoCheck, AH.DoAllocate, AH.DoStartLoop, AH.DoRemove, AH.DoAnswer, AH.DoRelease;
    hide AH.DoRenewalSet, AH.DoVerify, AH.DoStore;
  }

  lemma GrantedStays(a: AH.Agent, n: AH.Agent, st: Claims.Status, ip: string)
    requires Granted(a, st, ip) && a.events <= n.events
    ensures Granted(n, st, ip)
  {
    var j :| 0 <= j < |a.events| && a.events[j] == AH.Answered201(st.wanInterface, ip);
    assert n.events[j] == a.events[j];
  }

  lemma RouterKeepsLinks(s: System, step: AH.Step)
    requires Links(s) && RouterMay(s, step)
    ensures Links(s.(agent := AH.Do(s.agent, step)))
  {
    EventsGrow(s.agent, step);
    AH.AnswersKept(s.agent, step);
    hide AH.Do, AH.Answers;
    var n := AH.Do(s.agent, step);
    forall e | e in s.claim.execs ensures RequestOk(s.(agent := n), e) {
      assert RequestOk(s, e);
      RequestStaysOk(s, n, e);
    }
    VersionsStayOk(s, n);
  }

  /** More events and foreign requests leave an execution's knowledge intact. */
  lemma RequestStaysOk(s: System, n: AH.Agent, e: nat)
    requires e in s.claim.execs && RequestOk(s, e) && s.agent.events <= n.events
    requires FromClaim(e) in n.requests <==> FromClaim(e) in s.agent.requests
    requires FromClaim(e) in s.agent.requests ==> n.requests[FromClaim(e)] == s.agent.requests[FromClaim(e)]
    ensures RequestOk(s.(agent := n), e)
  {
    var x := s.claim.execs[e];
    if x.pc.EnsurePooled? || x.pc.WriteReady? { GrantedStays(s.agent, n, x.local.status, x.pc.ip); }
  }

  lemma VersionsStayOk(s: System, n: AH.Agent)
    requires VersionsOk(s.claim, s.agent, s.mine) && s.agent.events <= n.events
    ensures VersionsOk(s.claim, n, s.mine)
  {
    var v := s.claim.cell.versions;
    forall k | 0 <= k < |v| && v[k].status.phase == Ready ensures Granted(n, v[k].status, v[k].status.assignedIP) {
      GrantedStays(s.agent, n, v[k].status, v[k].status.assignedIP);
    }
  }

  // --------------------------------------------------------- operator steps

  /** The claim gets another version or another execution; the agent has not moved yet. */
  lemma ClaimGrows(s: System, d: CR.State)
    requires Links(s) && d.cell.versions != []
    requires d.cell.versions == s.claim.cell.versions || d.cell.versions == s.claim.cell.versions + [d.cell.Latest()]
    requires var st := d.cell.Latest().status;
             && (st.wanInterface == "" || st.wanInterface in s.mine)
             && (st.phase == Ready ==> Granted(s.agent, st, st.assignedIP))
    requires s.claim.execs.Keys <= d.execs.Keys
    requires forall e :: e in d.execs ==> RequestOk(s.(claim := d), e)
    ensures Links(s.(claim := d))
  {
    hide AH.Answers;
  }

  lemma OutsideKeepsLinks(s: System, step: CR.Step)
    requires Links(s) && !step.Begin? && !step.Continue?
    ensures Links(s.(claim := CR.DoOutside(s.claim, step)))
  {
    hide AH.Answers;
    var d := CR.DoOutside(s.claim, step);
    forall e | e in d.execs ensures RequestOk(s.(claim := d), e) { assert RequestOk(s, e); }
    ClaimGrows(s, d);
  }

  lemma BeginKeepsLinks(s: System, e: nat, k: nat)
    requires Links(s)
    ensures Links(s.(claim := CR.DoBegin(s.claim, e, k)))
  {
    hide AH.Answers;
    var d := CR.DoBegin(s.claim, e, k);
    forall f | f in d.execs ensures RequestOk(s.(claim := d), f) {
      if f in s.claim.execs { assert RequestOk(s, f); }
    }
    ClaimGrows(s, d);
  }

  /** What the execution writes, if it writes, is backed by a grant. */
  lemma WrittenIsGranted(s: System, e: nat, o: CR.Outcome)
    requires Links(s) && CR.Inv(s.claim) && e in s.claim.execs && OperatorMay(s, CR.Continue(e, o))
    ensures var d := CR.DoContinue(s.claim, e, o);
            && d.cell.versions != []
            && (d.cell.versions == s.claim.cell.versions || d.cell.versions ==
               s.claim.cell.versions + [d.cell.Latest()])
            && (s.claim.cell.Latest().deleting ==> d.cell.Latest().deleting)
            && var st := d.cell.Latest().status;
               && (st.wanInterface == "" || st.wanInterface in s.mine)
               && (st.phase == Ready ==> Granted(s.agent, st, st.assignedIP))
  {
    hide AH.Answers;
    var x := s.claim.execs[e];
    assert CR.ExecOk(s.claim, e) && RequestOk(s, e);
    CR.ContinueWritesIntent(s.claim, e, o);
    if CR.WritesStatus(x.pc) && CR.Accepts(s.claim.cell, x.base) {
      CR.IntentIsOrderly(s.claim, e, o);
    }
  }

  /** The execution that has taken a step: its next program counter needs no more than it knows. */
  lemma StepperStaysOk(s: System, e: nat, o: CR.Outcome)
    requires AH.Answers(s.agent) && e in s.claim.execs && RequestOk(s, e) && OperatorMay(s, CR.Continue(e, o))
    ensures var d := CR.DoContinue(s.claim, e, o); e in d.execs && RequestOk(s.(claim := d), e)
  {
  }

  lemma RequestsStayOk(s: System, e: nat, o: CR.Outcome)
    requires Links(s) && e in s.claim.execs && OperatorMay(s, CR.Continue(e, o))
    ensures var d := CR.DoContinue(s.claim, e, o);
            d.execs.Keys == s.claim.execs.Keys &&
            forall f :: f in d.execs ==> RequestOk(s.(claim := d), f)
  {
    hide AH.Answers;
    StepperStaysOk(s, e, o);
    OthersUntouched(s.claim, e, o);
    hide CR.DoContinue;
    var d := CR.DoContinue(s.claim, e, o);
    forall f | f in d.execs ensures RequestOk(s.(claim := d), f) {
      assert RequestOk(s, f);
    }
  }

  lemma OthersUntouched(c: CR.State, e: nat, o: CR.Outcome)
    requires e in c.execs
    ensures var d := CR.DoContinue(c, e, o);
            d.execs.Keys == c.execs.Keys && forall f :: f in c.execs && f != e ==> d.execs[f] == c.execs[f]
  {}

  /** A request of e arrives: only e's own request number changes. */
  lemma ArrivalKeepsLinks(s: System, e: nat, first: AH.Handler)
    requires Links(s) && e in s.claim.execs
    requires first.PostAccepted? || first.DeleteAccepted?
    requires var pc := s.claim.execs[e].pc;
             && !pc.TakeLock? && !pc.CallAllocate?
             && (pc.AwaitAddress? ==> first.iface == s.claim.execs[e].local.status.wanInterface)
    ensures Links(s.(agent := AH.DoArrive(s.agent, FromClaim(e), first)))
  {
    var t := s.(agent := AH.DoArrive(s.agent, FromClaim(e), first));
    forall f | f in t.claim.execs ensures RequestOk(t, f) { assert RequestOk(s, f); }
  }

  lemma ContinueKeepsLinks(s: System, e: nat, o: CR.Outcome)
    requires Links(s) && CR.Inv(s.claim) && OperatorMay(s, CR.Continue(e, o))
    ensures Links(s.(claim := CR.DoContinue(s.claim, e, o), agent := Sent(s, e, o)))
  {
    if e in s.claim.execs {
      var x := s.claim.execs[e];
      var d := CR.DoContinue(s.claim, e, o);
      WrittenIsGranted(s, e, o);
      RequestsStayOk(s, e, o);
      ClaimGrows(s, d);
      NextOfSender(s, e, o);
      hide CR.Inv, CR.DoContinue, Links, AH.DoArrive;
      var t := s.(claim := d);
      var i := x.local.status.wanInterface;
      if x.pc.CallAllocate? && o.ok {
        ArrivalKeepsLinks(t, e, AH.PostAccepted(i));
      } else if x.pc.CallCleanup? && o.ok && i != "" {
        ArrivalKeepsLinks(t, e, AH.DeleteAccepted(i));
      }
    }
  }

  lemma NextOfSender(s: System, e: nat, o: CR.Outcome)
    requires CR.Inv(s.claim) && e in s.claim.execs
    ensures var x := s.claim.execs[e];
            var d := CR.DoContinue(s.claim, e, o);
            && e in d.execs && d.cell.versions != []
            && (x.pc.CallAllocate? && o.ok ==> d.execs[e] == x.(pc := AwaitAddress))
            && (x.pc.CallCleanup? ==> d.execs[e].pc.UnpoolDeleted? || d.execs[e].pc.DropFinalizer?)
            && (x.pc.CallCleanup? ==> s.claim.cell.Latest().deleting)
  {
    var x := s.claim.execs[e];
    assert CR.ExecOk(s.claim, e);
    if x.pc.CallCleanup? {
      CR.FrozenStatus(s.claim.cell, x.base, |s.claim.cell.versions| - 1);
    }
  }

  /** The claim's own DELETE is sent only when its deletion has been requested. */
  lemma SentKeepsAgent(s: System, e: nat, o: CR.Outcome)
    requires CR.Inv(s.claim) && AH.Inv(s.agent, Kept(s))
    ensures AH.Inv(Sent(s, e, o), Kept(s))
  {
    if e in s.claim.execs {
      NextOfSender(s, e, o);
      hide CR.Inv, AH.Inv, AH.DoArrive;
      var x := s.claim.execs[e];
      var i := x.local.status.wanInterface;
      AH.ArriveKeeps(s.agent, FromClaim(e), AH.PostAccepted(i), Kept(s));
      if x.pc.CallCleanup? { AH.ArriveKeeps(s.agent, FromClaim(e), AH.DeleteAccepted(i), Kept(s)); }
    }
  }

  /** Deletion is requested once and for all. */
  lemma DeletingStays(c: CR.State, step: CR.Step)
    requires CR.Inv(c) && c.cell.Latest().deleting
    ensures CR.Do(c, step).cell.versions != [] && CR.Do(c, step).cell.Latest().deleting
  {
    if step.Continue? && step.e in c.execs {
      CR.ContinueWritesIntent(c, step.e, step.o);
      if CR.WritesStatus(c.execs[step.e].pc) || CR.WritesMeta(c.execs[step.e].pc) {
        if CR.Accepts(c.cell, c.execs[step.e].base) { CR.IntentIsOrderly(c, step.e, step.o); }
      }
    }
  }

  lemma OperatorKeepsLinks(s: System, st: CR.Step)
    requires CR.Inv(s.claim) && Links(s) && OperatorMay(s, st)
    ensures Links(Do(s, Operator(st)))
  {
    hide CR.Inv, Links, Sent;
    match st
    case Begin(e, k) => BeginKeepsLinks(s, e, k);
    case Continue(e, o) => ContinueKeepsLinks(s, e, o);
    case _ => OutsideKeepsLinks(s, st);
  }

  lemma StepKeeps(s: System, step: Step)
    requires Inv(s)
    ensures Inv(Do(s, step))
  {
    hide CR.Inv, AH.Inv, Links, Sent, CR.Do, AH.Do;
    LinksHaveVersions(s);
    match step
    case Router(st) =>
      if RouterMay(s, st) {
        RouterKeepsLinks(s, st);
        AH.StepKeeps(s.agent, st, Kept(s));
      }
    case Operator(st) =>
      if OperatorMay(s, st) {
        CR.StepKeeps(s.claim, st);
        OperatorKeepsLinks(s, st);
        if st.Continue? { SentKeepsAgent(s, st.e, st.o); }
        LinksHaveVersions(Do(s, step));
        if s.claim.cell.Latest().deleting { DeletingStays(s.claim, st); }
        AH.InvWeakens(Do(s, step).agent, Kept(s), Kept(Do(s, step)));
      }
  }

  lemma LinksHaveVersions(s: System)
    requires Links(s)
    ensures s.claim.cell.versions != []
  {}

  // ------------------------------------------------------------ main result

  function Run(s: System, steps: seq<Step>): (n: System)
    requires s.claim.cell.versions != []
    ensures n.claim.cell.versions != []
  {
    if steps == [] then s else Do(Run(s, steps[..|steps| - 1]), steps[|steps| - 1])
  }

  lemma {:induction false} RunKeeps(s: System, steps: seq<Step>)
    requires Inv(s)
    ensures Inv(Run(s, steps))
    decreases |steps|
  {
    if steps == [] {
      assert Run(s, steps) == s;
    } else {
      RunKeeps(s, steps[..|steps| - 1]);
      hide Inv;
      StepKeeps(Run(s, steps[..|steps| - 1]), steps[|steps| - 1]);
    }
  }

  ghost predicate Reachable(s: System) {
    exists s0: System, steps: seq<Step> :: Initial(s0) && s == Run(s0, steps)
  }

  lemma InitialHolds(s: System)
    requires Initial(s)
    ensures Inv(s)
  {}

  lemma ReachableKeeps(s: System)
    requires Reachable(s)
    ensures Inv(s)
  {
    hide Inv;
    var s0: System, steps: seq<Step> :| Initial(s0) && s == Run(s0, steps);
    InitialHolds(s0);
    RunKeeps(s0, steps);
  }

  lemma OpenAtKept(s: System, j: int)
    requires AH.Inv(s.agent, s.mine) && 0 <= j < |s.agent.events|
    requires s.agent.events[j].Answered201? && s.agent.events[j].iface in s.mine
    ensures AH.Open(s.agent.events, j)
  {}

  /** In every reachable state, agent crashes and restarts included, a Ready claim
      that is not being deleted has a lease for its WanInterface with exactly its
      AssignedIP in the agent's state file, and in its memory while it is up. */
  lemma ReadyClaimHasItsLease(s: System)
    requires Reachable(s)
    requires s.claim.cell.versions != []
    requires s.claim.cell.Latest().status.phase == Ready && !s.claim.cell.Latest().deleting
    ensures var st := s.claim.cell.Latest().status;
            var store := s.agent.store;
            && (store.up ==> AH.Has(store.mem, st.wanInterface, Some(st.assignedIP)))
            && store.file.Whole? && AH.Has(store.file.leases, st.wanInterface, Some(st.assignedIP))
  {
    ReachableKeeps(s);
    hide Reachable, AH.Inv;
    var st := s.claim.cell.Latest().status;
    assert CR.VersionOk(s.claim.cell.Latest());
    assert Granted(s.agent, st, st.assignedIP);
    var j :| 0 <= j < |s.agent.events| && s.agent.events[j] == AH.Answered201(st.wanInterface, st.assignedIP);
    OpenAtKept(s, j);
    AH.OpenGrantIsHeld(s.agent, j, s.mine);
  }
}
