/** Claims and pools together, with reconciles running one at a time, from copies
    of any age, and any API call failing: when a Ready claim has its address in its
    pool (internal/controller/publicipclaim_controller.go:106-135, 202-262, 356-385).

    Hypotheses, as guards of Do: one execution is active at a time (the
    controller's default concurrency); a claim's poolName does not change; DHCP does
    not hand out an address that another existing claim holds and has not released.
    A claim's address is released with the clean-up request of a deletion pass, which
    makes the agent send DHCP RELEASE (internal/agent/agent.go:363-371) before the
    pass touches the pool. */
module PoolSafety {
  import opened Common
  import opened Claims
  import opened PoolBlocks
  import CR = ClaimRuns
  import RC = Reconciliation

  datatype Ref = Ref(claim: string, exec: nat)

  /** released: the claims whose clean-up request has gone out; late: when the active
      execution began, its claim was gone or released already (history). */
  datatype State = State(
    claims: map<string, CR.State>, pools: map<string, seq<Block>>, busy: Option<Ref>, late: bool, released: set<string>)

  datatype Step =
    | Create(n: string, spec: Spec)
    | AddPool(pool: string, blocks: seq<Block>)
    | ClaimStep(n: string, step: CR.Step, lost: bool)   // lost: a failed pool update took effect all the same

  function NewClaim(n: string, spec: Spec): CR.State {
    CR.State(n, CR.Cell([Claim(spec, false, false, false, EMPTY_STATUS)], [CR.Outside], false), map[], {}, 0)
  }

  // ------------------------------------------------------------------ views

  /** The address in a claim's status, while the claim exists. */
  function HeldBy(c: CR.State): string {
    if c.cell.versions == [] || c.cell.gone then "" else c.cell.Latest().status.assignedIP
  }

  /** The address a claim holds: the one in its status, until it is released. */
  function Holds(s: State, n: string): string
    requires n in s.claims
  {
    if n in s.released then "" else HeldBy(s.claims[n])
  }

  ghost predicate NoOtherHolds(s: State, n: string, ip: string) {
    forall m :: m in s.claims && m != n ==> Holds(s, m) != ip
  }

  /** Earlier passes have given the claim's address back, or have finished with the claim. */
  predicate Freed(s: State, n: string)
    requires n in s.claims
  {
    n in s.released || s.claims[n].cell.gone
  }

  predicate InPool(s: State, pool: string, ip: string) {
    pool in s.pools && BlockOf(ip) in s.pools[pool]
  }

  predicate Idle(s: State) {
    match s.busy
    case None => true
    case Some(r) => r.claim in s.claims && r.exec in s.claims[r.claim].execs && s.claims[r.claim].execs[r.exec].pc.Done?
  }

  // ------------------------------------------------------------------ steps

  function Removing(s: State, pool: string, ip: string, happens: bool): State {
    if happens && pool in s.pools then s.(pools := s.pools[pool := Without(s.pools[pool], BlockOf(ip))]) else s
  }

  function Adding(s: State, pool: string, ip: string, happens: bool): State {
    if happens && pool in s.pools then s.(pools := s.pools[pool := Ensured(s.pools[pool], BlockOf(ip))]) else s
  }

  /** The pool update an execution makes on its way. */
  function PoolEffect(s: State, x: CR.Exec, o: CR.Outcome, lost: bool): State {
    var pool := x.local.spec.poolName;
    match x.pc
    case UnpoolDeleted => Removing(s, pool, x.local.status.assignedIP, o.ok || lost)
    case UnpoolDrifted(ip) => Removing(s, pool, ip, o.ok || lost)
    case EnsurePooled(ip) => Adding(s, pool, ip, o.ok || lost)
    case _ => s
  }

  /** The clean-up request leaves the operator (:111). */
  predicate SendsCleanup(x: CR.Exec, o: CR.Outcome) { x.pc.CallCleanup? && o.ok && x.local.status.wanInterface != "" }

  function Releasing(s: State, n: string, x: CR.Exec, o: CR.Outcome): State {
    if SendsCleanup(x, o) then s.(released := s.released + {n}) else s
  }

  ghost predicate Allowed(s: State, n: string, step: CR.Step)
    requires n in s.claims && s.claims[n].cell.versions != []
  {
    var c := s.claims[n];
    match step
    case EditSpec(spec) => spec.poolName == c.cell.Latest().spec.poolName
    case Begin(e, k) => Idle(s) && e !in c.execs && k < |c.cell.versions|
    case Continue(e, o) =>
      && e in c.execs
      && (c.execs[e].pc.AwaitAddress? && o.ok && o.reply != "" ==> NoOtherHolds(s, n, o.reply))
      && (c.execs[e].pc.EnsurePooled? && o.ok ==> c.execs[e].local.spec.poolName in s.pools)
    case _ => true
  }

  ghost function DoClaim(s: State, n: string, step: CR.Step, lost: bool): State
    requires n in s.claims && s.claims[n].cell.versions != []
  {
    var c := s.claims[n];
    var t := s.(claims := s.claims[n := CR.Do(c, step)]);
    match step
    case Begin(e, _) => t.(busy := Some(Ref(n, e)), late := Freed(s, n))
    case Continue(e, o) => if e in c.execs then PoolEffect(Releasing(t, n, c.execs[e], o), c.execs[e], o, lost) else t
    case _ => t
  }

  ghost function Do(s: State, step: Step): State {
    match step
    case Create(n, spec) => if n in s.claims then s else s.(claims := s.claims[n := NewClaim(n, spec)])
    case AddPool(p, blocks) => if p in s.pools then s else s.(pools := s.pools[p := blocks])
    case ClaimStep(n, st, lost) =>
      if n in s.claims && s.claims[n].cell.versions != [] && Allowed(s, n, st) then DoClaim(s, n, st, lost) else s
  }

  ghost function Run(s: State, steps: seq<Step>): State {
    if steps == [] then s else Do(Run(s, steps[..|steps| - 1]), steps[|steps| - 1])
  }

  const EMPTY: State := State(map[], map[], None, false, {})

  // -------------------------------------------------------------- invariant

  ghost predicate PoolNameFixed(c: CR.State) {
    c.cell.versions != [] &&
    forall k :: 0 <= k < |c.cell.versions| ==> c.cell.versions[k].spec.poolName == c.cell.Latest().spec.poolName
  }

  ghost predicate ClaimOk(s: State, n: string)
    requires n in s.claims
  {
    var c := s.claims[n];
    && PoolNameFixed(c)
    && (forall e :: e in c.execs && !c.execs[e].pc.Done? ==> s.busy == Some(Ref(n, e)))
    && (n in s.released ==> c.cell.Latest().deleting)
  }

  /** An address held by a claim that is not being deleted is in the claim's pool. */
  ghost predicate Pooled(s: State, n: string)
    requires n in s.claims && s.claims[n].cell.versions != []
  {
    var c := s.claims[n];
    HeldBy(c) != "" && !c.cell.Latest().deleting ==> InPool(s, c.cell.Latest().spec.poolName, HeldBy(c))
  }

  ghost predicate Distinct(s: State) {
    forall n, m :: n in s.claims && m in s.claims && n != m && Holds(s, n) != "" ==> Holds(s, n) != Holds(s, m)
  }

  /** What the active execution relies on. */
  ghost predicate BusyOk(s: State, n: string, x: CR.Exec)
    requires n in s.claims && s.claims[n].cell.versions != []
  {
    match x.pc
    case EnsurePooled(ip) => ip != "" && NoOtherHolds(s, n, ip)
    case WriteReady(ip) => ip != "" && NoOtherHolds(s, n, ip) && InPool(s, x.local.spec.poolName, ip)
    case UnpoolDrifted(ip) => ip != "" && NoOtherHolds(s, n, ip) && HeldBy(s.claims[n]) != ip
    case CallCleanup => !s.late && x.local.status.assignedIP != "" ==> NoOtherHolds(s, n, x.local.status.assignedIP)
    case UnpoolDeleted =>
      x.local.status.assignedIP != "" && (!s.late ==> NoOtherHolds(s, n, x.local.status.assignedIP))
    case _ => true
  }

  ghost predicate Core(s: State) {
    (forall n :: n in s.claims ==> ClaimOk(s, n)) && Distinct(s) && s.released <= s.claims.Keys
  }

  ghost predicate AllPooled(s: State)
    requires Core(s)
  {
    forall n :: n in s.claims ==> Pooled(s, n)
  }

  ghost predicate Sound(s: State) {
    forall n :: n in s.claims ==> CR.Inv(s.claims[n])
  }

  ghost predicate BusyInv(s: State) {
    s.busy.Some? ==>
      var r := s.busy.value;
      && r.claim in s.claims && s.claims[r.claim].cell.versions != [] && r.exec in s.claims[r.claim].execs
      && BusyOk(s, r.claim, s.claims[r.claim].execs[r.exec])
  }

  ghost predicate Inv(s: State) {
    Sound(s) && Core(s) && BusyInv(s)
  }

  // --------------------------------------------------- one claim's own step

  lemma OutsideAddress(c: CR.State, step: CR.Step)
    requires CR.Inv(c)
    ensures var d := CR.DoOutside(c, step);
            && d.cell.versions != [] && d.execs == c.execs
            && (HeldBy(d) == HeldBy(c) || HeldBy(d) == "")
            && (c.cell.Latest().deleting ==> d.cell.Latest().deleting)
            && (c.cell.gone ==> d.cell.gone)
  {}

  lemma ContinueAddress(c: CR.State, e: nat, o: CR.Outcome)
    requires CR.Inv(c) && e in c.execs
    ensures var d := CR.DoContinue(c, e, o);
            && d.cell.versions != []
            && (HeldBy(d) == HeldBy(c) || HeldBy(d) == "" || (c.execs[e].pc == WriteReady(HeldBy(d)) &&
               c.execs[e].local == c.cell.Latest()))
            && (c.cell.Latest().deleting ==> d.cell.Latest().deleting)
            && (c.cell.gone ==> d.cell.gone)
            && d.cell.Latest().spec.poolName == c.cell.Latest().spec.poolName
  {
    assert CR.ExecOk(c, e);
    CR.ContinueWritesIntent(c, e, o);
    assert CR.VersionOk(c.cell.Latest());
  }

  lemma DriftReleases(c: CR.State, e: nat, o: CR.Outcome)
    requires CR.Inv(c) && e in c.execs && c.execs[e].pc.ResetForDrift?
    ensures var d := CR.DoContinue(c, e, o);
            e in d.execs && (d.execs[e].pc.Done? ||
             (d.execs[e].pc == UnpoolDrifted(HeldBy(c)) && HeldBy(c) != "" && HeldBy(d) == "" &&
              !c.cell.Latest().deleting))
  {
    assert CR.ExecOk(c, e);
    CR.ContinueWritesIntent(c, e, o);
  }

  lemma PoolNameKept(c: CR.State, d: CR.State)
    requires PoolNameFixed(c)
    requires d.cell.versions == c.cell.versions ||
             (|d.cell.versions| == |c.cell.versions| + 1 && c.cell.versions <= d.cell.versions &&
              d.cell.Latest().spec.poolName == c.cell.Latest().spec.poolName)
    ensures PoolNameFixed(d)
  {
    forall k | 0 <= k < |d.cell.versions|
      ensures d.cell.versions[k].spec.poolName == d.cell.Latest().spec.poolName
    {
      if k < |c.cell.versions| { assert d.cell.versions[k] == c.cell.versions[k]; }
    }
  }

  // ------------------------------------------------------- system invariant

  /** The address of n may go, or become one that no other claim holds and that is pooled. */
  ghost predicate MayBecome(s: State, n: string, d: CR.State)
    requires n in s.claims && s.claims[n].cell.versions != []
  {
    var c := s.claims[n];
    && PoolNameFixed(d)
    && (forall e :: e in d.execs && !d.execs[e].pc.Done? ==> s.busy == Some(Ref(n, e)))
    && (c.cell.Latest().deleting ==> d.cell.Latest().deleting)
    && d.cell.Latest().spec.poolName == c.cell.Latest().spec.poolName
    && (c.cell.gone ==> d.cell.gone)
    && (HeldBy(d) == HeldBy(c) || HeldBy(d) == "" ||
        (NoOtherHolds(s, n, HeldBy(d)) && InPool(s, d.cell.Latest().spec.poolName, HeldBy(d))))
  }

  lemma ClaimChangeKeepsCore(s: State, n: string, d: CR.State)
    requires Core(s) && n in s.claims && MayBecome(s, n, d)
    ensures Core(s.(claims := s.claims[n := d]))
  {
    var t := s.(claims := s.claims[n := d]);
    forall m | m in t.claims ensures ClaimOk(t, m) {
      assert m != n ==> ClaimOk(s, m);
    }
  }

  lemma ClaimChangeKeepsPooled(s: State, n: string, d: CR.State)
    requires Core(s) && n in s.claims && MayBecome(s, n, d) && AllPooled(s)
    requires Core(s.(claims := s.claims[n := d]))
    ensures AllPooled(s.(claims := s.claims[n := d]))
  {
    var t := s.(claims := s.claims[n := d]);
    forall m | m in t.claims ensures Pooled(t, m) {
      assert Pooled(s, m);
    }
  }

  lemma PoolChangeKeepsCore(s: State, t: State)
    requires Core(s) && t == s.(pools := t.pools)
    ensures Core(t)
  {
    forall m | m in t.claims ensures ClaimOk(t, m) { assert ClaimOk(s, m); }
  }

  lemma ReleasingKeeps(s: State, n: string, x: CR.Exec, o: CR.Outcome)
    requires Core(s) && n in s.claims && (SendsCleanup(x, o) ==> s.claims[n].cell.Latest().deleting)
    ensures Core(Releasing(s, n, x, o))
    ensures AllPooled(s) <==> AllPooled(Releasing(s, n, x, o))
  {
    var t := Releasing(s, n, x, o);
    forall m | m in t.claims ensures ClaimOk(t, m) && (Pooled(t, m) <==> Pooled(s, m)) { assert ClaimOk(s, m); }
  }

  lemma ReleasingKeepsBusy(s: State, n: string, x: CR.Exec, o: CR.Outcome, y: CR.Exec)
    requires n in s.claims && s.claims[n].cell.versions != [] && BusyOk(s, n, y)
    ensures BusyOk(Releasing(s, n, x, o), n, y)
  {}

  /** m needs the block of ip in the pool. */
  ghost predicate Needs(s: State, m: string, pool: string, ip: string)
    requires m in s.claims && s.claims[m].cell.versions != []
  {
    var c := s.claims[m].cell;
    HeldBy(s.claims[m]) == ip && !c.Latest().deleting && c.Latest().spec.poolName == pool
  }

  /** Taking a block out leaves everyone pooled exactly when nobody needs it. */
  lemma RemovingKeepsPooledExactlyWhen(s: State, pool: string, ip: string)
    requires Core(s) && AllPooled(s) && ip != "" && Core(Removing(s, pool, ip, true))
    requires forall m :: m in s.claims ==> s.claims[m].cell.versions != []
    ensures AllPooled(Removing(s, pool, ip, true)) <==> !exists m :: m in s.claims && Needs(s, m, pool, ip)
  {
    var t := Removing(s, pool, ip, true);
    forall m | m in s.claims ensures Pooled(t, m) <==> !Needs(s, m, pool, ip) {
      assert Pooled(s, m);
      PooledAfterRemoving(s, pool, ip, m);
    }
  }

  lemma PooledAfterRemoving(s: State, pool: string, ip: string, m: string)
    requires m in s.claims && s.claims[m].cell.versions != [] && Pooled(s, m) && ip != ""
    ensures Pooled(Removing(s, pool, ip, true), m) <==> !Needs(s, m, pool, ip)
  {
    var c := s.claims[m];
    if HeldBy(c) != "" && !c.cell.Latest().deleting && c.cell.Latest().spec.poolName == pool {
      WithoutMembers(s.pools[pool], BlockOf(ip), BlockOf(HeldBy(c)));
      if BlockOf(ip) == BlockOf(HeldBy(c)) { BlockOfInjective(ip, HeldBy(c)); }
    }
  }

  lemma AddingKeepsPooled(s: State, pool: string, ip: string, happens: bool)
    requires Core(s) && AllPooled(s) && Core(Adding(s, pool, ip, happens))
    ensures AllPooled(Adding(s, pool, ip, happens))
  {
    var t := Adding(s, pool, ip, happens);
    forall m | m in t.claims ensures Pooled(t, m) { assert Pooled(s, m); }
  }

  lemma OutsideMayBecome(s: State, n: string, step: CR.Step)
    requires Core(s) && n in s.claims && CR.Inv(s.claims[n]) && Allowed(s, n, step) && !step.Begin? && !step.Continue?
    ensures MayBecome(s, n, CR.DoOutside(s.claims[n], step))
    ensures var h := HeldBy(CR.Do(s.claims[n], step)); h == HeldBy(s.claims[n]) || h == ""
  {
    var c := s.claims[n];
    assert ClaimOk(s, n);
    OutsideAddress(c, step);
    PoolNameKept(c, CR.DoOutside(c, step));
  }

  lemma OutsideKeepsCore(s: State, n: string, step: CR.Step)
    requires Core(s) && n in s.claims && CR.Inv(s.claims[n]) && Allowed(s, n, step) && !step.Begin? && !step.Continue?
    ensures Core(DoClaim(s, n, step, false)) && CR.Inv(CR.Do(s.claims[n], step))
    ensures AllPooled(s) ==> AllPooled(DoClaim(s, n, step, false))
  {
    OutsideMayBecome(s, n, step);
    hide Core, MayBecome;
    ClaimChangeKeepsCore(s, n, CR.DoOutside(s.claims[n], step));
    if AllPooled(s) { ClaimChangeKeepsPooled(s, n, CR.DoOutside(s.claims[n], step)); }
    CR.OutsideKeeps(s.claims[n], step);
  }

  lemma OutsideKeepsBusy(s: State, n: string, d: CR.State, r: Ref)
    requires n in s.claims && s.claims[n].cell.versions != [] && d.cell.versions != []
    requires HeldBy(d) == HeldBy(s.claims[n]) || HeldBy(d) == ""
    requires r.claim in s.claims && r.exec in s.claims[r.claim].execs && s.claims[r.claim].cell.versions != []
    requires BusyOk(s, r.claim, s.claims[r.claim].execs[r.exec])
    ensures BusyOk(s.(claims := s.claims[n := d]), r.claim, s.claims[r.claim].execs[r.exec])
  {}

  lemma OutsideKeeps(s: State, n: string, step: CR.Step)
    requires Inv(s) && n in s.claims && s.claims[n].cell.versions != []
    requires Allowed(s, n, step) && !step.Begin? && !step.Continue?
    ensures Inv(DoClaim(s, n, step, false))
    ensures AllPooled(s) ==> AllPooled(DoClaim(s, n, step, false))
  {
    hide CR.Inv, CR.DoOutside, Core, CR.ExecOk, BusyOk;
    OutsideKeepsCore(s, n, step);
    if s.busy.Some? {
      OutsideAddress(s.claims[n], step);
      OutsideKeepsBusy(s, n, CR.DoOutside(s.claims[n], step), s.busy.value);
    }
  }

  /** An execution in the deletion branch works on a claim whose frozen status it has. */
  lemma CleanupStandsOnDeletion(s: State, n: string, e: nat)
    requires n in s.claims && CR.Inv(s.claims[n]) && e in s.claims[n].execs
    requires var x := s.claims[n].execs[e]; x.pc.CallCleanup? || x.pc.UnpoolDeleted?
    ensures var c := s.claims[n]; var x := c.execs[e];
            && c.cell.Latest().deleting && c.cell.Latest().status == x.local.status
  {
    var c := s.claims[n];
    assert CR.ExecOk(c, e);
    CR.FrozenStatus(c.cell, c.execs[e].base, |c.cell.versions| - 1);
  }

  // ----------------------------------------------------------------- begin

  /** Executions come and go without any change to the objects. */
  lemma SameCells(s: State, t: State)
    requires Distinct(s) && t.claims.Keys == s.claims.Keys && t.released == s.released
    requires forall m :: m in s.claims ==> t.claims[m].cell == s.claims[m].cell
    ensures Distinct(t)
    ensures forall m, ip :: m in s.claims && NoOtherHolds(s, m, ip) ==> NoOtherHolds(t, m, ip)
  {
    assert forall m :: m in s.claims ==> Holds(t, m) == Holds(s, m);
  }

  lemma BeginKeepsClaim(s: State, n: string, e: nat, k: nat, m: string)
    requires Core(s) && n in s.claims && s.claims[n].cell.versions != [] && m in s.claims
    requires Allowed(s, n, CR.Begin(e, k))
    ensures var t := DoClaim(s, n, CR.Begin(e, k), false);
            ClaimOk(t, m) && t.claims[m].cell == s.claims[m].cell && (Pooled(s, m) ==> Pooled(t, m))
  {
    NobodyRuns(s);
    assert ClaimOk(s, m);
  }

  lemma BeginKeepsCore(s: State, n: string, e: nat, k: nat)
    requires Core(s) && n in s.claims && s.claims[n].cell.versions != [] && Allowed(s, n, CR.Begin(e, k))
    ensures Core(DoClaim(s, n, CR.Begin(e, k), false))
    ensures AllPooled(s) ==> AllPooled(DoClaim(s, n, CR.Begin(e, k), false))
  {
    var t := DoClaim(s, n, CR.Begin(e, k), false);
    assert t.claims.Keys == s.claims.Keys && t.released == s.released;
    hide ClaimOk, Allowed, DoClaim;
    forall m | m in s.claims
      ensures ClaimOk(t, m) && t.claims[m].cell == s.claims[m].cell && (Pooled(s, m) ==> Pooled(t, m))
    {
      BeginKeepsClaim(s, n, e, k, m);
    }
    hide Pooled;
    SameCells(s, t);
  }

  /** A pass that begins while its claim holds the address: nobody else holds it. */
  lemma PassBegins(s: State, n: string, k: nat)
    requires Distinct(s) && n in s.claims && CR.Inv(s.claims[n]) && k < |s.claims[n].cell.versions| && !Freed(s, n)
    requires var v := s.claims[n].cell.versions[k]; v.deleting && v.status.assignedIP != ""
    ensures NoOtherHolds(s, n, s.claims[n].cell.versions[k].status.assignedIP)
  {
    CR.FrozenStatus(s.claims[n].cell, k, |s.claims[n].cell.versions| - 1);
    HolderIsAlone(s, n);
  }

  lemma BeginFacts(s: State, n: string, e: nat, k: nat)
    requires n in s.claims && s.claims[n].cell.versions != [] && Allowed(s, n, CR.Begin(e, k))
    ensures var t, v := DoClaim(s, n, CR.Begin(e, k), false), s.claims[n].cell.versions[k];
            && t.claims.Keys == s.claims.Keys && (forall m :: m in s.claims ==> t.claims[m].cell == s.claims[m].cell)
            && e in t.claims[n].execs && t.claims[n].execs[e] == CR.Exec(Dispatch(v), v, k)
            && t.released == s.released && t.late == Freed(s, n) && t.busy == Some(Ref(n, e))
  {}

  lemma BeginKeepsBusy(s: State, n: string, e: nat, k: nat)
    requires Core(s) && n in s.claims && s.claims[n].cell.versions != [] && CR.Inv(s.claims[n])
    requires Allowed(s, n, CR.Begin(e, k))
    ensures BusyInv(DoClaim(s, n, CR.Begin(e, k), false))
  {
    var t, v := DoClaim(s, n, CR.Begin(e, k), false), s.claims[n].cell.versions[k];
    BeginFacts(s, n, e, k);
    AddressesAreDistinct(s);
    hide CR.Inv, Core, DoClaim, Allowed, NoOtherHolds, Freed, Distinct;
    SameCells(s, t);
    if !Freed(s, n) && v.deleting && v.status.assignedIP != "" { PassBegins(s, n, k); }
  }

  lemma BeginKeeps(s: State, n: string, e: nat, k: nat)
    requires Inv(s) && n in s.claims && s.claims[n].cell.versions != [] && Allowed(s, n, CR.Begin(e, k))
    ensures Inv(DoClaim(s, n, CR.Begin(e, k), false))
    ensures AllPooled(s) ==> AllPooled(DoClaim(s, n, CR.Begin(e, k), false))
  {
    hide CR.Inv, Core, BusyInv;
    CR.BeginKeeps(s.claims[n], e, k);
    BeginKeepsCore(s, n, e, k);
    BeginKeepsBusy(s, n, e, k);
  }

  lemma NobodyRuns(s: State)
    requires Core(s) && Idle(s)
    ensures forall m, f :: m in s.claims && f in s.claims[m].execs ==> s.claims[m].execs[f].pc.Done?
  {
    forall m, f | m in s.claims && f in s.claims[m].execs ensures s.claims[m].execs[f].pc.Done? {
      assert ClaimOk(s, m);
    }
  }

  // -------------------------------------------------------------- continue

  /** The execution's step on its own claim. */
  function Stepped(s: State, n: string, e: nat, o: CR.Outcome): State
    requires n in s.claims
  {
    s.(claims := s.claims[n := CR.DoContinue(s.claims[n], e, o)])
  }

  lemma ContinueMayBecome(s: State, n: string, e: nat, o: CR.Outcome)
    requires Core(s) && n in s.claims && CR.Inv(s.claims[n]) && e in s.claims[n].execs
    requires BusyOk(s, n, s.claims[n].execs[e])
    ensures MayBecome(s, n, CR.DoContinue(s.claims[n], e, o))
  {
    var c := s.claims[n];
    var d := CR.DoContinue(c, e, o);
    assert ClaimOk(s, n) && CR.ExecOk(c, e);
    ContinueAddress(c, e, o);
    CR.ContinueWritesIntent(c, e, o);
    PoolNameKept(c, d);
    ExecsOfOthersStay(c, e, o);
  }

  lemma ExecsOfOthersStay(c: CR.State, e: nat, o: CR.Outcome)
    requires e in c.execs
    ensures var d := CR.DoContinue(c, e, o);
            d.execs.Keys == c.execs.Keys && (forall f :: f in c.execs && f != e ==> d.execs[f] == c.execs[f]) &&
            (c.execs[e].pc.Done? ==> d.execs[e].pc.Done?)
  {}

  /** How an execution gets to the points that rely on something. */
  lemma NextPcs(c: CR.State, e: nat, o: CR.Outcome)
    requires CR.Inv(c) && e in c.execs
    ensures var d, x := CR.DoContinue(c, e, o), c.execs[e];
            && d.cell.versions != [] && e in d.execs
            && var y := d.execs[e];
               && (x.pc.EnsurePooled? ==> y == x.(pc := if o.ok then WriteReady(x.pc.ip) else WriteFailed))
               && (y.pc.WriteReady? ==> x.pc.EnsurePooled?)
               && (y.pc.EnsurePooled? ==> x.pc.AwaitAddress? && o.ok && o.reply != "" && y.pc.ip == o.reply)
               && (y.pc.UnpoolDrifted? ==> x.pc.ResetForDrift?)
               && !y.pc.CallCleanup?
               && (y.pc.UnpoolDeleted? ==> x.pc.CallCleanup? && y.local == x.local && y.local.status.assignedIP != "")
               && (x.pc.UnpoolDeleted? || x.pc.UnpoolDrifted? ==> y.pc.Done? || y.pc.DropFinalizer?)
  {
    NextExec(c, e, o);
    hide CR.Inv, CR.DoContinue;
  }

  lemma NextExec(c: CR.State, e: nat, o: CR.Outcome)
    requires c.cell.versions != [] && e in c.execs
    ensures var d, x := CR.DoContinue(c, e, o), c.execs[e];
            && d.cell.versions != [] && e in d.execs
            && if CR.WritesStatus(x.pc) || CR.WritesMeta(x.pc) then d.execs[e].pc in {Done, CR.AfterWrite(x)}
               else d.execs[e] == x.(pc := if !x.pc.CallAllocate? then CR.NextPc(x, o)
                                           else if o.ok then AwaitAddress else WriteFailed)
  {
    hide CR.Intent, CR.Submitted, CR.NextPc, CR.AfterWrite;
  }

  /** What the execution at y relies on after a step from x, before any pool update. */
  ghost predicate NextOk(t: State, n: string, e: nat, x: CR.Exec, o: CR.Outcome) {
    && n in t.claims && t.claims[n].cell.versions != [] && e in t.claims[n].execs
    && var y := t.claims[n].execs[e];
       if x.pc.EnsurePooled? then
         && x.pc.ip != "" && NoOtherHolds(t, n, x.pc.ip)
         && y == x.(pc := if o.ok then WriteReady(x.pc.ip) else WriteFailed)
         && (o.ok ==> x.local.spec.poolName in t.pools)
       else
         && BusyOk(t, n, y)
         && (x.pc.UnpoolDeleted? || x.pc.UnpoolDrifted? ==> y.pc.Done? || y.pc.DropFinalizer?)
  }

  lemma ContinueKeepsBusy(s: State, n: string, e: nat, o: CR.Outcome)
    requires n in s.claims && CR.Inv(s.claims[n]) && e in s.claims[n].execs && Distinct(s)
    requires n in s.released ==> s.claims[n].cell.Latest().deleting
    requires Allowed(s, n, CR.Continue(e, o)) && BusyOk(s, n, s.claims[n].execs[e])
    ensures NextOk(Stepped(s, n, e, o), n, e, s.claims[n].execs[e], o)
  {
    var c := s.claims[n];
    NextPcs(c, e, o);
    OnlyOneChanges(s, n, CR.DoContinue(c, e, o));
    if c.execs[e].pc.ResetForDrift? {
      DriftReleases(c, e, o);
      if HeldBy(c) != "" && !c.cell.Latest().deleting { HolderIsAlone(s, n); }
    }
    hide CR.Inv, CR.DoContinue, NoOtherHolds, Distinct;
  }

  lemma OnlyOneChanges(s: State, n: string, d: CR.State)
    ensures forall ip :: NoOtherHolds(s, n, ip) ==> NoOtherHolds(s.(claims := s.claims[n := d]), n, ip)
  {}

  lemma HolderIsAlone(s: State, n: string)
    requires Distinct(s) && n in s.claims && n !in s.released && HeldBy(s.claims[n]) != ""
    ensures NoOtherHolds(s, n, HeldBy(s.claims[n]))
  {
    assert Holds(s, n) == HeldBy(s.claims[n]);
  }

  /** The step takes the block of an address out of a pool in which another claim needs
      it: what a caller of the removal at :118-122 could check beforehand. */
  ghost predicate TakesAnothersBlock(s: State, step: Step) {
    && step.ClaimStep? && step.step.Continue? && step.n in s.claims && step.step.e in s.claims[step.n].execs
    && var x := s.claims[step.n].execs[step.step.e];
       && x.pc.UnpoolDeleted? && (step.step.o.ok || step.lost)
       && exists m :: m in s.claims && m != step.n && s.claims[m].cell.versions != []
                   && Needs(s, m, x.local.spec.poolName, x.local.status.assignedIP)
  }

  lemma DeletedEffect(s: State, t: State, n: string, e: nat, o: CR.Outcome, lost: bool)
    requires n in s.claims && CR.Inv(s.claims[n]) && e in s.claims[n].execs && s.claims[n].execs[e].pc.UnpoolDeleted?
    requires s.claims[n].execs[e].local.status.assignedIP != "" && (o.ok || lost)
    requires Core(t) && AllPooled(t) && t == Stepped(s, n, e, o)
    requires Core(PoolEffect(t, s.claims[n].execs[e], o, lost))
    ensures AllPooled(PoolEffect(t, s.claims[n].execs[e], o, lost)) <==>
            !TakesAnothersBlock(s, ClaimStep(n, CR.Continue(e, o), lost))
  {
    var x := s.claims[n].execs[e];
    CleanupStandsOnDeletion(s, n, e);
    ContinueAddress(s.claims[n], e, o);
    ClaimsHaveVersions(t);
    hide CR.Inv, Core, AllPooled, CR.DoContinue, Needs;
    RemovingKeepsPooledExactlyWhen(t, x.local.spec.poolName, x.local.status.assignedIP);
    NeedersAreOthers(s, t, n, x.local.spec.poolName, x.local.status.assignedIP);
  }

  lemma DriftedEffect(s: State, t: State, n: string, e: nat, o: CR.Outcome, ip: string)
    requires n in s.claims && CR.Inv(s.claims[n]) && e in s.claims[n].execs &&
             s.claims[n].execs[e].pc == UnpoolDrifted(ip)
    requires ip != "" && NoOtherHolds(s, n, ip) && HeldBy(s.claims[n]) != ip
    requires Core(t) && AllPooled(t) && t == Stepped(s, n, e, o)
    requires Core(Removing(t, s.claims[n].execs[e].local.spec.poolName, ip, true))
    ensures AllPooled(Removing(t, s.claims[n].execs[e].local.spec.poolName, ip, true))
  {
    var pool := s.claims[n].execs[e].local.spec.poolName;
    ContinueAddress(s.claims[n], e, o);
    ClaimsHaveVersions(t);
    hide CR.Inv, Core, AllPooled, CR.DoContinue, Needs;
    RemovingKeepsPooledExactlyWhen(t, pool, ip);
    NobodyNeeds(s, t, n, pool, ip);
  }

  /** Every pool update leaves everyone pooled, except a removal that takes another claim's block. */
  lemma PoolEffectKeepsExactlyWhen(s: State, t: State, n: string, e: nat, o: CR.Outcome, lost: bool)
    requires n in s.claims && CR.Inv(s.claims[n]) && s.claims[n].cell.versions != [] && e in s.claims[n].execs
    requires BusyOk(s, n, s.claims[n].execs[e])
    requires Core(t) && AllPooled(t) && t == Stepped(s, n, e, o)
    requires Core(PoolEffect(t, s.claims[n].execs[e], o, lost))
    ensures AllPooled(PoolEffect(t, s.claims[n].execs[e], o, lost)) <==>
            !TakesAnothersBlock(s, ClaimStep(n, CR.Continue(e, o), lost))
  {
    hide CR.Inv, Core, AllPooled, CR.DoContinue, Needs, HeldBy;
    var x := s.claims[n].execs[e];
    match x.pc
    case UnpoolDeleted => if o.ok || lost { DeletedEffect(s, t, n, e, o, lost); }
    case UnpoolDrifted(ip) => if o.ok || lost { DriftedEffect(s, t, n, e, o, ip); }
    case EnsurePooled(ip) => AddingKeepsPooled(t, x.local.spec.poolName, ip, o.ok || lost);
    case _ =>
  }

  lemma ClaimsHaveVersions(s: State)
    requires Core(s)
    ensures forall m :: m in s.claims ==> s.claims[m].cell.versions != []
    ensures forall m :: m in s.claims && m in s.released ==> s.claims[m].cell.Latest().deleting
  {
    forall m | m in s.claims ensures s.claims[m].cell.versions != [] { assert ClaimOk(s, m); }
    forall m | m in s.claims && m in s.released ensures s.claims[m].cell.Latest().deleting { assert ClaimOk(s, m); }
  }

  lemma NobodyNeeds(s: State, t: State, n: string, pool: string, ip: string)
    requires n in s.claims && n in t.claims && t == s.(claims := s.claims[n := t.claims[n]])
    requires forall m :: m in t.claims ==> t.claims[m].cell.versions != []
    requires forall m :: m in t.claims && m in t.released ==> t.claims[m].cell.Latest().deleting
    requires NoOtherHolds(s, n, ip) && HeldBy(t.claims[n]) != ip
    ensures !exists m :: m in t.claims && Needs(t, m, pool, ip)
  {
    forall m | m in t.claims ensures !Needs(t, m, pool, ip) {
      assert m != n ==> Holds(s, m) != ip;
    }
  }

  lemma NeedersAreOthers(s: State, t: State, n: string, pool: string, ip: string)
    requires n in s.claims && n in t.claims && t == s.(claims := s.claims[n := t.claims[n]])
    requires t.claims[n].cell.versions != [] && t.claims[n].cell.Latest().deleting
    requires forall m :: m in t.claims ==> t.claims[m].cell.versions != []
    ensures (exists m :: m in t.claims && Needs(t, m, pool, ip)) <==>
            (exists m :: m in s.claims && m != n && s.claims[m].cell.versions != [] && Needs(s, m, pool, ip))
  {
    if m :| m in t.claims && Needs(t, m, pool, ip) {
      assert m != n && Needs(s, m, pool, ip);
    }
    if m :| m in s.claims && m != n && s.claims[m].cell.versions != [] && Needs(s, m, pool, ip) {
      assert Needs(t, m, pool, ip);
    }
  }

  lemma AddressesAreDistinct(s: State)
    requires Core(s)
    ensures Distinct(s)
  {}

  lemma SteppedKeepsCore(s: State, n: string, e: nat, o: CR.Outcome)
    requires Inv(s) && n in s.claims && s.busy == Some(Ref(n, e))
    ensures Core(Stepped(s, n, e, o)) && CR.Inv(CR.DoContinue(s.claims[n], e, o))
    ensures AllPooled(s) ==> AllPooled(Stepped(s, n, e, o))
  {
    hide CR.Inv, CR.DoContinue, Core, BusyOk, MayBecome, AllPooled;
    ContinueMayBecome(s, n, e, o);
    ClaimChangeKeepsCore(s, n, CR.DoContinue(s.claims[n], e, o));
    CR.ContinueKeeps(s.claims[n], e, o);
    if AllPooled(s) { ClaimChangeKeepsPooled(s, n, CR.DoContinue(s.claims[n], e, o)); }
  }

  /** The active execution's step on claim and pool, its release apart. */
  lemma ClaimAndPoolKeep(s: State, n: string, e: nat, o: CR.Outcome, lost: bool)
    requires Inv(s) && n in s.claims && Allowed(s, n, CR.Continue(e, o)) && s.busy == Some(Ref(n, e))
    ensures var t := Stepped(s, n, e, o);
            var u := PoolEffect(t, s.claims[n].execs[e], o, lost);
            && Core(u) && u.claims == t.claims
            && n in t.claims && t.claims[n].cell.versions != []
            && e in t.claims[n].execs && BusyOk(u, n, t.claims[n].execs[e])
            && (AllPooled(s) ==> (AllPooled(u) <==> !TakesAnothersBlock(s, ClaimStep(n, CR.Continue(e, o), lost))))
  {
    var t, x := Stepped(s, n, e, o), s.claims[n].execs[e];
    SteppedKeepsCore(s, n, e, o);
    AddressesAreDistinct(s);
    ClaimsHaveVersions(s);
    ContinueKeepsBusy(s, n, e, o);
    assert n in t.claims && t.claims[n].cell.versions != [] && e in t.claims[n].execs;
    hide CR.Inv, CR.DoContinue, Core, BusyOk, AllPooled, TakesAnothersBlock, NextOk, PoolEffect, Allowed;
    BusyAfterPoolEffect(t, n, e, x, o, lost);
    PoolsOnly(t, x, o, lost);
    PoolChangeKeepsCore(t, PoolEffect(t, x, o, lost));
    if AllPooled(s) { PoolEffectKeepsExactlyWhen(s, t, n, e, o, lost); }
  }

  lemma ContinueKeeps(s: State, n: string, e: nat, o: CR.Outcome, lost: bool)
    requires Inv(s) && n in s.claims && Allowed(s, n, CR.Continue(e, o)) && s.busy == Some(Ref(n, e))
    ensures Inv(DoClaim(s, n, CR.Continue(e, o), lost))
    ensures AllPooled(s) ==>
            (AllPooled(DoClaim(s, n, CR.Continue(e, o), lost)) <==>
             !TakesAnothersBlock(s, ClaimStep(n, CR.Continue(e, o), lost)))
  {
    hide CR.Inv, CR.DoContinue, Core, BusyOk, AllPooled, TakesAnothersBlock, PoolEffect, Allowed;
    var t, x := Stepped(s, n, e, o), s.claims[n].execs[e];
    var u := PoolEffect(t, x, o, lost);
    PoolsOnly(t, x, o, lost);
    SteppedKeepsCore(s, n, e, o);
    ClaimAndPoolKeep(s, n, e, o, lost);
    EffectsAreSeparate(t, n, x, o, lost);
    CleanupIsDeleting(s, n, e, o);
    ReleasingKeeps(u, n, x, o);
    ReleasingKeepsBusy(u, n, x, o, t.claims[n].execs[e]);
  }

  lemma PoolsOnly(s: State, x: CR.Exec, o: CR.Outcome, lost: bool)
    ensures var u := PoolEffect(s, x, o, lost); u == s.(pools := u.pools)
  {}

  /** An execution releases and changes the pool in different steps. */
  lemma EffectsAreSeparate(s: State, n: string, x: CR.Exec, o: CR.Outcome, lost: bool)
    ensures PoolEffect(Releasing(s, n, x, o), x, o, lost) == Releasing(PoolEffect(s, x, o, lost), n, x, o)
  {}

  lemma CleanupIsDeleting(s: State, n: string, e: nat, o: CR.Outcome)
    requires n in s.claims && CR.Inv(s.claims[n]) && e in s.claims[n].execs
    ensures var d := CR.DoContinue(s.claims[n], e, o);
            d.cell.versions != [] && (SendsCleanup(s.claims[n].execs[e], o) ==> d.cell.Latest().deleting)
  {
    ContinueAddress(s.claims[n], e, o);
    if SendsCleanup(s.claims[n].execs[e], o) { CleanupStandsOnDeletion(s, n, e); }
  }

  lemma BusyAfterPoolEffect(t: State, n: string, e: nat, x: CR.Exec, o: CR.Outcome, lost: bool)
    requires NextOk(t, n, e, x, o)
    ensures BusyOk(PoolEffect(t, x, o, lost), n, t.claims[n].execs[e])
  {
  }

  lemma NewClaimIsSound(n: string, spec: Spec)
    ensures CR.Inv(NewClaim(n, spec)) && HeldBy(NewClaim(n, spec)) == ""
  {}

  lemma CreateKeeps(s: State, n: string, spec: Spec)
    requires Inv(s) && n !in s.claims
    ensures Inv(s.(claims := s.claims[n := NewClaim(n, spec)]))
    ensures AllPooled(s) ==> AllPooled(s.(claims := s.claims[n := NewClaim(n, spec)]))
  {
    hide CR.Inv, Pooled, HeldBy;
    NewClaimIsSound(n, spec);
    var t := s.(claims := s.claims[n := NewClaim(n, spec)]);
    NewClaimIsInOrder(s, t, n, spec);
    forall m | m in s.claims ensures ClaimOk(t, m) && (Pooled(s, m) ==> Pooled(t, m)) {
      assert ClaimOk(s, m);
      OtherClaimIsInOrder(s, t, m);
    }
    BusyUnaffected(s, t, n);
  }

  lemma NewClaimIsInOrder(s: State, t: State, n: string, spec: Spec)
    requires t == s.(claims := s.claims[n := NewClaim(n, spec)]) && n !in s.released
    ensures ClaimOk(t, n) && Pooled(t, n)
  {}

  lemma OtherClaimIsInOrder(s: State, t: State, m: string)
    requires m in s.claims && m in t.claims && t.claims[m] == s.claims[m]
    requires t == s.(claims := t.claims) && ClaimOk(s, m)
    ensures ClaimOk(t, m) && (Pooled(s, m) ==> Pooled(t, m))
  {}

  lemma BusyUnaffected(s: State, t: State, n: string)
    requires BusyInv(s) && n !in s.claims && n in t.claims && HeldBy(t.claims[n]) == ""
    requires t == s.(claims := s.claims[n := t.claims[n]])
    ensures BusyInv(t)
  {}

  lemma AddPoolKeeps(s: State, p: string, blocks: seq<Block>)
    requires Inv(s) && p !in s.pools
    ensures Inv(s.(pools := s.pools[p := blocks]))
    ensures AllPooled(s) ==> AllPooled(s.(pools := s.pools[p := blocks]))
  {
    hide CR.Inv;
    var t := s.(pools := s.pools[p := blocks]);
    PoolChangeKeepsCore(s, t);
    if AllPooled(s) {
      forall m | m in t.claims ensures Pooled(t, m) { assert Pooled(s, m); }
    }
  }

  /** A finished execution does nothing more. */
  lemma FinishedStaysFinished(c: CR.State, e: nat, o: CR.Outcome)
    requires e in c.execs && c.execs[e].pc.Done?
    ensures CR.DoContinue(c, e, o) == c
  {
    assert c.execs[e := c.execs[e]] == c.execs;
  }

  lemma ClaimStepKeeps(s: State, n: string, step: CR.Step, lost: bool)
    requires Inv(s) && n in s.claims && s.claims[n].cell.versions != [] && Allowed(s, n, step)
    ensures Inv(DoClaim(s, n, step, lost))
    ensures AllPooled(s) ==> (AllPooled(DoClaim(s, n, step, lost)) <==>
            !TakesAnothersBlock(s, ClaimStep(n, step, lost)))
  {
    hide CR.Inv, CR.DoContinue, CR.DoOutside, AllPooled, Core;
    match step
    case Begin(e, k) => BeginKeeps(s, n, e, k);
    case Continue(e, o) =>
      if s.claims[n].execs[e].pc.Done? {
        FinishedStaysFinished(s.claims[n], e, o);
        assert DoClaim(s, n, step, lost) == s by { assert s.claims[n := s.claims[n]] == s.claims; }
      } else {
        RunnerIsBusy(s, n, e);
        ContinueKeeps(s, n, e, o, lost);
      }
    case _ => OutsideKeeps(s, n, step);
  }

  lemma RunnerIsBusy(s: State, n: string, e: nat)
    requires Core(s) && n in s.claims && e in s.claims[n].execs && !s.claims[n].execs[e].pc.Done?
    ensures s.busy == Some(Ref(n, e))
  {
    assert ClaimOk(s, n);
  }

  /** Every step keeps the system sound and addresses distinct; and it leaves every Ready
      claim pooled if and only if it does not take another claim's block. */
  lemma StepKeeps(s: State, step: Step)
    requires Inv(s)
    ensures Inv(Do(s, step))
    ensures AllPooled(s) ==> (AllPooled(Do(s, step)) <==> !(Takes(s, step)))
  {
    hide CR.Inv, AllPooled, Core;
    match step
    case Create(n, spec) => if n !in s.claims { CreateKeeps(s, n, spec); }
    case AddPool(p, blocks) => if p !in s.pools { AddPoolKeeps(s, p, blocks); }
    case ClaimStep(n, st, lost) =>
      if n in s.claims && s.claims[n].cell.versions != [] && Allowed(s, n, st) { ClaimStepKeeps(s, n, st, lost); }
  }

  /** The step is enabled and takes another claim's block. */
  ghost predicate Takes(s: State, step: Step) {
    && TakesAnothersBlock(s, step)
    && s.claims[step.n].cell.versions != [] && Allowed(s, step.n, step.step)
  }

  /** A pass that began while its claim existed and held its address takes nobody's
      block: reconciles are serial, so the address stays with the claim until the pass
      has taken the block out. */
  lemma FirstPassTakesNothing(s: State, step: Step)
    requires Inv(s) && TakesAnothersBlock(s, step)
    ensures s.late
  {
    var n, e := step.n, step.step.e;
    var x := s.claims[n].execs[e];
    RunnerIsBusy(s, n, e);
    ClaimsHaveVersions(s);
    hide Core, Sound;
    var m :| m in s.claims && m != n && s.claims[m].cell.versions != []
          && Needs(s, m, x.local.spec.poolName, x.local.status.assignedIP);
    assert Holds(s, m) == x.local.status.assignedIP;
  }

  lemma EmptyHolds()
    ensures Inv(EMPTY) && AllPooled(EMPTY)
  {}

  lemma {:induction false} RunKeeps(steps: seq<Step>)
    ensures Inv(Run(EMPTY, steps))
    decreases |steps|
  {
    if steps == [] {
      EmptyHolds();
    } else {
      hide Inv, Do;
      RunKeeps(steps[..|steps| - 1]);
      StepKeeps(Run(EMPTY, steps[..|steps| - 1]), steps[|steps| - 1]);
    }
  }

  // ------------------------------------------------------------ main results

  /** Every Ready claim that exists and is not being deleted has AssignedIP/32 among the blocks of its pool. */
  ghost predicate ReadyArePooled(s: State) {
    forall n :: n in s.claims && s.claims[n].cell.versions != [] && !s.claims[n].cell.gone ==>
      var c := s.claims[n].cell.Latest();
      c.status.phase == Ready && !c.deleting ==> InPool(s, c.spec.poolName, c.status.assignedIP)
  }

  lemma ReadyMeansPooled(s: State)
    requires Inv(s)
    ensures AllPooled(s) <==> ReadyArePooled(s)
  {
    forall n | n in s.claims ensures CR.VersionOk(s.claims[n].cell.Latest()) { assert CR.Inv(s.claims[n]); }
    if ReadyArePooled(s) {
      forall n | n in s.claims ensures Pooled(s, n) { assert CR.VersionOk(s.claims[n].cell.Latest()); }
    }
    if AllPooled(s) {
      forall n | n in s.claims ensures Pooled(s, n) {}
    }
  }

  lemma LastStepDecides(steps: seq<Step>, n: nat)
    requires |steps| == n + 1 && ReadyArePooled(Run(EMPTY, steps[..n]))
    ensures ReadyArePooled(Run(EMPTY, steps)) <==> !Takes(Run(EMPTY, steps[..n]), steps[n])
  {
    hide Inv, Takes, ReadyArePooled, Do, AllPooled;
    RunKeeps(steps);
    RunKeeps(steps[..n]);
    ReadyMeansPooled(Run(EMPTY, steps));
    ReadyMeansPooled(Run(EMPTY, steps[..n]));
    StepKeeps(Run(EMPTY, steps[..n]), steps[n]);
  }

  ghost predicate PooledThroughout(steps: seq<Step>) {
    forall k :: 0 <= k <= |steps| ==> ReadyArePooled(Run(EMPTY, steps[..k]))
  }

  ghost predicate TakesNowhere(steps: seq<Step>) {
    forall k :: 0 <= k < |steps| ==> !Takes(Run(EMPTY, steps[..k]), steps[k])
  }

  lemma PooledThroughoutExtends(steps: seq<Step>, n: nat)
    requires |steps| == n + 1
    ensures PooledThroughout(steps) <==> PooledThroughout(steps[..n]) && ReadyArePooled(Run(EMPTY, steps))
  {
    hide ReadyArePooled, Run;
    var front := steps[..n];
    assert steps[..n + 1] == steps;
    if PooledThroughout(steps) {
      forall k | 0 <= k <= n ensures ReadyArePooled(Run(EMPTY, front[..k])) { assert front[..k] == steps[..k]; }
    }
    if PooledThroughout(front) && ReadyArePooled(Run(EMPTY, steps)) {
      forall k | 0 <= k <= n + 1 ensures ReadyArePooled(Run(EMPTY, steps[..k])) {
        if k <= n { assert front[..k] == steps[..k]; }
      }
    }
  }

  lemma TakesNowhereExtends(steps: seq<Step>, n: nat)
    requires |steps| == n + 1
    ensures TakesNowhere(steps) <==> TakesNowhere(steps[..n]) && !Takes(Run(EMPTY, steps[..n]), steps[n])
  {
    hide Takes, Run;
    var front := steps[..n];
    if TakesNowhere(steps) {
      forall k | 0 <= k < n ensures !Takes(Run(EMPTY, front[..k]), front[k]) { assert front[..k] == steps[..k]; }
    }
    if TakesNowhere(front) && !Takes(Run(EMPTY, front), steps[n]) {
      forall k | 0 <= k <= n ensures !Takes(Run(EMPTY, steps[..k]), steps[k]) {
        if k < n { assert front[..k] == steps[..k] && front[k] == steps[k]; }
      }
    }
  }

  /** Over every run, any number of claims and whatever calls fail: Ready claims are
      pooled in all states of the run if and only if no step of it takes another
      claim's block. */
  lemma {:induction false} ReadyClaimsArePooledExactlyWhen(steps: seq<Step>)
    ensures PooledThroughout(steps) <==> TakesNowhere(steps)
    decreases |steps|
  {
    if steps == [] {
      assert forall k :: 0 <= k <= |steps| ==> steps[..k] == [];
    } else {
      var n := |steps| - 1;
      ReadyClaimsArePooledExactlyWhen(steps[..n]);
      PooledThroughoutExtends(steps, n);
      TakesNowhereExtends(steps, n);
      if PooledThroughout(steps[..n]) {
        assert steps[..n][..n] == steps[..n];
        LastStepDecides(steps, n);
      }
    }
  }

  /** No two existing claims that have not released their addresses hold the same one. */
  lemma AddressesStayDistinct(steps: seq<Step>)
    ensures Distinct(Run(EMPTY, steps))
  {
    RunKeeps(steps);
  }

  // ------------------------------------------------------------- the calls

  /** The pools change with the pool calls of the executions and with nothing else, and an
      address is released with a clean-up call that gets through. */
  lemma PoolsFollowCalls(s: State, n: string, e: nat, o: CR.Outcome, lost: bool)
    requires n in s.claims && s.claims[n].cell.versions != [] && Allowed(s, n, CR.Continue(e, o))
    requires !s.claims[n].execs[e].pc.Done?
    ensures var t := Do(s, ClaimStep(n, CR.Continue(e, o), lost));
            var act := RC.ActionAt(s.claims[n].execs[e], s.claims[n].name, o);
            && (act.Unpool? && act.pool in s.pools && (o.ok || lost) ==>
                  t.pools == s.pools[act.pool := Without(s.pools[act.pool], BlockOf(act.ip))])
            && (act.Enpool? && act.pool in s.pools && (o.ok || lost) ==>
                  t.pools == s.pools[act.pool := Ensured(s.pools[act.pool], BlockOf(act.ip))])
            && ((!act.Unpool? && !act.Enpool?) || (!o.ok && !lost) || act.pool !in s.pools ==> t.pools == s.pools)
            && t.released == s.released + (if act.Release? && act.iface != "" && o.ok then {n} else {})
  {
    hide CR.Do, CR.Intent;
  }

  // ------------------------------------------------- who can take a block

  /** Step j of the run begins execution e of claim n. */
  predicate BeginsAt(steps: seq<Step>, j: nat, n: string, e: nat) {
    j < |steps| && steps[j].ClaimStep? && steps[j].n == n && steps[j].step.Begin? && steps[j].step.e == e
  }

  /** Step i of the run sends a clean-up request of claim n. */
  ghost predicate ReleasesAt(steps: seq<Step>, i: nat, n: string) {
    && i < |steps| && steps[i].ClaimStep? && steps[i].n == n && steps[i].step.Continue?
    && var s := Run(EMPTY, steps[..i]);
       && n in s.claims && steps[i].step.e in s.claims[n].execs
       && SendsCleanup(s.claims[n].execs[steps[i].step.e], steps[i].step.o)
  }

  /** late records how things stood when the active execution began. */
  ghost predicate BeganAt(steps: seq<Step>, j: nat) {
    var s := Run(EMPTY, steps);
    s.busy.Some? && BeginsAt(steps, j, s.busy.value.claim, s.busy.value.exec) &&
    var b := Run(EMPTY, steps[..j]);
    s.busy.value.claim in b.claims && s.late == Freed(b, s.busy.value.claim)
  }

  lemma StepKeepsBusy(s: State, step: Step)
    ensures var t := Do(s, step);
            || (t.busy == s.busy && t.late == s.late)
            || (step.ClaimStep? && step.step.Begin? && step.n in s.claims &&
                t.busy == Some(Ref(step.n, step.step.e)) && t.late == Freed(s, step.n))
  {
    hide CR.Do, Allowed;
  }

  lemma {:induction false} BusyBegan(steps: seq<Step>)
    requires Run(EMPTY, steps).busy.Some?
    ensures exists j: nat :: BeganAt(steps, j)
    decreases |steps|
  {
    if steps == [] {
      assert false;
    } else {
      var n := |steps| - 1;
      var front, s := steps[..n], Run(EMPTY, steps[..n]);
      StepKeepsBusy(s, steps[n]);
      if Run(EMPTY, steps).busy == s.busy && Run(EMPTY, steps).late == s.late {
        BusyBegan(front);
        var j: nat :| BeganAt(front, j);
        assert front[..j] == steps[..j] && front[j] == steps[j];
        assert BeganAt(steps, j);
      } else {
        assert BeganAt(steps, n);
      }
    }
  }

  lemma StepReleases(s: State, step: Step, n: string)
    requires n in Do(s, step).released && n !in s.released
    ensures step.ClaimStep? && step.n == n && step.step.Continue? && n in s.claims && step.step.e in s.claims[n].execs
    ensures SendsCleanup(s.claims[n].execs[step.step.e], step.step.o)
  {
    hide CR.Do, Allowed;
  }

  lemma {:induction false} ReleasedByAPass(steps: seq<Step>, n: string)
    requires n in Run(EMPTY, steps).released
    ensures exists i: nat :: ReleasesAt(steps, i, n)
    decreases |steps|
  {
    if steps == [] {
      assert false;
    } else {
      var k := |steps| - 1;
      var front, s := steps[..k], Run(EMPTY, steps[..k]);
      if n in s.released {
        ReleasedByAPass(front, n);
        var i: nat :| ReleasesAt(front, i, n);
        assert front[..i] == steps[..i] && front[i] == steps[i];
        assert ReleasesAt(steps, i, n);
      } else {
        StepReleases(s, steps[k], n);
        assert ReleasesAt(steps, k, n);
      }
    }
  }

  /** Before step j the clean-up request of n has gone out, or n is gone. */
  ghost predicate EarlierPass(steps: seq<Step>, j: nat, n: string) {
    && j <= |steps|
    && ((exists i: nat :: i < j && ReleasesAt(steps, i, n)) ||
        (n in Run(EMPTY, steps[..j]).claims && Run(EMPTY, steps[..j]).claims[n].cell.gone))
  }

  lemma FreedByEarlierPass(steps: seq<Step>, j: nat, n: string)
    requires j <= |steps| && n in Run(EMPTY, steps[..j]).claims && Freed(Run(EMPTY, steps[..j]), n)
    ensures EarlierPass(steps, j, n)
  {
    hide Run;
    if n in Run(EMPTY, steps[..j]).released {
      ReleasedByAPass(steps[..j], n);
      var i: nat :| ReleasesAt(steps[..j], i, n);
      assert steps[..j][..i] == steps[..i] && steps[..j][i] == steps[i];
      assert ReleasesAt(steps, i, n);
    }
  }

  lemma TakerIsLate(s: State, step: Step)
    requires Inv(s) && Takes(s, step)
    ensures s.late && s.busy == Some(Ref(step.n, step.step.e))
  {
    FirstPassTakesNothing(s, step);
    RunnerIsBusy(s, step.n, step.step.e);
  }

  /** A step that takes another claim's block belongs to a deletion pass that began
      when an earlier pass over the same claim had sent its clean-up request already,
      or the claim was gone. */
  lemma OnlyLaterPassesTakeBlocks(steps: seq<Step>, k: nat)
    requires k < |steps| && Takes(Run(EMPTY, steps[..k]), steps[k])
    ensures exists j: nat ::
              j < k && BeginsAt(steps, j, steps[k].n, steps[k].step.e) && EarlierPass(steps, j, steps[k].n)
  {
    var front := steps[..k];
    RunKeeps(front);
    TakerIsLate(Run(EMPTY, front), steps[k]);
    BusyBegan(front);
    hide Inv, Run, Takes, EarlierPass, Freed;
    var j: nat :| BeganAt(front, j);
    assert front[..j] == steps[..j] && front[j] == steps[j];
    FreedByEarlierPass(steps, j, steps[k].n);
  }
}
