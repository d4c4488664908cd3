/** Two runs in which a Ready claim loses its block. The first deletion pass over a
    claim releases its address, DHCP gives it to another claim, and a later pass over
    the first one removes it from the pool again: a retry, after the finalizer write
    was refused, or a pass over a cached copy of a claim that is gone
    (internal/controller/publicipclaim_controller.go:101-132). */
module StaleDeletion {
  import opened Common
  import opened Claims
  import opened PoolBlocks
  import opened PoolSafety
  import CR = ClaimRuns

  const POOL := "pool"
  const IP := "198.51.100.7"
  const OK := CR.Outcome(Applied, true, IP, "")
  const REFUSED := CR.Outcome(Rejected, false, "", "")

  // --------------------------------------------------- the life of one claim

  function SpecOf(n: string): Spec { Spec(POOL, "router", "secret", "root", "eth8", "run", n, "02:00") }

  function Created(n: string): Claim { Claim(SpecOf(n), false, false, false, EMPTY_STATUS) }

  function Finalized(n: string): Claim { Created(n).(finalizer := true) }

  function Locked(n: string): Claim { Finalized(n).(status := Status(Unset, n, "02:00", "")) }

  function Provisioned(n: string): Claim { Finalized(n).(status := Status(Ready, n, "02:00", IP)) }

  function Deleted(n: string): Claim { Provisioned(n).(deleting := true) }

  function Unguarded(n: string): Claim { Deleted(n).(finalizer := false) }

  const OUT := CR.Outside

  /** Finalizer added by execution 0. */
  function WithFinalizer(n: string): CR.State {
    CR.State(n, CR.Cell([Created(n), Finalized(n)], [OUT, CR.Execution(0)], false),
             map[0 := CR.Exec(Done, Finalized(n), 1)], {}, 0)
  }

  /** Lock taken by execution 1, which is at pc. */
  function Allocating(n: string, pc: Pc, posted: set<nat>): CR.State {
    CR.State(n, CR.Cell([Created(n), Finalized(n), Locked(n)], [OUT, CR.Execution(0), CR.Execution(1)], false),
             map[0 := CR.Exec(Done, Finalized(n), 1), 1 := CR.Exec(pc, Locked(n), 2)], posted, |posted|)
  }

  function IsReady(n: string): CR.State {
    CR.State(n, CR.Cell([Created(n), Finalized(n), Locked(n), Provisioned(n)],
                        [OUT, CR.Execution(0), CR.Execution(1), CR.Execution(1)], false),
             map[0 := CR.Exec(Done, Finalized(n), 1), 1 := CR.Exec(Done, Provisioned(n), 3)], {2}, 1)
  }

  /** Deletion requested, execution 2 at pc. */
  function Deleting(n: string, pc: Pc): CR.State {
    IsReady(n).(cell := CR.Persist(IsReady(n).cell, Deleted(n), OUT),
                execs := IsReady(n).execs[2 := CR.Exec(pc, Deleted(n), 4)])
  }

  function IsGone(n: string): CR.State {
    var d := Deleting(n, DropFinalizer);
    d.(cell := CR.Persist(d.cell, Unguarded(n), CR.Execution(2)), execs := d.execs[2 := CR.Exec(Done, Unguarded(n), 5)])
  }

  /** A claim whose first deletion pass is over, one way or the other. */
  predicate PassedOnce(n: string, c: CR.State) {
    |c.cell.versions| > 4 && c.cell.versions[4] == Deleted(n) && 3 !in c.execs
  }

  /** Execution 3 works from the version that the first pass worked from. */
  function Again(n: string, c: CR.State, pc: Pc): CR.State {
    c.(execs := c.execs[3 := CR.Exec(pc, Deleted(n), 4)])
  }

  lemma FinalizerSteps(n: string)
    ensures var c := CR.Do(NewClaim(n, SpecOf(n)), CR.Begin(0, 0));
            && 0 in c.execs && c.execs[0].pc == AddFinalizer && c.cell.versions != []
            && CR.Do(c, CR.Continue(0, OK)) == WithFinalizer(n)
  {}

  lemma LockSteps(n: string)
    requires n != ""
    ensures var c := CR.Do(WithFinalizer(n), CR.Begin(1, 1));
            && 1 in c.execs && c.execs[1].pc == TakeLock && c.cell.versions != []
            && CR.Do(c, CR.Continue(1, OK)) == Allocating(n, CallAllocate, {})
  {}

  lemma RequestStep(n: string)
    ensures CR.Do(Allocating(n, CallAllocate, {}), CR.Continue(1, OK)) == Allocating(n, AwaitAddress, {2})
  {
    assert {} + {2} == {2};
  }

  lemma AllocationSteps(n: string)
    ensures CR.Do(Allocating(n, AwaitAddress, {2}), CR.Continue(1, OK)) == Allocating(n, EnsurePooled(IP), {2})
    ensures CR.Do(Allocating(n, EnsurePooled(IP), {2}), CR.Continue(1, OK)) == Allocating(n, WriteReady(IP), {2})
  {}

  lemma ReadyStep(n: string)
    ensures CR.Do(Allocating(n, WriteReady(IP), {2}), CR.Continue(1, OK)) == IsReady(n)
  {}

  lemma DeletionBegins(n: string)
    ensures CR.Do(CR.Do(IsReady(n), CR.RequestDeletion), CR.Begin(2, 4)) == Deleting(n, CallCleanup)
  {}

  lemma DeletionSteps(n: string)
    ensures CR.Do(Deleting(n, CallCleanup), CR.Continue(2, OK)) == Deleting(n, UnpoolDeleted)
    ensures CR.Do(Deleting(n, UnpoolDeleted), CR.Continue(2, OK)) == Deleting(n, DropFinalizer)
  {}

  lemma FirstPassEnds(n: string)
    ensures CR.Do(Deleting(n, DropFinalizer), CR.Continue(2, OK)) == IsGone(n) && PassedOnce(n, IsGone(n))
    ensures CR.Do(Deleting(n, DropFinalizer), CR.Continue(2, REFUSED)) == Deleting(n, Done)
    ensures PassedOnce(n, Deleting(n, Done))
  {}

  lemma SecondPass(n: string, c: CR.State)
    requires PassedOnce(n, c)
    ensures CR.Do(c, CR.Begin(3, 4)) == Again(n, c, CallCleanup)
    ensures CR.Do(Again(n, c, CallCleanup), CR.Continue(3, OK)) == Again(n, c, UnpoolDeleted)
    ensures CR.Do(Again(n, c, UnpoolDeleted), CR.Continue(3, OK)) == Again(n, c, DropFinalizer)
  {}

  // ------------------------------------------------------------ in the system

  ghost predicate Reaches(s: State, t: State) { exists steps: seq<Step> :: t == Run(s, steps) }

  lemma ReachesSelf(s: State)
    ensures Reaches(s, s)
  {
    assert s == Run(s, []);
  }

  lemma ReachesNext(s: State, t: State, step: Step)
    requires Reaches(s, t)
    ensures Reaches(s, Do(t, step))
  {
    var steps: seq<Step> :| t == Run(s, steps);
    assert (steps + [step])[..|steps|] == steps;
    assert Do(t, step) == Run(s, steps + [step]);
  }

  function With(s: State, n: string, c: CR.State): State { s.(claims := s.claims[n := c]) }

  /** Execution e of n is active, and began while n held its address. */
  function Active(s: State, n: string, e: nat): State { s.(busy := Some(Ref(n, e)), late := false) }

  lemma WithTwice(s: State, n: string, c: CR.State, e: nat, d: CR.State)
    ensures With(Active(With(s, n, c), n, e), n, d) == Active(With(s, n, d), n, e)
    ensures With(With(s, n, c), n, d) == With(s, n, d)
  {}

  /** One step of a claim that touches no pool and releases nothing. */
  lemma Advance(s0: State, s: State, n: string, step: CR.Step, d: CR.State)
    requires Reaches(s0, s) && n in s.claims && s.claims[n].cell.versions != [] && Allowed(s, n, step)
    requires d == CR.Do(s.claims[n], step)
    requires step.Continue? && step.e in s.claims[n].execs ==>
             var pc := s.claims[n].execs[step.e].pc;
             !pc.UnpoolDeleted? && !pc.UnpoolDrifted? && !pc.EnsurePooled? && !pc.CallCleanup?
    ensures step.Begin? ==> Reaches(s0, With(s, n, d).(busy := Some(Ref(n, step.e)), late := Freed(s, n)))
    ensures !step.Begin? ==> Reaches(s0, With(s, n, d))
  {
    hide CR.Do, Allowed, Run;
    ReachesNext(s0, s, ClaimStep(n, step, false));
  }

  /** n, just created, while no other claim has the address. */
  ghost predicate Unprovisioned(s: State, n: string) {
    && n != "" && n in s.claims && s.claims[n] == NewClaim(n, SpecOf(n)) && n !in s.released
    && Idle(s) && POOL in s.pools && NoOtherHolds(s, n, IP)
  }

  lemma GetsFinalizer(s0: State, s: State, n: string)
    requires Reaches(s0, s) && Unprovisioned(s, n)
    ensures Reaches(s0, Active(With(s, n, WithFinalizer(n)), n, 0))
  {
    FinalizerSteps(n);
    hide CR.Do, Reaches;
    var a := CR.Do(NewClaim(n, SpecOf(n)), CR.Begin(0, 0));
    Advance(s0, s, n, CR.Begin(0, 0), a);
    Advance(s0, Active(With(s, n, a), n, 0), n, CR.Continue(0, OK), WithFinalizer(n));
    WithTwice(s, n, a, 0, WithFinalizer(n));
  }

  lemma TakesLock(s0: State, s: State, n: string)
    requires Reaches(s0, s) && Unprovisioned(s, n)
    ensures Reaches(s0, Active(With(s, n, Allocating(n, CallAllocate, {})), n, 1))
  {
    GetsFinalizer(s0, s, n);
    LockSteps(n);
    hide CR.Do, Reaches;
    var t := Active(With(s, n, WithFinalizer(n)), n, 0);
    var b := CR.Do(WithFinalizer(n), CR.Begin(1, 1));
    Advance(s0, t, n, CR.Begin(1, 1), b);
    var u := Active(With(s, n, b), n, 1);
    assert With(t, n, b).(busy := Some(Ref(n, 1)), late := Freed(t, n)) == u;
    Advance(s0, u, n, CR.Continue(1, OK), Allocating(n, CallAllocate, {}));
    WithTwice(s, n, b, 1, Allocating(n, CallAllocate, {}));
  }

  lemma AsksAgent(s0: State, s: State, n: string)
    requires Reaches(s0, s) && n in s.claims && s.claims[n] == Allocating(n, CallAllocate, {})
    ensures Reaches(s0, With(s, n, Allocating(n, AwaitAddress, {2})))
  {
    RequestStep(n);
    hide CR.Do, Reaches;
    Advance(s0, s, n, CR.Continue(1, OK), Allocating(n, AwaitAddress, {2}));
  }

  lemma IsAnswered(s0: State, s: State, n: string)
    requires Reaches(s0, s) && n in s.claims && s.claims[n] == Allocating(n, AwaitAddress, {2})
    requires NoOtherHolds(s, n, IP)
    ensures Reaches(s0, With(s, n, Allocating(n, EnsurePooled(IP), {2})))
  {
    AllocationSteps(n);
    hide CR.Do, Reaches;
    Advance(s0, s, n, CR.Continue(1, OK), Allocating(n, EnsurePooled(IP), {2}));
  }

  lemma OthersAsBefore(s: State, t: State, n: string)
    requires NoOtherHolds(s, n, IP) && t.released == s.released
    requires forall m :: m in t.claims && m != n ==> m in s.claims && t.claims[m] == s.claims[m]
    ensures NoOtherHolds(t, n, IP)
  {}

  lemma GetsAddress(s0: State, s: State, n: string)
    requires Reaches(s0, s) && Unprovisioned(s, n)
    ensures Reaches(s0, Active(With(s, n, Allocating(n, EnsurePooled(IP), {2})), n, 1))
  {
    TakesLock(s0, s, n);
    hide Reaches, Allocating, NoOtherHolds, NewClaim, Idle;
    var asking, waiting := Allocating(n, CallAllocate, {}), Allocating(n, AwaitAddress, {2});
    AsksAgent(s0, Active(With(s, n, asking), n, 1), n);
    WithTwice(s, n, asking, 1, waiting);
    var t := Active(With(s, n, waiting), n, 1);
    OthersAsBefore(s, t, n);
    IsAnswered(s0, t, n);
    WithTwice(s, n, waiting, 1, Allocating(n, EnsurePooled(IP), {2}));
  }

  lemma PoolsAddress(s0: State, s: State, n: string)
    requires Reaches(s0, s) && n in s.claims && s.claims[n] == Allocating(n, EnsurePooled(IP), {2}) && POOL in s.pools
    ensures Reaches(s0, Adding(With(s, n, IsReady(n)), POOL, IP, true))
  {
    AllocationSteps(n);
    ReadyStep(n);
    hide CR.Do, Reaches, Run;
    ReachesNext(s0, s, ClaimStep(n, CR.Continue(1, OK), false));
    var t := Adding(With(s, n, Allocating(n, WriteReady(IP), {2})), POOL, IP, true);
    assert Do(s, ClaimStep(n, CR.Continue(1, OK), false)) == t;
    Advance(s0, t, n, CR.Continue(1, OK), IsReady(n));
    assert With(t, n, IsReady(n)) == Adding(With(s, n, IsReady(n)), POOL, IP, true);
  }

  /** n becomes Ready and its block is in the pool. */
  lemma Provisions(s0: State, s: State, n: string)
    requires Reaches(s0, s) && Unprovisioned(s, n)
    ensures Reaches(s0, Adding(Active(With(s, n, IsReady(n)), n, 1), POOL, IP, true))
  {
    GetsAddress(s0, s, n);
    hide Reaches, Allocating, IsReady;
    var pooling := Allocating(n, EnsurePooled(IP), {2});
    PoolsAddress(s0, Active(With(s, n, pooling), n, 1), n);
    WithTwice(s, n, pooling, 1, IsReady(n));
  }

  // ------------------------------------------------------ the first pass

  /** The deletion of n is requested and its first pass begins. */
  lemma BeginsDeletion(s0: State, s: State, n: string)
    requires Reaches(s0, s) && n in s.claims && s.claims[n] == IsReady(n) && n !in s.released
    requires s.busy == Some(Ref(n, 1))
    ensures Reaches(s0, Active(With(s, n, Deleting(n, CallCleanup)), n, 2))
  {
    DeletionBegins(n);
    RequestFacts(n);
    hide CR.Do, Reaches, Run;
    var d := CR.Do(IsReady(n), CR.RequestDeletion);
    Advance(s0, s, n, CR.RequestDeletion, d);
    var t := With(s, n, d);
    Advance(s0, t, n, CR.Begin(2, 4), Deleting(n, CallCleanup));
    assert With(t, n, Deleting(n, CallCleanup)).(busy := Some(Ref(n, 2)), late := Freed(t, n))
        == Active(With(s, n, Deleting(n, CallCleanup)), n, 2);
  }

  lemma RequestFacts(n: string)
    ensures var d := CR.Do(IsReady(n), CR.RequestDeletion);
            |d.cell.versions| == 5 && !d.cell.gone && d.execs == IsReady(n).execs
  {}

  function Released(s: State, n: string): State { s.(released := s.released + {n}) }

  /** The clean-up request goes out, and with it the address. */
  lemma GivesBack(s0: State, s: State, n: string, e: nat, c: CR.State)
    requires Reaches(s0, s) && n in s.claims && s.claims[n].cell.versions != [] && e in s.claims[n].execs
    requires s.claims[n].execs[e] == CR.Exec(CallCleanup, Deleted(n), 4) && n != ""
    requires c == CR.Do(s.claims[n], CR.Continue(e, OK))
    ensures Reaches(s0, Released(With(s, n, c), n))
  {
    hide CR.Do, Reaches, Run;
    ReachesNext(s0, s, ClaimStep(n, CR.Continue(e, OK), false));
  }

  lemma Unpools(s0: State, s: State, n: string, e: nat, c: CR.State)
    requires Reaches(s0, s) && n in s.claims && s.claims[n].cell.versions != [] && e in s.claims[n].execs
    requires s.claims[n].execs[e] == CR.Exec(UnpoolDeleted, Deleted(n), 4)
    requires c == CR.Do(s.claims[n], CR.Continue(e, OK))
    ensures Reaches(s0, Removing(With(s, n, c), POOL, IP, true))
  {
    hide CR.Do, Reaches, Run;
    ReachesNext(s0, s, ClaimStep(n, CR.Continue(e, OK), false));
  }

  /** The first pass up to its finalizer write, which ends with outcome o and leaves n as c. */
  lemma FirstPass(s0: State, s: State, n: string, o: CR.Outcome, c: CR.State) returns (t: State)
    requires Reaches(s0, s) && n != "" && n in s.claims && s.claims[n] == IsReady(n) && s.busy == Some(Ref(n, 1))
    requires n !in s.released && POOL in s.pools && c == CR.Do(Deleting(n, DropFinalizer), CR.Continue(2, o))
    ensures Reaches(s0, t) && t.claims == s.claims[n := c] && t.released == s.released + {n}
    ensures t.busy == Some(Ref(n, 2)) && POOL in t.pools
  {
    BeginsDeletion(s0, s, n);
    DeletionSteps(n);
    hide CR.Do, Reaches, Run;
    var s1 := Active(With(s, n, Deleting(n, CallCleanup)), n, 2);
    GivesBack(s0, s1, n, 2, Deleting(n, UnpoolDeleted));
    var s2 := Released(With(s1, n, Deleting(n, UnpoolDeleted)), n);
    Unpools(s0, s2, n, 2, Deleting(n, DropFinalizer));
    var s3 := Removing(With(s2, n, Deleting(n, DropFinalizer)), POOL, IP, true);
    Advance(s0, s3, n, CR.Continue(2, o), c);
    t := With(s3, n, c);
  }

  /** "a" has had the address and its first pass is over; "b" is new. */
  lemma FirstLife(o: CR.Outcome, c: CR.State) returns (s: State)
    requires c == CR.Do(Deleting("a", DropFinalizer), CR.Continue(2, o)) && 2 in c.execs && c.execs[2].pc.Done?
    ensures Reaches(EMPTY, s) && Unprovisioned(s, "b") && "a" in s.claims && s.claims["a"] == c
  {
    hide Reaches, Run, CR.Do;
    ReachesSelf(EMPTY);
    ReachesNext(EMPTY, EMPTY, AddPool(POOL, []));
    var s1 := Do(EMPTY, AddPool(POOL, []));
    ReachesNext(EMPTY, s1, Create("a", SpecOf("a")));
    var s2 := Do(s1, Create("a", SpecOf("a")));
    Provisions(EMPTY, s2, "a");
    var s3 := Adding(Active(With(s2, "a", IsReady("a")), "a", 1), POOL, IP, true);
    var s4 := FirstPass(EMPTY, s3, "a", o, c);
    ReachesNext(EMPTY, s4, Create("b", SpecOf("b")));
    s := Do(s4, Create("b", SpecOf("b")));
  }

  // ------------------------------------------------------ the second pass

  /** A second pass over n takes the block out again. */
  lemma SecondPassUnpools(s0: State, s: State, n: string, c: CR.State) returns (t: State)
    requires Reaches(s0, s) && n != "" && n in s.claims && s.claims[n] == c && PassedOnce(n, c)
    requires Idle(s) && POOL in s.pools
    ensures Reaches(s0, t) && POOL in t.pools && BlockOf(IP) !in t.pools[POOL]
    ensures n in t.claims && t.claims[n] == Again(n, c, DropFinalizer)
    ensures forall m :: m in s.claims && m != n ==> m in t.claims && t.claims[m] == s.claims[m]
  {
    SecondPass(n, c);
    hide CR.Do, Reaches, Run;
    Advance(s0, s, n, CR.Begin(3, 4), Again(n, c, CallCleanup));
    var s1 := With(s, n, Again(n, c, CallCleanup)).(busy := Some(Ref(n, 3)), late := Freed(s, n));
    GivesBack(s0, s1, n, 3, Again(n, c, UnpoolDeleted));
    var s2 := Released(With(s1, n, Again(n, c, UnpoolDeleted)), n);
    Unpools(s0, s2, n, 3, Again(n, c, DropFinalizer));
    t := Removing(With(s2, n, Again(n, c, DropFinalizer)), POOL, IP, true);
    WithoutMembers(s.pools[POOL], BlockOf(IP), BlockOf(IP));
  }

  lemma MissingBlock(s: State, n: string)
    requires n in s.claims && s.claims[n] == IsReady(n) && POOL in s.pools && BlockOf(IP) !in s.pools[POOL]
    ensures !ReadyArePooled(s) && HeldBy(s.claims[n]) == IP
  {
    assert !InPool(s, POOL, IP);
  }

  /** After "a"'s first pass "b" gets the address, and "a"'s second pass takes its block. */
  lemma SecondLife(o: CR.Outcome, c: CR.State) returns (s: State)
    requires c == CR.Do(Deleting("a", DropFinalizer), CR.Continue(2, o)) && 2 in c.execs && c.execs[2].pc.Done?
    requires PassedOnce("a", c)
    ensures Reaches(EMPTY, s) && !ReadyArePooled(s)
    ensures "a" in s.claims && s.claims["a"].cell == c.cell && "b" in s.claims && HeldBy(s.claims["b"]) == IP
  {
    hide Reaches, ReadyArePooled, CR.Do, PassedOnce;
    var s1 := FirstLife(o, c);
    Provisions(EMPTY, s1, "b");
    var s2 := Adding(Active(With(s1, "b", IsReady("b")), "b", 1), POOL, IP, true);
    s := SecondPassUnpools(EMPTY, s2, "a", c);
    hide IsReady;
    MissingBlock(s, "b");
  }

  /** "a" is deleted and gone, "b" gets its address, and a pass over a cached copy of
      "a" takes the block of "b", which is Ready, out of the pool. */
  lemma ReadyClaimLosesItsBlock()
    ensures exists s: State :: Reaches(EMPTY, s) && !ReadyArePooled(s) && "a" in s.claims && s.claims["a"].cell.gone
  {
    hide Reaches, ReadyArePooled;
    FirstPassEnds("a");
    var s := SecondLife(OK, IsGone("a"));
  }

  /** With fresh reads only: "a" is being deleted, its first pass releases the address,
      takes the block out and has its finalizer write refused; "b" gets the address and
      becomes Ready; the retry of "a", which still exists and shows the same address,
      takes the block of "b". */
  lemma RetriedDeletionTakesABlock()
    ensures exists s: State ::
              && Reaches(EMPTY, s) && !ReadyArePooled(s) && "a" in s.claims && !s.claims["a"].cell.gone
              && "b" in s.claims && HeldBy(s.claims["a"]) == HeldBy(s.claims["b"]) == IP
  {
    hide Reaches, ReadyArePooled;
    FirstPassEnds("a");
    var s := SecondLife(REFUSED, Deleting("a", Done));
    assert HeldBy(s.claims["a"]) == IP;
  }
}
