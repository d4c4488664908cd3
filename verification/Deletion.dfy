/** Deleting a claim: clean up the router, take the address out of the pool, drop
    the finalizer (internal/controller/publicipclaim_controller.go:106-136, 527-593).
    Passes fail anywhere and are repeated while others edit the pool.

    The claim's status and poolName are constants here: ClaimRuns.DeletionFreezesStatus
    shows that the status does not change once deletion is requested. */
module Deletion {
  import opened Common
  import opened PoolBlocks

  /** What a deletion pass reads of the claim. */
  datatype Claim = Claim(poolName: string, wanInterface: string, assignedIP: string)

  /** The persisted finalizer, the agent's leases and the claim's pool, if it exists. */
  datatype World = World(finalizer: bool, leases: set<string>, pool: Option<seq<Block>>)

  /** What the surroundings do to one pass: whether the cached claim still shows a
      finalizer that is already gone, whether the best-effort clean-up released the
      lease, and the fate of each API call. */
  datatype Faults = Faults(stale: bool, released: bool, readOk: bool, poolWrite: WriteResult,
      finalizerWrite: WriteResult)

  // -------------------------------------------------------------- one pass

  function Cleaned(c: Claim, w: World, released: bool): World {
    if c.wanInterface != "" && released then w.(leases := w.leases - {c.wanInterface}) else w
  }

  /** The pool has a block for the claim's address, so that it must be written. */
  predicate Pooled(c: Claim, w: World) {
    c.assignedIP != "" && w.pool.Some? && BlockOf(c.assignedIP) in w.pool.value
  }

  function Unpooled(c: Claim, w: World): World {
    if c.assignedIP != "" && w.pool.Some? then w.(pool := Some(Without(w.pool.value, BlockOf(c.assignedIP)))) else w
  }

  predicate UnpoolOk(c: Claim, w: World, f: Faults) {
    c.assignedIP == "" || (f.readOk && (Pooled(c, w) ==> f.poolWrite.Applied?))
  }

  predicate UnpoolDone(c: Claim, f: Faults) {
    c.assignedIP != "" && f.readOk && !f.poolWrite.Rejected?
  }

  /** Does the pass return nil? A write from a stale copy is always refused. */
  predicate Succeeds(c: Claim, w: World, f: Faults) {
    if w.finalizer then UnpoolOk(c, w, f) && f.finalizerWrite.Applied? else !f.stale
  }

  function Pass(c: Claim, w: World, f: Faults): World {
    if !w.finalizer && !f.stale then w
    else
      var cleaned := Cleaned(c, w, f.released);
      var unpooled := if UnpoolDone(c, f) then Unpooled(c, cleaned) else cleaned;
      if w.finalizer && UnpoolOk(c, w, f) && !f.finalizerWrite.Rejected? then unpooled.(finalizer := false)
          else unpooled
  }

  const CLEAN := Faults(false, true, true, Applied, Applied)

  // ------------------------------------------------------------------ runs

  /** A pass over the claim, or what others do meanwhile: another claim's pool
      operations, an administrator replacing the pool, a lease coming or going. */
  datatype Event =
    | Attempt(f: Faults)
    | OtherEnsures(b: Block)
    | OtherRemoves(b: Block)
    | PoolReplaced(pool: Option<seq<Block>>)
    | LeaseGranted(iface: string)
    | LeaseDropped(iface: string)

  function Others(w: World, e: Event): World {
    match e
    case Attempt(_) => w
    case OtherEnsures(b) => if w.pool.Some? then w.(pool := Some(Ensured(w.pool.value, b))) else w
    case OtherRemoves(b) => if w.pool.Some? then w.(pool := Some(Without(w.pool.value, b))) else w
    case PoolReplaced(p) => w.(pool := p)
    case LeaseGranted(i) => w.(leases := w.leases + {i})
    case LeaseDropped(i) => w.(leases := w.leases - {i})
  }

  /** What the others do, whoever they are. */
  lemma OthersEdit(w: World, e: Event)
    ensures e.OtherEnsures? && w.pool.Some? ==> Others(w, e).pool.Some? && w.pool.value <= Others(w, e).pool.value
    ensures e.OtherEnsures? && w.pool.Some? ==> e.b in Others(w, e).pool.value
    ensures e.OtherRemoves? && w.pool.Some? ==> Others(w, e).pool.Some? && e.b !in Others(w, e).pool.value
    ensures e.PoolReplaced? ==> Others(w, e).pool == e.pool
    ensures e.LeaseGranted? ==> e.iface in Others(w, e).leases
    ensures e.LeaseDropped? ==> e.iface !in Others(w, e).leases
  {
    if e.OtherRemoves? && w.pool.Some? { WithoutMembers(w.pool.value, e.b, e.b); }
  }

  function Do(c: Claim, w: World, e: Event): World {
    if e.Attempt? then Pass(c, w, e.f) else Others(w, e)
  }

  function Run(c: Claim, w: World, events: seq<Event>): World {
    if events == [] then w else Do(c, Run(c, w, events[..|events| - 1]), events[|events| - 1])
  }

  /** The same history without the passes. */
  function WithoutPasses(w: World, events: seq<Event>): World {
    if events == [] then w else Others(WithoutPasses(w, events[..|events| - 1]), events[|events| - 1])
  }

  // ------------------------------------------------------------ properties

  /** a and b differ at most in what a clean pass takes away. */
  ghost predicate SameButForClaim(c: Claim, a: World, b: World) {
    && Unpooled(c, a).pool == Unpooled(c, b).pool
    && a.leases <= b.leases && b.leases - {c.wanInterface} <= a.leases
    && (c.wanInterface == "" ==> a.leases == b.leases)
  }

  lemma RemovalsCommute(blocks: seq<Block>, x: Block, y: Block)
    ensures Without(Without(blocks, x), y) == Without(Without(blocks, y), x)
    decreases |blocks|
  {
    if blocks == [] {
    } else {
      var front, last := blocks[..|blocks| - 1], blocks[|blocks| - 1];
      RemovalsCommute(front, x, y);
      WithoutLast(Without(front, x), last, y);
      WithoutLast(Without(front, y), last, x);
    }
  }

  lemma WithoutLast(front: seq<Block>, last: Block, b: Block)
    ensures Without(front + [last], b) == if last == b then Without(front, b) else Without(front, b) + [last]
  {
    assert (front + [last])[..|front|] == front;
  }

  /** Adding a block and then removing another, or the same, one. */
  lemma EnsureThenWithout(blocks: seq<Block>, x: Block, b: Block)
    ensures Without(Ensured(blocks, x), b) == if x == b then Without(blocks, b) else Ensured(Without(blocks, b), x)
  {
    WithoutLast(blocks, x, b);
    WithoutMembers(blocks, b, x);
  }

  lemma UnpooledTwice(c: Claim, w: World)
    ensures Unpooled(c, Unpooled(c, w)) == Unpooled(c, w)
  {
    if w.pool.Some? { RemovalIsIdempotent(w.pool.value, BlockOf(c.assignedIP)); }
  }

  lemma OthersKeep(c: Claim, a: World, b: World, e: Event)
    requires SameButForClaim(c, a, b) && !e.Attempt?
    ensures SameButForClaim(c, Others(a, e), Others(b, e))
  {
    hide Without, Ensured, BlockOf;
    if a.pool.Some? && b.pool.Some? && c.assignedIP != "" {
      var x := BlockOf(c.assignedIP);
      match e {
        case OtherEnsures(y) => EnsureThenWithout(a.pool.value, y, x); EnsureThenWithout(b.pool.value, y, x);
        case OtherRemoves(y) => RemovalsCommute(a.pool.value, y, x); RemovalsCommute(b.pool.value, y, x);
        case _ =>
      }
    }
  }

  lemma PassKeeps(c: Claim, a: World, b: World, f: Faults)
    requires SameButForClaim(c, a, b)
    ensures SameButForClaim(c, Pass(c, a, f), b)
  {
    UnpooledTwice(c, a);
    UnpooledTwice(c, Cleaned(c, a, f.released));
  }

  /** However passes fail, they only ever do part of what a clean pass does. */
  lemma {:induction false} RunKeeps(c: Claim, w: World, events: seq<Event>)
    ensures SameButForClaim(c, Run(c, w, events), WithoutPasses(w, events))
    decreases |events|
  {
    if events == [] {
    } else {
      var front, last := events[..|events| - 1], events[|events| - 1];
      RunKeeps(c, w, front);
      if last.Attempt? {
        PassKeeps(c, Run(c, w, front), WithoutPasses(w, front), last.f);
      } else {
        OthersKeep(c, Run(c, w, front), WithoutPasses(w, front), last);
      }
    }
  }

  /** A pass that may drop the finalizer has already done its pool removal. */
  lemma DroppingPassUnpools(c: Claim, w: World, f: Faults)
    requires w.finalizer && !Pass(c, w, f).finalizer
    ensures Pass(c, w, f).pool == Unpooled(c, w).pool
  {
    if c.assignedIP != "" && w.pool.Some? && !Pooled(c, w) { WithoutAbsent(w.pool.value, BlockOf(c.assignedIP)); }
  }

  /** A pass drops the finalizer exactly when the address is known to be out of the pool and
      the finalizer write takes effect; whether the router was reached does not matter. */
  lemma PassFinishesExactlyWhen(c: Claim, w: World, f: Faults)
    requires w.finalizer
    ensures !Pass(c, w, f).finalizer <==>
            && !f.finalizerWrite.Rejected?
            && (c.assignedIP == "" ||
                (f.readOk && (w.pool.Some? && BlockOf(c.assignedIP) in w.pool.value ==> f.poolWrite.Applied?)))
    ensures Succeeds(c, w, f) <==> !Pass(c, w, f).finalizer && f.finalizerWrite.Applied?
  {}

  /** A pass that runs gives the claim's lease back if its clean-up gets through, and touches no other. */
  lemma PassReleases(c: Claim, w: World, f: Faults)
    ensures var n := Pass(c, w, f);
            && n.leases <= w.leases && (forall i :: i in w.leases && i != c.wanInterface ==> i in n.leases)
            && (c.wanInterface != "" && c.wanInterface in w.leases ==>
                  (c.wanInterface !in n.leases <==> f.released && (w.finalizer || f.stale)))
            && (c.wanInterface == "" ==> n.leases == w.leases)
  {}

  /** Whatever failed before and whatever others did meanwhile: the pass that drops
      the finalizer, its reply lost or not, leaves no block for the address and
      exactly the pool that the others alone would have left without that block; the
      claim's lease is gone if the clean-up of this pass got through, and no other lease is
      touched. With that clean-up the outcome is the one of a single clean pass, had the
      earlier passes never run. */
  lemma DeletionConverges(c: Claim, w: World, events: seq<Event>, f: Faults)
    requires w.finalizer && Run(c, w, events).finalizer && !Pass(c, Run(c, w, events), f).finalizer
    ensures var end, others := Pass(c, Run(c, w, events), f), WithoutPasses(w, events);
            && end.pool == (if c.assignedIP != "" && others.pool.Some?
                            then Some(Without(others.pool.value, BlockOf(c.assignedIP))) else others.pool)
            && (c.assignedIP != "" && end.pool.Some? ==> BlockOf(c.assignedIP) !in end.pool.value)
            && (f.released && c.wanInterface != "" ==> c.wanInterface !in end.leases)
            && (forall i :: i != c.wanInterface ==> (i in end.leases <==> i in others.leases))
            && (c.wanInterface in end.leases ==> c.wanInterface in others.leases)
            && (f.released ==> end == Pass(c, others, CLEAN))
  {
    RunKeeps(c, w, events);
    OthersKeepFinalizer(w, events);
    var n, u := Run(c, w, events), WithoutPasses(w, events);
    PassReleases(c, n, f);
    PassReleases(c, u, CLEAN);
    DroppingPassUnpools(c, n, f);
    DroppingPassUnpools(c, u, CLEAN);
    if c.assignedIP != "" && n.pool.Some? {
      WithoutMembers(n.pool.value, BlockOf(c.assignedIP), BlockOf(c.assignedIP));
    }
  }

  lemma {:induction false} OthersKeepFinalizer(w: World, events: seq<Event>)
    ensures WithoutPasses(w, events).finalizer == w.finalizer
    decreases |events|
  {
    if events == [] {
    } else {
      OthersKeepFinalizer(w, events[..|events| - 1]);
    }
  }

  /** After a pass without API error the finalizer is gone, and a pass that reads so changes nothing. */
  lemma SuccessEndsDeletion(c: Claim, w: World, f: Faults)
    requires Succeeds(c, w, f)
    ensures !Pass(c, w, f).finalizer
    ensures forall g: Faults :: !g.stale ==> Pass(c, Pass(c, w, f), g) == Pass(c, w, f)
  {}

  function Attempts(passes: seq<Faults>): seq<Event> {
    seq(|passes|, i requires 0 <= i < |passes| => Attempt(passes[i]))
  }

  lemma RunAttempts(c: Claim, w: World, passes: seq<Faults>)
    requires passes != []
    ensures Run(c, w, Attempts(passes)) == Pass(c, Run(c, w, Attempts(passes[..|passes| - 1])), passes[|passes| - 1])
  {
    assert Attempts(passes)[..|passes| - 1] == Attempts(passes[..|passes| - 1]);
  }

  /** With nobody else at the pool: once the finalizer is gone, by whichever of the
      passes, the pool is that of a single clean pass and stays so. */
  lemma {:induction false} PassesAlone(c: Claim, w: World, passes: seq<Faults>)
    requires w.finalizer
    ensures var end := Run(c, w, Attempts(passes));
            && Unpooled(c, end).pool == Unpooled(c, w).pool
            && (!end.finalizer ==> end.pool == Unpooled(c, w).pool)
    decreases |passes|
  {
    if passes == [] {
    } else {
      var n := |passes| - 1;
      PassesAlone(c, w, passes[..n]);
      RunAttempts(c, w, passes);
      var mid := Run(c, w, Attempts(passes[..n]));
      UnpooledTwice(c, mid);
      UnpooledTwice(c, Cleaned(c, mid, passes[n].released));
      if mid.finalizer && !Pass(c, mid, passes[n]).finalizer { DroppingPassUnpools(c, mid, passes[n]); }
    }
  }

  /** The clean-up of pass i gets through; a pass over a claim known to be finished makes none. */
  predicate CleansUpAt(c: Claim, w: World, passes: seq<Faults>, i: nat)
    requires i < |passes|
  {
    passes[i].released && (Run(c, w, Attempts(passes[..i])).finalizer || passes[i].stale)
  }

  predicate CleanedUpIn(c: Claim, w: World, passes: seq<Faults>) {
    exists i: nat :: i < |passes| && CleansUpAt(c, w, passes, i)
  }

  lemma CleanedUpExtends(c: Claim, w: World, passes: seq<Faults>, n: nat)
    requires |passes| == n + 1
    ensures CleanedUpIn(c, w, passes) <==> CleanedUpIn(c, w, passes[..n]) || CleansUpAt(c, w, passes, n)
  {
    forall i: nat | i < n ensures CleansUpAt(c, w, passes[..n], i) == CleansUpAt(c, w, passes, i) {
      assert passes[..n][..i] == passes[..i];
    }
    hide CleansUpAt;
    if CleanedUpIn(c, w, passes) {
      var i: nat :| i < |passes| && CleansUpAt(c, w, passes, i);
      assert i < n ==> CleansUpAt(c, w, passes[..n], i);
    }
    if CleanedUpIn(c, w, passes[..n]) {
      var i: nat :| i < n && CleansUpAt(c, w, passes[..n], i);
      assert CleansUpAt(c, w, passes, i);
    }
  }

  lemma {:induction false} PassesRelease(c: Claim, w: World, passes: seq<Faults>)
    ensures var end := Run(c, w, Attempts(passes));
            && (forall i :: i != c.wanInterface ==> (i in end.leases <==> i in w.leases))
            && (c.wanInterface != "" ==>
                  (c.wanInterface in end.leases <==> c.wanInterface in w.leases && !CleanedUpIn(c, w, passes)))
    decreases |passes|
  {
    if passes == [] {
    } else {
      var n := |passes| - 1;
      PassesRelease(c, w, passes[..n]);
      RunAttempts(c, w, passes);
      CleanedUpExtends(c, w, passes, n);
      PassReleases(c, Run(c, w, Attempts(passes[..n])), passes[n]);
      hide Pass, CleanedUpIn;
    }
  }

  /** After any failing passes, lost replies included, the first pass without API
      error ends with the finalizer gone and the pool of a single clean pass: no
      block for the address, every other block kept in order; later passes that see
      the finalizer gone leave it so. The claim's lease is gone exactly if the clean-up
      of one of the passes got through, and every other lease is still there. */
  lemma FirstSuccessEqualsOneCleanPass(c: Claim, w: World, failed: seq<Faults>, f: Faults)
    requires w.finalizer
    requires Succeeds(c, Run(c, w, Attempts(failed)), f)
    ensures var end, once := Pass(c, Run(c, w, Attempts(failed)), f), Pass(c, w, CLEAN);
            && end.finalizer == once.finalizer == false && end.pool == once.pool
            && end.pool == (if c.assignedIP != "" && w.pool.Some?
                            then Some(Without(w.pool.value, BlockOf(c.assignedIP))) else w.pool)
            && (forall i :: i != c.wanInterface ==> (i in end.leases <==> i in w.leases))
            && (c.wanInterface != "" ==>
                  (c.wanInterface in end.leases <==> c.wanInterface in w.leases && !CleanedUpIn(c, w, failed + [f])))
            && (forall g: Faults :: !g.stale ==> Pass(c, end, g) == end)
  {
    SuccessEndsDeletion(c, Run(c, w, Attempts(failed)), f);
    PassesAlone(c, w, failed + [f]);
    PassesRelease(c, w, failed + [f]);
    assert (failed + [f])[..|failed|] == failed;
    RunAttempts(c, w, failed + [f]);
    DroppingPassUnpools(c, w, CLEAN);
  }

  // ------------------------------------------------------------- the object

  /** The API server and the agent as one deletion pass changes them. */
  class Cluster {
    var finalizer: bool
    var leases: set<string>
    const pools: Pools
    const claim: Claim

    constructor (claim: Claim, pools: Pools, leases: set<string>)
      ensures finalizer && this.leases == leases && this.pools == pools && this.claim == claim
    {
      this.claim, this.pools, this.leases, finalizer := claim, pools, leases, true;
    }

    ghost function View(): World
      reads this, pools
    {
      World(finalizer, leases, if pools.Exists(claim.poolName) then Some(pools.Blocks(claim.poolName)) else None)
    }

    method Reconcile(f: Faults) returns (ok: bool)
      modifies this, pools
      ensures View() == Pass(claim, old(View()), f)
      ensures ok == Succeeds(claim, old(View()), f)
      ensures pools.v2.Keys == old(pools.v2.Keys) && pools.v2alpha1.Keys == old(pools.v2alpha1.Keys)
      ensures forall p :: p != claim.poolName && old(pools.Exists(p)) ==> pools.Blocks(p) == old(pools.Blocks(p))
    {
      if !finalizer && !f.stale { return true; }
      if claim.wanInterface != "" && f.released { leases := leases - {claim.wanInterface}; }
      if claim.assignedIP != "" {
        var removed := pools.RemoveIPFromPool(claim.poolName, claim.assignedIP, f.readOk, f.poolWrite);
        if !removed { return false; }
      }
      ok := finalizer && f.finalizerWrite.Applied?;
      finalizer := finalizer && f.finalizerWrite.Rejected?;
    }
  }
}
