/** SSHConnectionManager under arbitrary interleavings of Start, Close, its
    keep-alive and reconnect goroutines, and cancellation of the context given
    to Start (internal/ssh/manager.go:206-464). Every region under m.mu, every
    call of a cancel function and every counter update is one step. A step that
    is not enabled leaves the state as it is, so a run is any sequence of steps. */
module SshManager {
  import opened Common

  /** Who called establishConnection. */
  datatype Role = Starter | Reconnector(parent: Option<nat>)

  /** Where a goroutine is. Contexts are numbers; parent None is context.Background(). */
  datatype Pc =
    | Dialing(role: Role)              // in dial
    | Counting(role: Role)             // connection stored, IncActive pending
    | Linked(role: Role)               // establishConnection has returned nil
    | Dropping(grouped: bool)          // entering transitionToReconnecting; grouped: the keep-alive loop, not Start
    | Detaching(grouped: bool, parent: Option<nat>, ctx: nat, counted: bool)  // transition made, cancel of ctx pending
    | Uncounting(grouped: bool, parent: Option<nat>)  // DecActive pending
    | Spawning(grouped: bool, parent: Option<nat>)    // about to start the reconnect loop
    | KeepAliveTop                     // about to evaluate m.ctx.Done() for the select
    | Parked(ctx: nat)                 // in the select
    | Checking                         // in checkConnection
    | LoopTop(parent: Option<nat>)     // top of the reconnect loop
    | Waiting(parent: Option<nat>)     // backing off
    | Closing(pending: seq<nat>, counted: bool)  // Close past its region; contexts to cancel, DecActive pending
    | Crashed                          // dereferenced a nil context
    | Exited
  {
    /** A goroutine responsible for monitoring the connection, or on its way to be. */
    predicate Monitors() { !Closing? && !Crashed? && !Exited? }

    /** Counted by the wait group: the loops, but not a Start in progress. */
    predicate InGroup() {
      match this
      case Dialing(role) => role.Reconnector?
      case Counting(role) => role.Reconnector?
      case Linked(role) => role.Reconnector?
      case Dropping(g) => g
      case Detaching(g, _, _, _) => g
      case Uncounting(g, _) => g
      case Spawning(g, _) => g
      case _ => Monitors()
    }

    predicate KeepsAlive() { KeepAliveTop? || Parked? || Checking? }
  }

  /** parents has the contexts derived inside the manager; any other number below
      nextCtx is a base context, which the context given to Start cancels too. */
  datatype Manager = Manager(
    conn: bool, connected: bool, reconnecting: bool, started: bool,
    ctx: Option<nat>, baseCtx: Option<nat>,
    parents: map<nat, Option<nat>>, cancelled: set<nat>, nextCtx: nat,
    active: int, procs: map<nat, Pc>)

  const NEW: Manager := Manager(false, false, false, false, None, None, map[], {}, 0, 0, map[])

  datatype Step =
    | Start(p: nat)
    | Close(p: nat)
    | FinishClose(p: nat)
    | CancelContext(base: nat)        // the context that base was made from is cancelled
    | Cancel(p: nat)                  // p calls the next cancel function it holds
    | Dial(p: nat, ok: bool)
    | Count(p: nat)
    | Go(p: nat, q: nat)              // the step of p that may start goroutine q
    | Drop(p: nat)
    | Enter(p: nat)                   // evaluate the select
    | Tick(p: nat)
    | Check(p: nat, ok: bool)
    | Stop(p: nat)                    // leave through a Done channel

  // ------------------------------------------------------------------ steps

  function At(m: Manager, p: nat): Pc { if p in m.procs then m.procs[p] else Exited }

  function To(m: Manager, p: nat, pc: Pc): Manager { m.(procs := m.procs[p := pc]) }

  /** A context is done with its own cancel function or with its parent's. */
  predicate Done(m: Manager, c: nat) {
    c in m.cancelled || (c in m.parents && m.parents[c].Some? && m.parents[c].value in m.cancelled)
  }

  predicate IsDone(m: Manager, c: Option<nat>) { c.Some? && Done(m, c.value) }

  /** Start's region (:211-219). */
  function DoStart(m: Manager, p: nat): Manager {
    if p in m.procs || m.started then m
    else
      To(m.(started := true, baseCtx := Some(m.nextCtx), ctx := Some(m.nextCtx + 1),
            parents := m.parents[m.nextCtx + 1 := Some(m.nextCtx)], nextCtx := m.nextCtx + 2),
         p, Dialing(Starter))
  }

  /** dial, and the region of establishConnection (:246-257). */
  function DoDial(m: Manager, p: nat, ok: bool): Manager {
    match At(m, p)
    case Dialing(role) =>
      if ok then
        To(m.(conn := true, connected := true, reconnecting := false), p, if m.connected then Linked(role)
            else Counting(role))
      else (match role
        case Starter => To(m, p, Dropping(false))
        case Reconnector(parent) => To(m, p, Waiting(parent)))
    case _ => m
  }

  function DoCount(m: Manager, p: nat): Manager {
    match At(m, p)
    case Counting(role) => To(m.(active := m.active + 1), p, Linked(role))
    case Uncounting(g, parent) => To(m.(active := m.active - 1), p, Spawning(g, parent))
    case _ => m
  }

  /** Hand-over: the goroutine that starts the next one ends with it. */
  function DoGo(m: Manager, p: nat, q: nat): Manager {
    if q in m.procs then m
    else match At(m, p)
      case Linked(Starter) => To(To(m, q, KeepAliveTop), p, Exited)
      case Linked(Reconnector(parent)) =>
        // :394-402; cancel is nil exactly when ctx is
        var n := if m.ctx.Some? then m
                 else m.(ctx := Some(m.nextCtx), parents := m.parents[m.nextCtx := parent], nextCtx := m.nextCtx + 1);
        To(To(n.(reconnecting := false), q, KeepAliveTop), p, Exited)
      case Spawning(_, parent) => To(To(m, q, LoopTop(parent)), p, Exited)
      case _ => m
  }

  function AfterDetaching(grouped: bool, parent: Option<nat>, counted: bool): Pc {
    if counted then Uncounting(grouped, parent) else Spawning(grouped, parent)
  }

  /** transitionToReconnecting's region (:326-340). */
  function DoDrop(m: Manager, p: nat): Manager {
    match At(m, p)
    case Dropping(g) =>
      if m.reconnecting then To(m, p, Exited)
      else
        To(m.(reconnecting := true, connected := false, conn := false, ctx := None), p,
           if m.ctx.Some? then Detaching(g, m.baseCtx, m.ctx.value, m.connected)
           else AfterDetaching(g, m.baseCtx, m.connected))
    case _ => m
  }

  /** A call of cancel or baseCancel outside the lock (:342-344 and :449-454). */
  function DoCancel(m: Manager, p: nat): Manager {
    match At(m, p)
    case Detaching(g, parent, c, counted) => To(m.(cancelled := m.cancelled + {c}), p,
        AfterDetaching(g, parent, counted))
    case Closing(pending, counted) =>
      if pending == [] then m else To(m.(cancelled := m.cancelled + {pending[0]}), p, Closing(pending[1..], counted))
    case _ => m
  }

  function DoEnter(m: Manager, p: nat): Manager {
    match At(m, p)
    case KeepAliveTop => To(m, p, if m.ctx.Some? then Parked(m.ctx.value) else Crashed)
    case LoopTop(parent) => if IsDone(m, parent) then To(m, p, Exited) else To(m, p, Dialing(Reconnector(parent)))
    case _ => m
  }

  function DoTick(m: Manager, p: nat): Manager {
    match At(m, p)
    case Parked(_) => To(m, p, Checking)
    case Waiting(parent) => To(m, p, LoopTop(parent))
    case _ => m
  }

  /** checkConnection fails at once when m.ctx is nil. */
  function DoCheck(m: Manager, p: nat, ok: bool): Manager {
    if !At(m, p).Checking? then m
    else To(m, p, if ok && m.ctx.Some? then KeepAliveTop else Dropping(true))
  }

  function DoStop(m: Manager, p: nat): Manager {
    match At(m, p)
    case Parked(c) => if Done(m, c) then To(m, p, Exited) else m
    case Waiting(parent) => if IsDone(m, parent) then To(m, p, Exited) else m
    case _ => m
  }

  function Held(c: Option<nat>): seq<nat> { if c.Some? then [c.value] else [] }

  /** Close's region (:430-447). */
  function DoClose(m: Manager, p: nat): Manager {
    if p in m.procs || !m.started then m
    else
      To(m.(started := false, conn := false, connected := false, reconnecting := false, ctx := None, baseCtx := None),
         p, Closing(Held(m.ctx) + Held(m.baseCtx), m.connected))
  }

  /** Both contexts are cancelled and wg.Wait has returned: no loop is left. */
  function DoFinishClose(m: Manager, p: nat): Manager {
    match At(m, p)
    case Closing(pending, counted) =>
      if pending != [] || exists q :: q in m.procs && m.procs[q].InGroup() then m
      else To(if counted then m.(active := m.active - 1) else m, p, Exited)
    case _ => m
  }

  function DoCancelContext(m: Manager, base: nat): Manager {
    if base < m.nextCtx && base !in m.parents then m.(cancelled := m.cancelled + {base}) else m
  }

  function Do(m: Manager, step: Step): Manager {
    match step
    case Start(p) => DoStart(m, p)
    case Close(p) => DoClose(m, p)
    case FinishClose(p) => DoFinishClose(m, p)
    case CancelContext(c) => DoCancelContext(m, c)
    case Cancel(p) => DoCancel(m, p)
    case Dial(p, ok) => DoDial(m, p, ok)
    case Count(p) => DoCount(m, p)
    case Go(p, q) => DoGo(m, p, q)
    case Drop(p) => DoDrop(m, p)
    case Enter(p) => DoEnter(m, p)
    case Tick(p) => DoTick(m, p)
    case Check(p, ok) => DoCheck(m, p, ok)
    case Stop(p) => DoStop(m, p)
  }

  function Run(m: Manager, steps: seq<Step>): Manager {
    if steps == [] then m else Do(Run(m, steps[..|steps| - 1]), steps[|steps| - 1])
  }

  // ------------------------------------------- connection state and counter

  /** Increments and decrements of the active counter that a goroutine still owes. */
  predicate OwesUp(pc: Pc) { pc.Counting? }

  predicate OwesDown(pc: Pc) { pc.Uncounting? || ((pc.Detaching? || pc.Closing?) && pc.counted) }

  function PendingUp(procs: map<nat, Pc>): set<nat> { set p | p in procs && OwesUp(procs[p]) }

  function PendingDown(procs: map<nat, Pc>): set<nat> { set p | p in procs && OwesDown(procs[p]) }

  function One(b: bool): int { if b then 1 else 0 }

  ghost predicate CountersOk(m: Manager) {
    && m.active + |PendingUp(m.procs)| - |PendingDown(m.procs)| == One(m.connected)
    && (m.conn <==> m.connected)
    && !(m.connected && m.reconnecting)
  }

  lemma SizeAfterMove(s: set<nat>, n: set<nat>, p: nat)
    requires n - {p} == s - {p}
    ensures |n| == |s| - One(p in s) + One(p in n)
  {
    assert s == if p in s then (s - {p}) + {p} else s - {p};
    assert n == if p in n then (n - {p}) + {p} else n - {p};
  }

  /** The pending counts after one goroutine moves. */
  lemma PendingAfterMove(procs: map<nat, Pc>, p: nat, pc: Pc)
    ensures var was := if p in procs then procs[p] else Exited;
            && |PendingUp(procs[p := pc])| == |PendingUp(procs)| - One(OwesUp(was)) + One(OwesUp(pc))
            && |PendingDown(procs[p := pc])| == |PendingDown(procs)| - One(OwesDown(was)) + One(OwesDown(pc))
  {
    var n := procs[p := pc];
    assert PendingUp(n) - {p} == PendingUp(procs) - {p};
    SizeAfterMove(PendingUp(procs), PendingUp(n), p);
    assert PendingDown(n) - {p} == PendingDown(procs) - {p};
    SizeAfterMove(PendingDown(procs), PendingDown(n), p);
  }

  /** One goroutine moves and the fields change with it, in balance. */
  lemma BalancedMove(m: Manager, n: Manager, p: nat, pc: Pc)
    requires CountersOk(m) && n.procs == m.procs[p := pc]
    requires n.active - m.active + One(OwesUp(pc)) - One(OwesUp(At(m, p))) - One(OwesDown(pc)) + One(OwesDown(At(m, p)))
          == One(n.connected) - One(m.connected)
    requires (n.conn <==> n.connected) && !(n.connected && n.reconnecting)
    ensures CountersOk(n)
  {
    hide PendingUp, PendingDown;
    PendingAfterMove(m.procs, p, pc);
  }

  predicate OwesNothing(pc: Pc) { !OwesUp(pc) && !OwesDown(pc) }

  lemma MoveBalanced(m: Manager, p: nat, pc: Pc)
    requires CountersOk(m) && OwesNothing(At(m, p)) && OwesNothing(pc)
    ensures CountersOk(To(m, p, pc))
  {
    BalancedMove(m, To(m, p, pc), p, pc);
  }

  /** A hand-over owes nothing to the counter and leaves the connection as it is. */
  lemma HandOverBalanced(m: Manager, p: nat, q: nat)
    requires CountersOk(m)
    ensures CountersOk(DoGo(m, p, q))
  {
    if q !in m.procs && (At(m, p).Linked? || At(m, p).Spawning?) {
      var next := if At(m, p).Linked? then KeepAliveTop else LoopTop(At(m, p).parent);
      forall n: Manager {:trigger To(n, q, next)}
        | CountersOk(n) && n.procs == m.procs ensures CountersOk(To(To(n, q, next), p, Exited))
      {
        hide CountersOk;
        MoveBalanced(n, q, next);
        MoveBalanced(To(n, q, next), p, Exited);
      }
    }
  }

  lemma LifecycleBalanced(m: Manager, p: nat)
    requires CountersOk(m)
    ensures CountersOk(DoStart(m, p)) && CountersOk(DoClose(m, p)) && CountersOk(DoFinishClose(m, p))
  {
    CountersFields(m);
    hide CountersOk;
    var a, c, f := DoStart(m, p), DoClose(m, p), DoFinishClose(m, p);
    if a != m { BalancedMove(m, a, p, a.procs[p]); }
    if c != m { BalancedMove(m, c, p, c.procs[p]); }
    if f != m { BalancedMove(m, f, p, f.procs[p]); }
  }

  lemma CountersFields(m: Manager)
    requires CountersOk(m)
    ensures (m.conn <==> m.connected) && !(m.connected && m.reconnecting)
  {}

  lemma DialBalanced(m: Manager, p: nat, ok: bool)
    requires CountersOk(m)
    ensures CountersOk(DoDial(m, p, ok))
  {
    CountersFields(m);
    hide CountersOk;
    if At(m, p).Dialing? {
      var n := DoDial(m, p, ok);
      BalancedMove(m, n, p, n.procs[p]);
    }
  }

  lemma CountBalanced(m: Manager, p: nat)
    requires CountersOk(m)
    ensures CountersOk(DoCount(m, p))
  {
    CountersFields(m);
    hide CountersOk;
    if At(m, p).Counting? || At(m, p).Uncounting? {
      var n := DoCount(m, p);
      BalancedMove(m, n, p, n.procs[p]);
    }
  }

  lemma DropBalanced(m: Manager, p: nat)
    requires CountersOk(m)
    ensures CountersOk(DoDrop(m, p))
  {
    CountersFields(m);
    hide CountersOk;
    if At(m, p).Dropping? {
      var n := DoDrop(m, p);
      BalancedMove(m, n, p, n.procs[p]);
    }
  }

  lemma LoopsBalanced(m: Manager, p: nat)
    requires CountersOk(m)
    ensures CountersOk(DoEnter(m, p)) && CountersOk(DoTick(m, p)) && CountersOk(DoStop(m, p))
  {
    hide CountersOk;
    if OwesNothing(At(m, p)) {
      forall pc | OwesNothing(pc) ensures CountersOk(To(m, p, pc)) { MoveBalanced(m, p, pc); }
    }
  }

  lemma CheckBalanced(m: Manager, p: nat, ok: bool)
    requires CountersOk(m)
    ensures CountersOk(DoCheck(m, p, ok)) && CountersOk(DoCancel(m, p))
  {
    CountersFields(m);
    hide CountersOk;
    var f, g := DoCheck(m, p, ok), DoCancel(m, p);
    if f != m { BalancedMove(m, f, p, f.procs[p]); }
    if g != m { BalancedMove(m, g, p, g.procs[p]); }
  }

  lemma CountersStep(m: Manager, step: Step)
    requires CountersOk(m)
    ensures CountersOk(Do(m, step))
  {
    match step
    case CancelContext(_) =>
    case Cancel(p) => CheckBalanced(m, p, true);
    case Go(p, q) => HandOverBalanced(m, p, q);
    case Start(p) => LifecycleBalanced(m, p);
    case Close(p) => LifecycleBalanced(m, p);
    case FinishClose(p) => LifecycleBalanced(m, p);
    case Dial(p, ok) => DialBalanced(m, p, ok);
    case Count(p) => CountBalanced(m, p);
    case Drop(p) => DropBalanced(m, p);
    case Enter(p) => LoopsBalanced(m, p);
    case Tick(p) => LoopsBalanced(m, p);
    case Check(p, ok) => CheckBalanced(m, p, ok);
    case Stop(p) => LoopsBalanced(m, p);
  }

  /** In every interleaving, Close racing a reconnect included: the active counter
      plus pending increments minus pending decrements is 1 when connected and 0
      otherwise, conn is set exactly when connected, and the manager is never both
      connected and reconnecting. */
  lemma {:induction false} CountersAlwaysAgree(steps: seq<Step>)
    ensures CountersOk(Run(NEW, steps))
    decreases |steps|
  {
    if steps == [] {
      assert PendingUp(NEW.procs) == {} && PendingDown(NEW.procs) == {};
    } else {
      CountersAlwaysAgree(steps[..|steps| - 1]);
      CountersStep(Run(NEW, steps[..|steps| - 1]), steps[|steps| - 1]);
    }
  }

  // -------------------------------------------------------------- monitoring

  /** Contexts are numbered in the order they are made. */
  ghost predicate Numbered(m: Manager) {
    && (forall c :: c in m.cancelled ==> c < m.nextCtx)
    && (forall c :: c in m.parents ==> c < m.nextCtx)
  }

  /** No goroutine is left and no connection is held, as in a new manager. */
  ghost predicate Quiet(m: Manager) {
    && !m.started && !m.connected && !m.reconnecting && m.ctx.None?
    && Numbered(m)
    && (forall p :: p in m.procs ==> m.procs[p].Exited?)
  }

  /** p monitors and every other goroutine has ended. */
  ghost predicate OnlyOwner(m: Manager, p: nat) {
    && p in m.procs && m.procs[p].Monitors()
    && (forall q :: q in m.procs && q != p ==> m.procs[q].Exited?)
  }

  predicate Live(m: Manager, c: Option<nat>) { c.Some? && !Done(m, c.value) && c.value < m.nextCtx }

  predicate RoleOk(m: Manager, role: Role) {
    if role.Starter? then Live(m, m.ctx) else m.ctx.None? && role.parent == m.baseCtx
  }

  /** What the owner can rely on at each point. */
  predicate OwnerOk(m: Manager, pc: Pc) {
    match pc
    case Dialing(role) => if role.Starter? then !m.reconnecting && Live(m, m.ctx) else m.reconnecting && RoleOk(m, role)
    case Counting(role) => m.connected && !m.reconnecting && RoleOk(m, role)
    case Linked(role) => m.connected && !m.reconnecting && RoleOk(m, role)
    case Dropping(_) => !m.reconnecting && Live(m, m.ctx)
    case Detaching(_, parent, c, _) => m.reconnecting && m.ctx.None? && parent == m.baseCtx && c in m.parents
    case Uncounting(_, parent) => m.reconnecting && m.ctx.None? && parent == m.baseCtx
    case Spawning(_, parent) => m.reconnecting && m.ctx.None? && parent == m.baseCtx
    case KeepAliveTop => m.connected && !m.reconnecting && Live(m, m.ctx)
    case Parked(c) => m.connected && !m.reconnecting && Live(m, m.ctx) && m.ctx == Some(c)
    case Checking => m.connected && !m.reconnecting && Live(m, m.ctx)
    case LoopTop(parent) => m.reconnecting && m.ctx.None? && parent == m.baseCtx
    case Waiting(parent) => m.reconnecting && m.ctx.None? && parent == m.baseCtx
    case _ => false
  }

  ghost predicate Owned(m: Manager, p: nat) {
    && m.started && OnlyOwner(m, p) && OwnerOk(m, m.procs[p])
    && Live(m, m.baseCtx) && m.baseCtx.value !in m.parents
    && (m.ctx.Some? ==> m.ctx.value in m.parents && m.parents[m.ctx.value] == m.baseCtx)
    && Numbered(m)
  }

  ghost predicate Monitored(m: Manager) {
    Quiet(m) || exists p :: Owned(m, p)
  }

  predicate Undisturbed(step: Step) { !step.Close? && !step.CancelContext? }

  /** Goroutines that have ended, or never began, do nothing. */
  lemma EndedStays(m: Manager, q: nat, r: nat, ok: bool)
    requires At(m, q).Exited?
    ensures DoDial(m, q, ok) == DoCount(m, q) == DoGo(m, q, r) == DoDrop(m, q) == m
    ensures DoEnter(m, q) == DoTick(m, q) == DoCheck(m, q, ok) == DoStop(m, q) == DoFinishClose(m, q) ==
            DoCancel(m, q) == m
  {}

  /** One step of an owned manager: the owner moves on, or hands over to q. */
  lemma OwnerSteps(m: Manager, p: nat, step: Step)
    requires Owned(m, p) && Undisturbed(step)
    ensures Owned(Do(m, step), p) || (step.Go? && step.p == p && step.q !in m.procs && Owned(Do(m, step), step.q))
  {
    if step.p != p {
      if !step.Start? {
        EndedStays(m, step.p, if step.Go? then step.q else 0, (step.Dial? || step.Check?) && step.ok);
      }
    } else {
      hide Owned;
      match step
      case Start(_) => OwnerWaits(m, p);
      case FinishClose(_) => OwnerWaits(m, p);
      case Dial(_, ok) => OwnerDials(m, p, ok);
      case Go(_, r) => OwnerHandsOver(m, p, r);
      case Count(_) => OwnerConnects(m, p);
      case Drop(_) => OwnerDrops(m, p);
      case Cancel(_) => OwnerDrops(m, p);
      case Enter(_) => OwnerEnters(m, p);
      case Tick(_) => OwnerLoops(m, p, true);
      case Check(_, ok) => OwnerLoops(m, p, ok);
      case Stop(_) => OwnerWaits(m, p);
    }
  }

  lemma OwnerWaits(m: Manager, p: nat)
    requires Owned(m, p)
    ensures DoStart(m, p) == DoFinishClose(m, p) == DoStop(m, p) == m
  {}

  lemma OwnerConnects(m: Manager, p: nat)
    requires Owned(m, p)
    ensures Owned(DoCount(m, p), p)
  {}

  lemma OwnerDrops(m: Manager, p: nat)
    requires Owned(m, p)
    ensures Owned(DoDrop(m, p), p) && Owned(DoCancel(m, p), p)
  {}

  lemma OwnerLoops(m: Manager, p: nat, ok: bool)
    requires Owned(m, p)
    ensures Owned(DoTick(m, p), p) && Owned(DoCheck(m, p, ok), p)
  {}

  lemma OwnerEnters(m: Manager, p: nat)
    requires Owned(m, p)
    ensures Owned(DoEnter(m, p), p)
  {}

  lemma OwnerDials(m: Manager, p: nat, ok: bool)
    requires Owned(m, p)
    ensures Owned(DoDial(m, p, ok), p)
  {}

  lemma OwnerHandsOver(m: Manager, p: nat, q: nat)
    requires Owned(m, p)
    ensures Owned(DoGo(m, p, q), p) || (q !in m.procs && Owned(DoGo(m, p, q), q))
  {
    var n := DoGo(m, p, q);
    if n != m {
      assert n.procs[p] == Exited;
      assert OnlyOwner(n, q);
    }
  }

  lemma QuietSteps(m: Manager, step: Step)
    requires Quiet(m) && Undisturbed(step)
    ensures Monitored(Do(m, step))
  {
    var n := Do(m, step);
    if step.Start? && n != m {
      assert Owned(n, step.p);
    } else {
      assert forall p :: At(m, p).Exited?;
    }
  }

  lemma {:induction false} RunStaysMonitored(m: Manager, steps: seq<Step>)
    requires Monitored(m)
    requires forall i :: 0 <= i < |steps| ==> Undisturbed(steps[i])
    ensures Monitored(Run(m, steps))
    decreases |steps|
  {
    if steps == [] {
    } else {
      var mid := Run(m, steps[..|steps| - 1]);
      var step := steps[|steps| - 1];
      RunStaysMonitored(m, steps[..|steps| - 1]);
      if Quiet(mid) {
        QuietSteps(mid, step);
      } else {
        var p :| Owned(mid, p);
        OwnerSteps(mid, p, step);
      }
    }
  }

  /** From a new manager (or one that a Close has left quiet), and up to the next
      Close or cancellation: once started, exactly one goroutine is responsible for
      monitoring in every reachable state, it is never lost when handed over, a
      keep-alive owner always sees a context that is set and not cancelled, and no
      goroutine ever dereferences a nil context. */
  lemma ExactlyOneMonitor(m: Manager, steps: seq<Step>)
    requires Quiet(m)
    requires forall i :: 0 <= i < |steps| ==> Undisturbed(steps[i])
    ensures var n := Run(m, steps);
            && (n.started ==>
                  exists p :: OnlyOwner(n, p) && (n.procs[p].KeepsAlive() ==> Live(n, n.ctx)))
            && (!n.started ==> forall p :: p in n.procs ==> !n.procs[p].Monitors())
            && (forall p :: p in n.procs ==> !n.procs[p].Crashed?)
  {
    RunStaysMonitored(m, steps);
    var n := Run(m, steps);
    if !Quiet(n) {
      var p :| Owned(n, p);
      assert OnlyOwner(n, p);
    }
  }

  /** A new manager starts out quiet, so the same holds of it from the beginning. */
  lemma NewManagerHasOneMonitor(steps: seq<Step>)
    requires forall i :: 0 <= i < |steps| ==> Undisturbed(steps[i])
    ensures Quiet(NEW)
    ensures var n := Run(NEW, steps);
            && (n.started ==> exists p :: OnlyOwner(n, p) && (n.procs[p].KeepsAlive() ==> Live(n, n.ctx)))
            && (forall p :: p in n.procs ==> !n.procs[p].Crashed?)
  {
    ExactlyOneMonitor(NEW, steps);
  }

  // -------------------------------------------------- which connections are kept

  /** The owner holds a connection, and no check of it has failed. */
  ghost predicate Serving(m: Manager, p: nat) {
    Owned(m, p) && m.connected && (m.procs[p].Counting? || m.procs[p].Linked? || m.procs[p].KeepsAlive())
  }

  /** Neither Close nor cancellation nor a check that fails. */
  predicate Healthy(step: Step) { Undisturbed(step) && !(step.Check? && !step.ok) }

  /** The connection is as it was; ctx is new only where a reconnect has just restored it. */
  predicate KeepsConnection(m: Manager, n: Manager) {
    n.connected && n.conn == m.conn && !n.reconnecting && (m.ctx.Some? ==> n.ctx == m.ctx)
  }

  lemma OwnerServesOn(m: Manager, p: nat, step: Step)
    requires Serving(m, p) && Healthy(step) && step.p == p && !step.Go?
    ensures Serving(Do(m, step), p) && KeepsConnection(m, Do(m, step))
  {
    OwnerSteps(m, p, step);
    hide Numbered, OnlyOwner;
  }

  lemma OwnerServesOnThrough(m: Manager, p: nat, q: nat)
    requires Serving(m, p)
    ensures var n := DoGo(m, p, q); (Serving(n, p) || Serving(n, q)) && KeepsConnection(m, n)
  {
    OwnerHandsOver(m, p, q);
    hide Numbered, OnlyOwner;
  }

  lemma ServingStep(m: Manager, p: nat, step: Step)
    requires Serving(m, p) && Healthy(step)
    ensures var n := Do(m, step); (Serving(n, p) || (step.Go? && Serving(n, step.q))) && KeepsConnection(m, n)
  {
    if step.p != p {
      if !step.Start? {
        EndedStays(m, step.p, if step.Go? then step.q else 0, (step.Dial? || step.Check?) && step.ok);
      }
    } else if step.Go? {
      OwnerServesOnThrough(m, p, step.q);
    } else {
      hide Serving;
      OwnerServesOn(m, p, step);
    }
  }

  /** A connection that answers its keep-alives is kept: over every run without Close,
      cancellation and a failing check, it stays up with its context, and the manager
      never starts to reconnect. */
  lemma {:induction false} AnsweringConnectionIsKept(m: Manager, p: nat, steps: seq<Step>)
    requires Serving(m, p) && forall i :: 0 <= i < |steps| ==> Healthy(steps[i])
    ensures var n := Run(m, steps); KeepsConnection(m, n) && exists q :: Serving(n, q)
    decreases |steps|
  {
    if steps == [] {
      assert Run(m, steps) == m && Serving(m, p);
    } else {
      var n := |steps| - 1;
      AnsweringConnectionIsKept(m, p, steps[..n]);
      var q :| Serving(Run(m, steps[..n]), q);
      hide Serving;
      ServingStep(Run(m, steps[..n]), q, steps[n]);
    }
  }

  /** A check that fails costs the connection: the owner's next region disconnects and starts to reconnect. */
  lemma FailedCheckDrops(m: Manager, p: nat)
    requires Owned(m, p) && m.procs[p].Checking?
    ensures var n := Do(Do(m, Check(p, false)), Drop(p));
            !n.connected && !n.conn && n.reconnecting && n.ctx.None? && BackingOff(At(n, p))
  {}

  /** What the quieter steps of goroutine x leave alone: the connection, and who is about to drop it. */
  ghost predicate Quietly(m: Manager, n: Manager) {
    n.connected == m.connected && forall p :: At(n, p).Dropping? ==> At(m, p).Dropping?
  }

  lemma QuietMove(m: Manager, n: Manager, x: nat)
    requires x in n.procs && n.procs == m.procs[x := n.procs[x]] && !n.procs[x].Dropping? && n.connected == m.connected
    ensures Quietly(m, n)
  {}

  lemma LifecycleIsQuiet(m: Manager, x: nat, base: nat)
    ensures Quietly(m, DoStart(m, x)) && Quietly(m, DoFinishClose(m, x)) && Quietly(m, DoCancelContext(m, base))
  {}

  lemma SameIsQuiet(m: Manager)
    ensures Quietly(m, m)
  {}

  lemma LoopsAreQuiet(m: Manager, x: nat)
    ensures Quietly(m, DoEnter(m, x)) && Quietly(m, DoTick(m, x)) && Quietly(m, DoStop(m, x))
  {
    hide Quietly;
    SameIsQuiet(m);
    var pc := At(m, x);
    if pc.KeepAliveTop? || pc.LoopTop? { QuietMove(m, DoEnter(m, x), x); }
    if pc.Parked? || pc.Waiting? {
      QuietMove(m, DoTick(m, x), x);
      if DoStop(m, x).procs != m.procs { QuietMove(m, DoStop(m, x), x); }
    }
  }

  lemma CountIsQuiet(m: Manager, x: nat)
    ensures Quietly(m, DoCount(m, x)) && Quietly(m, DoCancel(m, x))
  {
    assert Quietly(m, m);
    hide Quietly;
    var n, k := DoCount(m, x), DoCancel(m, x);
    if At(m, x).Counting? || At(m, x).Uncounting? { QuietMove(m, n, x); }
    if At(m, x).Detaching? || (At(m, x).Closing? && At(m, x).pending != []) { QuietMove(m, k, x); }
  }

  lemma HandOverIsQuiet(m: Manager, x: nat, y: nat)
    ensures Quietly(m, DoGo(m, x, y))
  {
    if y !in m.procs && (At(m, x).Linked? || At(m, x).Spawning?) {
      var next := if At(m, x).Linked? then KeepAliveTop else LoopTop(At(m, x).parent);
      TwoMoves(m, DoGo(m, x, y), x, y, next);
    }
  }

  lemma TwoMoves(m: Manager, n: Manager, x: nat, y: nat, next: Pc)
    requires n.connected == m.connected && n.procs == m.procs[y := next][x := Exited] && !next.Dropping?
    ensures Quietly(m, n)
  {}

  lemma LoudSteps(m: Manager, x: nat, ok: bool)
    ensures DoDial(m, x, ok).connected <==> m.connected || (ok && At(m, x).Dialing?)
    ensures DoDrop(m, x).connected <==> m.connected && !(At(m, x).Dropping? && !m.reconnecting)
    ensures DoClose(m, x).connected <==> m.connected && !(m.started && x !in m.procs)
    ensures DoCheck(m, x, ok).connected == m.connected
  {}

  lemma LoudDroppers(m: Manager, x: nat, ok: bool, p: nat)
    ensures At(DoDial(m, x, ok), p).Dropping? ==> At(m, p).Dropping? || (x == p && !ok)
    ensures At(DoDrop(m, x), p).Dropping? ==> At(m, p).Dropping?
    ensures At(DoClose(m, x), p).Dropping? ==> At(m, p).Dropping?
    ensures At(DoCheck(m, x, ok), p).Dropping? ==> At(m, p).Dropping? || (x == p && (!ok || m.ctx.None?))
  {}

  lemma StepIsQuietUnless(m: Manager, step: Step)
    requires !step.Dial? && !step.Drop? && !step.Close? && !step.Check?
    ensures Quietly(m, Do(m, step))
  {
    hide DoStart, DoFinishClose, DoCancel, DoCancelContext, DoCount, DoEnter, DoTick, DoStop, DoGo, Quietly;
    match step
    case Start(x) => LifecycleIsQuiet(m, x, 0);
    case FinishClose(x) => LifecycleIsQuiet(m, x, 0);
    case Cancel(x) => CountIsQuiet(m, x);
    case CancelContext(c) => LifecycleIsQuiet(m, 0, c);
    case Count(x) => CountIsQuiet(m, x);
    case Enter(x) => LoopsAreQuiet(m, x);
    case Tick(x) => LoopsAreQuiet(m, x);
    case Stop(x) => LoopsAreQuiet(m, x);
    case Go(x, y) => HandOverIsQuiet(m, x, y);
  }

  /** The transition cancels the derived context that it takes away. */
  lemma DropCancelsTheContext(m: Manager, p: nat)
    requires Owned(m, p) && m.procs[p].Dropping?
    ensures m.ctx.Some? && Done(Do(Do(m, Drop(p)), Cancel(p)), m.ctx.value)
  {}

  /** And Close both contexts that it takes away. */
  lemma CloseCancelsBoth(m: Manager, p: nat, q: nat)
    requires Owned(m, p) && q !in m.procs
    ensures var n := Do(Do(Do(m, Close(q)), Cancel(q)), Cancel(q));
            Cancelled(n, q) && Done(n, m.baseCtx.value) && (m.ctx.Some? ==> m.ctx.value in n.cancelled)
  {}

  /** In any state and for any step: the manager becomes connected by a successful dial
      alone, and loses its connection by a drop or Close alone. */
  lemma ConnectedExactlyWhen(m: Manager, step: Step)
    ensures Do(m, step).connected <==>
            || (step.Dial? && step.ok && At(m, step.p).Dialing?)
            || (m.connected && !(step.Drop? && At(m, step.p).Dropping? && !m.reconnecting)
                            && !(step.Close? && m.started && step.p !in m.procs))
  {
    if step.Dial? || step.Drop? || step.Close? || step.Check? {
      LoudSteps(m, step.p, (step.Dial? || step.Check?) && step.ok);
      hide DoDial, DoDrop, DoClose, DoCheck;
    } else {
      StepIsQuietUnless(m, step);
      hide Do;
    }
  }

  /** A goroutine goes to drop the connection only when its check or Start's dial has failed. */
  lemma DropsOnlyAfterFailure(m: Manager, step: Step, p: nat)
    requires At(Do(m, step), p).Dropping? && !At(m, p).Dropping?
    ensures step == Dial(p, false) || (step.Check? && step.p == p && (!step.ok || m.ctx.None?))
  {
    if step.Dial? || step.Drop? || step.Close? || step.Check? {
      LoudDroppers(m, step.p, (step.Dial? || step.Check?) && step.ok, p);
      hide DoDial, DoDrop, DoClose, DoCheck;
    } else {
      StepIsQuietUnless(m, step);
      hide Do;
      assert false;
    }
  }

  /** A loop leaves through a Done channel exactly when the context is done. */
  lemma LoopsEndExactlyWhenDone(m: Manager, p: nat)
    ensures At(m, p).Parked? ==> (At(DoStop(m, p), p).Exited? <==> Done(m, At(m, p).ctx))
    ensures At(m, p).Waiting? ==> (At(DoStop(m, p), p).Exited? <==> IsDone(m, At(m, p).parent))
    ensures At(m, p).LoopTop? ==>
            At(DoEnter(m, p), p) == if IsDone(m, At(m, p).parent) then Exited else Dialing(Reconnector(At(m, p).parent))
  {}

  /** Cancelling the context that Start was given ends the base context and all derived from it. */
  lemma CancellationReachesAll(m: Manager, base: nat, c: nat)
    requires base < m.nextCtx && base !in m.parents
    ensures Done(Do(m, CancelContext(base)), base)
    ensures c in m.parents && m.parents[c] == Some(base) ==> Done(Do(m, CancelContext(base)), c)
    ensures Done(m, c) ==> Done(Do(m, CancelContext(base)), c)
  {}

  /** Close returns exactly when both contexts are cancelled and no loop is left. */
  lemma CloseReturnsExactlyWhen(m: Manager, p: nat)
    requires At(m, p).Closing?
    ensures At(DoFinishClose(m, p), p).Exited? <==>
            At(m, p).pending == [] && forall q :: q in m.procs ==> !m.procs[q].InGroup()
  {}

  // ------------------------------------------------- what Close can leave behind

  /** A goroutine that no context can stop any more, or one that has crashed. */
  ghost predicate Stray(m: Manager) {
    exists p :: p in m.procs && (m.procs[p] == LoopTop(None) || m.procs[p].Crashed?)
  }

  predicate NoStart(steps: seq<Step>) { forall i :: 0 <= i < |steps| ==> !steps[i].Start? }

  /** Some continuation without a new Start ends that way. */
  ghost predicate CanStray(m: Manager) {
    exists steps: seq<Step> :: NoStart(steps) && Stray(Run(m, steps))
  }

  /** Between dropping the connection and the next dial. */
  predicate BackingOff(pc: Pc) { pc.Detaching? || pc.Uncounting? || pc.Spawning? || pc.LoopTop? || pc.Waiting? }

  /** Crashed, or monitoring at a point where the end of the base context is not looked at again. */
  predicate Loose(pc: Pc) {
    pc.Crashed? || (pc.Monitors() && !(BackingOff(pc) && pc.parent.Some?))
  }

  lemma {:induction false} RunFrom(m: Manager, step: Step, steps: seq<Step>)
    ensures Run(m, [step] + steps) == Run(Do(m, step), steps)
    decreases |steps|
  {
    if steps == [] {
      assert Run(m, [step]) == Do(Run(m, [step][..0]), step);
    } else {
      assert ([step] + steps)[..|steps|] == [step] + steps[..|steps| - 1];
      RunFrom(m, step, steps[..|steps| - 1]);
    }
  }

  lemma StrayBefore(m: Manager, step: Step)
    requires CanStray(Do(m, step)) && !step.Start?
    ensures CanStray(m)
  {
    var steps: seq<Step> :| NoStart(steps) && Stray(Run(Do(m, step), steps));
    RunFrom(m, step, steps);
  }

  lemma StrayNow(m: Manager)
    requires Stray(m)
    ensures CanStray(m)
  {
    assert Run(m, []) == m;
  }

  lemma UnusedNumber(procs: map<nat, Pc>) returns (r: nat)
    ensures r !in procs
  {
    var s := procs.Keys;
    var top: nat := 0;
    while s != {}
      invariant forall p :: p in procs && p !in s ==> p < top
      decreases s
    {
      var p :| p in s;
      s := s - {p};
      top := if p < top then top else p + 1;
    }
    r := top;
  }

  // ------------------------------------------------------- ways to go astray

  /** Backing off on the background context. */
  lemma UnboundStrays(m: Manager, p: nat)
    requires BackingOff(At(m, p)) && At(m, p).parent == None
    ensures CanStray(m)
    decreases if At(m, p).Detaching? then 2 else if At(m, p).Uncounting? then 1 else 0
  {
    hide Run;
    match At(m, p) {
      case Detaching(_, _, _, _) =>
        UnboundStrays(Do(m, Cancel(p)), p);
        StrayBefore(m, Cancel(p));
      case Uncounting(_, _) =>
        UnboundStrays(Do(m, Count(p)), p);
        StrayBefore(m, Count(p));
      case Spawning(_, _) =>
        var r := UnusedNumber(m.procs);
        assert Do(m, Go(p, r)).procs[r] == LoopTop(None);
        StrayNow(Do(m, Go(p, r)));
        StrayBefore(m, Go(p, r));
      case Waiting(_) =>
        assert Do(m, Tick(p)).procs[p] == LoopTop(None);
        StrayNow(Do(m, Tick(p)));
        StrayBefore(m, Tick(p));
      case LoopTop(_) =>
        assert m.procs[p] == LoopTop(None);
        StrayNow(m);
    }
  }

  lemma DroppingStrays(m: Manager, p: nat)
    requires At(m, p).Dropping? && m.baseCtx == None && !m.reconnecting
    ensures CanStray(m)
  {
    UnboundStrays(Do(m, Drop(p)), p);
    StrayBefore(m, Drop(p));
  }

  lemma KeepAliveStrays(m: Manager, p: nat)
    requires At(m, p).KeepsAlive() && m.baseCtx == None && !m.reconnecting
    ensures CanStray(m)
    decreases if At(m, p).KeepAliveTop? then 2 else if At(m, p).Parked? then 1 else 0
  {
    hide Run;
    match At(m, p)
    case KeepAliveTop =>
      var n := Do(m, Enter(p));
      if m.ctx.None? {
        assert n.procs[p] == Crashed;
        StrayNow(n);
      } else {
        KeepAliveStrays(n, p);
      }
      StrayBefore(m, Enter(p));
    case Parked(_) =>
      KeepAliveStrays(Do(m, Tick(p)), p);
      StrayBefore(m, Tick(p));
    case Checking =>
      DroppingStrays(Do(m, Check(p, false)), p);
      StrayBefore(m, Check(p, false));
  }

  lemma ConnectingStrays(m: Manager, p: nat)
    requires At(m, p).Dialing? || ((At(m, p).Counting? || At(m, p).Linked?) && !m.reconnecting)
    requires m.baseCtx == None
    ensures CanStray(m)
    decreases if At(m, p).Dialing? then 2 else if At(m, p).Counting? then 1 else 0
  {
    hide Run;
    match At(m, p)
    case Dialing(_) =>
      ConnectingStrays(Do(m, Dial(p, true)), p);
      StrayBefore(m, Dial(p, true));
    case Counting(_) =>
      ConnectingStrays(Do(m, Count(p)), p);
      StrayBefore(m, Count(p));
    case Linked(_) =>
      var r := UnusedNumber(m.procs);
      KeepAliveStrays(Do(m, Go(p, r)), r);
      StrayBefore(m, Go(p, r));
  }

  // ------------------------------------------------------ after Close's region

  /** Contexts a loop may still look at after Close: the background, or the base that Close took away. */
  predicate Bound(parent: Option<nat>, base: nat) { parent == None || parent == Some(base) }

  predicate ClosedPc(m: Manager, pc: Pc, base: nat) {
    match pc
    case Dialing(role) => if role.Starter? then !m.reconnecting else Bound(role.parent, base)
    case Counting(role) => !m.reconnecting && (role.Reconnector? ==> Bound(role.parent, base))
    case Linked(role) => !m.reconnecting && (role.Reconnector? ==> Bound(role.parent, base))
    case Closing(_, _) => false
    case Crashed => true
    case Exited => true
    case Detaching(_, parent, c, _) => Bound(parent, base) && c in m.parents
    case _ => if BackingOff(pc) then Bound(pc.parent, base) else !m.reconnecting
  }

  /** q's Close has passed its region; p is the one goroutine that may still be monitoring. */
  ghost predicate Closed(m: Manager, p: nat, q: nat, base: nat) {
    && !m.started && m.baseCtx.None? && (m.ctx.Some? ==> m.ctx.value in m.parents)
    && base !in m.parents && base < m.nextCtx
    && p != q && q in m.procs && (At(m, q).Closing? || At(m, q).Exited?)
    && (forall r :: r in m.procs && r != p && r != q ==> m.procs[r].Exited?)
    && ClosedPc(m, At(m, p), base)
  }

  lemma CloseCloses(m: Manager, p: nat, q: nat)
    requires Owned(m, p) && q !in m.procs
    ensures Closed(Do(m, Close(q)), p, q, m.baseCtx.value)
    ensures var n := Do(m, Close(q)); n.procs[p] == m.procs[p] && m.baseCtx.value !in n.cancelled
  {}

  lemma MoveStaysClosed(m: Manager, n: Manager, p: nat, q: nat, base: nat)
    requires Closed(m, p, q, base) && p in n.procs && n.procs == m.procs[p := n.procs[p]]
    requires n.started == m.started && n.baseCtx == m.baseCtx && n.parents == m.parents && n.nextCtx == m.nextCtx
    requires n.ctx.None? || n.ctx == m.ctx
    requires ClosedPc(n, n.procs[p], base)
    ensures Closed(n, p, q, base)
  {}

  /** The steps of p itself, short of a hand-over. */
  lemma DialStaysClosed(m: Manager, p: nat, q: nat, base: nat, ok: bool)
    requires Closed(m, p, q, base)
    ensures Closed(DoDial(m, p, ok), p, q, base) && Closed(DoCount(m, p), p, q, base)
  {
    var pc := At(m, p);
    if pc.Dialing? { MoveStaysClosed(m, DoDial(m, p, ok), p, q, base); }
    if pc.Counting? || pc.Uncounting? { MoveStaysClosed(m, DoCount(m, p), p, q, base); }
  }

  lemma DropStaysClosed(m: Manager, p: nat, q: nat, base: nat)
    requires Closed(m, p, q, base)
    ensures Closed(DoDrop(m, p), p, q, base) && Closed(DoCancel(m, p), p, q, base)
  {
    var pc := At(m, p);
    if pc.Dropping? { MoveStaysClosed(m, DoDrop(m, p), p, q, base); }
    if pc.Detaching? { MoveStaysClosed(m, DoCancel(m, p), p, q, base); }
  }

  lemma LoopStaysClosed(m: Manager, p: nat, q: nat, base: nat, ok: bool)
    requires Closed(m, p, q, base)
    ensures Closed(DoEnter(m, p), p, q, base) && Closed(DoTick(m, p), p, q, base)
    ensures Closed(DoCheck(m, p, ok), p, q, base) && Closed(DoStop(m, p), p, q, base)
  {
    hide Closed;
    forall pc | p in m.procs && ClosedPc(m, pc, base) ensures Closed(To(m, p, pc), p, q, base) {
      MoveStaysClosed(m, To(m, p, pc), p, q, base);
    }
    ClosedHasPc(m, p, q, base);
  }

  lemma ClosedHasPc(m: Manager, p: nat, q: nat, base: nat)
    requires Closed(m, p, q, base)
    ensures ClosedPc(m, At(m, p), base)
  {}

  lemma HandOverStaysClosed(m: Manager, p: nat, q: nat, r: nat, base: nat)
    requires Closed(m, p, q, base)
    ensures Closed(DoGo(m, p, r), p, q, base) || Closed(DoGo(m, p, r), r, q, base)
  {
    if r !in m.procs && (At(m, p).Linked? || At(m, p).Spawning?) {
      var next := if At(m, p).Linked? then KeepAliveTop else LoopTop(At(m, p).parent);
      var n := DoGo(m, p, r);
      assert n.procs == m.procs[r := next][p := Exited];
      HandedOver(m, n, p, q, r, next, base);
    }
  }

  lemma HandedOver(m: Manager, n: Manager, p: nat, q: nat, r: nat, next: Pc, base: nat)
    requires Closed(m, p, q, base) && r !in m.procs && p in m.procs && n.procs == m.procs[r := next][p := Exited]
    requires !n.started && n.baseCtx.None? && (n.ctx.Some? ==> n.ctx.value in n.parents)
    requires base !in n.parents && base < n.nextCtx && ClosedPc(n, next, base)
    ensures Closed(n, r, q, base)
  {
    assert At(n, r) == next && At(n, q) == At(m, q);
  }

  /** The steps of q, and of goroutines that have ended. */
  lemma OthersStayClosed(m: Manager, p: nat, q: nat, base: nat, step: Step)
    requires Closed(m, p, q, base) && !step.Start? && !step.CancelContext? && step.p != p
    ensures var n := Do(m, step); Closed(n, p, q, base) && At(n, p) == At(m, p) && m.cancelled <= n.cancelled
  {
    if step.p == q && At(m, q).Closing? {
      CloserStaysClosed(m, p, q, base, step);
    } else if step.Close? {
      assert Do(m, step) == m;
    } else {
      assert At(m, step.p).Exited?;
      EndedStays(m, step.p, if step.Go? then step.q else 0, (step.Dial? || step.Check?) && step.ok);
    }
  }

  lemma CloserStaysClosed(m: Manager, p: nat, q: nat, base: nat, step: Step)
    requires Closed(m, p, q, base) && !step.Start? && !step.CancelContext? && step.p == q && At(m, q).Closing?
    ensures var n := Do(m, step); Closed(n, p, q, base) && At(n, p) == At(m, p) && m.cancelled <= n.cancelled
  {
    var n := Do(m, step);
    assert n == m || (n.procs == m.procs[q := n.procs[q]] && (n.procs[q].Closing? || n.procs[q].Exited?) &&
                      n.(procs := m.procs, cancelled := m.cancelled, active := m.active) == m &&
                          m.cancelled <= n.cancelled);
    hide Do;
  }

  lemma ClosedLifecycle(m: Manager, p: nat, q: nat, base: nat)
    requires Closed(m, p, q, base)
    ensures DoClose(m, p) == DoFinishClose(m, p) == m
  {}

  lemma ClosedStep(m: Manager, p: nat, q: nat, base: nat, step: Step)
    requires Closed(m, p, q, base) && !step.Start?
    ensures Closed(Do(m, step), p, q, base) || (step.Go? && Closed(Do(m, step), step.q, q, base))
  {
    if !step.CancelContext? {
      if step.p != p {
        OthersStayClosed(m, p, q, base, step);
      } else {
        ClosedLifecycle(m, p, q, base);
        hide Closed;
        var ok := (step.Dial? || step.Check?) && step.ok;
        DialStaysClosed(m, p, q, base, ok);
        DropStaysClosed(m, p, q, base);
        LoopStaysClosed(m, p, q, base, ok);
        if step.Go? { HandOverStaysClosed(m, p, q, step.q, base); }
      }
    }
  }

  lemma {:induction false} ClosedRun(m: Manager, p: nat, q: nat, base: nat, steps: seq<Step>) returns (r: nat)
    requires Closed(m, p, q, base) && NoStart(steps)
    ensures Closed(Run(m, steps), r, q, base)
    decreases |steps|
  {
    if steps == [] {
      r := p;
    } else {
      var step := steps[|steps| - 1];
      r := ClosedRun(m, p, q, base, steps[..|steps| - 1]);
      hide Closed, Do;
      ClosedStep(Run(m, steps[..|steps| - 1]), r, q, base, step);
      if !Closed(Run(m, steps), r, q, base) { r := step.q; }
    }
  }

  // ----------------------------------------------- when it can go astray, and not

  /** With the base context cancelled and nothing loose, what is left only ends. */
  ghost predicate WindingDown(m: Manager, p: nat, q: nat, base: nat) {
    Closed(m, p, q, base) && base in m.cancelled && !Loose(At(m, p))
  }

  lemma WindsDown(m: Manager, p: nat, q: nat, base: nat, step: Step)
    requires WindingDown(m, p, q, base) && !step.Start?
    ensures WindingDown(Do(m, step), p, q, base) || (step.Go? && WindingDown(Do(m, step), step.q, q, base))
  {
    if !step.CancelContext? && step.p != p {
      OthersStayClosed(m, p, q, base, step);
    } else {
      ClosedStep(m, p, q, base, step);
      if !step.CancelContext? { BackingOffEnds(m, p, q, base, step); }
    }
  }

  /** Once the base context is done, a loop that backs off ends before its next dial. */
  lemma BackingOffEnds(m: Manager, p: nat, q: nat, base: nat, step: Step)
    requires Closed(m, p, q, base) && base in m.cancelled && !Loose(At(m, p))
    requires !step.Start? && !step.CancelContext? && step.p == p
    ensures var n := Do(m, step);
            && m.cancelled <= n.cancelled && !Loose(At(n, p))
            && (step.Go? ==> n == m || (!Loose(At(n, step.q)) && At(n, p).Exited?))
  {
    ClosedLifecycle(m, p, q, base);
    ClosedHasPc(m, p, q, base);
    hide Closed;
    if !BackingOff(At(m, p)) && !step.Close? && !step.FinishClose? {
      EndedStays(m, p, if step.Go? then step.q else 0, (step.Dial? || step.Check?) && step.ok);
    }
  }

  lemma {:induction false} RunWindsDown(m: Manager, p: nat, q: nat, base: nat, steps: seq<Step>) returns (r: nat)
    requires WindingDown(m, p, q, base) && NoStart(steps)
    ensures WindingDown(Run(m, steps), r, q, base)
    decreases |steps|
  {
    if steps == [] {
      r := p;
    } else {
      var step := steps[|steps| - 1];
      r := RunWindsDown(m, p, q, base, steps[..|steps| - 1]);
      hide WindingDown, Do;
      WindsDown(Run(m, steps[..|steps| - 1]), r, q, base, step);
      if !WindingDown(Run(m, steps), r, q, base) { r := step.q; }
    }
  }

  lemma WindingDownNeverStrays(m: Manager, p: nat, q: nat, base: nat)
    requires WindingDown(m, p, q, base)
    ensures !CanStray(m)
  {
    forall steps: seq<Step> | NoStart(steps) ensures !Stray(Run(m, steps)) {
      var r := RunWindsDown(m, p, q, base, steps);
    }
  }

  lemma LooseStrays(m: Manager, p: nat, q: nat, base: nat)
    requires Closed(m, p, q, base) && Loose(At(m, p))
    ensures CanStray(m)
  {
    var pc := At(m, p);
    if pc.Crashed? {
      StrayNow(m);
    } else if BackingOff(pc) {
      UnboundStrays(m, p);
    } else if pc.KeepsAlive() {
      KeepAliveStrays(m, p);
    } else if pc.Dropping? {
      DroppingStrays(m, p);
    } else {
      ConnectingStrays(m, p);
    }
  }

  /** How far a loop that backs off is from its next look at the base context. */
  function Distance(pc: Pc): nat {
    match pc
    case Detaching(_, _, _, _) => 4
    case Uncounting(_, _) => 3
    case Spawning(_, _) => 2
    case Waiting(_) => 1
    case _ => 0
  }

  function NextStep(pc: Pc, p: nat, r: nat): Step {
    match pc
    case Detaching(_, _, _, _) => Cancel(p)
    case Uncounting(_, _) => Count(p)
    case Spawning(_, _) => Go(p, r)
    case Waiting(_) => Tick(p)
    case _ => Enter(p)
  }

  lemma BackingOffAdvances(m: Manager, p: nat, q: nat, base: nat, r: nat)
    requires Closed(m, p, q, base) && BackingOff(At(m, p)) && !At(m, p).LoopTop? && r !in m.procs
    requires base !in m.cancelled
    ensures var n := Do(m, NextStep(At(m, p), p, r));
            var o := if At(m, p).Spawning? then r else p;
            && Closed(n, o, q, base) && BackingOff(At(n, o)) && base !in n.cancelled
            && At(n, o).parent == At(m, p).parent && Distance(At(n, o)) < Distance(At(m, p)) && At(n, q) == At(m, q)
  {
    hide Closed, DoCancel, DoCount, DoGo, DoTick;
    match At(m, p)
    case Spawning(_, _) => SpawnHandsOver(m, p, q, base, r);
    case Detaching(_, _, _, _) => DetachingAdvances(m, p, q, base);
    case Uncounting(_, _) => UncountingAdvances(m, p, q, base);
    case Waiting(_) => WaitingAdvances(m, p, q, base);
  }

  lemma DetachingAdvances(m: Manager, p: nat, q: nat, base: nat)
    requires Closed(m, p, q, base) && At(m, p).Detaching? && base !in m.cancelled
    ensures var n := DoCancel(m, p);
            && Closed(n, p, q, base) && base !in n.cancelled && At(n, q) == At(m, q)
            && At(n, p) == AfterDetaching(At(m, p).grouped, At(m, p).parent, At(m, p).counted)
  {
    ClosedHasPc(m, p, q, base);
    CloserIsAnother(m, p, q, base);
    DropStaysClosed(m, p, q, base);
    hide Closed;
  }

  lemma UncountingAdvances(m: Manager, p: nat, q: nat, base: nat)
    requires Closed(m, p, q, base) && At(m, p).Uncounting?
    ensures var n := DoCount(m, p);
            && Closed(n, p, q, base) && n.cancelled == m.cancelled && At(n, q) == At(m, q)
            && At(n, p) == Spawning(At(m, p).grouped, At(m, p).parent)
  {
    CloserIsAnother(m, p, q, base);
    DialStaysClosed(m, p, q, base, true);
    hide Closed;
  }

  lemma WaitingAdvances(m: Manager, p: nat, q: nat, base: nat)
    requires Closed(m, p, q, base) && At(m, p).Waiting?
    ensures var n := DoTick(m, p);
            && Closed(n, p, q, base) && n.cancelled == m.cancelled && At(n, q) == At(m, q)
            && At(n, p) == LoopTop(At(m, p).parent)
  {
    CloserIsAnother(m, p, q, base);
    LoopStaysClosed(m, p, q, base, true);
    hide Closed;
  }

  lemma CloserIsAnother(m: Manager, p: nat, q: nat, base: nat)
    requires Closed(m, p, q, base)
    ensures p != q && base !in m.parents
  {}

  lemma SpawnHandsOver(m: Manager, p: nat, q: nat, base: nat, r: nat)
    requires Closed(m, p, q, base) && At(m, p).Spawning? && r !in m.procs
    ensures var n := DoGo(m, p, r);
            && Closed(n, r, q, base) && At(n, r) == LoopTop(At(m, p).parent)
            && n.cancelled == m.cancelled && At(n, q) == At(m, q)
  {
    var n, next := DoGo(m, p, r), LoopTop(At(m, p).parent);
    assert n.procs == m.procs[r := next][p := Exited];
    HandedOver(m, n, p, q, r, next, base);
  }

  /** The test at the loop's top passes while the base context is not done. */
  lemma LoopTopDials(m: Manager, p: nat, q: nat, base: nat)
    requires Closed(m, p, q, base) && At(m, p).LoopTop? && At(m, p).parent == Some(base) && base !in m.cancelled
    ensures var n := Do(m, Enter(p));
            At(n, p).Dialing? && Closed(n, p, q, base) && base !in n.cancelled && At(n, q) == At(m, q)
  {
    LoopStaysClosed(m, p, q, base, true);
  }

  /** While the base context is not cancelled, a loop that backs off gets to its next
      dial, and from there it can go astray even if the cancels follow at once. */
  lemma {:induction false} BackingOffDials(m: Manager, p: nat, q: nat, base: nat) returns (steps: seq<Step>, r: nat)
    requires Closed(m, p, q, base) && BackingOff(At(m, p)) && At(m, p).parent == Some(base) && base !in m.cancelled
    ensures NoStart(steps)
    ensures var n := Run(m, steps); Closed(n, r, q, base) && At(n, r).Dialing? && At(n, q) == At(m, q)
    decreases Distance(At(m, p))
  {
    if At(m, p).LoopTop? {
      LoopTopDials(m, p, q, base);
      steps, r := [Enter(p)], p;
      RunFrom(m, Enter(p), []);
    } else {
      var unused := UnusedNumber(m.procs);
      var step := NextStep(At(m, p), p, unused);
      BackingOffAdvances(m, p, q, base, unused);
      var rest;
      rest, r := BackingOffDials(Do(m, step), if At(m, p).Spawning? then unused else p, q, base);
      hide Run, Do, Closed;
      RunFrom(m, step, rest);
      steps := [step] + rest;
    }
  }

  lemma {:induction false} StrayBeforeAll(m: Manager, steps: seq<Step>)
    requires NoStart(steps) && CanStray(Run(m, steps))
    ensures CanStray(m)
    decreases |steps|
  {
    if steps == [] {
      assert Run(m, steps) == m;
    } else {
      StrayBefore(Run(m, steps[..|steps| - 1]), steps[|steps| - 1]);
      StrayBeforeAll(m, steps[..|steps| - 1]);
    }
  }

  lemma MonitorStraysBeforeCancel(m: Manager, p: nat, q: nat, base: nat)
    requires Closed(m, p, q, base) && At(m, p).Monitors() && base !in m.cancelled
    ensures CanStray(m)
  {
    if Loose(At(m, p)) {
      LooseStrays(m, p, q, base);
    } else {
      ClosedHasPc(m, p, q, base);
      var steps, r := BackingOffDials(m, p, q, base);
      hide Closed;
      LooseStrays(Run(m, steps), r, q, base);
      StrayBeforeAll(m, steps);
    }
  }

  /** A point from which monitoring may go astray after the region of a Close that took base away. */
  ghost predicate Unsafe(m: Manager, base: nat) {
    exists r :: r in m.procs && (Loose(m.procs[r]) || (m.procs[r].Monitors() && base !in m.cancelled))
  }

  lemma ClosedStraysExactlyWhen(m: Manager, p: nat, q: nat, base: nat)
    requires Closed(m, p, q, base)
    ensures CanStray(m) <==> Unsafe(m, base)
  {
    var pc := At(m, p);
    if Loose(pc) {
      LooseStrays(m, p, q, base);
      assert p in m.procs;
    } else if pc.Monitors() && base !in m.cancelled {
      MonitorStraysBeforeCancel(m, p, q, base);
      assert p in m.procs;
    } else {
      if base in m.cancelled {
        WindingDownNeverStrays(m, p, q, base);
      } else {
        NobodyLeftNeverStrays(m, p, q, base);
      }
    }
  }

  /** Without a monitoring goroutine nothing starts one. */
  lemma NobodyLeftNeverStrays(m: Manager, p: nat, q: nat, base: nat)
    requires Closed(m, p, q, base) && At(m, p).Exited?
    ensures !CanStray(m)
  {
    forall steps: seq<Step> | NoStart(steps) ensures !Stray(Run(m, steps)) {
      RunStaysEmpty(m, p, q, base, steps);
    }
  }

  lemma {:induction false} RunStaysEmpty(m: Manager, p: nat, q: nat, base: nat, steps: seq<Step>)
    requires Closed(m, p, q, base) && At(m, p).Exited? && NoStart(steps)
    ensures Closed(Run(m, steps), p, q, base) && At(Run(m, steps), p).Exited?
    decreases |steps|
  {
    if steps == [] {
      assert Run(m, steps) == m;
    } else {
      RunStaysEmpty(m, p, q, base, steps[..|steps| - 1]);
      var n, step := Run(m, steps[..|steps| - 1]), steps[|steps| - 1];
      if !step.CancelContext? {
        if step.p != p {
          OthersStayClosed(n, p, q, base, step);
        } else {
          ClosedLifecycle(n, p, q, base);
          if !step.Close? && !step.FinishClose? {
            EndedStays(n, p, if step.Go? then step.q else 0, (step.Dial? || step.Check?) && step.ok);
          }
        }
      }
    }
  }

  /** At every point of every run after a Close's region: a continuation that leaves a
      reconnect loop on the background context, or a loop that dereferences a nil one,
      exists if and only if some goroutine still monitors and either the base context
      is not cancelled yet, or the goroutine is not backing off on it. */
  lemma CloseCanStrayExactlyWhen(m: Manager, p: nat, q: nat, steps: seq<Step>)
    requires Owned(m, p) && q !in m.procs && NoStart(steps)
    ensures var n := Run(Do(m, Close(q)), steps);
            CanStray(n) <==> Unsafe(n, m.baseCtx.value)
  {
    var base := m.baseCtx.value;
    CloseCloses(m, p, q);
    var r := ClosedRun(Do(m, Close(q)), p, q, base, steps);
    hide Closed, Owned;
    ClosedStraysExactlyWhen(Run(Do(m, Close(q)), steps), r, q, base);
  }

  /** q's Close has called both cancel functions. */
  predicate Cancelled(m: Manager, q: nat) { At(m, q).Closing? && At(m, q).pending == [] }

  /** And from every point of the owner such a run exists in which Close has made both
      cancels: being in backoff is no protection, since the loop can pass its test of
      the base context and dial between the region and the cancels. */
  lemma CloseNeverSurelyStopsMonitoring(m: Manager, p: nat, q: nat)
    requires Owned(m, p) && q !in m.procs
    ensures exists steps: seq<Step> :: NoStart(steps) && Cancelled(Run(m, steps), q) && CanStray(Run(m, steps))
  {
    var base := m.baseCtx.value;
    var c := Do(m, Close(q));
    CloseCloses(m, p, q);
    var before: seq<Step>, r := [], p;
    assert Run(c, []) == c;
    if BackingOff(m.procs[p]) { before, r := BackingOffDials(c, p, q, base); }
    var more := CancelsKeepLoose(Run(c, before), r, q, base);
    hide Closed, Owned, Do;
    RunSplit(c, before, more);
    RunFrom(m, Close(q), before + more);
    var steps := [Close(q)] + (before + more);
    assert NoStart(steps) && Cancelled(Run(m, steps), q);
  }

  /** Close's remaining cancels do not touch a goroutine that is loose. */
  lemma CancelsKeepLoose(m: Manager, p: nat, q: nat, base: nat) returns (steps: seq<Step>)
    requires Closed(m, p, q, base) && Loose(At(m, p)) && At(m, q).Closing?
    ensures NoStart(steps)
    ensures Cancelled(Run(m, steps), q) && CanStray(Run(m, steps))
    decreases |At(m, q).pending|
  {
    if At(m, q).pending == [] {
      steps := [];
      assert Run(m, steps) == m;
      LooseStrays(m, p, q, base);
    } else {
      OthersStayClosed(m, p, q, base, Cancel(q));
      var rest := CancelsKeepLoose(Do(m, Cancel(q)), p, q, base);
      RunFrom(m, Cancel(q), rest);
      steps := [Cancel(q)] + rest;
    }
  }

  lemma {:induction false} RunSplit(m: Manager, a: seq<Step>, b: seq<Step>)
    ensures Run(m, a + b) == Run(Run(m, a), b)
    decreases |b|
  {
    if b == [] {
      assert a + b == a;
    } else {
      assert (a + b)[..|a + b| - 1] == a + b[..|b| - 1];
      RunSplit(m, a, b[..|b| - 1]);
    }
  }

  /** When the cancels follow the region at once, backoff is what decides. */
  lemma PromptCloseStopsExactlyWhenBackingOff(m: Manager, p: nat, q: nat, steps: seq<Step>)
    requires Owned(m, p) && q !in m.procs
    requires (forall i :: 0 <= i < |steps| ==> steps[i] == Cancel(q)) && Cancelled(Run(Do(m, Close(q)), steps), q)
    ensures CanStray(Run(Do(m, Close(q)), steps)) <==> !BackingOff(m.procs[p])
  {
    CancelsOnly(m, p, q, steps);
    assert m.baseCtx.Some?;
    assert NoStart(steps);
    hide Owned, OnlyCancelled, CanStray, Unsafe, Run, Do, Cancelled;
    UnsafeAfterCancels(m, Run(Do(m, Close(q)), steps), p, q);
    CloseCanStrayExactlyWhen(m, p, q, steps);
  }

  lemma UnsafeAfterCancels(m: Manager, n: Manager, p: nat, q: nat)
    requires Owned(m, p) && q !in m.procs && OnlyCancelled(m, n, q, m.baseCtx.value) && Cancelled(n, q)
    ensures Unsafe(n, m.baseCtx.value) <==> !BackingOff(m.procs[p])
  {
    assert m.baseCtx.value in n.cancelled;
    assert n.procs[p] == m.procs[p] && (Loose(n.procs[p]) <==> !BackingOff(m.procs[p]));
    forall r | r in n.procs && r != p ensures !Loose(n.procs[r]) {
      assert r != q ==> n.procs[r] == m.procs[r];
    }
  }

  /** Only cancels have happened since q's Close of m. */
  ghost predicate OnlyCancelled(m: Manager, n: Manager, q: nat, base: nat) {
    && n.procs.Keys == m.procs.Keys + {q} && (forall r :: r in m.procs ==> n.procs[r] == m.procs[r])
    && n.procs[q].Closing?
    && (base in n.cancelled || (n.procs[q].pending != [] && n.procs[q].pending[|n.procs[q].pending| - 1] == base))
  }

  lemma CancelledOnce(m: Manager, n: Manager, q: nat, base: nat)
    requires OnlyCancelled(m, n, q, base) && q !in m.procs
    ensures OnlyCancelled(m, DoCancel(n, q), q, base)
  {}

  lemma {:induction false} CancelsOnly(m: Manager, p: nat, q: nat, steps: seq<Step>)
    requires Owned(m, p) && q !in m.procs && forall i :: 0 <= i < |steps| ==> steps[i] == Cancel(q)
    ensures OnlyCancelled(m, Run(Do(m, Close(q)), steps), q, m.baseCtx.value)
    decreases |steps|
  {
    if steps == [] {
      assert Run(Do(m, Close(q)), steps) == Do(m, Close(q));
    } else {
      CancelsOnly(m, p, q, steps[..|steps| - 1]);
      hide OnlyCancelled;
      CancelledOnce(m, Run(Do(m, Close(q)), steps[..|steps| - 1]), q, m.baseCtx.value);
    }
  }
}
