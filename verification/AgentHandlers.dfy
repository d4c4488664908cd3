/** The agent's POST and DELETE /leases handlers running concurrently over the
    lease store (internal/agent/agent.go:126-250), with the renewal loops they and
    start-up verification start (:392-606), and the process crashing at any step.
    Handlers hold the per-interface in-flight entry (internal/agent/lease/types.go:113-134).

    A renewal loop may go on after its lease has been released: cancellation is
    not waited for, and can miss a loop (internal/agent/agent.go:461-490). So a
    loop here ends at any time or never, and until then writes at any time. */
module AgentHandlers {
  import opened Common
  import opened Leases
  import LS = LeaseStore
  import R = Renewal

  // ------------------------------------------------------------------ state

  datatype Handler =
    | PostAccepted(iface: string)
    | PostLocked(iface: string)
    | PostChecked(iface: string)                   // no lease stored, allocating
    | PostStoring(iface: string, lease: Lease)     // inside store.Set
    | PostStarted(iface: string, lease: Lease)     // renewal loop started, answer pending
    | DeleteAccepted(iface: string)
    | DeleteLocked(iface: string)
    | DeleteFound(iface: string)
    | DeleteStoring(iface: string)                 // inside store.Delete
    | Releasing(iface: string)                     // answered, deferred ReleaseInflight pending
    | Finished
  {
    /** The interface whose in-flight entry this handler has taken. */
    function Held(): Option<string> {
      match this
      case PostAccepted(_) => None
      case DeleteAccepted(_) => None
      case Finished => None
      case _ => Some(iface)
    }

    predicate Stores() { PostStoring? || PostStarted? }

    predicate Deletes() { DeleteAccepted? || DeleteLocked? || DeleteFound? || DeleteStoring? }
  }

  /** Answers and deletions in the order they happened; requests, replies and
      events of an Agent are history. */
  datatype Event = Answered201(iface: string, ip: string) | Deleted(iface: string)

  /** loops: each renewal goroutine with the lease object it works on; toVerify: the
      stored leases that start-up verification has still to visit. */
  datatype Agent = Agent(
    store: LS.Store, handlers: map<Caller, Handler>, inflight: set<string>,
    loops: map<nat, Lease>, toVerify: set<string>,
    requests: map<Caller, string>, replies: map<Caller, Reply>, events: seq<Event>)

  const FRESH: Agent := Agent(LS.FRESH, map[], {}, map[], {}, map[], map[], [])

  /** What a renewal loop stores: an acknowledged RENEW or REBIND, or the mark of a failed round. */
  datatype Write = Acknowledged(a: R.Attempt, at: int, rebound: bool) | MarkedStale

  datatype Step =
    | Post(h: Caller, iface: string)
    | Delete(h: Caller, iface: string)
    | Acquire(h: Caller)                         // AcquireInflight
    | Check(h: Caller)                           // store.Get
    | Allocate(h: Caller, got: Option<Lease>)    // allocateLease up to and including the map update of Set
    | StartLoop(h: Caller, r: nat)               // Set has returned nil: startRenewalLoop
    | Remove(h: Caller)                          // releaseLease up to and including the map update of Delete
    | Answer(h: Caller)
    | Release(h: Caller)                         // deferred ReleaseInflight
    | RenewalSet(r: nat, t: Caller, w: Write)    // a renewal loop changes its lease and calls Set
    | EndLoop(r: nat)
    | Verify(i: string, t: Caller, f: Finding, r: nat)  // one lease of verifyLeases; r: its loop
    | StoreStep(step: LS.Step)                   // saving; crash; restart

  // ------------------------------------------------------------------ steps

  function Answering(a: Agent, h: Caller, r: Reply, next: Handler): Agent {
    a.(replies := a.replies[h := r], handlers := a.handlers[h := next])
  }

  /** The server listens once start-up verification is through. */
  function DoArrive(a: Agent, h: Caller, first: Handler): Agent
    requires !first.Finished?
  {
    if a.store.up && a.toVerify == {} && h !in a.requests && h !in a.handlers && h !in a.store.calls then
      a.(handlers := a.handlers[h := first], requests := a.requests[h := first.iface])
    else a
  }

  function DoAcquire(a: Agent, h: Caller): Agent {
    if h !in a.handlers || !(a.handlers[h].PostAccepted? || a.handlers[h].DeleteAccepted?) then a
    else
      var i := a.handlers[h].iface;
      if i in a.inflight then Answering(a, h, Conflict, Finished)
      else
        a.(inflight := a.inflight + {i},
           handlers := a.handlers[h := if a.handlers[h].PostAccepted? then PostLocked(i) else DeleteLocked(i)])
  }

  function DoCheck(a: Agent, h: Caller): Agent {
    if h !in a.handlers || !(a.handlers[h].PostLocked? || a.handlers[h].DeleteLocked?) then a
    else
      var i := a.handlers[h].iface;
      var found := i in a.store.mem;
      if a.handlers[h].PostLocked? then
        if found then Answering(a, h, Conflict, Releasing(i))
        else a.(handlers := a.handlers[h := PostChecked(i)])
      else
        if found then a.(handlers := a.handlers[h := DeleteFound(i)])
        else Answering(a, h, NotFound, Releasing(i))
  }

  /** A failed macvlan, DHCP, ARP or setup step answers 503 with the store untouched. */
  function DoAllocate(a: Agent, h: Caller, got: Option<Lease>): Agent {
    if h !in a.handlers || !a.handlers[h].PostChecked? then a
    else
      var i := a.handlers[h].iface;
      match got
      case None => Answering(a, h, Unavailable, Releasing(i))
      case Some(l) =>
        if l.iface != i || h in a.store.calls then a
        else a.(store := LS.DoUpdate(a.store, h, LS.SetLease(l)),
                handlers := a.handlers[h := PostStoring(i, l)])
  }

  function DoStartLoop(a: Agent, h: Caller, r: nat): Agent {
    if h in a.handlers && a.handlers[h].PostStoring? && h in a.store.calls && a.store.calls[h].ReturnedNil? &&
        r !in a.loops then
      var g := a.handlers[h];
      a.(loops := a.loops[r := g.lease], handlers := a.handlers[h := PostStarted(g.iface, g.lease)])
    else a
  }

  function DoRemove(a: Agent, h: Caller): Agent {
    if h !in a.handlers || !a.handlers[h].DeleteFound? || h in a.store.calls then a
    else
      var i := a.handlers[h].iface;
      a.(store := LS.DoUpdate(a.store, h, LS.DeleteLease(i)),
         events := a.events + [Deleted(i)],
         handlers := a.handlers[h := DeleteStoring(i)])
  }

  function DoAnswer(a: Agent, h: Caller): Agent {
    if h !in a.handlers || h !in a.store.calls then a
    else
      var c := a.store.calls[h];
      match a.handlers[h]
      case PostStarted(i, l) =>
        Answering(a, h, Created(l.ip), Releasing(i)).(events := a.events + [Answered201(i, l.ip)])
      case PostStoring(i, _) =>
        if c.ReturnedError? then Answering(a, h, Unavailable, Releasing(i)) else a
      case DeleteStoring(i) =>
        if c.ReturnedNil? then Answering(a, h, NoContent, Releasing(i))
        else if c.ReturnedError? then Answering(a, h, ServerError, Releasing(i))
        else a
      case _ => a
  }

  function DoRelease(a: Agent, h: Caller): Agent {
    if h in a.handlers && a.handlers[h].Releasing? then
      a.(inflight := a.inflight - {a.handlers[h].iface}, handlers := a.handlers[h := Finished])
    else a
  }

  function Written(l: Lease, w: Write): Lease {
    match w
    case Acknowledged(att, at, rebound) => R.Acknowledge(l, att, at, rebound)
    case MarkedStale => l.(status := Stale)
  }

  /** A Set by a background goroutine. */
  function Storing(a: Agent, t: Caller, l: Lease): Agent { a.(store := LS.DoUpdate(a.store, t, LS.SetLease(l))) }

  predicate Unused(a: Agent, t: Caller) { a.store.up && t !in a.handlers && t !in a.store.calls }

  function DoRenewalSet(a: Agent, r: nat, t: Caller, w: Write): Agent {
    if r !in a.loops || !Unused(a, t) then a
    else
      var l := Written(a.loops[r], w);
      Storing(a, t, l).(loops := a.loops[r := l])
  }

  /** One pass of verifyLeases' loop; only a renewed lease gets a renewal loop. */
  function DoVerify(a: Agent, i: string, t: Caller, f: Finding, r: nat): Agent {
    if i !in a.toVerify || i !in a.store.mem || !Unused(a, t) || r in a.loops then a
    else if f.CheckFailed? then a.(toVerify := a.toVerify - {i})
    else
      var l := Verified(a.store.mem[i], f);
      Storing(a, t, l).(toVerify := a.toVerify - {i}, loops := if f.Renewed? then a.loops[r := l] else a.loops)
  }

  /** A crash takes every goroutine and the in-flight table with it; answers already
      sent stay sent. After a restart every stored lease is to be verified. */
  function DoStore(a: Agent, step: LS.Step): Agent {
    match step
    case Update(_, _) => a
    case Crash => a.(store := LS.Do(a.store, step), handlers := map[], inflight := {}, loops := map[], toVerify := {})
    case Restart(_) =>
      var n := LS.Do(a.store, step);
      a.(store := n, toVerify := if a.store.up then a.toVerify else n.mem.Keys)
    case _ => a.(store := LS.Do(a.store, step))
  }

  function Do(a: Agent, step: Step): Agent {
    match step
    case Post(h, i) => DoArrive(a, h, PostAccepted(i))
    case Delete(h, i) => DoArrive(a, h, DeleteAccepted(i))
    case Acquire(h) => DoAcquire(a, h)
    case Check(h) => DoCheck(a, h)
    case Allocate(h, got) => DoAllocate(a, h, got)
    case StartLoop(h, r) => DoStartLoop(a, h, r)
    case Remove(h) => DoRemove(a, h)
    case Answer(h) => DoAnswer(a, h)
    case Release(h) => DoRelease(a, h)
    case RenewalSet(r, t, w) => DoRenewalSet(a, r, t, w)
    case EndLoop(r) => a.(loops := a.loops - {r})
    case Verify(i, t, f, r) => DoVerify(a, i, t, f, r)
    case StoreStep(st) => DoStore(a, st)
  }

  function Run(a: Agent, steps: seq<Step>): Agent {
    if steps == [] then a else Do(Run(a, steps[..|steps| - 1]), steps[|steps| - 1])
  }

  // ------------------------------------------------------------- invariants

  /** The 201 at position j has not been followed by a deletion of its interface. */
  ghost predicate Open(events: seq<Event>, j: int) {
    0 <= j < |events| && events[j].Answered201? &&
    forall m :: j < m < |events| ==> events[m] != Deleted(events[j].iface)
  }

  ghost predicate NoneOpen(events: seq<Event>, i: string) {
    forall j :: 0 <= j < |events| && events[j].iface == i ==> !Open(events, j)
  }

  /** m holds a lease for i, at the given address if there is one. */
  predicate Has(m: LeaseMap, i: string, ip: Option<string>) {
    i in m && (ip.Some? ==> m[i].ip == ip.value)
  }

  /** Held after each of the updates number `from`, from + 1, ... up to now. */
  ghost predicate HeldFrom(log: seq<LS.Op>, from: nat, i: string, ip: Option<string>) {
    from <= |log| && forall n :: from <= n <= |log| ==> Has(LS.Replay(log[..n]), i, ip)
  }

  /** Held now, and in every store that a crash at this moment could bring back. */
  ghost predicate Stored(s: LS.Store, i: string, ip: Option<string>) {
    HeldFrom(s.log, s.durable, i, ip)
  }

  /** At most one operation per interface is between acquire and release. */
  ghost predicate Exclusive(a: Agent) {
    && (forall h :: h in a.handlers && a.handlers[h].Held().Some? ==> a.handlers[h].Held().value in a.inflight)
    && (forall h, k :: h in a.handlers && k in a.handlers && h != k && a.handlers[h].Held().Some? ==>
          a.handlers[h].Held() != a.handlers[k].Held())
  }

  predicate SameGrant(d: Event, e: Event) { d.Answered201? && e.Answered201? && d.iface == e.iface }

  /** Two 201 answers for one interface have a deletion of it between them. */
  ghost predicate Separated(events: seq<Event>) {
    forall j, k :: 0 <= j < k < |events| && SameGrant(events[j], events[k]) ==>
      exists m :: j < m < k && events[m] == Deleted(events[j].iface)
  }

  /** Addresses are tracked for the interfaces in exact. */
  function Want(exact: set<string>, i: string, ip: string): Option<string> { if i in exact then Some(ip) else None }

  /** The update at position pos of the store's history. */
  predicate Logged(s: LS.Store, pos: nat, op: LS.Op) { pos < |s.log| && s.log[pos] == op }

  ghost predicate HandlerOk(a: Agent, h: Caller, exact: set<string>)
    requires h in a.handlers
  {
    match a.handlers[h]
    case PostChecked(i) => NoneOpen(a.events, i)
    case PostStoring(i, l) =>
      && NoneOpen(a.events, i) && l.iface == i && h in a.store.calls
      && (!a.store.calls[h].ReturnedError? ==> HeldFrom(a.store.log, a.store.calls[h].pos + 1, i, Want(exact, i, l.ip)))
    case PostStarted(i, l) =>
      && NoneOpen(a.events, i) && l.iface == i && h in a.store.calls
      && a.store.calls[h].ReturnedNil? && HeldFrom(a.store.log, a.store.calls[h].pos + 1, i, Want(exact, i, l.ip))
    case DeleteStoring(i) =>
      && h in a.store.calls
      && (!a.store.calls[h].ReturnedError? ==> Logged(a.store, a.store.calls[h].pos, LS.DeleteLease(i)))
    case _ => true
  }

  ghost predicate GrantsStored(a: Agent, exact: set<string>) {
    forall j :: 0 <= j < |a.events| && Open(a.events, j) ==>
      Stored(a.store, a.events[j].iface, Want(exact, a.events[j].iface, a.events[j].ip))
  }

  /** The interfaces in exact are never deleted; so their loops work at the address
      that is stored, and an allocation under way finds nothing stored. */
  ghost predicate Steady(a: Agent, exact: set<string>) {
    && (forall r :: r in a.loops && a.loops[r].iface in exact ==> Faithful(a, a.loops[r]))
    && (forall h :: h in a.handlers && a.handlers[h].PostChecked? && a.handlers[h].iface in exact ==>
          a.handlers[h].iface !in a.store.mem)
    && (forall h :: h in a.handlers && a.handlers[h].Deletes() ==> a.handlers[h].iface !in exact)
    && (forall j :: 0 <= j < |a.events| && a.events[j].Deleted? ==> a.events[j].iface !in exact)
  }

  ghost predicate Inv(a: Agent, exact: set<string>) {
    && LS.Inv(a.store)
    && (!a.store.up ==> a.handlers == map[] && a.loops == map[])
    && Exclusive(a)
    && (forall h :: h in a.handlers ==> HandlerOk(a, h, exact))
    && GrantsStored(a, exact)
    && Separated(a.events)
    && Steady(a, exact)
  }

  /** The store holds l's interface at l's address. */
  predicate Faithful(a: Agent, l: Lease) {
    Has(a.store.mem, l.iface, Some(l.ip))
  }

  /** Less exactness is less to keep. */
  lemma InvWeakens(a: Agent, exact: set<string>, less: set<string>)
    requires Inv(a, exact) && less <= exact
    ensures Inv(a, less)
  {
    forall h | h in a.handlers ensures HandlerOk(a, h, less) {
      assert HandlerOk(a, h, exact);
      var g := a.handlers[h];
      if g.Stores() && !a.store.calls[h].ReturnedError? {
        var more, w := Want(exact, g.iface, g.lease.ip), Want(less, g.iface, g.lease.ip);
        HeldWeakens(a.store.log, a.store.calls[h].pos + 1, g.iface, more, w);
      }
    }
    forall j | 0 <= j < |a.events| && Open(a.events, j)
      ensures Stored(a.store, a.events[j].iface, Want(less, a.events[j].iface, a.events[j].ip))
    {
      var i, ip := a.events[j].iface, a.events[j].ip;
      HeldWeakens(a.store.log, a.store.durable, i, Want(exact, i, ip), Want(less, i, ip));
    }
  }

  lemma HeldWeakens(log: seq<LS.Op>, from: nat, i: string, ip: Option<string>, less: Option<string>)
    requires HeldFrom(log, from, i, ip) && (less.None? || less == ip)
    ensures HeldFrom(log, from, i, less)
  {
    forall n | from <= n <= |log| ensures Has(LS.Replay(log[..n]), i, less) {
      assert Has(LS.Replay(log[..n]), i, ip);
    }
  }

  // ------------------------------------------------------------ store facts

  lemma StoredStays(s: LS.Store, n: LS.Store, i: string, ip: Option<string>)
    requires Stored(s, i, ip)
    requires n.log == s.log && s.durable <= n.durable <= |n.log|
    ensures Stored(n, i, ip)
  {}

  lemma StoredSurvivesCrash(s: LS.Store, i: string, ip: Option<string>)
    requires Stored(s, i, ip)
    ensures Stored(LS.DoCrash(s), i, ip)
  {
    var n := LS.DoCrash(s);
    assert n.log[..s.durable] == s.log[..s.durable];
  }

  /** What is held from some update on is held now. */
  lemma HeldNow(s: LS.Store, from: nat, i: string, ip: Option<string>)
    requires LS.Inv(s) && s.up && HeldFrom(s.log, from, i, ip)
    ensures Has(s.mem, i, ip)
  {
    assert s.log[..|s.log|] == s.log;
    assert Has(LS.Replay(s.log[..|s.log|]), i, ip);
  }

  /** An update that neither deletes i nor moves it to another address keeps it held. */
  lemma UpdateKeepsHeld(log: seq<LS.Op>, op: LS.Op, from: nat, i: string, ip: Option<string>)
    requires HeldFrom(log, from, i, ip)
    requires op != LS.DeleteLease(i)
    requires op.SetLease? && op.lease.iface == i && ip.Some? ==> op.lease.ip == ip.value
    ensures HeldFrom(log + [op], from, i, ip)
  {
    var n := log + [op];
    LS.ReplayAppend(log, op);
    assert log[..|log|] == log && n[..|n|] == n;
    assert Has(LS.Replay(log[..|log|]), i, ip);
    forall k | from <= k <= |n| ensures Has(LS.Replay(n[..k]), i, ip) {
      if k <= |log| { assert n[..k] == log[..k]; }
    }
  }

  /** A call of Set or Delete gets on with saving, or has failed to. */
  predicate GoesOn(c: LS.Call, d: LS.Call) {
    if d.ReturnedError? then !c.ReturnedNil?
    else !c.ReturnedError? && d.pos == c.pos && (c.ReturnedNil? ==> d.ReturnedNil?)
  }

  /** Saving steps keep memory and the update log and can only make more of it durable. */
  lemma SavingKeepsLog(s: LS.Store, step: LS.Step)
    requires LS.Inv(s) && !step.Update? && !step.Crash? && !step.Restart?
    ensures var n := LS.Do(s, step);
            && n.log == s.log && n.mem == s.mem && s.durable <= n.durable <= |n.log| && n.up == s.up
            && n.calls.Keys == s.calls.Keys && forall t :: t in s.calls ==> GoesOn(s.calls[t], n.calls[t])
  {
    LS.StepKeeps(s, step);
    SavingMovesOneCall(s, step);
    hide LS.Inv, LS.Do;
  }

  lemma SavingMovesOneCall(s: LS.Store, step: LS.Step)
    requires !step.Update? && !step.Crash? && !step.Restart?
    ensures var n := LS.Do(s, step);
            && n.log == s.log && n.mem == s.mem && n.up == s.up
            && (n.calls == s.calls ||
                (step.t in s.calls && step.t in n.calls && GoesOn(s.calls[step.t], n.calls[step.t]) &&
                 n.calls == s.calls[step.t := n.calls[step.t]]))
  {
    match step
    case LockSave(t) =>
    case Marshal(t, ok) =>
    case OpenTmp(t, ok) =>
    case FillTmp(t, ok) =>
    case Rename(t, ok) =>
    case Return(t) =>
  }

  // ------------------------------------------------------------ event facts

  lemma OpenGrows(events: seq<Event>, e: Event, j: int)
    requires Open(events + [e], j) && j < |events|
    ensures Open(events, j) && e != Deleted(events[j].iface)
  {
    assert (events + [e])[|events|] == e;
    forall m | j < m < |events| ensures events[m] != Deleted(events[j].iface) {
      assert (events + [e])[m] == events[m];
    }
  }

  lemma NoneOpenKept(events: seq<Event>, e: Event, i: string)
    requires NoneOpen(events, i) && (e.Answered201? ==> e.iface != i)
    ensures NoneOpen(events + [e], i)
  {
    forall j | 0 <= j < |events + [e]| && (events + [e])[j].iface == i ensures !Open(events + [e], j) {
      if j < |events| && Open(events + [e], j) {
        OpenGrows(events, e, j);
      }
    }
  }

  lemma SeparatedGrows(events: seq<Event>, e: Event)
    requires Separated(events)
    requires e.Answered201? ==> NoneOpen(events, e.iface)
    ensures Separated(events + [e])
  {
    var n := events + [e];
    forall j, k | 0 <= j < k < |n| && SameGrant(n[j], n[k])
      ensures exists m :: j < m < k && n[m] == Deleted(n[j].iface)
    {
      if k < |events| {
        var m :| j < m < k && events[m] == Deleted(events[j].iface);
        assert n[m] == events[m];
      } else {
        assert events[j].iface == e.iface && !Open(events, j);
        var m :| j < m < |events| && events[m] == Deleted(events[j].iface);
        assert n[m] == events[m];
      }
    }
  }

  // -------------------------------------------- handlers that leave the store alone

  /** A handler moving on without giving up or taking an in-flight entry. */
  lemma SameHolder(a: Agent, n: Agent, h: Caller, g: Handler)
    requires Exclusive(a) && h in a.handlers
    requires n.handlers == a.handlers[h := g] && n.inflight == a.inflight && g.Held() == a.handlers[h].Held()
    ensures Exclusive(n)
  {}

  /** A change of one handler that touches neither the store nor the events nor the loops. */
  lemma HandlerMoves(a: Agent, n: Agent, h: Caller, g: Handler, exact: set<string>)
    requires Inv(a, exact) && a.store.up
    requires n.store == a.store && n.events == a.events && n.loops == a.loops && n.handlers == a.handlers[h := g]
    requires Exclusive(n)
    requires !g.Stores() && !g.DeleteStoring?
    requires g.PostChecked? ==> NoneOpen(a.events, g.iface) && g.iface !in a.store.mem
    requires g.Deletes() ==> g.iface !in exact
    ensures Inv(n, exact)
  {
    forall k | k in n.handlers ensures HandlerOk(n, k, exact) {
      assert k != h ==> HandlerOk(a, k, exact);
    }
    SteadyAgain(a, n, h, g, exact);
  }

  lemma SteadyAgain(a: Agent, n: Agent, h: Caller, g: Handler, exact: set<string>)
    requires Steady(a, exact)
    requires n.store == a.store && n.events == a.events && n.loops == a.loops && n.handlers == a.handlers[h := g]
    requires (g.PostChecked? ==> g.iface !in a.store.mem) && (g.Deletes() ==> g.iface !in exact)
    ensures Steady(n, exact)
  {}

  /** What the invariant says about one handler. */
  lemma HandlerFacts(a: Agent, h: Caller, exact: set<string>)
    requires Inv(a, exact) && h in a.handlers
    ensures a.store.up && LS.Inv(a.store) && Exclusive(a) && HandlerOk(a, h, exact)
    ensures a.handlers[h].Deletes() ==> a.handlers[h].iface !in exact
  {}

  lemma ArriveKeeps(a: Agent, h: Caller, first: Handler, exact: set<string>)
    requires Inv(a, exact) && (first.PostAccepted? || (first.DeleteAccepted? && first.iface !in exact))
    ensures Inv(DoArrive(a, h, first), exact)
  {
    var n := DoArrive(a, h, first);
    if n != a { HandlerMoves(a, n, h, first, exact); }
  }

  lemma AcquireKeeps(a: Agent, h: Caller, exact: set<string>)
    requires Inv(a, exact)
    ensures Inv(DoAcquire(a, h), exact)
  {
    hide Inv, Exclusive, HandlerOk, LS.Inv;
    if h in a.handlers && (a.handlers[h].PostAccepted? || a.handlers[h].DeleteAccepted?) {
      var n := DoAcquire(a, h);
      HandlerFacts(a, h, exact);
      TakesEntry(a, n, h, n.handlers[h]);
      HandlerMoves(a, n, h, n.handlers[h], exact);
    }
  }

  lemma TakesEntry(a: Agent, n: Agent, h: Caller, g: Handler)
    requires Exclusive(a) && n.handlers == a.handlers[h := g]
    requires if g.Held().None? then n.inflight == a.inflight
             else g.Held().value !in a.inflight && n.inflight == a.inflight + {g.Held().value}
    ensures Exclusive(n)
  {}

  lemma ReleaseKeeps(a: Agent, h: Caller, exact: set<string>)
    requires Inv(a, exact)
    ensures Inv(DoRelease(a, h), exact)
  {
    var n := DoRelease(a, h);
    if n != a { HandlerMoves(a, n, h, Finished, exact); }
  }

  /** A 201 still open means the lease is in memory. */
  lemma MissingMeansNoneOpen(a: Agent, i: string, exact: set<string>)
    requires Inv(a, exact) && a.store.up && i !in a.store.mem
    ensures NoneOpen(a.events, i)
  {
    forall j | 0 <= j < |a.events| && a.events[j].iface == i ensures !Open(a.events, j) {
      if Open(a.events, j) {
        HeldNow(a.store, a.store.durable, i, Want(exact, i, a.events[j].ip));
      }
    }
  }

  lemma CheckKeeps(a: Agent, h: Caller, exact: set<string>)
    requires Inv(a, exact)
    ensures Inv(DoCheck(a, h), exact)
  {
    hide Inv, Exclusive, HandlerOk, LS.Inv;
    if h in a.handlers && (a.handlers[h].PostLocked? || a.handlers[h].DeleteLocked?) {
      var n := DoCheck(a, h);
      var i := a.handlers[h].iface;
      HandlerFacts(a, h, exact);
      if i !in a.store.mem { MissingMeansNoneOpen(a, i, exact); }
      SameHolder(a, n, h, n.handlers[h]);
      HandlerMoves(a, n, h, n.handlers[h], exact);
    }
  }

  // ------------------------------------------------------------ map updates

  /** A Set that moves no exact lease: what handlers and grants rely on stays. */
  lemma SetKeepsHandler(a: Agent, t: Caller, l: Lease, k: Caller, exact: set<string>)
    requires Inv(a, exact) && k in a.handlers && t !in a.store.calls
    requires a.handlers[k].Stores() && (a.handlers[k].iface == l.iface && l.iface in exact ==> Faithful(a, l))
    ensures HandlerOk(Storing(a, t, l), k, exact)
  {
    var g := a.handlers[k];
    assert HandlerOk(a, k, exact);
    var w := Want(exact, g.iface, g.lease.ip);
    if !a.store.calls[k].ReturnedError? {
      HeldNow(a.store, a.store.calls[k].pos + 1, g.iface, w);
      UpdateKeepsHeld(a.store.log, LS.SetLease(l), a.store.calls[k].pos + 1, g.iface, w);
    }
  }

  lemma SetKeepsGrants(a: Agent, t: Caller, l: Lease, exact: set<string>)
    requires Inv(a, exact) && a.store.up && t !in a.store.calls
    requires NoneOpen(a.events, l.iface) || (l.iface in exact ==> Faithful(a, l))
    ensures GrantsStored(Storing(a, t, l), exact)
  {
    var n := Storing(a, t, l);
    forall j | 0 <= j < |n.events| && Open(n.events, j)
      ensures Stored(n.store, n.events[j].iface, Want(exact, n.events[j].iface, n.events[j].ip))
    {
      var i, w := a.events[j].iface, Want(exact, a.events[j].iface, a.events[j].ip);
      HeldNow(a.store, a.store.durable, i, w);
      UpdateKeepsHeld(a.store.log, LS.SetLease(l), a.store.durable, i, w);
    }
  }

  /** A background Set at the stored address. */
  lemma FaithfulSetKeeps(a: Agent, t: Caller, l: Lease, exact: set<string>)
    requires Inv(a, exact) && Unused(a, t) && (l.iface in exact ==> Faithful(a, l))
    ensures Inv(Storing(a, t, l), exact)
  {
    var n := Storing(a, t, l);
    LS.UpdateKeeps(a.store, t, LS.SetLease(l));
    SetKeepsGrants(a, t, l, exact);
    forall k | k in n.handlers ensures HandlerOk(n, k, exact) {
      assert HandlerOk(a, k, exact);
      if n.handlers[k].Stores() { SetKeepsHandler(a, t, l, k, exact); }
    }
    assert Exclusive(n);
    SetKeepsSteady(a, t, l, exact);
  }

  lemma SetKeepsSteady(a: Agent, t: Caller, l: Lease, exact: set<string>)
    requires Steady(a, exact) && Unused(a, t) && (l.iface in exact ==> Faithful(a, l))
    ensures Steady(Storing(a, t, l), exact)
    ensures Faithful(Storing(a, t, l), l)
  {}

  /** Loops come with the address that is stored, and go. */
  lemma LoopsChange(a: Agent, n: Agent, exact: set<string>)
    requires Inv(a, exact) && n == a.(loops := n.loops, toVerify := n.toVerify)
    requires forall r :: r in n.loops && n.loops[r].iface in exact ==> Faithful(a, n.loops[r])
    requires !a.store.up ==> n.loops == map[]
    ensures Inv(n, exact)
  {
    forall k | k in n.handlers ensures HandlerOk(n, k, exact) { assert HandlerOk(a, k, exact); }
  }

  lemma WriteKeepsIdentity(l: Lease, w: Write)
    ensures SameIdentity(Written(l, w), l)
  {
    if w.Acknowledged? { R.AcknowledgeKeepsIdentity(l, w.a, w.at, w.rebound); }
  }

  /** The write of a renewal loop: RENEW and REBIND never change the address, so a
      loop on a lease that is never deleted writes at the stored address. */
  lemma RenewalKeeps(a: Agent, r: nat, t: Caller, w: Write, exact: set<string>)
    requires Inv(a, exact)
    ensures Inv(DoRenewalSet(a, r, t, w), exact)
  {
    if r in a.loops && Unused(a, t) {
      var l := Written(a.loops[r], w);
      WriteKeepsIdentity(a.loops[r], w);
      FaithfulSetKeeps(a, t, l, exact);
      SetIsFaithful(a, t, l);
      LoopsChange(Storing(a, t, l), DoRenewalSet(a, r, t, w), exact);
    }
  }

  lemma SetIsFaithful(a: Agent, t: Caller, l: Lease)
    requires Unused(a, t)
    ensures Faithful(Storing(a, t, l), l)
  {}

  lemma LoopsAreFaithful(a: Agent, exact: set<string>)
    requires Inv(a, exact)
    ensures forall r :: r in a.loops && a.loops[r].iface in exact ==> Faithful(a, a.loops[r])
  {}

  lemma VerifiedIsFaithful(a: Agent, i: string, f: Finding)
    requires LS.Inv(a.store) && a.store.up && i in a.store.mem
    ensures Faithful(a, Verified(a.store.mem[i], f))
  {
    LS.ReplayKeyed(a.store.log);
  }

  lemma StoreIsSound(a: Agent, exact: set<string>)
    requires Inv(a, exact)
    ensures LS.Inv(a.store)
  {}

  lemma VerifyKeeps(a: Agent, i: string, t: Caller, f: Finding, r: nat, exact: set<string>)
    requires Inv(a, exact)
    ensures Inv(DoVerify(a, i, t, f, r), exact)
  {
    hide Inv, Verified, Faithful, LS.Inv;
    if i in a.toVerify && i in a.store.mem && Unused(a, t) && r !in a.loops {
      var n := DoVerify(a, i, t, f, r);
      LoopsAreFaithful(a, exact);
      if f.CheckFailed? {
        LoopsChange(a, n, exact);
      } else {
        var l := Verified(a.store.mem[i], f);
        StoreIsSound(a, exact);
        VerifiedIsFaithful(a, i, f);
        FaithfulSetKeeps(a, t, l, exact);
        SetIsFaithful(a, t, l);
        LoopsAreFaithful(Storing(a, t, l), exact);
        LoopsChange(Storing(a, t, l), n, exact);
      }
    }
  }

  lemma AllocateKeeps(a: Agent, h: Caller, got: Option<Lease>, exact: set<string>)
    requires Inv(a, exact)
    ensures Inv(DoAllocate(a, h, got), exact)
  {
    if h in a.handlers && a.handlers[h].PostChecked? {
      var n := DoAllocate(a, h, got);
      if got.None? {
        SameHolder(a, n, h, n.handlers[h]);
        HandlerMoves(a, n, h, n.handlers[h], exact);
      } else if got.value.iface == a.handlers[h].iface && h !in a.store.calls {
        StoringKeeps(a, h, got.value, exact);
      }
    }
  }

  lemma StoringKeeps(a: Agent, h: Caller, l: Lease, exact: set<string>)
    requires Inv(a, exact) && h in a.handlers && a.handlers[h] == PostChecked(l.iface) && h !in a.store.calls
    ensures Inv(DoAllocate(a, h, Some(l)), exact)
  {
    var n := DoAllocate(a, h, Some(l));
    assert HandlerOk(a, h, exact) && a.handlers[h].Held() == Some(l.iface);
    SameHolder(a, n, h, n.handlers[h]);
    AllocatedLeaseIsHeld(a, h, l, exact);
    LS.UpdateKeeps(a.store, h, LS.SetLease(l));
    SetKeepsGrants(a, h, l, exact);
    forall k | k in n.handlers ensures HandlerOk(n, k, exact) {
      if k != h {
        assert HandlerOk(a, k, exact);
        if n.handlers[k].Stores() { SetKeepsHandler(a, h, l, k, exact); }
      }
    }
    NewLeaseKeepsSteady(a, h, l, exact);
    hide HandlerOk, Steady, GrantsStored, Separated, Exclusive, LS.Inv;
  }

  lemma NewLeaseKeepsSteady(a: Agent, h: Caller, l: Lease, exact: set<string>)
    requires Steady(a, exact) && Exclusive(a) && a.store.up
    requires h in a.handlers && a.handlers[h] == PostChecked(l.iface) && h !in a.store.calls
    ensures Steady(DoAllocate(a, h, Some(l)), exact)
  {
    var n := DoAllocate(a, h, Some(l));
    assert a.handlers[h].Held() == Some(l.iface);
    forall k | k in n.handlers && n.handlers[k].PostChecked? && n.handlers[k].iface in exact
      ensures n.handlers[k].iface !in n.store.mem
    {
      assert n.handlers[k].Held() == Some(n.handlers[k].iface) && k != h;
    }
  }

  lemma AllocatedLeaseIsHeld(a: Agent, h: Caller, l: Lease, exact: set<string>)
    requires LS.Inv(a.store) && a.store.up && h !in a.store.calls
    ensures var s := LS.DoUpdate(a.store, h, LS.SetLease(l));
            s.calls[h] == LS.Queued(|a.store.log|) &&
            HeldFrom(s.log, |a.store.log| + 1, l.iface, Want(exact, l.iface, l.ip))
  {
    var s := LS.DoUpdate(a.store, h, LS.SetLease(l));
    LS.ReplayAppend(a.store.log, LS.SetLease(l));
    assert s.log[..|s.log|] == s.log;
  }

  lemma StartLoopKeeps(a: Agent, h: Caller, r: nat, exact: set<string>)
    requires Inv(a, exact)
    ensures Inv(DoStartLoop(a, h, r), exact)
  {
    if h in a.handlers && a.handlers[h].PostStoring? && h in a.store.calls && a.store.calls[h].ReturnedNil? &&
        r !in a.loops {
      var l := a.handlers[h].lease;
      var n := DoStartLoop(a, h, r);
      var mid := a.(handlers := n.handlers);
      HandlerFacts(a, h, exact);
      HeldNow(a.store, a.store.calls[h].pos + 1, l.iface, Want(exact, l.iface, l.ip));
      StartedKeeps(a, mid, h, exact);
      hide Inv, HandlerOk, LS.Inv, HeldFrom;
      LoopsAreFaithful(mid, exact);
      LoopsChange(mid, n, exact);
    }
  }

  lemma StartedKeeps(a: Agent, n: Agent, h: Caller, exact: set<string>)
    requires Inv(a, exact) && h in a.handlers && a.handlers[h].PostStoring?
    requires h in a.store.calls && a.store.calls[h].ReturnedNil?
    requires n == a.(handlers := a.handlers[h := PostStarted(a.handlers[h].iface, a.handlers[h].lease)])
    ensures Inv(n, exact)
  {
    SameHolder(a, n, h, n.handlers[h]);
    SteadyAgain(a, n, h, n.handlers[h], exact);
    forall k | k in n.handlers ensures HandlerOk(n, k, exact) {
      assert HandlerOk(a, k, exact);
    }
    hide HandlerOk, Exclusive, Steady, LS.Inv;
  }

  lemma RemoveKeeps(a: Agent, h: Caller, exact: set<string>)
    requires Inv(a, exact)
    ensures Inv(DoRemove(a, h), exact)
  {
    if h in a.handlers && a.handlers[h].DeleteFound? && h !in a.store.calls {
      var n := DoRemove(a, h);
      var i := a.handlers[h].iface;
      LS.UpdateKeeps(a.store, h, LS.DeleteLease(i));
      SameHolder(a, n, h, n.handlers[h]);
      forall k | k in n.handlers ensures HandlerOk(n, k, exact) {
        if k != h { RemoveKeepsHandler(a, h, k, exact); }
      }
      RemoveKeepsGrants(a, h, exact);
      SeparatedGrows(a.events, Deleted(i));
      RemoveKeepsSteady(a, h, exact);
      hide HandlerOk, Steady, GrantsStored, Separated, Exclusive, LS.Inv;
    }
  }

  lemma RemoveKeepsSteady(a: Agent, h: Caller, exact: set<string>)
    requires Steady(a, exact) && h in a.handlers && a.handlers[h].DeleteFound? && h !in a.store.calls
    ensures Steady(DoRemove(a, h), exact)
  {}

  lemma RemoveKeepsHandler(a: Agent, h: Caller, k: Caller, exact: set<string>)
    requires Inv(a, exact) && h in a.handlers && a.handlers[h].DeleteFound? && h !in a.store.calls
    requires k in a.handlers && k != h
    ensures HandlerOk(DoRemove(a, h), k, exact)
  {
    var i, g := a.handlers[h].iface, a.handlers[k];
    assert HandlerOk(a, k, exact) && a.handlers[h].Held() == Some(i);
    if g.PostChecked? || g.Stores() {
      assert g.Held() == Some(g.iface) && g.iface != i;
      NoneOpenKept(a.events, Deleted(i), g.iface);
    }
    if g.Stores() && !a.store.calls[k].ReturnedError? {
      UpdateKeepsHeld(a.store.log, LS.DeleteLease(i), a.store.calls[k].pos + 1, g.iface,
          Want(exact, g.iface, g.lease.ip));
    }
  }

  lemma RemoveKeepsGrants(a: Agent, h: Caller, exact: set<string>)
    requires Inv(a, exact) && h in a.handlers && a.handlers[h].DeleteFound? && h !in a.store.calls
    ensures GrantsStored(DoRemove(a, h), exact)
  {
    var n, i := DoRemove(a, h), a.handlers[h].iface;
    forall j | 0 <= j < |n.events| && Open(n.events, j)
      ensures Stored(n.store, n.events[j].iface, Want(exact, n.events[j].iface, n.events[j].ip))
    {
      OpenGrows(a.events, Deleted(i), j);
      var w := Want(exact, a.events[j].iface, a.events[j].ip);
      UpdateKeepsHeld(a.store.log, LS.DeleteLease(i), a.store.durable, a.events[j].iface, w);
    }
  }

  // ---------------------------------------------------------------- answers

  lemma AnswerKeeps(a: Agent, h: Caller, exact: set<string>)
    requires Inv(a, exact)
    ensures Inv(DoAnswer(a, h), exact)
  {
    if h in a.handlers && h in a.store.calls {
      var g := a.handlers[h];
      if g.PostStarted? {
        GrantKeeps(a, h, exact);
      } else if g.PostStoring? || g.DeleteStoring? {
        var n := DoAnswer(a, h);
        if a.store.calls[h].ReturnedError? || (g.DeleteStoring? && a.store.calls[h].ReturnedNil?) {
          SameHolder(a, n, h, n.handlers[h]);
          HandlerMoves(a, n, h, n.handlers[h], exact);
        }
      }
    }
  }

  lemma GrantKeeps(a: Agent, h: Caller, exact: set<string>)
    requires Inv(a, exact) && h in a.handlers && a.handlers[h].PostStarted? && h in a.store.calls
    ensures Inv(DoAnswer(a, h), exact)
  {
    var n := DoAnswer(a, h);
    var i, ip := a.handlers[h].iface, a.handlers[h].lease.ip;
    var e := Answered201(i, ip);
    assert HandlerOk(a, h, exact) && a.handlers[h].Held() == Some(i) && LS.CallOk(a.store, h);
    SameHolder(a, n, h, n.handlers[h]);
    SeparatedGrows(a.events, e);
    forall k | k in n.handlers ensures HandlerOk(n, k, exact) {
      if k != h {
        assert HandlerOk(a, k, exact);
        var g := n.handlers[k];
        if g.PostChecked? || g.Stores() {
          assert g.Held() == Some(g.iface) && g.iface != i;
          NoneOpenKept(a.events, e, g.iface);
        }
      }
    }
    forall j | 0 <= j < |n.events| && Open(n.events, j)
      ensures Stored(n.store, n.events[j].iface, Want(exact, n.events[j].iface, n.events[j].ip))
    {
      if j < |a.events| { OpenGrows(a.events, e, j); }
    }
    GrantKeepsSteady(a, h, exact);
    hide HandlerOk, Steady, Exclusive, Separated;
  }

  lemma GrantKeepsSteady(a: Agent, h: Caller, exact: set<string>)
    requires Steady(a, exact) && h in a.handlers && a.handlers[h].PostStarted? && h in a.store.calls
    ensures Steady(DoAnswer(a, h), exact)
  {}

  // ---------------------------------------------------- saves, crash, restart

  lemma CrashKeeps(a: Agent, exact: set<string>)
    requires Inv(a, exact)
    ensures Inv(DoStore(a, LS.Crash), exact)
  {
    var n := DoStore(a, LS.Crash);
    LS.StepKeeps(a.store, LS.Crash);
    forall j | 0 <= j < |a.events| && Open(a.events, j)
      ensures Stored(n.store, a.events[j].iface, Want(exact, a.events[j].iface, a.events[j].ip))
    {
      StoredSurvivesCrash(a.store, a.events[j].iface, Want(exact, a.events[j].iface, a.events[j].ip));
    }
  }

  lemma RestartKeeps(a: Agent, ok: bool, exact: set<string>)
    requires Inv(a, exact)
    ensures Inv(DoStore(a, LS.Restart(ok)), exact)
  {
    var n := DoStore(a, LS.Restart(ok));
    LS.StepKeeps(a.store, LS.Restart(ok));
    if !a.store.up {
      forall j | 0 <= j < |a.events| && Open(a.events, j)
        ensures Stored(n.store, a.events[j].iface, Want(exact, a.events[j].iface, a.events[j].ip))
      {
        StoredStays(a.store, n.store, a.events[j].iface, Want(exact, a.events[j].iface, a.events[j].ip));
      }
    }
  }

  lemma SaveKeeps(a: Agent, step: LS.Step, exact: set<string>)
    requires Inv(a, exact) && !step.Update? && !step.Crash? && !step.Restart?
    ensures Inv(DoStore(a, step), exact)
  {
    var n := DoStore(a, step);
    LS.StepKeeps(a.store, step);
    SavingKeepsLog(a.store, step);
    hide LS.Do, LS.Inv, Stored;
    forall k | k in n.handlers ensures HandlerOk(n, k, exact) {
      assert HandlerOk(a, k, exact);
      SaveKeepsHandler(a, n.store, k, exact);
    }
    hide HandlerOk;
    forall j | 0 <= j < |a.events| && Open(a.events, j)
      ensures Stored(n.store, a.events[j].iface, Want(exact, a.events[j].iface, a.events[j].ip))
    {
      StoredStays(a.store, n.store, a.events[j].iface, Want(exact, a.events[j].iface, a.events[j].ip));
    }
    hide Open;
    assert Exclusive(n);
  }

  lemma SaveKeepsHandler(a: Agent, s: LS.Store, k: Caller, exact: set<string>)
    requires k in a.handlers && HandlerOk(a, k, exact) && s.log == a.store.log
    requires k in a.store.calls ==> k in s.calls && GoesOn(a.store.calls[k], s.calls[k])
    ensures HandlerOk(a.(store := s), k, exact)
  {}

  /** Every step keeps mutual exclusion, the stored grants and, for interfaces that
      are never deleted, the granted addresses. */
  lemma StepKeeps(a: Agent, step: Step, exact: set<string>)
    requires Inv(a, exact)
    requires step.Delete? ==> step.iface !in exact
    ensures Inv(Do(a, step), exact)
  {
    hide Inv;
    match step
    case Post(h, i) => ArriveKeeps(a, h, PostAccepted(i), exact);
    case Delete(h, i) => ArriveKeeps(a, h, DeleteAccepted(i), exact);
    case Acquire(h) => AcquireKeeps(a, h, exact);
    case Check(h) => CheckKeeps(a, h, exact);
    case Allocate(h, got) => AllocateKeeps(a, h, got, exact);
    case StartLoop(h, r) => StartLoopKeeps(a, h, r, exact);
    case Remove(h) => RemoveKeeps(a, h, exact);
    case Answer(h) => AnswerKeeps(a, h, exact);
    case Release(h) => ReleaseKeeps(a, h, exact);
    case RenewalSet(r, t, w) => RenewalKeeps(a, r, t, w, exact);
    case EndLoop(r) => EndLoopKeeps(a, r, exact);
    case Verify(i, t, f, r) => VerifyKeeps(a, i, t, f, r, exact);
    case StoreStep(st) =>
      match st {
        case Update(_, _) =>
        case Crash => CrashKeeps(a, exact);
        case Restart(ok) => RestartKeeps(a, ok, exact);
        case _ => SaveKeeps(a, st, exact);
      }
  }

  lemma EndLoopKeeps(a: Agent, r: nat, exact: set<string>)
    requires Inv(a, exact)
    ensures Inv(Do(a, EndLoop(r)), exact)
  {
    LoopsChange(a, Do(a, EndLoop(r)), exact);
  }

  // ------------------------------------------------ requests and their answers

  /** Handlers work on the interface that was asked for, and a 201 is on record. */
  ghost predicate Answers(a: Agent) {
    && (forall h :: h in a.handlers ==>
          h in a.requests && (a.handlers[h].Finished? || a.handlers[h].iface == a.requests[h]))
    && (forall h :: h in a.replies && a.replies[h].Created? ==>
          h in a.requests && Answered201(a.requests[h], a.replies[h].ip) in a.events)
  }

  lemma AnswersKept(a: Agent, step: Step)
    requires Answers(a)
    ensures Answers(Do(a, step))
  {
    hide Answers, DoArrive, DoAcquire, DoCheck, DoAllocate, DoStartLoop, DoRemove, DoAnswer, DoRelease,
        DoRenewalSet, DoVerify, DoStore;
    match step
    case Post(h, i) => ArrivalAnswers(a, h, PostAccepted(i));
    case Delete(h, i) => ArrivalAnswers(a, h, DeleteAccepted(i));
    case Acquire(h) => EarlyAnswers(a, h);
    case Check(h) => EarlyAnswers(a, h);
    case Allocate(h, got) => AllocationAnswers(a, h, got);
    case StartLoop(h, r) => LateAnswers(a, h, r);
    case Remove(h) => LateAnswers(a, h, 0);
    case Answer(h) => AnswerAnswers(a, h);
    case Release(h) => LateAnswers(a, h, 0);
    case RenewalSet(r, t, w) => RenewalAnswers(a, r, t, w);
    case EndLoop(r) => SameHistory(a, Do(a, step));
    case Verify(i, t, f, r) => VerifyAnswers(a, i, t, f, r);
    case StoreStep(st) => StoreAnswers(a, st);
  }

  lemma ArrivalAnswers(a: Agent, h: Caller, first: Handler)
    requires Answers(a) && !first.Finished?
    ensures Answers(DoArrive(a, h, first))
  {}

  lemma SameHistory(a: Agent, n: Agent)
    requires Answers(a) && n.requests == a.requests && n.replies == a.replies && n.events == a.events
    requires n.handlers == a.handlers || n.handlers == map[]
    ensures Answers(n)
  {}

  lemma RenewalAnswers(a: Agent, r: nat, t: Caller, w: Write)
    requires Answers(a)
    ensures Answers(DoRenewalSet(a, r, t, w))
  {
    hide Answers, LS.DoUpdate, Written, Unused;
    SameHistory(a, DoRenewalSet(a, r, t, w));
  }

  lemma VerifyAnswers(a: Agent, i: string, t: Caller, f: Finding, r: nat)
    requires Answers(a)
    ensures Answers(DoVerify(a, i, t, f, r))
  {
    hide Answers, LS.DoUpdate, Verified, Unused;
    SameHistory(a, DoVerify(a, i, t, f, r));
  }

  lemma StoreAnswers(a: Agent, step: LS.Step)
    requires Answers(a)
    ensures Answers(DoStore(a, step))
  {
    hide Answers, LS.Do;
    SameHistory(a, DoStore(a, step));
  }

  lemma LateAnswers(a: Agent, h: Caller, r: nat)
    requires Answers(a)
    ensures Answers(DoStartLoop(a, h, r)) && Answers(DoRemove(a, h)) && Answers(DoRelease(a, h))
  {
    hide Answers, LS.DoUpdate;
    if h in a.handlers {
      HandlerAnswers(a, DoStartLoop(a, h, r), h);
      HandlerAnswers(a, DoRemove(a, h), h);
      HandlerAnswers(a, DoRelease(a, h), h);
    }
  }

  lemma HandlersAreRequested(a: Agent, h: Caller)
    requires Answers(a) && h in a.handlers
    ensures h in a.requests
  {}

  lemma EarlyAnswers(a: Agent, h: Caller)
    requires Answers(a)
    ensures Answers(DoAcquire(a, h)) && Answers(DoCheck(a, h))
  {
    hide Answers;
    if h in a.handlers { HandlersAreRequested(a, h); }
    HandlerAnswers(a, DoAcquire(a, h), h);
    HandlerAnswers(a, DoCheck(a, h), h);
  }

  lemma AllocationAnswers(a: Agent, h: Caller, got: Option<Lease>)
    requires Answers(a)
    ensures Answers(DoAllocate(a, h, got))
  {
    hide Answers, LS.DoUpdate;
    if h in a.handlers { HandlersAreRequested(a, h); }
    HandlerAnswers(a, DoAllocate(a, h, got), h);
  }

  lemma HandlerAnswers(a: Agent, n: Agent, h: Caller)
    requires Answers(a) && n.requests == a.requests && a.events <= n.events
    requires n.handlers == a.handlers ||
             (h in a.handlers && h in n.handlers && n.handlers == a.handlers[h := n.handlers[h]] &&
              (n.handlers[h].Finished? || (!a.handlers[h].Finished? && n.handlers[h].iface == a.handlers[h].iface)))
    requires n.replies == a.replies ||
             (h in n.replies && h in a.requests && n.replies == a.replies[h := n.replies[h]] &&
              (n.replies[h].Created? ==> Answered201(a.requests[h], n.replies[h].ip) in n.events))
    ensures Answers(n)
  {
    forall k | k in n.replies && n.replies[k].Created?
      ensures k in n.requests && Answered201(n.requests[k], n.replies[k].ip) in n.events
    {
      if k in a.replies && n.replies[k] == a.replies[k] {
        var e := Answered201(a.requests[k], a.replies[k].ip);
        var j :| 0 <= j < |a.events| && a.events[j] == e;
        assert n.events[j] == e;
      }
    }
  }

  lemma AnswerAnswers(a: Agent, h: Caller)
    requires Answers(a)
    ensures Answers(DoAnswer(a, h))
  {
    hide Answers;
    if h in a.handlers {
      HandlersAreRequested(a, h);
      if a.handlers[h].PostStarted? && h in a.store.calls {
        GrantAnswers(a, h);
      } else {
        HandlerAnswers(a, DoAnswer(a, h), h);
      }
    }
  }

  lemma GrantAnswers(a: Agent, h: Caller)
    requires Answers(a) && h in a.handlers && a.handlers[h].PostStarted? && h in a.store.calls
    ensures Answers(DoAnswer(a, h))
  {
    var e := Answered201(a.handlers[h].iface, a.handlers[h].lease.ip);
    assert (a.events + [e])[|a.events|] == e;
    assert h in a.requests && a.handlers[h].iface == a.requests[h];
    hide Answers;
    HandlerAnswers(a, DoAnswer(a, h), h);
  }

  // ---------------------------------------------------------------- history

  predicate Grows(a: Agent, n: Agent) { a.events <= n.events && n.requests == a.requests }

  lemma PostsGrow(a: Agent, h: Caller, got: Option<Lease>)
    ensures Grows(a, DoAcquire(a, h)) && Grows(a, DoCheck(a, h)) && Grows(a, DoAllocate(a, h, got))
  {
    hide LS.DoUpdate;
  }

  lemma EndsGrow(a: Agent, h: Caller, r: nat)
    ensures Grows(a, DoStartLoop(a, h, r)) && Grows(a, DoRemove(a, h)) && Grows(a, DoRelease(a, h))
  {
    hide LS.DoUpdate;
  }

  lemma AnswerGrows(a: Agent, h: Caller)
    ensures Grows(a, DoAnswer(a, h))
  {}

  lemma BackgroundGrows(a: Agent, i: string, t: Caller, f: Finding, r: nat, w: Write)
    ensures Grows(a, DoRenewalSet(a, r, t, w)) && Grows(a, DoVerify(a, i, t, f, r))
  {
    hide LS.DoUpdate, Written, Verified, Unused;
  }

  lemma StoreGrows(a: Agent, step: LS.Step)
    ensures Grows(a, DoStore(a, step))
  {
    hide LS.Do;
  }

  /** Events are only added, and requests only by arrivals. */
  lemma HistoryGrows(a: Agent, step: Step)
    requires !step.Post? && !step.Delete?
    ensures Grows(a, Do(a, step))
  {
    hide DoAcquire, DoCheck, DoAllocate, DoStartLoop, DoRemove, DoAnswer, DoRelease, DoRenewalSet, DoVerify, DoStore;
    match step
    case Acquire(h) => PostsGrow(a, h, None);
    case Check(h) => PostsGrow(a, h, None);
    case Allocate(h, got) => PostsGrow(a, h, got);
    case StartLoop(h, r) => EndsGrow(a, h, r);
    case Remove(h) => EndsGrow(a, h, 0);
    case Release(h) => EndsGrow(a, h, 0);
    case Answer(h) => AnswerGrows(a, h);
    case RenewalSet(r, t, w) => BackgroundGrows(a, "", t, CheckFailed, r, w);
    case EndLoop(_) =>
    case Verify(i, t, f, r) => BackgroundGrows(a, i, t, f, r, MarkedStale);
    case StoreStep(st) => StoreGrows(a, st);
  }

  // ----------------------------------------------------------- main results

  lemma {:induction false} RunKeeps(a: Agent, steps: seq<Step>)
    requires Inv(a, {})
    ensures Inv(Run(a, steps), {})
    decreases |steps|
  {
    if steps == [] {
      assert Run(a, steps) == a;
    } else {
      RunKeeps(a, steps[..|steps| - 1]);
      StepKeeps(Run(a, steps[..|steps| - 1]), steps[|steps| - 1], {});
    }
  }

  /** For every interleaving of handlers, renewal loops, saves, crashes, restarts and
      start-up verification: at most one operation per interface holds the in-flight
      entry, and two 201 answers for one interface have a store deletion between them. */
  lemma TwoGrantsNeedADeletion(steps: seq<Step>)
    ensures Exclusive(Run(FRESH, steps))
    ensures Separated(Run(FRESH, steps).events)
  {
    RunKeeps(FRESH, steps);
  }

  /** A granted lease is in the state file, and in memory while the agent is up. */
  lemma OpenGrantIsHeld(a: Agent, j: int, exact: set<string>)
    requires Inv(a, exact) && Open(a.events, j)
    ensures var i := a.events[j].iface;
            var want := Want(exact, i, a.events[j].ip);
            && (a.store.up ==> Has(a.store.mem, i, want))
            && a.store.file.Whole? && Has(a.store.file.leases, i, want)
  {
    var i := a.events[j].iface;
    var want := Want(exact, i, a.events[j].ip);
    assert Stored(a.store, i, want);
    assert a.store.log[..|a.store.log|] == a.store.log;
    assert Has(LS.Replay(a.store.log[..|a.store.log|]), i, want);
    assert Has(LS.Replay(a.store.log[..a.store.durable]), i, want);
  }

  /** After a 201 and until a deletion of that interface, the lease is stored,
      in the state file as well as in memory. */
  lemma GrantedLeaseIsStored(steps: seq<Step>, j: int)
    requires Open(Run(FRESH, steps).events, j)
    ensures var a := Run(FRESH, steps);
            && (a.store.up ==> a.events[j].iface in a.store.mem)
            && a.store.file.Whole? && a.events[j].iface in a.store.file.leases
  {
    RunKeeps(FRESH, steps);
    OpenGrantIsHeld(Run(FRESH, steps), j, {});
  }

  // ------------------------------------------------------- what answers mean

  /** The step answers h. */
  predicate AnswersNow(a: Agent, n: Agent, h: Caller) {
    h in n.replies && (h !in a.replies || n.replies[h] != a.replies[h])
  }

  /** Why a request of h gets this answer, in terms of the agent at that moment. */
  predicate Because(a: Agent, h: Caller, r: Reply)
    requires h in a.handlers
  {
    var g, s := a.handlers[h], a.store;
    match r
    case Conflict =>
      || ((g.PostAccepted? || g.DeleteAccepted?) && g.iface in a.inflight)
      || (g.PostLocked? && g.iface in s.mem)
    case NotFound => g.DeleteLocked? && g.iface !in s.mem
    case Unavailable => g.PostChecked? || (g.PostStoring? && h in s.calls && s.calls[h].ReturnedError?)
    case Created(ip) => g.PostStarted? && g.lease.ip == ip && h in s.calls
    case NoContent => g.DeleteStoring? && h in s.calls && s.calls[h].ReturnedNil?
    case ServerError => g.DeleteStoring? && h in s.calls && s.calls[h].ReturnedError?
  }

  lemma AcquireAnswers(a: Agent, x: Caller, h: Caller)
    requires AnswersNow(a, DoAcquire(a, x), h)
    ensures h == x && h in a.handlers && Because(a, h, DoAcquire(a, x).replies[h])
  {}

  lemma CheckAnswers(a: Agent, x: Caller, h: Caller)
    requires AnswersNow(a, DoCheck(a, x), h)
    ensures h == x && h in a.handlers && Because(a, h, DoCheck(a, x).replies[h])
  {}

  lemma AllocateAnswers(a: Agent, x: Caller, got: Option<Lease>, h: Caller)
    requires AnswersNow(a, DoAllocate(a, x, got), h)
    ensures h == x && h in a.handlers && Because(a, h, DoAllocate(a, x, got).replies[h])
  {
    hide LS.DoUpdate;
  }

  lemma StoringAnswers(a: Agent, x: Caller, h: Caller)
    requires AnswersNow(a, DoAnswer(a, x), h)
    ensures h == x && h in a.handlers && Because(a, h, DoAnswer(a, x).replies[h])
  {}

  lemma OthersAnswerNothing(a: Agent, step: Step, h: Caller)
    requires !step.Acquire? && !step.Check? && !step.Allocate? && !step.Answer?
    ensures !AnswersNow(a, Do(a, step), h)
  {
    hide LS.Do, LS.DoUpdate, Written, Verified;
    assert Do(a, step).replies == a.replies;
  }

  /** Over every run: each answer is given for its reason. In particular a 201 carries the
      address of a lease that is in the state file, and a 204 means that the deletion is. */
  lemma RepliesMean(steps: seq<Step>, step: Step, h: Caller)
    requires AnswersNow(Run(FRESH, steps), Do(Run(FRESH, steps), step), h)
    ensures var a := Run(FRESH, steps);
            var r := Do(a, step).replies[h];
            && h in a.handlers && Because(a, h, r)
            && (r.Created? ==> Stored(a.store, a.handlers[h].iface, None))
            && (r.NoContent? ==>
                  && h in a.store.calls && !a.store.calls[h].ReturnedError?
                  && a.store.calls[h].pos < a.store.durable
                  && Logged(a.store, a.store.calls[h].pos, LS.DeleteLease(a.handlers[h].iface)))
  {
    var a := Run(FRESH, steps);
    RunKeeps(FRESH, steps);
    hide Run;
    StepAnswers(a, step, h);
    var r := Do(a, step).replies[h];
    HandlerFacts(a, h, {});
    if r.Created? || r.NoContent? { assert LS.CallOk(a.store, h); }
    hide Do, Because;
  }

  lemma StepAnswers(a: Agent, step: Step, h: Caller)
    requires AnswersNow(a, Do(a, step), h)
    ensures h in a.handlers && Because(a, h, Do(a, step).replies[h])
  {
    match step
    case Acquire(x) => AcquireAnswers(a, x, h);
    case Check(x) => CheckAnswers(a, x, h);
    case Allocate(x, got) => AllocateAnswers(a, x, got, h);
    case Answer(x) => StoringAnswers(a, x, h);
    case _ => OthersAnswerNothing(a, step, h);
  }

  /** And none is withheld: an operation that has its outcome is answered by the next step of its handler. */
  lemma HandlersDoAnswer(a: Agent, h: Caller)
    requires h in a.handlers && h in a.store.calls
    ensures var g, c, n := a.handlers[h], a.store.calls[h], DoAnswer(a, h);
            && (g.PostStarted? ==> n.replies == a.replies[h := Created(g.lease.ip)])
            && (g.PostStoring? && c.ReturnedError? ==> n.replies == a.replies[h := Unavailable])
            && (g.DeleteStoring? && c.ReturnedNil? ==> n.replies == a.replies[h := NoContent])
            && (g.DeleteStoring? && c.ReturnedError? ==> n.replies == a.replies[h := ServerError])
            && (n.replies != a.replies ==> n.handlers[h] == Releasing(g.iface))
  {}

  // ------------------------------------------------- loops, start-up, entries

  /** An allocation whose save has returned nil starts a loop on its lease, and no other step of it does. */
  lemma GrantStartsALoop(a: Agent, h: Caller, r: nat)
    requires h in a.handlers && a.handlers[h].PostStoring? && h in a.store.calls && r !in a.loops
    ensures var n := Do(a, StartLoop(h, r));
            if a.store.calls[h].ReturnedNil?
            then n.loops == a.loops[r := a.handlers[h].lease] && n.handlers[h].PostStarted? && n.store == a.store
            else n == a
  {}

  /** A loop's write is what the store then holds and what the loop goes on with: marked Stale
      and otherwise as it was, or Active for the acknowledged time. */
  lemma RenewalWrites(a: Agent, r: nat, t: Caller, w: Write)
    requires r in a.loops && Unused(a, t)
    ensures var n, l := Do(a, RenewalSet(r, t, w)), a.loops[r];
            && l.iface in n.store.mem && n.loops == a.loops[r := n.store.mem[l.iface]]
            && n.store.mem == a.store.mem[l.iface := n.store.mem[l.iface]]
            && var m := n.store.mem[l.iface];
               && (w.MarkedStale? ==> m == l.(status := Stale))
               && (w.Acknowledged? && w.a.Ack? ==>
                     && m.status == Active && m.expiresAt == w.at + w.a.leaseTime && m.leaseTime == w.a.leaseTime
                     && m.renewalCount == l.renewalCount + 1 && SameIdentity(m, l)
                     && m.serverIP == if w.rebound then w.a.server else l.serverIP)
  {
    WriteKeepsIdentity(a.loops[r], w);
  }

  /** After a restart every stored lease is to be verified, and requests wait for that. */
  lemma StartUpComesFirst(a: Agent, ok: bool, h: Caller, first: Handler)
    requires !a.store.up && !first.Finished?
    ensures var n := Do(a, StoreStep(LS.Restart(ok)));
            n.store.up ==> n.toVerify == n.store.mem.Keys && (n.toVerify != {} ==> DoArrive(n, h, first) == n)
  {}

  /** Each visit of start-up verification records its finding, and starts a loop on the lease it
      has stored exactly when it could renew it. */
  lemma VerificationStartsLoops(a: Agent, i: string, t: Caller, f: Finding, r: nat)
    requires i in a.toVerify && i in a.store.mem && a.store.mem[i].iface == i && Unused(a, t) && r !in a.loops
    ensures var n := Do(a, Verify(i, t, f, r));
            && n.toVerify == a.toVerify - {i} && i in n.store.mem
            && (f.CheckFailed? ==> n.store == a.store)
            && (f.Renewed? ==> n.loops == a.loops[r := n.store.mem[i]] && n.store.mem[i].status == Active)
            && (!f.Renewed? ==> n.loops == a.loops)
            && (f.InterfaceMissing? || f.RenewalFailed? ==> n.store.mem[i].status == Stale)
  {}

  /** Every in-flight entry belongs to a handler that will give it back. */
  ghost predicate Tight(a: Agent) {
    forall i :: i in a.inflight ==> exists h :: h in a.handlers && a.handlers[h].Held() == Some(i)
  }

  lemma TightMove(a: Agent, n: Agent, h: Caller, g: Handler)
    requires Tight(a) && n.handlers == a.handlers[h := g]
    requires h !in a.handlers || a.handlers[h].Held() == g.Held() || a.handlers[h].Held().None? ||
             n.inflight == a.inflight - {a.handlers[h].Held().value}
    requires n.inflight <= a.inflight + (if g.Held().Some? then {g.Held().value} else {})
    ensures Tight(n)
  {
    forall i | i in n.inflight ensures exists k :: k in n.handlers && n.handlers[k].Held() == Some(i) {
      if g.Held() == Some(i) {
        assert n.handlers[h].Held() == Some(i);
      } else {
        var k :| k in a.handlers && a.handlers[k].Held() == Some(i);
        assert k != h && n.handlers[k].Held() == Some(i);
      }
    }
  }

  lemma ArrivalStaysTight(a: Agent, h: Caller, first: Handler)
    requires Tight(a) && !first.Finished? && first.Held().None?
    ensures Tight(DoArrive(a, h, first))
  {
    hide Tight;
    if Arrives(a, h) { TightMove(a, DoArrive(a, h, first), h, first); }
  }

  predicate Arrives(a: Agent, h: Caller) {
    a.store.up && a.toVerify == {} && h !in a.requests && h !in a.handlers && h !in a.store.calls
  }

  lemma EarlyStaysTight(a: Agent, h: Caller)
    requires Tight(a)
    ensures Tight(DoAcquire(a, h)) && Tight(DoCheck(a, h))
  {
    hide Tight;
    if h in a.handlers {
      var g := a.handlers[h];
      if g.PostAccepted? || g.DeleteAccepted? { TightMove(a, DoAcquire(a, h), h, DoAcquire(a, h).handlers[h]); }
      if g.PostLocked? || g.DeleteLocked? { TightMove(a, DoCheck(a, h), h, DoCheck(a, h).handlers[h]); }
    }
  }

  lemma StoringStaysTight(a: Agent, h: Caller, got: Option<Lease>)
    requires Tight(a)
    ensures Tight(DoAllocate(a, h, got)) && Tight(DoRemove(a, h))
  {
    hide Tight, LS.DoUpdate;
    if h in a.handlers {
      var g := a.handlers[h];
      if g.PostChecked? { TightMove(a, DoAllocate(a, h, got), h, DoAllocate(a, h, got).handlers[h]); }
      if g.DeleteFound? { TightMove(a, DoRemove(a, h), h, DoRemove(a, h).handlers[h]); }
    }
  }

  lemma EndingStaysTight(a: Agent, h: Caller, r: nat)
    requires Tight(a)
    ensures Tight(DoStartLoop(a, h, r)) && Tight(DoAnswer(a, h)) && Tight(DoRelease(a, h))
  {
    hide Tight;
    if h in a.handlers {
      var g := a.handlers[h];
      if g.PostStoring? { TightMove(a, DoStartLoop(a, h, r), h, DoStartLoop(a, h, r).handlers[h]); }
      if g.Releasing? { TightMove(a, DoRelease(a, h), h, Finished); }
      TightMove(a, DoAnswer(a, h), h, DoAnswer(a, h).handlers[h]);
    }
  }

  lemma SameEntries(a: Agent, n: Agent)
    requires Tight(a) && ((n.handlers == a.handlers && n.inflight == a.inflight) || n.inflight == {})
    ensures Tight(n)
  {}

  lemma BackgroundStaysTight(a: Agent, i: string, t: Caller, f: Finding, r: nat, w: Write)
    requires Tight(a)
    ensures Tight(DoRenewalSet(a, r, t, w)) && Tight(DoVerify(a, i, t, f, r))
  {
    hide Tight, LS.DoUpdate, Written, Verified, Unused;
    SameEntries(a, DoRenewalSet(a, r, t, w));
    SameEntries(a, DoVerify(a, i, t, f, r));
  }

  lemma StoreStaysTight(a: Agent, step: LS.Step)
    requires Tight(a)
    ensures Tight(DoStore(a, step))
  {
    hide Tight, LS.Do;
    SameEntries(a, DoStore(a, step));
  }

  lemma StepStaysTight(a: Agent, step: Step)
    requires Tight(a)
    ensures Tight(Do(a, step))
  {
    hide Tight, DoArrive, DoAcquire, DoCheck, DoAllocate, DoStartLoop, DoRemove, DoAnswer, DoRelease;
    hide DoRenewalSet, DoVerify, DoStore;
    match step
    case Post(h, i) => ArrivalStaysTight(a, h, PostAccepted(i));
    case Delete(h, i) => ArrivalStaysTight(a, h, DeleteAccepted(i));
    case Acquire(h) => EarlyStaysTight(a, h);
    case Check(h) => EarlyStaysTight(a, h);
    case Allocate(h, got) => StoringStaysTight(a, h, got);
    case Remove(h) => StoringStaysTight(a, h, None);
    case StartLoop(h, r) => EndingStaysTight(a, h, r);
    case Answer(h) => EndingStaysTight(a, h, 0);
    case Release(h) => EndingStaysTight(a, h, 0);
    case RenewalSet(r, t, w) => BackgroundStaysTight(a, "", t, CheckFailed, r, w);
    case Verify(i, t, f, r) => BackgroundStaysTight(a, i, t, f, r, MarkedStale);
    case EndLoop(r) => SameEntries(a, Do(a, step));
    case StoreStep(st) => StoreStaysTight(a, st);
  }

  /** Over every run: an interface is in flight exactly while some handler holds it, so no entry is left behind. */
  lemma {:induction false} EntriesAreHeld(steps: seq<Step>, i: string)
    ensures var a := Run(FRESH, steps);
            i in a.inflight <==> exists h :: h in a.handlers && a.handlers[h].Held() == Some(i)
  {
    RunStaysTight(steps);
    TwoGrantsNeedADeletion(steps);
  }

  lemma {:induction false} RunStaysTight(steps: seq<Step>)
    ensures Tight(Run(FRESH, steps))
    decreases |steps|
  {
    if steps == [] {
    } else {
      RunStaysTight(steps[..|steps| - 1]);
      hide Tight, Do;
      StepStaysTight(Run(FRESH, steps[..|steps| - 1]), steps[|steps| - 1]);
    }
  }

  /** How a request gets on that is not answered yet. */
  lemma HandlersGoOn(a: Agent, h: Caller)
    requires h in a.handlers && !a.handlers[h].Finished?
    ensures var g, i := a.handlers[h], a.handlers[h].iface;
            && ((g.PostAccepted? || g.DeleteAccepted?) && i !in a.inflight ==>
                  var n := Do(a, Acquire(h));
                  && n.inflight == a.inflight + {i}
                  && n.handlers[h] == if g.PostAccepted? then PostLocked(i) else DeleteLocked(i))
            && (g.PostLocked? && i !in a.store.mem ==> Do(a, Check(h)).handlers[h] == PostChecked(i))
            && (g.DeleteLocked? && i in a.store.mem ==> Do(a, Check(h)).handlers[h] == DeleteFound(i))
  {}

  lemma HandlersStore(a: Agent, h: Caller, l: Lease)
    requires a.store.up && h in a.handlers && h !in a.store.calls
    requires !a.handlers[h].Finished? && l.iface == a.handlers[h].iface
    ensures var g, i := a.handlers[h], a.handlers[h].iface;
            && (g.PostChecked? ==>
                  var n := Do(a, Allocate(h, Some(l)));
                  n.handlers[h] == PostStoring(i, l) && n.store.mem == a.store.mem[i := l] && h in n.store.calls)
            && (g.DeleteFound? ==>
                  var n := Do(a, Remove(h));
                  n.handlers[h] == DeleteStoring(i) && n.store.mem == a.store.mem - {i} && h in n.store.calls)
            && (g.Releasing? ==>
                  var n := Do(a, Release(h));
                  n.inflight == a.inflight - {i} && n.handlers[h].Finished?)
  {}
}
