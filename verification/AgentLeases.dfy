/** The agent's lease operations as its methods perform them, one request at a
    time (internal/agent/agent.go:126-176, 224-250, 270-480;
    internal/agent/network/config.go:98-149). The outcomes of netlink, DHCP, ARP
    and file calls are inputs. */
module AgentLeases {
  import opened Common
  import opened Leases
  import R = Renewal

  /** internal/agent/lease/types.go: memory, state file and in-flight table. */
  class Store {
    var leases: LeaseMap
    var saved: LeaseMap         // content of the state file; a missing file reads as empty
    var inflight: set<string>

    constructor (file: LeaseMap)
      ensures leases == file && saved == file && inflight == {}
    {
      leases, saved, inflight := file, file, {};
    }

    /** The map is updated whether or not the save then succeeds. */
    method Set(l: Lease, saveOk: bool) returns (ok: bool)
      modifies this`leases, this`saved
      ensures leases == old(leases)[l.iface := l] && ok == saveOk
      ensures saved == if saveOk then leases else old(saved)
    {
      leases := leases[l.iface := l];
      if saveOk { saved := leases; }
      ok := saveOk;
    }

    method Delete(iface: string, saveOk: bool) returns (ok: bool)
      modifies this`leases, this`saved
      ensures leases == old(leases) - {iface} && ok == saveOk
      ensures saved == if saveOk then leases else old(saved)
    {
      leases := leases - {iface};
      if saveOk { saved := leases; }
      ok := saveOk;
    }

    method AcquireInflight(iface: string) returns (ok: bool)
      modifies this`inflight
      ensures ok <==> iface !in old(inflight)
      ensures inflight == old(inflight) + {iface}
    {
      ok := iface !in inflight;
      inflight := inflight + {iface};
    }

    method ReleaseInflight(iface: string)
      modifies this`inflight
      ensures inflight == old(inflight) - {iface}
    {
      inflight := inflight - {iface};
    }
  }

  // ------------------------------------------------------------ allocation

  datatype Offer = Offer(ip: string, server: string, leaseTime: int)

  /** What each foreign call of one allocation does. */
  datatype Plan = Plan(
    parentFound: bool, linkAdded: bool, linkUp: bool, undone: bool,
    offer: Option<Offer>, arpSent: bool, configured: bool, saveOk: bool, cleaned: bool)

  datatype Stage = AtCreate | AtBringUp | AtDhcp | AtArp | AtSetup | AtSave | AllDone

  /** The first step that fails. */
  function Outcome(p: Plan, present: bool): Stage {
    if !p.parentFound || present || !p.linkAdded then AtCreate
    else if !p.linkUp then AtBringUp
    else if p.offer.None? then AtDhcp
    else if !p.arpSent then AtArp
    else if !p.configured then AtSetup
    else if !p.saveOk then AtSave
    else AllDone
  }

  /** An interface this allocation created and then failed to remove again. */
  predicate LeavesInterface(p: Plan, stage: Stage) {
    match stage
    case AtCreate => false
    case AtBringUp => !p.undone
    case AllDone => true
    case _ => !p.cleaned
  }

  /** Every call before the save has worked. */
  predicate Reaches(p: Plan) {
    p.parentFound && p.linkAdded && p.linkUp && p.offer.Some? && p.arpSent && p.configured
  }

  /** The request's interface, parent and MAC with the offer's address, server and time, from now on. */
  predicate IsGrantOf(l: Lease, iface: string, parent: string, mac: string, o: Offer, now: int) {
    && l.iface == iface && l.wanParent == parent && l.mac == mac
    && l.ip == o.ip && l.serverIP == o.server && l.leaseTime == o.leaseTime && l.expiresAt == now + o.leaseTime
    && l.status == Active && l.renewalCount == 0 && l.interfaceExists
    && (o.leaseTime > 0 ==> R.JustGranted(l, now))
  }

  function NewLease(iface: string, parent: string, mac: string, o: Offer, now: int): Lease {
    Lease(iface, parent, o.ip, o.server, mac, now + o.leaseTime, o.leaseTime, 0, Active, true, "")
  }

  // ------------------------------------------------------------- requests

  datatype Request =
    | Post(iface: string, parent: string, mac: string, plan: Plan, now: int)
    | Remove(iface: string, linkDeleted: bool, saveOk: bool)

  /** The interfaces in the kernel, with a stored lease, and with a renewal loop. */
  datatype Books = Books(kernel: set<string>, leases: set<string>, loops: set<string>)

  function Only(b: bool, i: string): set<string> { if b then {i} else {} }

  /** What one request makes of them when no other is in progress. */
  function Served(b: Books, q: Request): Books {
    match q
    case Post(i, _, _, plan, _) =>
      if i in b.leases then b
      else
        var stage := Outcome(plan, i in b.kernel);
        Books(b.kernel + Only(LeavesInterface(plan, stage), i), b.leases + Only(stage == AtSave || stage == AllDone, i),
              b.loops + Only(stage == AllDone, i))
    case Remove(i, linkDeleted, _) =>
      if i !in b.leases then b
      else Books(b.kernel - Only(linkDeleted, i), b.leases - {i}, b.loops - {i})
  }

  function ServedAll(b: Books, requests: seq<Request>): Books {
    if requests == [] then b else Served(ServedAll(b, requests[..|requests| - 1]), requests[|requests| - 1])
  }

  /** Request i is an allocation that ends with the failed save of its lease. */
  predicate LosesSave(b: Books, requests: seq<Request>, i: nat)
    requires i < |requests|
  {
    var before, q := ServedAll(b, requests[..i]), requests[i];
    q.Post? && q.iface !in before.leases && Outcome(q.plan, q.iface in before.kernel) == AtSave
  }

  predicate RemovedLater(requests: seq<Request>, i: nat, x: string) {
    exists j :: i < j < |requests| && requests[j].Remove? && requests[j].iface == x
  }

  /** x was left with a lease and no loop, and not removed since. */
  predicate Orphaned(b: Books, requests: seq<Request>, x: string) {
    exists i: nat :: i < |requests| && requests[i].iface == x && LosesSave(b, requests, i) &&
        !RemovedLater(requests, i, x)
  }

  lemma {:induction false} OrphansAreLeasesWithoutLoop(b: Books, requests: seq<Request>, x: string)
    requires b.leases == b.loops
    ensures var e := ServedAll(b, requests);
            e.loops <= e.leases && (Orphaned(b, requests, x) <==> x in e.leases && x !in e.loops)
    decreases |requests|
  {
    if requests == [] {
      assert ServedAll(b, requests) == b;
    } else {
      var n := |requests| - 1;
      OrphansAreLeasesWithoutLoop(b, requests[..n], x);
      OrphanedExtends(b, requests, n, x);
    }
  }

  lemma LosesSaveInPrefix(b: Books, requests: seq<Request>, n: nat, i: nat)
    requires i < n <= |requests|
    ensures LosesSave(b, requests[..n], i) == LosesSave(b, requests, i) && requests[..n][i] == requests[i]
  {
    assert requests[..n][..i] == requests[..i];
  }

  lemma RemovedLaterExtends(requests: seq<Request>, n: nat, i: nat, x: string)
    requires |requests| == n + 1 && i < n
    ensures RemovedLater(requests, i, x) <==>
            RemovedLater(requests[..n], i, x) || (requests[n].Remove? && requests[n].iface == x)
  {
    var front := requests[..n];
    if RemovedLater(front, i, x) {
      var j :| i < j < n && front[j].Remove? && front[j].iface == x;
      assert requests[j] == front[j];
    }
    if RemovedLater(requests, i, x) {
      var j :| i < j < |requests| && requests[j].Remove? && requests[j].iface == x;
      if j < n { assert front[j] == requests[j]; }
    }
  }

  /** How one more request changes who is orphaned. */
  lemma OrphanedExtends(b: Books, requests: seq<Request>, n: nat, x: string)
    requires |requests| == n + 1
    ensures Orphaned(b, requests, x) <==>
            || (requests[n].iface == x && LosesSave(b, requests, n))
            || (Orphaned(b, requests[..n], x) && !(requests[n].Remove? && requests[n].iface == x))
  {
    var front := requests[..n];
    assert !RemovedLater(requests, n, x);
    hide LosesSave, RemovedLater;
    if Orphaned(b, requests, x) {
      var i: nat :| i < |requests| && requests[i].iface == x && LosesSave(b, requests, i) &&
                    !RemovedLater(requests, i, x);
      if i < n {
        LosesSaveInPrefix(b, requests, n, i);
        RemovedLaterExtends(requests, n, i, x);
        assert Orphaned(b, front, x);
      }
    }
    if Orphaned(b, front, x) && !(requests[n].Remove? && requests[n].iface == x) {
      var i: nat :| i < |front| && front[i].iface == x && LosesSave(b, front, i) && !RemovedLater(front, i, x);
      LosesSaveInPrefix(b, requests, n, i);
      RemovedLaterExtends(requests, n, i, x);
      assert Orphaned(b, requests, x);
    }
  }

  /** From matching loops and leases they match again after any requests if and only if
      every allocation that ended at its save is followed by a removal of its interface. */
  lemma LoopsMatchLeasesExactlyWhen(b: Books, requests: seq<Request>)
    requires b.leases == b.loops
    ensures var e := ServedAll(b, requests);
            e.loops == e.leases <==>
            forall i: nat :: i < |requests| && LosesSave(b, requests, i) ==>
                RemovedLater(requests, i, requests[i].iface)
    ensures ServedAll(b, requests).loops <= ServedAll(b, requests).leases
  {
    var e := ServedAll(b, requests);
    hide ServedAll, LosesSave, RemovedLater;
    forall x ensures e.loops <= e.leases && (Orphaned(b, requests, x) <==> x in e.leases && x !in e.loops) {
      OrphansAreLeasesWithoutLoop(b, requests, x);
    }
    if e.loops == e.leases {
      forall i: nat | i < |requests| && LosesSave(b, requests, i) ensures RemovedLater(requests, i, requests[i].iface) {
        assert !Orphaned(b, requests, requests[i].iface);
      }
    }
  }

  /** Everything works but the save. */
  const UNSAVED: Plan :=
    Plan(true, true, true, true, Some(Offer("198.51.100.7", "198.51.100.1", 3600)), true, true, false, true)

  /** One allocation whose save fails leaves a lease without a loop. */
  lemma LeaseCanLackItsLoop()
    ensures ServedAll(Books({}, {}, {}), [Post("wan-a", "eth8", "02:00", UNSAVED, 0)]) == Books({}, {"wan-a"}, {})
  {
    var q := Post("wan-a", "eth8", "02:00", UNSAVED, 0);
    assert [q][..0] == [];
    assert ServedAll(Books({}, {}, {}), []) == Books({}, {}, {});
    assert Outcome(UNSAVED, false) == AtSave;
  }

  /** What a verified lease says about the finding. */
  predicate Tells(l: Lease, before: Lease, f: Finding) {
    match f
    case CheckFailed => l == before
    case InterfaceMissing => l.status == Stale && !l.interfaceExists && SameTerms(l, before)
    case RenewalFailed => l.status == Stale && l.interfaceExists && SameTerms(l, before)
    case Renewed(time, at, packets) =>
      && l.status == Active && l.interfaceExists && l.serverIP == before.serverIP
      && l.leaseTime == time && l.expiresAt == at + time && l.packets == packets
      && (time > 0 ==> R.JustGranted(l, at))
  }

  predicate SameTerms(a: Lease, b: Lease) {
    a.expiresAt == b.expiresAt && a.leaseTime == b.leaseTime && a.serverIP == b.serverIP && a.packets == b.packets
  }

  lemma VerifiedTells(l: Lease, f: Finding)
    ensures Tells(Verified(l, f), l, f) && SameIdentity(Verified(l, f), l)
    ensures Verified(l, f).renewalCount == l.renewalCount + if f.Renewed? then 1 else 0
    ensures !f.CheckFailed? ==> (Verified(l, f).status == Active <==> f.Renewed?)
  {}

  class Agent {
    const store: Store
    var kernel: set<string>     // interfaces in the kernel
    var loops: set<string>      // keys of renewalCancels

    constructor (file: LeaseMap, links: set<string>)
      ensures fresh(store) && store.leases == file && store.saved == file && store.inflight == {}
      ensures kernel == links && loops == {}
    {
      store := new Store(file);
      kernel, loops := links, {};
    }

    /** CreateMacvlan: an interface that is already there is refused before anything is added. */
    method CreateMacvlan(iface: string, p: Plan) returns (ok: bool)
      modifies this`kernel
      ensures ok <==> Outcome(p, iface in old(kernel)) !in {AtCreate, AtBringUp}
      ensures kernel == old(kernel) +
        (if ok || (Outcome(p, iface in old(kernel)) == AtBringUp && !p.undone) then {iface} else {})
      ensures ok <==> p.parentFound && iface !in old(kernel) && p.linkAdded && p.linkUp
      ensures !ok && p.undone ==> kernel == old(kernel)
    {
      if !p.parentFound || iface in kernel || !p.linkAdded { return false; }
      ghost var before := kernel;
      kernel := kernel + {iface};
      if !p.linkUp {
        if p.undone {
          kernel := kernel - {iface};
          assert kernel == before;
        }
        return false;
      }
      ok := true;
    }

    method DeleteMacvlan(iface: string, works: bool)
      modifies this`kernel
      ensures kernel == if works then old(kernel) - {iface} else old(kernel)
    {
      if works { kernel := kernel - {iface}; }
    }

    /** allocateLease with its deferred clean-up. */
    method AllocateLease(iface: string, parent: string, mac: string, p: Plan, now: int) returns (r: Option<Lease>)
      modifies this`kernel, this`loops, store`leases, store`saved
      ensures r.Some? <==> Outcome(p, iface in old(kernel)) == AllDone
      // success adds exactly one interface, one stored and saved lease and one loop
      ensures r.Some? ==> p.offer.Some? && r.value == NewLease(iface, parent, mac, p.offer.value, now)
      ensures r.Some? ==> iface !in old(kernel)
      ensures r.Some? ==> store.leases == old(store.leases)[iface := r.value] && store.saved == store.leases
      ensures loops == old(loops) + (if r.Some? then {iface} else {})
      // failure leaves behind at most the interface it created, when removing it fails too
      ensures kernel == old(kernel) + (if LeavesInterface(p, Outcome(p, iface in old(kernel))) then {iface} else {})
      // and, when it was the save that failed, the lease in memory
      ensures Outcome(p, iface in old(kernel)) !in {AllDone, AtSave} ==> store.leases == old(store.leases)
      ensures Outcome(p, iface in old(kernel)) == AtSave ==>
        p.offer.Some? && store.leases == old(store.leases)[iface := NewLease(iface, parent, mac, p.offer.value, now)]
      ensures r.None? ==> store.saved == old(store.saved)
      // in terms of the calls: success means that all of them worked, failure changes nothing when it can be undone
      ensures r.Some? <==> Reaches(p) && iface !in old(kernel) && p.saveOk
      ensures r.Some? ==> p.offer.Some? && IsGrantOf(r.value, iface, parent, mac, p.offer.value, now)
      ensures r.None? && p.cleaned && p.undone ==> kernel == old(kernel)
      ensures r.None? && !(Reaches(p) && iface !in old(kernel)) ==> store.leases == old(store.leases)
      ensures r.None? && Reaches(p) && iface !in old(kernel) ==>
        && store.leases.Keys == old(store.leases.Keys) + {iface}
        && IsGrantOf(store.leases[iface], iface, parent, mac, p.offer.value, now)
        && forall i :: i in old(store.leases) && i != iface ==> store.leases[i] == old(store.leases)[i]
    {
      ghost var before := kernel;
      var created := CreateMacvlan(iface, p);
      if !created { return None; }
      if p.offer.None? || !p.arpSent || !p.configured {
        DeleteMacvlan(iface, p.cleaned);
        assert p.cleaned ==> kernel == before;
        return None;
      }
      var l := NewLease(iface, parent, mac, p.offer.value, now);
      var ok := store.Set(l, p.saveOk);
      if !ok {
        DeleteMacvlan(iface, p.cleaned);
        assert p.cleaned ==> kernel == before;
        return None;
      }
      loops := loops + {iface};
      r := Some(l);
    }

    /** releaseLease: everything but the store update is best effort. */
    method ReleaseLease(iface: string, linkDeleted: bool, saveOk: bool) returns (ok: bool)
      modifies this`kernel, this`loops, store`leases, store`saved
      ensures loops == old(loops) - {iface}
      ensures kernel == if linkDeleted then old(kernel) - {iface} else old(kernel)
      ensures store.leases == old(store.leases) - {iface} && ok == saveOk
      ensures store.saved == if saveOk then store.leases else old(store.saved)
    {
      loops := loops - {iface};
      DeleteMacvlan(iface, linkDeleted);
      ok := store.Delete(iface, saveOk);
    }

    /** handleAllocateLease and handleReleaseLease past request validation. */
    method Handle(q: Request) returns (reply: Reply)
      modifies this`kernel, this`loops, store
      ensures store.inflight == old(store.inflight)
      ensures q.iface in old(store.inflight) ==>
        && reply == Conflict && kernel == old(kernel) && loops == old(loops)
        && store.leases == old(store.leases) && store.saved == old(store.saved)
      ensures q.iface !in old(store.inflight) && q.Post? && q.iface in old(store.leases) ==>
        && reply == Conflict && kernel == old(kernel) && loops == old(loops)
        && store.leases == old(store.leases) && store.saved == old(store.saved)
      ensures reply.Created? ==>
        && q.Post? && q.iface !in old(store.leases) && q.iface !in old(kernel)
        && store.leases.Keys == old(store.leases.Keys) + {q.iface}
        && q.plan.offer.Some? && reply.ip == q.plan.offer.value.ip && store.saved == store.leases
        && IsGrantOf(store.leases[q.iface], q.iface, q.parent, q.mac, q.plan.offer.value, q.now)
        && loops == old(loops) + {q.iface} && kernel == old(kernel) + {q.iface}
      ensures reply == Unavailable ==>
        && q.Post? && loops == old(loops)
        && kernel == old(kernel) + Only(LeavesInterface(q.plan, Outcome(q.plan, q.iface in old(kernel))), q.iface)
      ensures reply == Unavailable && Outcome(q.plan, q.iface in old(kernel)) != AtSave ==>
              store.leases == old(store.leases)
      ensures reply == Unavailable && Outcome(q.plan, q.iface in old(kernel)) == AtSave ==>
              store.leases.Keys == old(store.leases.Keys) + {q.iface}
      ensures q.Remove? && reply in {NoContent, ServerError} ==>
        q.iface in old(store.leases) && store.leases == old(store.leases) - {q.iface} && loops == old(loops) - {q.iface}
      ensures reply == NotFound ==> store.leases == old(store.leases) && loops == old(loops) && q.iface !in store.leases
      ensures reply == Conflict ==> store.leases == old(store.leases) && loops == old(loops) && kernel == old(kernel)
      ensures q.iface !in old(store.inflight) ==> View() == Served(old(View()), q)
      // which answer is given when
      ensures reply.Created? <==>
        && q.Post? && q.iface !in old(store.inflight) && q.iface !in old(store.leases)
        && Reaches(q.plan) && q.iface !in old(kernel) && q.plan.saveOk
      ensures reply == Conflict <==>
        q.iface in old(store.inflight) || (q.Post? && q.iface in old(store.leases))
      ensures q.Remove? && q.iface !in old(store.inflight) ==>
        reply == if q.iface !in old(store.leases) then NotFound else if q.saveOk then NoContent else ServerError
      ensures reply == NoContent ==> store.saved == store.leases
      ensures if q.Remove? then reply in {Conflict, NotFound, NoContent, ServerError}
              else reply.Created? || reply in {Conflict, Unavailable}
    {
      ghost var before := store.inflight;
      var acquired := store.AcquireInflight(q.iface);
      if !acquired {
        assert store.inflight == before;
        return Conflict;
      }
      match q {
      case Post(iface, parent, mac, plan, now) =>
        if iface in store.leases {
          reply := Conflict;
        } else {
          var l := AllocateLease(iface, parent, mac, plan, now);
          reply := if l.Some? then Created(l.value.ip) else Unavailable;
        }
      case Remove(iface, linkDeleted, saveOk) =>
        if iface !in store.leases {
          reply := NotFound;
        } else {
          var ok := ReleaseLease(iface, linkDeleted, saveOk);
          reply := if ok then NoContent else ServerError;
        }
      }
      store.ReleaseInflight(q.iface);
      assert store.inflight == before;
    }

    ghost function View(): Books reads this, store { Books(kernel, store.leases.Keys, loops) }

    /** Over any sequence of requests to an agent that starts with nothing stored, each
        loop has its lease, and each lease has its loop if and only if every allocation
        that ended at its save was followed by a removal of its interface. */
    method Serve(requests: seq<Request>) returns (replies: seq<Reply>)
      requires store.leases == map[] && loops == {} && store.inflight == {}
      modifies this`kernel, this`loops, store
      ensures |replies| == |requests| && store.inflight == {}
      ensures View() == ServedAll(old(View()), requests)
      ensures loops <= store.leases.Keys
      ensures loops == store.leases.Keys <==>
              forall i: nat :: i < |requests| && LosesSave(old(View()), requests, i) ==>
                  RemovedLater(requests, i, requests[i].iface)
    {
      replies := [];
      for i := 0 to |requests|
        invariant |replies| == i && store.inflight == {}
        invariant View() == ServedAll(old(View()), requests[..i])
      {
        assert requests[..i + 1][..i] == requests[..i];
        var reply := Handle(requests[i]);
        replies := replies + [reply];
      }
      assert requests[..|requests|] == requests;
      LoopsMatchLeasesExactlyWhen(old(View()), requests);
    }

    /** Releasing what was just allocated restores kernel, store, state file and loops. */
    method AllocateThenRelease(iface: string, parent: string, mac: string, p: Plan, now: int) returns (did: bool)
      requires iface !in store.leases && iface !in loops && store.saved == store.leases
      modifies this`kernel, this`loops, store`leases, store`saved
      ensures did <==> Outcome(p, iface in old(kernel)) == AllDone
      ensures did ==> kernel == old(kernel) && loops == old(loops)
      ensures did ==> store.leases == old(store.leases) && store.saved == old(store.saved)
    {
      var l := AllocateLease(iface, parent, mac, p, now);
      did := l.Some?;
      if did {
        var ok := ReleaseLease(iface, true, true);
      }
    }

    /** One pass of the verification loop. */
    method VerifyLease(i: string, f: Finding, saveOk: bool)
      requires i in store.leases && store.leases[i].iface == i
      modifies this`loops, store`leases, store`saved
      ensures store.leases == old(store.leases)[i := Verified(old(store.leases)[i], f)]
      ensures loops == old(loops) + (if f.Renewed? then {i} else {})
      ensures saveOk && (old(store.saved) == old(store.leases) || !f.CheckFailed?) ==> store.saved == store.leases
    {
      if f.CheckFailed? {
        assert store.leases == store.leases[i := store.leases[i]];
        return;
      }
      var _ := store.Set(Verified(store.leases[i], f), saveOk);
      if f.Renewed? { loops := loops + {i}; }
    }

    /** The loop of verifyLeases: every stored lease is visited once and changed in place. */
    method VisitLeases(found: string -> Finding, saves: string -> bool)
      requires loops == {} && forall i :: i in store.leases ==> store.leases[i].iface == i
      modifies this`loops, store`leases, store`saved
      ensures store.leases.Keys == old(store.leases).Keys
      ensures forall i :: i in store.leases ==> store.leases[i] == Verified(old(store.leases)[i], found(i))
      ensures loops == set i | i in old(store.leases) && found(i).Renewed?
      ensures (forall i :: i in old(store.leases) ==> saves(i)) && old(store.saved) == old(store.leases) ==>
              store.saved == store.leases
    {
      var todo := store.leases.Keys;
      while todo != {}
        invariant todo <= old(store.leases).Keys && store.leases.Keys == old(store.leases).Keys
        invariant forall i :: i in todo ==> store.leases[i] == old(store.leases)[i]
        invariant forall i :: i in store.leases && i !in todo ==>
          store.leases[i] == Verified(old(store.leases)[i], found(i))
        invariant loops == set i | i in old(store.leases) && i !in todo && found(i).Renewed?
        invariant (forall i :: i in old(store.leases) ==> saves(i)) && old(store.saved) == old(store.leases) ==>
                  store.saved == store.leases
        decreases todo
      {
        hide Verified;
        var i :| i in todo;
        todo := todo - {i};
        VerifyLease(i, found(i), saves(i));
      }
    }

    /** verifyLeases at start-up. */
    method VerifyLeases(found: string -> Finding, saves: string -> bool)
      requires loops == {} && forall i :: i in store.leases ==> store.leases[i].iface == i
      modifies this`loops, store`leases, store`saved
      ensures store.leases == map i | i in old(store.leases) :: Verified(old(store.leases)[i], found(i))
      ensures loops == set i | i in old(store.leases) && found(i).Renewed?
      // a checked lease is Active exactly when its loop runs; identity is kept; only renewed leases count one more
      ensures forall i :: i in store.leases && !found(i).CheckFailed? ==>
              (store.leases[i].status == Active <==> i in loops)
      ensures forall i :: i in store.leases ==> SameIdentity(store.leases[i], old(store.leases)[i])
      ensures forall i :: i in store.leases ==>
        store.leases[i].renewalCount == old(store.leases)[i].renewalCount + (if i in loops then 1 else 0)
      // what was found is what is recorded, and saved as far as the saves work
      ensures forall i :: i in store.leases ==> Tells(store.leases[i], old(store.leases)[i], found(i))
      ensures (forall i :: i in old(store.leases) ==> saves(i)) && old(store.saved) == old(store.leases) ==>
              store.saved == store.leases
    {
      VisitLeases(found, saves);
      forall i | i in store.leases
        ensures Tells(store.leases[i], old(store.leases)[i], found(i))
        ensures SameIdentity(store.leases[i], old(store.leases)[i])
        ensures store.leases[i].renewalCount == old(store.leases)[i].renewalCount + if found(i).Renewed? then 1 else 0
        ensures !found(i).CheckFailed? ==> (store.leases[i].status == Active <==> found(i).Renewed?)
      {
        VerifiedTells(old(store.leases)[i], found(i));
      }
      hide Verified, Tells, SameIdentity;
    }
  }
}
