/** Which SSH manager serves which claim: the registry, the per-manager handler
    maps and the controller's three claim maps
    (internal/ssh/registry.go:10-50; internal/ssh/manager.go:429-447, 481-508;
    internal/controller/publicipclaim_controller.go:813-984, 1056-1101).
    Each router address has one configuration identity, so the registry's inner
    map has one entry. Managers are shared objects; the model names them by number and keeps their
    contents in a table, so that aliasing is visible. */
module Tracking {

  /** The handler side of an SSHConnectionManager; a handler is the claim it notifies. */
  datatype Manager = Manager(address: string, handlers: map<nat, string>, handlerSeq: nat, closed: bool)

  datatype Book = Book(
    sshHandlers: map<string, nat>,          // claim -> handler id
    routes: map<string, string>,            // claim -> router address
    claimManagers: map<string, nat>,        // claim -> manager
    registry: map<string, nat>,             // address -> manager
    table: map<nat, Manager>)

  // ---------------------------------------------------------- specification

  /** GetOrCreate; m is the number of the slot it would allocate. */
  function Obtained(b: Book, address: string, m: nat): Book {
    if address in b.registry then b
    else b.(registry := b.registry[address := m], table := b.table[m := Manager(address, map[], 0, false)])
  }

  function ManagerFor(b: Book, address: string, m: nat): nat {
    if address in b.registry then b.registry[address] else m
  }

  /** Unregister k's handler and forget k. */
  function Forgotten(b: Book, k: string): Book
    requires k in b.claimManagers && k in b.sshHandlers && b.claimManagers[k] in b.table
  {
    var m := b.claimManagers[k];
    var o := b.table[m];
    b.(table := b.table[m := o.(handlers := o.handlers - {b.sshHandlers[k]})],
       sshHandlers := b.sshHandlers - {k}, routes := b.routes - {k}, claimManagers := b.claimManagers - {k})
  }

  /** Close m and take the address out of the registry. */
  function Retired(b: Book, m: nat, address: string): Book
    requires m in b.table
  {
    b.(table := b.table[m := b.table[m].(closed := true)], registry := b.registry - {address})
  }

  /** What leaving a manager amounts to (:889-919 and :1059-1095). */
  function Released(b: Book, k: string, address: string): Book
    requires k in b.claimManagers && k in b.sshHandlers && b.claimManagers[k] in b.table
  {
    var m := b.claimManagers[k];
    var f := Forgotten(b, k);
    if |f.table[m].handlers| == 0 then Retired(f, m, address) else f
  }

  /** Register a handler for k at m and track k there. */
  function Joined(b: Book, k: string, address: string, m: nat): Book
    requires m in b.table
  {
    var o := b.table[m];
    var id := o.handlerSeq + 1;
    b.(table := b.table[m := o.(handlers := o.handlers[id := k], handlerSeq := id)],
       sshHandlers := b.sshHandlers[k := id], routes := b.routes[k := address],
       claimManagers := b.claimManagers[k := m])
  }

  // -------------------------------------------------------------- invariant

  ghost predicate Aligned(b: Book) { b.sshHandlers.Keys == b.routes.Keys == b.claimManagers.Keys }

  /** k has exactly one live handler, at the open manager registered for its address. */
  predicate ClaimOk(b: Book, k: string)
    requires k in b.claimManagers && k in b.routes && k in b.sshHandlers
  {
    var m, a, id := b.claimManagers[k], b.routes[k], b.sshHandlers[k];
    && a != "" && m in b.table && b.table[m].address == a && !b.table[m].closed
    && a in b.registry && b.registry[a] == m
    && 0 < id && id in b.table[m].handlers && b.table[m].handlers[id] == k
  }

  /** A handler belongs to a claim that is tracked to this manager under this id. */
  predicate HandlerOk(b: Book, m: nat, id: nat)
    requires m in b.table && id in b.table[m].handlers
  {
    var k := b.table[m].handlers[id];
    && id <= b.table[m].handlerSeq
    && k in b.claimManagers && b.claimManagers[k] == m
    && k in b.sshHandlers && b.sshHandlers[k] == id
  }

  ghost predicate HandlersOk(b: Book) {
    forall m, id :: m in b.table && id in b.table[m].handlers ==> HandlerOk(b, m, id)
  }

  ghost predicate ClaimsOk(b: Book)
    requires Aligned(b)
  {
    forall k :: k in b.claimManagers ==> ClaimOk(b, k)
  }

  ghost predicate InUse(routes: map<string, string>, a: string) {
    exists k :: k in routes && routes[k] == a
  }

  /** Registered addresses are in use, except those in ex. */
  ghost predicate RegistryInUse(b: Book, ex: set<string>) {
    forall a :: a in b.registry && a !in ex ==> InUse(b.routes, a)
  }

  /** Open managers have a handler, except those in ex. */
  ghost predicate OpenInUse(b: Book, ex: set<nat>) {
    forall m :: m in b.table && m !in ex && !b.table[m].closed ==> b.table[m].handlers != map[]
  }

  ghost predicate Core(b: Book) {
    Aligned(b) && ClaimsOk(b) && HandlersOk(b)
  }

  /** The three maps have the same keys, each claim has exactly one live handler,
      and registered addresses and open managers are exactly those in use. */
  ghost predicate Valid(b: Book) {
    Core(b) && RegistryInUse(b, {}) && OpenInUse(b, {})
  }

  ghost predicate Unused(claims: map<string, nat>, m: nat) {
    forall k :: k in claims ==> claims[k] != m
  }

  ghost function ClaimsOf(b: Book, m: nat): set<string> { set k | k in b.claimManagers && b.claimManagers[k] == m }

  // -------------------------------------------------------------- counting

  lemma {:induction false} InverseMapsHaveEqualSize(f: map<nat, string>, keys: set<string>, g: map<string, nat>)
    requires forall id :: id in f ==> f[id] in keys && f[id] in g && g[f[id]] == id
    requires forall k :: k in keys ==> k in g && g[k] in f && f[g[k]] == k
    ensures |f| == |keys|
    decreases keys
  {
    if keys == {} {
      assert f.Keys == {};
    } else {
      var k :| k in keys;
      var id := g[k];
      InverseMapsHaveEqualSize(f - {id}, keys - {k}, g);
      assert f.Keys == (f - {id}).Keys + {id};
    }
  }

  /** A manager's HandlerCount is the number of claims tracked to it. */
  lemma HandlerCountIsClaimCount(b: Book, m: nat)
    requires Valid(b) && m in b.table
    ensures |b.table[m].handlers| == |ClaimsOf(b, m)|
  {
    forall id | id in b.table[m].handlers ensures b.table[m].handlers[id] in ClaimsOf(b, m) {
      assert HandlerOk(b, m, id);
    }
    forall k | k in ClaimsOf(b, m)
      ensures k in b.sshHandlers && b.sshHandlers[k] in b.table[m].handlers
      ensures b.table[m].handlers[b.sshHandlers[k]] == k
    {
      assert ClaimOk(b, k);
    }
    forall id | id in b.table[m].handlers
      ensures b.table[m].handlers[id] in b.sshHandlers && b.sshHandlers[b.table[m].handlers[id]] == id
    {
      assert HandlerOk(b, m, id);
    }
    InverseMapsHaveEqualSize(b.table[m].handlers, ClaimsOf(b, m), b.sshHandlers);
  }

  // -------------------------------------------------------------- releasing

  /** k's handler is its manager's only one exactly when no other claim is tracked to it. */
  lemma LastHandler(b: Book, k: string)
    requires Core(b) && k in b.claimManagers
    ensures var m := b.claimManagers[k];
            m in b.table && k in b.sshHandlers && k in b.routes &&
            (|b.table[m].handlers - {b.sshHandlers[k]}| == 0 <==> Unused(b.claimManagers - {k}, m))
  {
    assert ClaimOk(b, k);
    var m, id := b.claimManagers[k], b.sshHandlers[k];
    var rest := b.table[m].handlers - {id};
    var others := b.claimManagers - {k};
    if rest.Keys == {} {
      forall j | j in others ensures others[j] != m {
        assert ClaimOk(b, j) && b.sshHandlers[j] !in rest;
      }
    } else {
      var other :| other in rest.Keys;
      assert HandlerOk(b, m, other);
      assert b.table[m].handlers[other] in others;
    }
  }

  lemma ForgottenKeepsClaims(b: Book, k: string)
    requires Aligned(b) && ClaimsOk(b) && k in b.claimManagers && b.claimManagers[k] in b.table
    ensures Aligned(Forgotten(b, k)) && ClaimsOk(Forgotten(b, k))
  {
    assert ClaimOk(b, k);
    var f := Forgotten(b, k);
    forall j | j in f.claimManagers ensures ClaimOk(f, j) { assert ClaimOk(b, j); }
  }

  lemma ForgottenKeepsHandlers(b: Book, k: string)
    requires Aligned(b) && ClaimsOk(b) && HandlersOk(b) && k in b.claimManagers && b.claimManagers[k] in b.table
    ensures HandlersOk(Forgotten(b, k))
  {
    assert ClaimOk(b, k);
    hide ClaimsOk;
    var f := Forgotten(b, k);
    forall m, id | m in f.table && id in f.table[m].handlers ensures HandlerOk(f, m, id) { assert HandlerOk(b, m, id); }
  }

  /** Forgetting k leaves every other claim and handler in order. */
  lemma ForgottenKeeps(b: Book, k: string)
    requires Core(b) && k in b.claimManagers && k in b.sshHandlers && b.claimManagers[k] in b.table
    ensures Core(Forgotten(b, k))
  {
    hide ClaimsOk, HandlersOk;
    ForgottenKeepsClaims(b, k);
    ForgottenKeepsHandlers(b, k);
  }

  /** Closing a manager that nobody uses and removing its address disturbs nobody. */
  lemma RetiredKeepsClaim(b: Book, m: nat, address: string, j: string)
    requires m in b.table && j in b.claimManagers && j in b.routes && j in b.sshHandlers
    requires ClaimOk(b, j) && b.claimManagers[j] != m
    requires address in b.registry ==> b.registry[address] == m
    ensures ClaimOk(Retired(b, m, address), j)
  {}

  lemma RetiredKeepsHandlers(b: Book, m: nat, address: string)
    requires HandlersOk(b) && m in b.table
    ensures HandlersOk(Retired(b, m, address))
  {
    var r := Retired(b, m, address);
    forall n, id | n in r.table && id in r.table[n].handlers ensures HandlerOk(r, n, id) { assert HandlerOk(b, n, id); }
  }

  lemma RetiredKeeps(b: Book, m: nat, address: string)
    requires Core(b) && m in b.table && Unused(b.claimManagers, m)
    requires address in b.registry ==> b.registry[address] == m
    ensures Core(Retired(b, m, address))
  {
    RetiredKeepsHandlers(b, m, address);
    hide HandlersOk, ClaimOk;
    forall j | j in b.claimManagers ensures ClaimOk(Retired(b, m, address), j) {
      RetiredKeepsClaim(b, m, address, j);
    }
  }

  lemma Tracked(b: Book, k: string)
    requires Core(b) && k in b.claimManagers
    ensures k in b.sshHandlers && k in b.routes && ClaimOk(b, k)
  {}

  /** Released with the tracked address: everyone else stays in order, and the
      manager is closed exactly when no claim is left on it. */
  lemma ReleasedKeepsCore(b: Book, k: string)
    requires Core(b) && k in b.claimManagers
    ensures k in b.sshHandlers && k in b.routes && b.claimManagers[k] in b.table
    ensures var m, r := b.claimManagers[k], Released(b, k, b.routes[k]);
            && Core(r)
            && (r.table[m].closed <==> Unused(r.claimManagers, m))
            && (!r.table[m].closed ==> r.table[m].handlers != map[])
  {
    hide Core, Unused;
    Tracked(b, k);
    LastHandler(b, k);
    ForgottenKeeps(b, k);
    var m, f := b.claimManagers[k], Forgotten(b, k);
    assert f.claimManagers == b.claimManagers - {k};
    if |f.table[m].handlers| == 0 { RetiredKeeps(f, m, b.routes[k]); }
  }

  /** An address other than k's stays in use when k leaves. */
  lemma OthersStayInUse(routes: map<string, string>, k: string, a: string)
    requires InUse(routes, a) && k in routes && routes[k] != a
    ensures InUse(routes - {k}, a)
  {
    var j :| j in routes && routes[j] == a;
    assert j in routes - {k};
  }

  /** k's own address stays in use exactly when another claim is on the same manager. */
  lemma OwnAddressStaysInUse(b: Book, k: string)
    requires Core(b) && k in b.claimManagers && k in b.routes
    ensures InUse(b.routes - {k}, b.routes[k]) <==> !Unused(b.claimManagers - {k}, b.claimManagers[k])
  {
    var routes, claims := b.routes - {k}, b.claimManagers - {k};
    assert ClaimOk(b, k);
    forall j | j in claims ensures j in routes && (routes[j] == b.routes[k] <==> claims[j] == b.claimManagers[k]) {
      assert ClaimOk(b, j);
    }
  }

  /** Released with any address, the registry matches the addresses in use exactly
      when that address is the tracked one or another claim stays on the manager. */
  lemma ReleasedRegistry(b: Book, k: string, address: string, ex: set<string>)
    requires Core(b) && RegistryInUse(b, ex) && k in b.claimManagers
    requires k in b.sshHandlers && k in b.routes && b.claimManagers[k] in b.table && b.routes[k] !in ex
    ensures RegistryInUse(Released(b, k, address), ex) <==>
            address == b.routes[k] || !Unused(b.claimManagers - {k}, b.claimManagers[k])
  {
    hide Core, Unused, InUse;
    var t, r := b.routes[k], Released(b, k, address);
    LastHandler(b, k);
    Tracked(b, k);
    OwnAddressStaysInUse(b, k);
    forall a | a in r.registry && a !in ex && a != t ensures InUse(r.routes, a) {
      OthersStayInUse(b.routes, k, a);
    }
  }

  // ------------------------------------------------------- the two operations

  /** getSSHManager past the secret: obtain the manager for the address, leave the
      previous one if the address changed, register once, track. */
  function Assigned(b: Book, k: string, address: string, m: nat): Book
    requires forall j :: j in b.claimManagers ==> b.claimManagers[j] in b.table
    requires ManagerFor(b, address, m) in Obtained(b, address, m).table
  {
    var o := Obtained(b, address, m);
    var mgr := ManagerFor(b, address, m);
    if k in o.routes && o.routes[k] == address && k in o.sshHandlers then
      o.(claimManagers := o.claimManagers[k := mgr])
    else if k in o.routes && k in o.sshHandlers && k in o.claimManagers then
      Joined(Released(o, k, o.routes[k]), k, address, mgr)
    else Joined(o, k, address, mgr)
  }

  /** The clean-up from :1056 on, with the address of the claim's spec. */
  function CleanedUp(b: Book, k: string, address: string): Book
    requires forall j :: j in b.claimManagers ==> j in b.sshHandlers && b.claimManagers[j] in b.table
  {
    if k in b.claimManagers then Released(b, k, address) else b
  }

  ghost predicate Prepared(b: Book, address: string, mgr: nat) {
    && Core(b) && RegistryInUse(b, {address}) && OpenInUse(b, {mgr})
    && address in b.registry && b.registry[address] == mgr
    && mgr in b.table && b.table[mgr].address == address && !b.table[mgr].closed
  }

  /** A new manager without handlers disturbs nobody. */
  lemma NewManagerKeepsCore(b: Book, address: string, m: nat)
    requires Core(b) && m !in b.table && address !in b.registry
    ensures Core(Obtained(b, address, m))
  {
    var o := Obtained(b, address, m);
    forall j | j in o.claimManagers ensures ClaimOk(o, j) { assert ClaimOk(b, j); }
    forall n, id | n in o.table && id in o.table[n].handlers ensures HandlerOk(o, n, id) { assert HandlerOk(b, n, id); }
  }

  lemma ObtainedPrepares(b: Book, address: string, m: nat)
    requires Valid(b) && m !in b.table && address != ""
    ensures Prepared(Obtained(b, address, m), address, ManagerFor(b, address, m))
  {
    if address in b.registry {
      var j :| j in b.routes && b.routes[j] == address;
      assert ClaimOk(b, j);
    } else {
      hide Core;
      NewManagerKeepsCore(b, address, m);
    }
  }

  lemma ReleasedOpenInUse(b: Book, k: string, ex: set<nat>)
    requires Core(b) && OpenInUse(b, ex) && k in b.claimManagers
    ensures k in b.sshHandlers && k in b.routes && b.claimManagers[k] in b.table
    ensures OpenInUse(Released(b, k, b.routes[k]), ex)
  {
    hide Core, Unused;
    Tracked(b, k);
  }

  lemma ReleasedStaysPrepared(b: Book, k: string, address: string, mgr: nat)
    requires Prepared(b, address, mgr) && k in b.claimManagers && k in b.routes && b.routes[k] != address
    requires k in b.sshHandlers && b.claimManagers[k] in b.table
    ensures Prepared(Released(b, k, b.routes[k]), address, mgr)
  {
    hide Core, Unused, RegistryInUse, OpenInUse;
    Tracked(b, k);
    ReleasedKeepsCore(b, k);
    ReleasedOpenInUse(b, k, {mgr});
    ReleasedRegistry(b, k, b.routes[k], {address});
  }

  lemma NextIdIsNew(b: Book, m: nat)
    requires HandlersOk(b) && m in b.table
    ensures b.table[m].handlerSeq + 1 !in b.table[m].handlers
  {
    forall id | id in b.table[m].handlers ensures id <= b.table[m].handlerSeq { assert HandlerOk(b, m, id); }
  }

  lemma JoinedKeepsClaims(b: Book, k: string, address: string, mgr: nat)
    requires Aligned(b) && ClaimsOk(b) && k !in b.claimManagers && address != ""
    requires address in b.registry && b.registry[address] == mgr
    requires mgr in b.table && b.table[mgr].address == address && !b.table[mgr].closed
    requires b.table[mgr].handlerSeq + 1 !in b.table[mgr].handlers
    ensures Aligned(Joined(b, k, address, mgr)) && ClaimsOk(Joined(b, k, address, mgr))
  {
    var j := Joined(b, k, address, mgr);
    forall c | c in j.claimManagers ensures ClaimOk(j, c) { if c != k { assert ClaimOk(b, c); } }
  }

  lemma JoinedKeepsHandlers(b: Book, k: string, address: string, mgr: nat)
    requires HandlersOk(b) && mgr in b.table && k !in b.claimManagers
    ensures HandlersOk(Joined(b, k, address, mgr))
  {
    var j := Joined(b, k, address, mgr);
    var id := b.table[mgr].handlerSeq + 1;
    forall n, i | n in j.table && i in j.table[n].handlers ensures HandlerOk(j, n, i) {
      if n != mgr || i != id { assert HandlerOk(b, n, i); }
    }
  }

  lemma JoinedIsValid(b: Book, k: string, address: string, mgr: nat)
    requires Prepared(b, address, mgr) && k !in b.claimManagers && address != ""
    ensures Valid(Joined(b, k, address, mgr))
  {
    hide ClaimsOk, HandlersOk, RegistryInUse;
    var j := Joined(b, k, address, mgr);
    NextIdIsNew(b, mgr);
    JoinedKeepsClaims(b, k, address, mgr);
    JoinedKeepsHandlers(b, k, address, mgr);
    JoinedRegistry(b, k, address, mgr);
    assert b.table[mgr].handlerSeq + 1 in j.table[mgr].handlers;
  }

  lemma JoinedRegistry(b: Book, k: string, address: string, mgr: nat)
    requires mgr in b.table && RegistryInUse(b, {address}) && k !in b.routes
    ensures RegistryInUse(Joined(b, k, address, mgr), {})
  {
    var j := Joined(b, k, address, mgr);
    forall a | a in j.registry ensures InUse(j.routes, a) {
      if a == address {
        assert j.routes[k] == a;
      } else {
        var c :| c in b.routes && b.routes[c] == a;
        assert j.routes[c] == a;
      }
    }
  }

  lemma ManagersAreInTable(b: Book)
    requires Valid(b)
    ensures forall j :: j in b.claimManagers ==> j in b.sshHandlers && j in b.routes && b.claimManagers[j] in b.table
  {
    forall j | j in b.claimManagers ensures j in b.sshHandlers && j in b.routes && b.claimManagers[j] in b.table {
      assert ClaimOk(b, j);
    }
  }

  // ----------------------------------------------------------- main results

  lemma AssignedAgain(b: Book, k: string, m: nat)
    requires Valid(b) && k in b.claimManagers && k in b.routes && k in b.sshHandlers
    requires forall j :: j in b.claimManagers ==> b.claimManagers[j] in b.table
    ensures b.routes[k] in b.registry && b.registry[b.routes[k]] in b.table
    ensures Assigned(b, k, b.routes[k], m) == b
  {
    assert ClaimOk(b, k);
    hide Valid;
    assert b.claimManagers[k := b.claimManagers[k]] == b.claimManagers;
  }

  lemma AssignedElsewhere(b: Book, k: string, address: string, m: nat)
    requires Prepared(Obtained(b, address, m), address, ManagerFor(b, address, m)) && address != ""
    requires k in b.claimManagers && k in b.routes && k in b.sshHandlers && b.routes[k] != address
    requires forall j :: j in b.claimManagers ==> b.claimManagers[j] in b.table
    ensures Valid(Assigned(b, k, address, m))
    ensures var n := Assigned(b, k, address, m);
            n.claimManagers.Keys == b.claimManagers.Keys + {k} && n.routes == b.routes[k := address]
  {
    hide Core, RegistryInUse, OpenInUse, Valid;
    var o, mgr := Obtained(b, address, m), ManagerFor(b, address, m);
    assert mgr in o.table;
    hide Prepared;
    ReleasedStaysPrepared(o, k, address, mgr);
    ReleasedMaps(o, k, o.routes[k]);
    hide Released;
    var r := Released(o, k, o.routes[k]);
    JoinedIsValid(r, k, address, mgr);
    assert r.routes[k := address] == b.routes[k := address];
  }

  lemma ReleasedMaps(b: Book, k: string, address: string)
    requires k in b.claimManagers && k in b.sshHandlers && b.claimManagers[k] in b.table
    ensures var r := Released(b, k, address);
            r.claimManagers == b.claimManagers - {k} && r.routes == b.routes - {k} &&
            r.sshHandlers == b.sshHandlers - {k} &&
            forall n :: n in b.table ==> n in r.table
  {
    var m, f, r := b.claimManagers[k], Forgotten(b, k), Released(b, k, address);
    assert f.routes == b.routes - {k};
    if |f.table[m].handlers| == 0 {
      assert r == Retired(f, m, address);
    } else {
      assert r == f;
    }
  }

  /** getSSHManager keeps the tracking state valid: for a new claim, for a known
      one, and for one whose router address has changed. */
  lemma AssignedIsValid(b: Book, k: string, address: string, m: nat)
    requires Valid(b) && m !in b.table && address != ""
    ensures forall j :: j in b.claimManagers ==> b.claimManagers[j] in b.table
    ensures ManagerFor(b, address, m) in Obtained(b, address, m).table
    ensures var n := Assigned(b, k, address, m);
            && Valid(n)
            && n.claimManagers.Keys == b.claimManagers.Keys + {k}
            && n.routes == b.routes[k := address]
  {
    hide Core, RegistryInUse, OpenInUse;
    ManagersAreInTable(b);
    ObtainedPrepares(b, address, m);
    hide Valid;
    if k !in b.claimManagers {
      AlignedKeys(b);
      JoinedIsValid(Obtained(b, address, m), k, address, ManagerFor(b, address, m));
    } else if b.routes[k] == address {
      AssignedAgain(b, k, m);
      assert b.routes[k := address] == b.routes;
      assert b.claimManagers.Keys + {k} == b.claimManagers.Keys;
    } else {
      AssignedElsewhere(b, k, address, m);
    }
  }

  lemma AlignedKeys(b: Book)
    requires Valid(b)
    ensures Aligned(b)
  {}

  /** Clean-up keeps the tracking state valid exactly when the address of the
      claim's spec is the tracked one, or another claim stays on the manager; the
      claim is gone from all three maps in any case. */
  lemma CleanedUpIsValidExactlyWhen(b: Book, k: string, address: string)
    requires Valid(b) && k in b.claimManagers
    ensures forall j :: j in b.claimManagers ==> j in b.sshHandlers && j in b.routes && b.claimManagers[j] in b.table
    ensures var n := CleanedUp(b, k, address);
            && n.claimManagers == b.claimManagers - {k} && n.routes == b.routes - {k}
            && n.sshHandlers == b.sshHandlers - {k}
            && (Valid(n) <==> address == b.routes[k] || !Unused(n.claimManagers, b.claimManagers[k]))
  {
    hide Core, RegistryInUse, OpenInUse, Unused;
    ManagersAreInTable(b);
    Tracked(b, k);
    ReleasedRegistry(b, k, address, {});
    LastHandler(b, k);
    if address == b.routes[k] || !Unused(b.claimManagers - {k}, b.claimManagers[k]) {
      assert CleanedUp(b, k, address) == Released(b, k, b.routes[k]);
      ReleasedKeepsCore(b, k);
      ReleasedOpenInUse(b, k, {});
    }
  }

  // ------------------------------------------------------------------ runs

  const EMPTY: Book := Book(map[], map[], map[], map[], map[])

  /** One call of getSSHManager, or a clean-up that reaches :1056 with the tracked
      address; slot is the number of the manager the call may allocate. */
  datatype Op = Use(claim: string, address: string, slot: nat) | Leave(claim: string)

  ghost function Apply(b: Book, op: Op): Book
    requires Valid(b)
    ensures Valid(Apply(b, op))
  {
    match op
    case Use(k, a, m) =>
      if m in b.table || a == "" then b
      else
        AssignedIsValid(b, k, a, m);
        Assigned(b, k, a, m)
    case Leave(k) =>
      if k !in b.claimManagers then b
      else
        ManagersAreInTable(b);
        CleanedUpIsValidExactlyWhen(b, k, b.routes[k]);
        CleanedUp(b, k, b.routes[k])
  }

  ghost function Run(ops: seq<Op>): (b: Book)
    ensures Valid(b)
  {
    if ops == [] then EMPTY else Apply(Run(ops[..|ops| - 1]), ops[|ops| - 1])
  }

  /** After every sequence of calls and clean-ups, address changes included: the
      three claim maps have the same keys, the registered addresses are those in
      use, and for every manager ever created the HandlerCount is the number of its
      claims and it is open exactly while it has any. */
  lemma TrackingAlwaysAgrees(ops: seq<Op>)
    ensures var b := Run(ops);
            && b.sshHandlers.Keys == b.routes.Keys == b.claimManagers.Keys
            && (forall a :: a in b.registry <==> InUse(b.routes, a))
            && (forall m :: m in b.table ==>
                  && |b.table[m].handlers| == |ClaimsOf(b, m)|
                  && (b.table[m].closed <==> ClaimsOf(b, m) == {}))
  {
    var b := Run(ops);
    hide Run;
    forall m | m in b.table
      ensures |b.table[m].handlers| == |ClaimsOf(b, m)| && (b.table[m].closed <==> ClaimsOf(b, m) == {})
    {
      hide RegistryInUse;
      HandlerCountIsClaimCount(b, m);
      ClosedMeansUnused(b, m);
    }
    hide Core, OpenInUse;
    forall a ensures a in b.registry <==> InUse(b.routes, a) { RegisteredMeansInUse(b, a); }
    AlignedKeys(b);
  }

  /** And each claim has one live handler among all managers ever created: its own,
      at the open manager that is registered for its address. */
  lemma EachClaimHasOneLiveHandler(ops: seq<Op>, k: string)
    requires k in Run(ops).claimManagers
    ensures var b := Run(ops);
            && k in b.sshHandlers && k in b.routes && b.routes[k] in b.registry && b.claimManagers[k] in b.table
            && b.registry[b.routes[k]] == b.claimManagers[k] && !b.table[b.claimManagers[k]].closed
            && (forall m, id :: m in b.table && id in b.table[m].handlers ==>
                  (b.table[m].handlers[id] == k <==> m == b.claimManagers[k] && id == b.sshHandlers[k]))
  {
    var b := Run(ops);
    hide Run, RegistryInUse, OpenInUse;
    Tracked(b, k);
    forall m, id | m in b.table && id in b.table[m].handlers
      ensures b.table[m].handlers[id] == k <==> m == b.claimManagers[k] && id == b.sshHandlers[k]
    {
      assert HandlerOk(b, m, id);
    }
  }

  lemma ClosedMeansUnused(b: Book, m: nat)
    requires Valid(b) && m in b.table
    ensures b.table[m].closed <==> ClaimsOf(b, m) == {}
  {
    HandlerCountIsClaimCount(b, m);
    if ClaimsOf(b, m) != {} {
      var k :| k in ClaimsOf(b, m);
      assert ClaimOk(b, k);
    }
  }

  lemma RegisteredMeansInUse(b: Book, a: string)
    requires Valid(b)
    ensures a in b.registry <==> InUse(b.routes, a)
  {
    if InUse(b.routes, a) {
      var k :| k in b.routes && b.routes[k] == a;
      assert ClaimOk(b, k);
    }
  }

  /** A claim on "old:22" is edited to "new:22" and cleaned up before getSSHManager runs
      again: the closed manager stays registered. */
  lemma CleanUpCanLeaveAClosedManager()
    ensures var b := Run([Use("ns/a", "old:22", 0)]);
            && "ns/a" in b.claimManagers && "ns/a" in b.sshHandlers && b.claimManagers["ns/a"] in b.table
            && var n := Released(b, "ns/a", "new:22");
               && "old:22" in n.registry && n.registry["old:22"] in n.table
               && n.table[n.registry["old:22"]].closed && !Valid(n)
  {
    var op := Use("ns/a", "old:22", 0);
    assert [op][..0] == [] && Run([]) == EMPTY;
    var b := Run([op]);
    assert b == Apply(EMPTY, op);
    FirstUse();
    CleanedUpIsValidExactlyWhen(b, "ns/a", "new:22");
  }

  /** The first claim on a router. */
  lemma FirstUse()
    requires Valid(EMPTY)
    ensures Apply(EMPTY, Use("ns/a", "old:22", 0))
         == Book(map["ns/a" := 1], map["ns/a" := "old:22"], map["ns/a" := 0], map["old:22" := 0],
                 map[0 := Manager("old:22", map[1 := "ns/a"], 1, false)])
  {}

  // ------------------------------------------------------------ the objects

  /** The reconciler's maps, the registry and the managers, changed step by step;
      slot is the identity of the manager that a call may allocate. */
  class Tracker {
    var sshHandlers: map<string, nat>
    var routerAssignments: map<string, string>
    var claimManagers: map<string, nat>
    var registry: map<string, nat>
    var table: map<nat, Manager>

    ghost function View(): Book reads this { Book(sshHandlers, routerAssignments, claimManagers, registry, table) }

    constructor ()
      ensures View() == EMPTY
    {
      sshHandlers, routerAssignments, claimManagers, registry, table := map[], map[], map[], map[], map[];
    }

    method GetOrCreate(address: string, slot: nat) returns (m: nat)
      modifies this`registry, this`table
      ensures m == ManagerFor(old(View()), address, slot)
      ensures View() == Obtained(old(View()), address, slot)
      ensures forall n :: n in old(table) ==> n in table
    {
      if address in registry { return registry[address]; }
      m := slot;
      table := table[m := Manager(address, map[], 0, false)];
      registry := registry[address := m];
    }

    /** Leave a manager: used on an address change and by clean-up. */
    method ReleaseHandler(k: string, address: string)
      requires k in claimManagers && k in sshHandlers && claimManagers[k] in table
      modifies this
      ensures View() == Released(old(View()), k, address)
      ensures forall n :: n in old(table) ==> n in table
    {
      var m := claimManagers[k];
      table := table[m := table[m].(handlers := table[m].handlers - {sshHandlers[k]})];
      sshHandlers := sshHandlers - {k};
      routerAssignments := routerAssignments - {k};
      claimManagers := claimManagers - {k};
      assert View() == Forgotten(old(View()), k);
      if |table[m].handlers| == 0 {
        table := table[m := table[m].(closed := true)];
        registry := registry - {address};
      }
    }

    method Register(k: string, address: string, m: nat)
      requires m in table
      modifies this`sshHandlers, this`routerAssignments, this`claimManagers, this`table
      ensures View() == Joined(old(View()), k, address, m)
    {
      var id := table[m].handlerSeq + 1;
      table := table[m := table[m].(handlers := table[m].handlers[id := k], handlerSeq := id)];
      sshHandlers := sshHandlers[k := id];
      claimManagers := claimManagers[k := m];
      routerAssignments := routerAssignments[k := address];
    }

    /** The address-change branch: leave the old manager, join the new one. */
    method Move(k: string, address: string, m: nat)
      requires k in claimManagers && k in sshHandlers && k in routerAssignments
      requires claimManagers[k] in table && m in table
      modifies this
      ensures var left := Released(old(View()), k, old(routerAssignments)[k]);
              m in left.table && View() == Joined(left, k, address, m)
    {
      hide Released, Joined;
      ReleaseHandler(k, routerAssignments[k]);
      Register(k, address, m);
    }

    /** getSSHManager; without the SSH secret it fails before touching anything. */
    method GetSSHManager(k: string, address: string, slot: nat, secretOk: bool) returns (ok: bool)
      requires Valid(View()) && address != "" && slot !in table
      modifies this
      ensures ok == secretOk && Valid(View())
      ensures !secretOk ==> View() == old(View())
      ensures secretOk ==>
        && (forall j :: j in old(claimManagers) ==> old(claimManagers)[j] in old(table))
        && ManagerFor(old(View()), address, slot) in Obtained(old(View()), address, slot).table
        && View() == Assigned(old(View()), k, address, slot)
    {
      hide Valid, Released, Joined, Aligned, Assigned, Obtained, ManagerFor, Core, ClaimOk;
      if !secretOk { return false; }
      ghost var before := View();
      AssignedIsValid(before, k, address, slot);
      ManagersAreInTable(before);
      SameKeys(before, k);
      AssignedByCases(before, k, address, slot);
      var m := GetOrCreate(address, slot);
      ghost var target := Assigned(before, k, address, slot);
      ghost var o := View();
      assert o.routes == before.routes == routerAssignments;
      if k !in routerAssignments {
        Register(k, address, m);
      } else if routerAssignments[k] == address {
        claimManagers := claimManagers[k := m];
      } else {
        Move(k, address, m);
      }
      assert View() == target;
      ok := true;
    }

    /** defaultCleanupRouterInterface from :1056 on. */
    method CleanupHandlers(k: string, address: string)
      requires Valid(View())
      modifies this
      ensures forall j :: j in old(claimManagers) ==> j in old(sshHandlers) && old(claimManagers)[j] in old(table)
      ensures View() == CleanedUp(old(View()), k, address)
      ensures k in old(routerAssignments) && old(routerAssignments)[k] == address ==> Valid(View())
    {
      hide Valid, Released, Aligned;
      ManagersAreInTable(View());
      SameKeys(View(), k);
      if k in claimManagers {
        CleanedUpIsValidExactlyWhen(View(), k, address);
        ReleaseHandler(k, address);
      }
    }
  }

  /** The three courses of getSSHManager. */
  lemma AssignedByCases(b: Book, k: string, address: string, m: nat)
    requires forall j :: j in b.claimManagers ==> b.claimManagers[j] in b.table
    requires ManagerFor(b, address, m) in Obtained(b, address, m).table
    requires (k in b.routes <==> k in b.claimManagers) && (k in b.sshHandlers <==> k in b.claimManagers)
    ensures var o, mgr, n := Obtained(b, address, m), ManagerFor(b, address, m), Assigned(b, k, address, m);
            && o.claimManagers == b.claimManagers && o.routes == b.routes && o.sshHandlers == b.sshHandlers
            && (k !in b.routes ==> n == Joined(o, k, address, mgr))
            && (k in b.routes && b.routes[k] == address ==> n == o.(claimManagers := o.claimManagers[k := mgr]))
            && (k in b.routes && b.routes[k] != address ==>
                  o.claimManagers[k] in o.table && mgr in Released(o, k, b.routes[k]).table &&
                  n == Joined(Released(o, k, b.routes[k]), k, address, mgr))
  {
    var o := Obtained(b, address, m);
    if k in b.routes { ReleasedMaps(o, k, b.routes[k]); }
  }

  lemma SameKeys(b: Book, k: string)
    requires Valid(b)
    ensures (k in b.routes <==> k in b.claimManagers) && (k in b.sshHandlers <==> k in b.claimManagers)
  {}
}
