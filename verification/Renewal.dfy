/** The per-lease renewal loop of the agent on an integer clock in nanoseconds
    (internal/agent/agent.go:473-606). An attempt takes at most its 30 s timeout;
    the timer fires when it is due, and an acknowledgement, the save that follows
    it and the timer reset fall on one instant. */
module Renewal {
  import opened Common
  import opened Leases

  const SECOND: int := 1_000_000_000
  const MINUTE: int := 60 * SECOND
  const ATTEMPT_LIMIT: int := 30 * SECOND
  const MAX_BACKOFF: int := 15 * MINUTE

  /** Outcome of one RENEW or REBIND. An acknowledged lease whose save fails is an error to the loop. */
  datatype Attempt =
    | NoAnswer(took: int)
    | Ack(took: int, leaseTime: int, server: string, packets: string, saved: bool)
  {
    predicate Timely() { 0 <= took <= ATTEMPT_LIMIT && (Ack? ==> leaseTime > 0) }

    predicate Works() { Ack? && saved }
  }

  /** One firing of the timer: RENEW, and REBIND if that fails. */
  datatype Round = Round(renew: Attempt, rebind: Attempt) {
    predicate Timely() { renew.Timely() && rebind.Timely() }

    predicate Works() { renew.Works() || rebind.Works() }
  }

  /** The loop parked at its select: the lease, the present, the time the timer fires, the next backoff. */
  datatype Loop = Loop(lease: Lease, now: int, due: int, backoff: int)

  // ---------------------------------------------------------- specification

  /** renewLease keeps the server of the lease, rebindLease takes the one that answered. */
  function Acknowledge(l: Lease, a: Attempt, at: int, newServer: bool): Lease {
    match a
    case NoAnswer(_) => l
    case Ack(_, time, server, packets, _) =>
      l.(expiresAt := at + time, leaseTime := time, renewalCount := l.renewalCount + 1, status := Active,
          packets := packets,
         serverIP := if newServer then server else l.serverIP)
  }

  function Doubled(backoff: int): int { if backoff * 2 > MAX_BACKOFF then MAX_BACKOFF else backoff * 2 }

  function AfterRenew(s: Loop, r: Round): Lease { Acknowledge(s.lease, r.renew, s.due + r.renew.took, false) }

  function Iterate(s: Loop, r: Round): Loop {
    var t1 := s.due + r.renew.took;
    var l1 := AfterRenew(s, r);
    if r.renew.Works() then Loop(l1, t1, t1 + l1.leaseTime / 2, MINUTE)
    else
      var t2 := t1 + r.rebind.took;
      var l2 := Acknowledge(l1, r.rebind, t2, true);
      if r.rebind.Works() then Loop(l2, t2, t2 + l2.leaseTime / 2, MINUTE)
      else Loop(l2.(status := Stale), t2, t2 + s.backoff, Doubled(s.backoff))
  }

  function Run(s: Loop, rounds: seq<Round>): Loop {
    if rounds == [] then s else Iterate(Run(s, rounds[..|rounds| - 1]), rounds[|rounds| - 1])
  }

  /** startRenewalLoop on a lease granted at time `at`. */
  function Started(l: Lease, at: int): Loop { Loop(l, at, at + l.leaseTime / 2, MINUTE) }

  predicate JustGranted(l: Lease, at: int) {
    l.leaseTime > 0 && l.status == Active && l.expiresAt == at + l.leaseTime
  }

  // ------------------------------------------------------- the loop itself

  /** The goroutine's lease object, timer and backoff, changed in place. */
  class RenewalLoop {
    var lease: Lease
    var now: int
    var due: int
    var backoff: int

    ghost function View(): Loop reads this { Loop(lease, now, due, backoff) }

    constructor (l: Lease, at: int)
      ensures View() == Started(l, at)
    {
      lease, now, due, backoff := l, at, at + l.leaseTime / 2, MINUTE;
    }

    method Try(a: Attempt, newServer: bool) returns (ok: bool)
      modifies this
      ensures now == old(now) + a.took && due == old(due) && backoff == old(backoff)
      ensures lease == Acknowledge(old(lease), a, now, newServer) && ok == a.Works()
    {
      now := now + a.took;
      if a.NoAnswer? { return false; }
      lease := lease.(expiresAt := now + a.leaseTime, leaseTime := a.leaseTime, renewalCount := lease.renewalCount + 1,
                      status := Active, packets := a.packets);
      if newServer { lease := lease.(serverIP := a.server); }
      ok := a.saved;
    }

    /** The timer branch of the select. */
    method Fire(r: Round)
      modifies this
      ensures View() == Iterate(old(View()), r)
      ensures r.Works() ==> lease.leaseTime == (if r.renew.Works() then r.renew.leaseTime else r.rebind.leaseTime)
      ensures r.Works() ==> lease.status == Active && lease.expiresAt == now + lease.leaseTime
      ensures r.Works() ==> due == now + lease.leaseTime / 2
      ensures !r.Works() ==> lease.status == Stale && due == now + old(backoff)
    {
      now := due;
      var ok := Try(r.renew, false);
      if !ok {
        ok := Try(r.rebind, true);
        if !ok {
          lease := lease.(status := Stale);
          due := now + backoff;
          backoff := backoff * 2;
          if backoff > MAX_BACKOFF { backoff := MAX_BACKOFF; }
          return;
        }
      }
      backoff := MINUTE;
      due := now + lease.leaseTime / 2;
    }

    method FireAll(rounds: seq<Round>)
      modifies this
      ensures View() == Run(old(View()), rounds)
    {
      for i := 0 to |rounds|
        invariant View() == Run(old(View()), rounds[..i])
      {
        assert rounds[..i + 1][..i] == rounds[..i];
        Fire(rounds[i]);
      }
      assert rounds[..|rounds|] == rounds;
    }
  }

  // ------------------------------------------------------ backoff and status

  predicate AllFail(rounds: seq<Round>) { forall i :: 0 <= i < |rounds| ==> !rounds[i].Works() }

  predicate AllTimely(rounds: seq<Round>) { forall i :: 0 <= i < |rounds| ==> rounds[i].Timely() }

  /** The wait after the k-th failure in a row: min(2^(k-1), 15) minutes. */
  function BackoffAfter(k: nat): int
    requires k >= 1
  {
    Min(Pow2(k - 1) * MINUTE, MAX_BACKOFF)
  }

  /** After k >= 1 failed rounds in a row the lease is Stale and the next round
      starts min(2^(k-1), 15) minutes later, whatever came before the failures. */
  lemma {:induction false} FailuresBackOff(s: Loop, rounds: seq<Round>)
    requires s.backoff == MINUTE && AllFail(rounds) && rounds != []
    ensures var n := Run(s, rounds);
            && n.lease.status == Stale
            && n.due - n.now == BackoffAfter(|rounds|)
            && n.backoff == BackoffAfter(|rounds| + 1)
    decreases |rounds|
  {
    var k := |rounds| - 1;
    if k == 0 {
    } else {
      FailuresBackOff(s, rounds[..k]);
    }
    assert !rounds[k].Works();
  }

  /** After a successful round the lease is Active, runs for the acknowledged lease time
      from the acknowledgement, and the next round starts at half of it. */
  lemma SuccessResets(s: Loop, r: Round)
    requires r.Works()
    ensures var n := Iterate(s, r);
            && n.lease.status == Active && n.backoff == MINUTE
            && n.lease.leaseTime == (if r.renew.Works() then r.renew.leaseTime else r.rebind.leaseTime)
            && n.lease.expiresAt == n.now + n.lease.leaseTime
            && n.due == n.now + n.lease.leaseTime / 2
            && n.lease.renewalCount > s.lease.renewalCount
  {}

  /** Neither RENEW nor REBIND moves a lease to another interface, address or MAC. */
  lemma {:induction false} IdentityIsKept(s: Loop, rounds: seq<Round>)
    ensures SameIdentity(Run(s, rounds).lease, s.lease)
    decreases |rounds|
  {
    if rounds == [] {
      assert Run(s, rounds) == s;
    } else {
      var before, r := Run(s, rounds[..|rounds| - 1]), rounds[|rounds| - 1];
      IdentityIsKept(s, rounds[..|rounds| - 1]);
      AcknowledgeKeepsIdentity(before.lease, r.renew, before.due + r.renew.took, false);
      AcknowledgeKeepsIdentity(AfterRenew(before, r), r.rebind, before.due + r.renew.took + r.rebind.took, true);
    }
  }

  lemma AcknowledgeKeepsIdentity(l: Lease, a: Attempt, at: int, newServer: bool)
    ensures SameIdentity(Acknowledge(l, a, at, newServer), l)
  {}

  // ------------------------------------------------------ what was acknowledged

  /** A DHCP acknowledgement: when it came, for how long, with which packets, and the
      server that gave it, which a REBIND takes over and a RENEW does not. */
  datatype Grant = Grant(at: int, leaseTime: int, packets: string, server: Option<string>)

  /** How many of the last rounds have failed in a row. */
  function FailuresAtEnd(rounds: seq<Round>): nat {
    if rounds == [] || rounds[|rounds| - 1].Works() then 0 else FailuresAtEnd(rounds[..|rounds| - 1]) + 1
  }

  function Duration(r: Round): int { r.renew.took + if r.renew.Works() then 0 else r.rebind.took }

  /** The acknowledgements of a round that starts at `start`. */
  function GrantsOf(r: Round, start: int): seq<Grant> {
    (if r.renew.Ack? then [Grant(start + r.renew.took, r.renew.leaseTime, r.renew.packets, None)] else []) +
    (if !r.renew.Works() && r.rebind.Ack?
     then [Grant(start + Duration(r), r.rebind.leaseTime, r.rebind.packets, Some(r.rebind.server))] else [])
  }

  /** The lease time that a successful round ends with. */
  function GrantedTime(r: Round): int
    requires r.Works()
  {
    if r.renew.Works() then r.renew.leaseTime else r.rebind.leaseTime
  }

  /** When the next round starts, from the answers alone: half the granted time after a
      success, the k-th backoff after the k-th failure in a row. */
  function NextStart(at: int, leaseTime: int, rounds: seq<Round>): int {
    if rounds == [] then at + leaseTime / 2
    else
      var n := |rounds| - 1;
      NextStart(at, leaseTime, rounds[..n]) + Duration(rounds[n]) +
      if rounds[n].Works() then GrantedTime(rounds[n]) / 2 else BackoffAfter(FailuresAtEnd(rounds))
  }

  /** All acknowledgements of a run, from the answers alone. */
  function Grants(at: int, leaseTime: int, rounds: seq<Round>): seq<Grant> {
    if rounds == [] then []
    else
      var n := |rounds| - 1;
      Grants(at, leaseTime, rounds[..n]) + GrantsOf(rounds[n], NextStart(at, leaseTime, rounds[..n]))
  }

  /** The server of the last REBIND among these, or the one before them. */
  function LastServer(grants: seq<Grant>, before: string): string {
    if grants == [] then before
    else
      var last := grants[|grants| - 1];
      if last.server.Some? then last.server.value else LastServer(grants[..|grants| - 1], before)
  }

  /** l is what these acknowledgements make of the lease `first`. */
  predicate Records(l: Lease, first: Lease, grants: seq<Grant>) {
    && l.renewalCount == first.renewalCount + |grants|
    && l.serverIP == LastServer(grants, first.serverIP)
    && l.interfaceExists == first.interfaceExists && SameIdentity(l, first)
    && if grants == [] then
         l.expiresAt == first.expiresAt && l.leaseTime == first.leaseTime && l.packets == first.packets
       else
         var g := grants[|grants| - 1];
         l.expiresAt == g.at + g.leaseTime && l.leaseTime == g.leaseTime && l.packets == g.packets
  }

  lemma AcknowledgementIsRecorded(l: Lease, first: Lease, grants: seq<Grant>, a: Attempt, at: int, rebound: bool)
    requires Records(l, first, grants)
    ensures a.NoAnswer? ==> Records(Acknowledge(l, a, at, rebound), first, grants)
    ensures a.Ack? ==>
            Records(Acknowledge(l, a, at, rebound), first,
                    grants + [Grant(at, a.leaseTime, a.packets, if rebound then Some(a.server) else None)])
    ensures a.Ack? ==> Acknowledge(l, a, at, rebound).status == Active
  {
    if a.Ack? {
      var g := Grant(at, a.leaseTime, a.packets, if rebound then Some(a.server) else None);
      assert (grants + [g])[..|grants|] == grants;
    }
  }

  /** The lease and the timer after every run are exactly what the server has acknowledged:
      expiration, lease time, packets, server and count are those of the acknowledgements,
      the lease is Active unless the last round failed, and the next round comes at half
      the granted time or after the backoff. */
  lemma {:induction false} LeaseRecordsTheGrants(l: Lease, at: int, rounds: seq<Round>)
    requires JustGranted(l, at)
    ensures var s := Run(Started(l, at), rounds);
            && Records(s.lease, l, Grants(at, l.leaseTime, rounds))
            && s.due == NextStart(at, l.leaseTime, rounds)
            && s.backoff == BackoffAfter(FailuresAtEnd(rounds) + 1)
            && s.lease.status == (if FailuresAtEnd(rounds) == 0 then Active else Stale)
    decreases |rounds|
  {
    if rounds == [] {
    } else {
      var n := |rounds| - 1;
      LeaseRecordsTheGrants(l, at, rounds[..n]);
      RoundRecordsItsGrants(Run(Started(l, at), rounds[..n]), l, Grants(at, l.leaseTime, rounds[..n]), rounds[n]);
      BackoffDoubles(FailuresAtEnd(rounds[..n]) + 1);
    }
  }

  lemma BackoffDoubles(k: nat)
    requires k >= 1
    ensures Doubled(BackoffAfter(k)) == BackoffAfter(k + 1) && BackoffAfter(1) == MINUTE
  {
    assert Pow2(k) == 2 * Pow2(k - 1);
  }

  lemma RoundRecordsItsGrants(s: Loop, first: Lease, grants: seq<Grant>, r: Round)
    requires Records(s.lease, first, grants)
    ensures Records(Iterate(s, r).lease, first, grants + GrantsOf(r, s.due))
    ensures var n := Iterate(s, r);
            n.now == s.due + Duration(r) && (r.Works() ==> n.lease.leaseTime == GrantedTime(r))
  {
    var t1 := s.due + r.renew.took;
    var g1 := if r.renew.Ack? then [Grant(t1, r.renew.leaseTime, r.renew.packets, None)] else [];
    AcknowledgementIsRecorded(s.lease, first, grants, r.renew, t1, false);
    assert grants + [] == grants;
    if r.renew.Works() {
      assert GrantsOf(r, s.due) == g1;
    } else {
      var t2 := t1 + r.rebind.took;
      var g2 := if r.rebind.Ack? then [Grant(t2, r.rebind.leaseTime, r.rebind.packets, Some(r.rebind.server))] else [];
      var l1 := AfterRenew(s, r);
      assert GrantsOf(r, s.due) == g1 + g2;
      assert (grants + g1) + g2 == grants + GrantsOf(r, s.due);
      AcknowledgementIsRecorded(l1, first, grants + g1, r.rebind, t2, true);
      assert (grants + g1) + [] == grants + g1;
      hide Acknowledge, GrantsOf, LastServer;
    }
  }

  /** When the server's last grant runs out. */
  function ServerExpiration(l: Lease, at: int, rounds: seq<Round>): int {
    var g := Grants(at, l.leaseTime, rounds);
    if g == [] then at + l.leaseTime else g[|g| - 1].at + g[|g| - 1].leaseTime
  }

  // ------------------------------------------------------- before expiration

  /** A stretch of time, start included and end excluded, with what the lease says during it. */
  datatype Segment = Segment(start: int, end: int, lease: Lease)

  /** One round: from the present to the end of RENEW, and on to the end of REBIND if it is tried. */
  function Segments(s: Loop, r: Round): seq<Segment> {
    var t1 := s.due + r.renew.took;
    [Segment(s.now, t1, s.lease)] +
    (if r.renew.Works() then [] else [Segment(t1, t1 + r.rebind.took, AfterRenew(s, r))])
  }

  function Timeline(s: Loop, rounds: seq<Round>): seq<Segment> {
    if rounds == [] then []
    else Timeline(s, rounds[..|rounds| - 1]) + Segments(Run(s, rounds[..|rounds| - 1]), rounds[|rounds| - 1])
  }

  /** At no instant of the stretch is the lease Active at or after its expiration. */
  predicate Honest(g: Segment) { g.lease.status == Active ==> g.end <= g.lease.expiresAt }

  predicate LongEnough(leaseTime: int) { leaseTime - leaseTime / 2 >= 2 * ATTEMPT_LIMIT }

  predicate GrantsLongEnough(r: Round) {
    && (r.renew.Ack? ==> LongEnough(r.renew.leaseTime))
    && (r.rebind.Ack? ==> LongEnough(r.rebind.leaseTime))
  }

  /** Parked with an Active lease, the loop wakes two attempts before expiration. */
  predicate InTime(s: Loop) { s.lease.status == Active ==> s.due + 2 * ATTEMPT_LIMIT <= s.lease.expiresAt }

  lemma RoundIsHonest(s: Loop, r: Round)
    requires InTime(s) && r.Timely() && GrantsLongEnough(r)
    ensures InTime(Iterate(s, r))
    ensures forall i :: 0 <= i < |Segments(s, r)| ==> Honest(Segments(s, r)[i])
  {}

  /** Over every run, with grants long enough for two attempts after half the lease
      time, the lease is never Active at or after ExpiresAt. */
  lemma {:induction false} NeverActivePastExpiration(l: Lease, at: int, rounds: seq<Round>)
    requires JustGranted(l, at) && LongEnough(l.leaseTime)
    requires AllTimely(rounds) && forall i :: 0 <= i < |rounds| ==> GrantsLongEnough(rounds[i])
    ensures InTime(Run(Started(l, at), rounds))
    ensures forall i :: 0 <= i < |Timeline(Started(l, at), rounds)| ==> Honest(Timeline(Started(l, at), rounds)[i])
    decreases |rounds|
  {
    if rounds == [] {
    } else {
      var k := |rounds| - 1;
      NeverActivePastExpiration(l, at, rounds[..k]);
      RoundIsHonest(Run(Started(l, at), rounds[..k]), rounds[k]);
    }
  }

  /** So the lease is never Active past what the server has granted: as long as it says
      Active, the next round and both its attempts end before the server's expiration. */
  lemma NeverActivePastTheServersGrant(l: Lease, at: int, rounds: seq<Round>)
    requires JustGranted(l, at) && LongEnough(l.leaseTime)
    requires AllTimely(rounds) && forall i :: 0 <= i < |rounds| ==> GrantsLongEnough(rounds[i])
    ensures var s := Run(Started(l, at), rounds);
            && s.lease.expiresAt == ServerExpiration(l, at, rounds)
            && (s.lease.status == Active ==> s.due + 2 * ATTEMPT_LIMIT <= ServerExpiration(l, at, rounds))
  {
    LeaseRecordsTheGrants(l, at, rounds);
    NeverActivePastExpiration(l, at, rounds);
  }

  /** The stretches cover the time from the grant to the present without a gap. */
  lemma {:induction false} TimelineIsContiguous(s: Loop, rounds: seq<Round>)
    ensures var g := Timeline(s, rounds);
            && (rounds != [] ==> g != [] && g[0].start == s.now && g[|g| - 1].end == Run(s, rounds).now)
            && (forall i :: 0 <= i < |g| - 1 ==> g[i].end == g[i + 1].start)
    decreases |rounds|
  {
    if rounds == [] {
    } else {
      TimelineIsContiguous(s, rounds[..|rounds| - 1]);
    }
  }

  /** The bound on the lease time is exact: with a shorter one, two attempts that
      time out leave the lease Active past its expiration. */
  lemma LongEnoughIsExact(l: Lease, at: int)
    requires JustGranted(l, at)
    ensures LongEnough(l.leaseTime) <==>
      forall r: Round :: r.Timely() && r.renew.NoAnswer? ==>
        forall i :: 0 <= i < |Segments(Started(l, at), r)| ==> Honest(Segments(Started(l, at), r)[i])
  {
    var s := Started(l, at);
    var slow := Round(NoAnswer(ATTEMPT_LIMIT), NoAnswer(ATTEMPT_LIMIT));
    assert slow.Timely();
    assert Segments(s, slow)[1] == Segment(s.due + ATTEMPT_LIMIT, s.due + 2 * ATTEMPT_LIMIT, l);
  }

  // -------------------------------------------------- attempts before expiration

  /** Rounds of a run of failures start at most 16 minutes apart. */
  lemma {:induction false} FailedRoundsKeepComing(s: Loop, rounds: seq<Round>)
    requires s.backoff == MINUTE && AllFail(rounds) && AllTimely(rounds)
    ensures s.due <= Run(s, rounds).due <= s.due + |rounds| * (16 * MINUTE)
    decreases |rounds|
  {
    if rounds == [] {
    } else {
      var k := |rounds| - 1;
      FailedRoundsKeepComing(s, rounds[..k]);
      assert rounds[k].Timely() && !rounds[k].Works();
      var mid := Run(s, rounds[..k]);
      if k > 0 { FailuresBackOff(s, rounds[..k]); }
      assert MINUTE <= mid.backoff <= MAX_BACKOFF by {
        if k > 0 { BackoffIsPositive(k + 1); }
      }
    }
  }

  lemma {:induction false} BackoffIsPositive(k: nat)
    requires k >= 1
    ensures MINUTE <= BackoffAfter(k) <= MAX_BACKOFF
  {
    if k == 1 {
    } else {
      BackoffIsPositive(k - 1);
    }
  }

  /** ceil((L - L/2) / 16 min). */
  function RoundsBeforeExpiration(leaseTime: int): int {
    (leaseTime - leaseTime / 2 + 16 * MINUTE - 1) / (16 * MINUTE)
  }

  lemma ProductGrows(a: int, b: int, step: int)
    requires a <= b && step > 0
    ensures a * step <= b * step
  {
    assert b * step - a * step == (b - a) * step;
  }

  lemma CeilingBound(gap: int, step: int, n: nat)
    requires step > 0 && n < (gap + step - 1) / step
    ensures n * step < gap
  {
    var c := (gap + step - 1) / step;
    assert c * step <= gap + step - 1;
    ProductGrows(n + 1, c, step);
    assert (n + 1) * step == n * step + step;
  }

  /** In every run of failures the first round starts at half the lease time, and
      round number n (from 0) starts before expiration for every n below
      ceil((L - L/2) / 16 min): at least so many attempts are made in time. */
  lemma AttemptsBeforeExpiration(l: Lease, at: int, rounds: seq<Round>)
    requires JustGranted(l, at) && AllFail(rounds) && AllTimely(rounds)
    requires |rounds| < RoundsBeforeExpiration(l.leaseTime)
    ensures Started(l, at).due == at + l.leaseTime / 2
    ensures Run(Started(l, at), rounds).due < l.expiresAt
  {
    hide Run, AllFail, AllTimely;
    FailedRoundsKeepComing(Started(l, at), rounds);
    CeilingBound(l.leaseTime - l.leaseTime / 2, 16 * MINUTE, |rounds|);
  }
}
