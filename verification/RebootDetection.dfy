/** Reboot detection from uptime samples: the manager's keep-alive test
    (internal/ssh/manager.go:312-320) and the controller's test on whole seconds
    (internal/controller/publicipclaim_controller.go:724-735). Uptimes are reals. */
module RebootDetection {
  import opened Common

  /** lastUptime survives reconnects: it is only ever replaced by the next sample. */
  class UptimeMonitor {
    var lastUptime: real

    constructor ()
      ensures lastUptime == 0.0
    {
      lastUptime := 0.0;
    }

    method Check(uptime: real) returns (reboot: bool)
      modifies this
      ensures lastUptime == uptime && reboot == Drops(old(lastUptime), uptime)
    {
      var previous := lastUptime;
      lastUptime := uptime;
      reboot := previous > 0.0 && uptime + 1.0 < previous;
    }

    /** Keep-alive over any number of reconnects: one event per drop. */
    method Watch(samples: seq<real>) returns (events: nat)
      requires lastUptime == 0.0 && forall i :: 0 <= i < |samples| ==> samples[i] >= 0.0
      modifies this
      ensures events == DropCount(samples)
    {
      events := 0;
      for i := 0 to |samples|
        invariant lastUptime == if i == 0 then 0.0 else samples[i - 1]
        invariant events == DropCount(samples[..i])
      {
        assert samples[..i + 1][..i] == samples[..i];
        var reboot := Check(samples[i]);
        if reboot { events := events + 1; }
      }
      assert samples[..|samples|] == samples;
    }
  }

  predicate Drops(previous: real, uptime: real) { previous > 0.0 && uptime + 1.0 < previous }

  /** The falls of more than one second between consecutive samples. */
  function DropCount(samples: seq<real>): nat {
    if |samples| <= 1 then 0
    else DropCount(samples[..|samples| - 1]) + (if samples[|samples| - 2] - samples[|samples| - 1] > 1.0 then 1 else 0)
  }

  // ----------------------------------------------------------- boot history

  /** Boot times in order; the router is up from the first one on. */
  predicate History(boots: seq<real>) {
    boots != [] && forall i, j :: 0 <= i < j < |boots| ==> boots[i] < boots[j]
  }

  /** The boot that the uptime at time t counts from. */
  function LastBoot(boots: seq<real>, t: real): (b: real)
    requires History(boots) && boots[0] <= t
    ensures b in boots && b <= t && forall x :: x in boots && x <= t ==> x <= b
  {
    if boots[|boots| - 1] <= t then boots[|boots| - 1]
    else
      var earlier := boots[..|boots| - 1];
      assert boots == earlier + [boots[|boots| - 1]];
      LastBoot(earlier, t)
  }

  function Uptime(boots: seq<real>, t: real): real
    requires History(boots) && boots[0] <= t
  {
    t - LastBoot(boots, t)
  }

  lemma UptimeGrowsWithoutBoot(boots: seq<real>, t0: real, t1: real)
    requires History(boots) && boots[0] <= t0 <= t1
    ensures LastBoot(boots, t1) <= t0 ==> Uptime(boots, t0) <= Uptime(boots, t1)
  {}

  /** Whenever the manager reports a reboot, the router has booted between the two samples. */
  lemma ReportedRebootHappened(boots: seq<real>, t0: real, t1: real)
    requires History(boots) && boots[0] <= t0 <= t1
    requires Drops(Uptime(boots, t0), Uptime(boots, t1))
    ensures exists b :: b in boots && t0 < b <= t1
  {
    UptimeGrowsWithoutBoot(boots, t0, t1);
    assert t0 < LastBoot(boots, t1);
  }

  /** And a boot between the samples is reported exactly when the router had been
      up, at the first sample, for more than a second longer than at the second. */
  lemma RebootReportedExactlyWhen(boots: seq<real>, t0: real, t1: real, b: real)
    requires History(boots) && boots[0] <= t0 <= t1 && b in boots && t0 < b <= t1
    ensures Drops(Uptime(boots, t0), Uptime(boots, t1)) <==> t1 - t0 + 1.0 < LastBoot(boots, t1) - LastBoot(boots, t0)
  {
    assert LastBoot(boots, t1) >= b;
  }

  predicate Ordered(boots: seq<real>, times: seq<real>)
    requires History(boots)
  {
    && (forall i :: 0 <= i < |times| ==> boots[0] <= times[i])
    && (forall i, j :: 0 <= i < j < |times| ==> times[i] <= times[j])
  }

  /** What the samples taken at these times read. */
  function Samples(boots: seq<real>, times: seq<real>): seq<real>
    requires History(boots) && Ordered(boots, times)
  {
    seq(|times|, i requires 0 <= i < |times| => Uptime(boots, times[i]))
  }

  function BootsWithin(boots: seq<real>, t0: real, t1: real): set<real> { set b | b in boots && t0 < b <= t1 }

  /** A later sample adds its report, if any, to the reports and its boot to the boots. */
  lemma NextSample(boots: seq<real>, first: real, t0: real, t1: real)
    requires History(boots) && boots[0] <= t0 <= t1 && first <= t0
    ensures |BootsWithin(boots, first, t1)| >=
            |BootsWithin(boots, first, t0)| + (if Uptime(boots, t0) - Uptime(boots, t1) > 1.0 then 1 else 0)
  {
    var before, after := BootsWithin(boots, first, t0), BootsWithin(boots, first, t1);
    if Uptime(boots, t0) - Uptime(boots, t1) > 1.0 {
      ReportedRebootHappened(boots, t0, t1);
      var b :| b in boots && t0 < b <= t1;
      SubsetSize(before + {b}, after);
    } else {
      SubsetSize(before, after);
    }
  }

  /** Over a whole watch, reconnects included, the reboots reported are never more
      than the boots between the first and the last sample: no boot counts twice. */
  lemma {:induction false} ReportsNeverExceedBoots(boots: seq<real>, times: seq<real>)
    requires History(boots) && Ordered(boots, times) && times != []
    ensures DropCount(Samples(boots, times)) <= |BootsWithin(boots, times[0], times[|times| - 1])|
    decreases |times|
  {
    if |times| == 1 {
    } else {
      var n := |times| - 1;
      ReportsNeverExceedBoots(boots, times[..n]);
      assert Samples(boots, times)[..n] == Samples(boots, times[..n]);
      hide BootsWithin, Uptime;
      NextSample(boots, times[0], times[n - 1], times[n]);
    }
  }

  // ---------------------------------------------------- the controller's test

  /** int64(uptime.Seconds()) against the stored whole seconds. */
  predicate ControllerSeesReboot(previous: int, current: int) { previous > 0 && current + 1 < previous }

  /** On the same two samples the controller's test implies the manager's, and
      fires for every drop of at least two seconds. */
  lemma ControllerAgreesWithManager(previous: real, uptime: real)
    requires previous >= 0.0 && uptime >= 0.0
    ensures ControllerSeesReboot(previous.Floor, uptime.Floor) ==> Drops(previous, uptime)
    ensures previous - uptime >= 2.0 ==> ControllerSeesReboot(previous.Floor, uptime.Floor)
    ensures ControllerSeesReboot(previous.Floor, uptime.Floor) <==> previous.Floor - uptime.Floor >= 2
  {
    var p, u := previous.Floor, uptime.Floor;
    assert p as real <= previous < p as real + 1.0;
    assert u as real <= uptime < u as real + 1.0;
  }
}
