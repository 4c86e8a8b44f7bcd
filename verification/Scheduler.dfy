/** Which device is polled next, and what that means for a device that is overdue. */
module Scheduler {
  import opened Sequences
  import opened ReadPlanner

  datatype Device = Device(id: int, isActive: bool, timeForRecall: int, timeout: nat, retryCount: int,
                           nextReadAt: int, steps: seq<ReadStep>)

  /** A completed poll at time `now` sets the next deadline. */
  function Finished(d: Device, now: int): Device {
    d.(nextReadAt := now + d.timeForRecall)
  }

  function TimeoutIncreased(d: Device): Device {
    d.(timeout := d.timeout + 50)
  }

  // ----- The choice -----

  /** The best of the first device and the active ones among the first `n`. */
  function ChooseAmong(devices: seq<Device>, n: nat): (c: nat)
    requires n <= |devices| && devices != []
    ensures c < |devices|
  {
    if n == 0 then 0
    else
      var c := ChooseAmong(devices, n - 1);
      if devices[n - 1].nextReadAt < devices[c].nextReadAt && devices[n - 1].isActive then n - 1 else c
  }

  function Choose(devices: seq<Device>): (c: nat)
    requires devices != []
    ensures c < |devices|
  {
    ChooseAmong(devices, |devices|)
  }

  lemma {:induction false} ChooseAmongLeast(devices: seq<Device>, n: nat)
    requires n <= |devices| && devices != []
    ensures var c := ChooseAmong(devices, n);
            && (c == 0 || (devices[c].isActive && devices[c].nextReadAt < devices[0].nextReadAt && c < n))
            && (forall i :: 0 <= i < n && devices[i].isActive ==> devices[c].nextReadAt <= devices[i].nextReadAt)
            && (forall i :: 0 <= i < c && devices[i].isActive ==> devices[c].nextReadAt < devices[i].nextReadAt)
            && devices[c].nextReadAt <= devices[0].nextReadAt
  {
    if n > 0 {
      ChooseAmongLeast(devices, n - 1);
    }
  }

  /** The active device with the oldest deadline, the first one among equals. */
  ghost predicate IsOldest(devices: seq<Device>, c: nat) {
    && c < |devices| && devices[c].isActive
    && (forall i :: 0 <= i < |devices| && devices[i].isActive ==> devices[c].nextReadAt <= devices[i].nextReadAt)
    && (forall i :: 0 <= i < c && devices[i].isActive ==> devices[c].nextReadAt < devices[i].nextReadAt)
  }

  /** The first device does not stand in the way: it is active itself, or some active device is due before it. */
  ghost predicate NotBlocked(devices: seq<Device>) {
    devices != [] && (devices[0].isActive || exists i :: 0 <= i < |devices| && devices[i].isActive && devices[i].nextReadAt < devices[0].nextReadAt)
  }

  /**
    The choice is the most-lagging active device exactly when the first device does not block it: an inactive first
    device is the baseline of the comparison, and wins it against every active device that is not due before it.
  */
  lemma ChoosesOldest(devices: seq<Device>)
    requires devices != []
    ensures IsOldest(devices, Choose(devices)) <==> NotBlocked(devices)
  {
    ChooseAmongLeast(devices, |devices|);
  }

  // ----- Rounds -----

  /** One round of the loop with a healthy connection: the chosen device is polled if it is active. */
  function Round(devices: seq<Device>, now: int): seq<Device>
    requires devices != []
  {
    var c := Choose(devices);
    if devices[c].isActive then devices[c := Finished(devices[c], now)] else devices
  }

  function Rounds(devices: seq<Device>, times: seq<int>): (r: seq<Device>)
    requires devices != []
    ensures |r| == |devices|
  {
    if times == [] then devices else Round(Rounds(devices, Front(times)), Last(times))
  }

  /** A poll changes deadlines only. */
  lemma {:induction false} RoundsKeepActive(devices: seq<Device>, times: seq<int>)
    requires devices != []
    ensures forall i :: 0 <= i < |devices| ==>
              Rounds(devices, times)[i] == devices[i].(nextReadAt := Rounds(devices, times)[i].nextReadAt)
  {
    if times != [] {
      RoundsKeepActive(devices, Front(times));
    }
  }

  /** A blocked list of devices is never polled again; one that is not blocked is polled at once. */
  lemma StarvesExactly(devices: seq<Device>)
    requires devices != []
    ensures (forall times :: Rounds(devices, times) == devices) <==> !NotBlocked(devices)
  {
    ChooseAmongLeast(devices, |devices|);
    if NotBlocked(devices) {
      var d := devices[Choose(devices)];
      var times := [d.nextReadAt - d.timeForRecall + 1];
      assert Front(times) == [];
      assert Rounds(devices, times)[Choose(devices)].nextReadAt == d.nextReadAt + 1;
    } else {
      forall times ensures Rounds(devices, times) == devices { NeverPolled(devices, times); }
    }
  }

  lemma {:induction false} NeverPolled(devices: seq<Device>, times: seq<int>)
    requires devices != [] && !NotBlocked(devices)
    ensures Rounds(devices, times) == devices
  {
    if times != [] {
      NeverPolled(devices, Front(times));
      ChooseAmongLeast(devices, |devices|);
    }
  }

  // ----- Fairness -----

  /** The device that is polled in round `k`. */
  function Polled(devices: seq<Device>, times: seq<int>, k: nat): nat
    requires devices != [] && k < |times|
  {
    Choose(Rounds(devices, times[..k]))
  }

  /** Every poll of the run sets a deadline after `bound`. */
  ghost predicate Past(devices: seq<Device>, times: seq<int>, bound: int) {
    forall i, k :: 0 <= i < |devices| && 0 <= k < |times| ==> times[k] + devices[i].timeForRecall > bound
  }

  lemma PastPrefix(devices: seq<Device>, times: seq<int>, bound: int, k: nat)
    requires Past(devices, times, bound) && k <= |times|
    ensures Past(devices, times[..k], bound)
  {
    assert forall n :: 0 <= n < k ==> times[..k][n] == times[n];
  }

  lemma SamePolls(devices: seq<Device>, times: seq<int>, k: nat)
    requires devices != [] && k <= |times|
    ensures forall n :: 0 <= n < k ==> Polled(devices, times[..k], n) == Polled(devices, times, n)
  {
    forall n | 0 <= n < k ensures Polled(devices, times[..k], n) == Polled(devices, times, n) {
      assert times[..k][..n] == times[..n];
    }
  }

  /** An active device that was polled has a deadline after `bound`, and any device that was not keeps its deadline. */
  lemma {:induction false} DeadlinesMove(devices: seq<Device>, times: seq<int>, bound: int, i: nat)
    requires devices != [] && i < |devices| && Past(devices, times, bound)
    ensures if devices[i].isActive && exists k :: 0 <= k < |times| && Polled(devices, times, k) == i
            then Rounds(devices, times)[i].nextReadAt > bound
            else Rounds(devices, times)[i] == devices[i]
  {
    if times != [] {
      var p, n := Front(times), |times| - 1;
      PastPrefix(devices, times, bound, n);
      SamePolls(devices, times, n);
      hide Choose;
      DeadlinesMove(devices, p, bound, i);
      RoundsKeepActive(devices, p);
      assert times[n] + devices[i].timeForRecall > bound;
      assert (exists k :: 0 <= k < |times| && Polled(devices, times, k) == i)
        <==> Polled(devices, times, n) == i || exists k :: 0 <= k < |p| && Polled(devices, p, k) == i;
    }
  }

  /** The deadline of a device lies its recall time after its last poll. */
  lemma {:induction false} DeadlinesExactly(devices: seq<Device>, times: seq<int>, k: nat)
    requires devices != [] && k < |times|
    requires forall n :: k < n < |times| ==> Polled(devices, times, n) != Polled(devices, times, k)
    ensures var i := Polled(devices, times, k);
            devices[i].isActive ==> Rounds(devices, times)[i].nextReadAt == times[k] + devices[i].timeForRecall
  {
    var p, n := Front(times), |times| - 1;
    SamePolls(devices, times, n);
    hide Choose;
    RoundsKeepActive(devices, p);
    if k < n {
      assert Polled(devices, times, n) != Polled(devices, times, k);
      DeadlinesExactly(devices, p, k);
    }
  }

  // ----- Which devices are ever served -----

  /** The first device does not stand in the way of device `d`: it is active itself, or `d` is due before it. */
  predicate Unblocked(devices: seq<Device>, d: nat)
    requires d < |devices|
  {
    devices[0].isActive || devices[d].nextReadAt < devices[0].nextReadAt
  }

  /** Until an unblocked active device is polled, the choice is the oldest active device. */
  lemma OldestUntilPolled(devices: seq<Device>, times: seq<int>, d: nat)
    requires d < |devices| && devices[d].isActive && Unblocked(devices, d)
    requires forall k :: 0 <= k < |times| ==> Polled(devices, times, k) != d
    ensures Unblocked(Rounds(devices, times), d) && Rounds(devices, times)[d] == devices[d]
    ensures IsOldest(Rounds(devices, times), Choose(Rounds(devices, times)))
  {
    hide Polled, Choose, IsOldest;
    Untouched(devices, times, d);
    if !devices[0].isActive {
      Untouched(devices, times, 0);
    }
    RoundsKeepActive(devices, times);
    ChoosesOldest(Rounds(devices, times));
    assert Rounds(devices, times)[d].isActive;
  }

  /** A device that is inactive or was never chosen is as it was. */
  lemma {:induction false} Untouched(devices: seq<Device>, times: seq<int>, i: nat)
    requires i < |devices|
    requires devices[i].isActive ==> forall k :: 0 <= k < |times| ==> Polled(devices, times, k) != i
    ensures Rounds(devices, times)[i] == devices[i]
  {
    if times != [] {
      var p, n := Front(times), |times| - 1;
      SamePolls(devices, times, n);
      assert devices[i].isActive ==> Polled(devices, times, n) != i;
      hide Choose;
      Untouched(devices, p, i);
    }
  }

  /** A blocked device is never chosen, whenever and for however long the others are polled. */
  lemma {:induction false} BlockedForEver(devices: seq<Device>, times: seq<int>, d: nat)
    requires 0 < d < |devices| && !Unblocked(devices, d)
    ensures Rounds(devices, times)[d] == devices[d] && Rounds(devices, times)[0] == devices[0]
    ensures Choose(Rounds(devices, times)) != d
  {
    if times != [] {
      BlockedForEver(devices, Front(times), d);
    }
    ChooseAmongLeast(Rounds(devices, times), |devices|);
  }

  /** Some moment is so late that every poll from then on sets a deadline after `bound`. */
  lemma {:induction false} LateEnough(devices: seq<Device>, bound: int) returns (now: int)
    ensures forall i :: 0 <= i < |devices| ==> now + devices[i].timeForRecall > bound
  {
    now := 0;
    if devices != [] {
      now := LateEnough(Front(devices), bound);
      var last := bound - Last(devices).timeForRecall + 1;
      now := if now < last then last else now;
    }
  }

  /** Some run polls the active device `d` if and only if the first device does not block it. */
  lemma ServedExactly(devices: seq<Device>, d: nat)
    requires d < |devices| && devices[d].isActive
    ensures (exists times, k :: 0 <= k < |times| && Polled(devices, times, k) == d) <==> Unblocked(devices, d)
  {
    if Unblocked(devices, d) {
      var now := LateEnough(devices, devices[d].nextReadAt);
      var times := seq(|devices|, k requires 0 <= k < |devices| => now);
      hide Polled;
      if forall k :: 0 <= k < |times| ==> Polled(devices, times, k) != d {
        Fair(devices, times, d);
      }
      var k :| 0 <= k < |times| && Polled(devices, times, k) == d;
    } else {
      forall times, k | 0 <= k < |times| ensures Polled(devices, times, k) != d {
        BlockedForEver(devices, times[..k], d);
      }
    }
  }

  /**
    Fairness: while an unblocked active device `d` waits and polls set deadlines after its own, every other device
    completes at most one poll, so `d` is polled within as many rounds as there are devices.
  */
  lemma Fair(devices: seq<Device>, times: seq<int>, d: nat)
    requires d < |devices| && devices[d].isActive && Unblocked(devices, d) && Past(devices, times, devices[d].nextReadAt)
    requires forall k :: 0 <= k < |times| ==> Polled(devices, times, k) != d
    ensures forall j, k :: 0 <= j < k < |times| ==> Polled(devices, times, j) != Polled(devices, times, k)
    ensures |times| < |devices|
  {
    hide Past, Unblocked;
    forall j, k | 0 <= j < k < |times| ensures Polled(devices, times, j) != Polled(devices, times, k) {
      OncePolled(devices, times, d, j, k);
    }
    var polled := seq(|times|, k requires 0 <= k < |times| => Polled(devices, times, k));
    Pigeonhole(polled + [d], |devices|);
  }

  lemma OncePolled(devices: seq<Device>, times: seq<int>, d: nat, j: nat, k: nat)
    requires d < |devices| && devices[d].isActive && Unblocked(devices, d) && Past(devices, times, devices[d].nextReadAt)
    requires forall k :: 0 <= k < |times| ==> Polled(devices, times, k) != d
    requires j < k < |times|
    ensures Polled(devices, times, j) != Polled(devices, times, k)
  {
    var p, c := times[..k], Polled(devices, times, j);
    SamePolls(devices, times, k);
    PastPrefix(devices, times, devices[d].nextReadAt, k);
    assert Polled(devices, p, j) == c;
    OldestUntilPolled(devices, p, d);
    DeadlinesMove(devices, p, devices[d].nextReadAt, c);
    RoundsKeepActive(devices, p);
  }

  // ----- The end of service behind an inactive first device -----

  /** Blocked once, blocked for ever. */
  lemma BlockedStays(devices: seq<Device>, times: seq<int>, k: nat)
    requires devices != [] && k <= |times| && !NotBlocked(Rounds(devices, times[..k]))
    ensures Rounds(devices, times) == Rounds(devices, times[..k])
  {
    RoundsSplit(devices, times, k);
    NeverPolled(Rounds(devices, times[..k]), times[k..]);
  }

  lemma {:induction false} RoundsSplit(devices: seq<Device>, times: seq<int>, k: nat)
    requires devices != [] && k <= |times|
    ensures Rounds(devices, times) == Rounds(Rounds(devices, times[..k]), times[k..])
  {
    if k < |times| {
      RoundsSplit(devices, Front(times), k);
      assert Front(times)[..k] == times[..k] && Front(times[k..]) == Front(times)[k..];
    } else {
      assert times[..k] == times;
    }
  }

  /**
    Behind an inactive first device service ends: once polls set deadlines that are not before its own, every device
    is polled at most once more, and after fewer rounds than there are devices nobody is polled again.
  */
  lemma ServiceEnds(devices: seq<Device>, times: seq<int>, later: seq<int>)
    requires devices != [] && !devices[0].isActive && Past(devices, times, devices[0].nextReadAt - 1)
    requires |times| >= |devices| - 1
    ensures !NotBlocked(Rounds(devices, times))
    ensures Rounds(devices, times + later) == Rounds(devices, times)
  {
    if NotBlocked(Rounds(devices, times)) {
      forall k | 0 <= k <= |times| ensures NotBlocked(Rounds(devices, times[..k])) {
        hide NotBlocked;
        if !NotBlocked(Rounds(devices, times[..k])) {
          BlockedStays(devices, times, k);
        }
      }
      StillServed(devices, times);
    }
    hide NotBlocked;
    assert (times + later)[..|times|] == times;
    BlockedStays(devices, times + later, |times|);
  }

  /** As long as anybody is served behind an inactive first device, there have been fewer rounds than other devices. */
  lemma StillServed(devices: seq<Device>, times: seq<int>)
    requires devices != [] && !devices[0].isActive && Past(devices, times, devices[0].nextReadAt - 1)
    requires forall k :: 0 <= k <= |times| ==> NotBlocked(Rounds(devices, times[..k]))
    ensures |times| + 1 < |devices|
  {
    var chosen := seq(|times| + 1, k requires 0 <= k <= |times| => Choose(Rounds(devices, times[..k])));
    hide NotBlocked, Past, Choose, Rounds;
    forall k | 0 <= k <= |times| ensures chosen[k] != 0 {
      ChosenIsDue(devices, times[..k]);
    }
    forall j, k | 0 <= j < k <= |times| ensures chosen[j] != chosen[k] {
      ChosenOnce(devices, times, j, k);
    }
    Pigeonhole(chosen + [0], |devices|);
  }

  lemma ChosenIsDue(devices: seq<Device>, times: seq<int>)
    requires devices != [] && !devices[0].isActive && NotBlocked(Rounds(devices, times))
    ensures var after := Rounds(devices, times);
            var c := Choose(after);
            && c != 0 && after[0] == devices[0] && devices[c].isActive
            && after[c].nextReadAt < devices[0].nextReadAt
  {
    ChooseAmongLeast(Rounds(devices, times), |devices|);
    ChoosesOldest(Rounds(devices, times));
    hide Choose;
    Untouched(devices, times, 0);
    RoundsKeepActive(devices, times);
  }

  lemma ChosenOnce(devices: seq<Device>, times: seq<int>, j: nat, k: nat)
    requires devices != [] && !devices[0].isActive && Past(devices, times, devices[0].nextReadAt - 1)
    requires j < k <= |times|
    requires NotBlocked(Rounds(devices, times[..j])) && NotBlocked(Rounds(devices, times[..k]))
    ensures Choose(Rounds(devices, times[..j])) != Choose(Rounds(devices, times[..k]))
  {
    var c := Choose(Rounds(devices, times[..j]));
    SamePolls(devices, times, k);
    PastPrefix(devices, times, devices[0].nextReadAt - 1, k);
    assert Polled(devices, times[..k], j) == c;
    hide Choose, NotBlocked, Past, Polled;
    ChosenIsDue(devices, times[..j]);
    ChosenIsDue(devices, times[..k]);
    DeadlinesMove(devices, times[..k], devices[0].nextReadAt - 1, c);
  }

  // ----- Devices as they are created -----

  /** Devices are created one after another, each due at the time of its creation: none is due before the first one. */
  predicate CreatedInOrder(devices: seq<Device>) {
    forall i :: 0 <= i < |devices| ==> devices[0].nextReadAt <= devices[i].nextReadAt
  }

  /** Then everything depends on the first device: if it is inactive it is chosen itself, and nobody is ever polled. */
  lemma FirstDecides(devices: seq<Device>)
    requires devices != [] && CreatedInOrder(devices)
    ensures NotBlocked(devices) <==> devices[0].isActive
    ensures devices[Choose(devices)].isActive <==> devices[0].isActive
    ensures (forall times :: Rounds(devices, times) == devices) <==> !devices[0].isActive
  {
    ChooseAmongLeast(devices, |devices|);
    hide Choose, Rounds;
    StarvesExactly(devices);
  }

  /** An input: two active devices, created at the same and at a later moment, behind an inactive one. */
  lemma NeverPolledExample(times: seq<int>)
    ensures var devices := [Device(1, false, 1000, 0, 1, 100, []), Device(2, true, 1000, 0, 1, 100, []), Device(3, true, 1000, 0, 1, 150, [])];
            CreatedInOrder(devices) && Rounds(devices, times) == devices
  {
    var devices := [Device(1, false, 1000, 0, 1, 100, []), Device(2, true, 1000, 0, 1, 100, []), Device(3, true, 1000, 0, 1, 150, [])];
    hide Rounds;
    FirstDecides(devices);
  }

  // ----- Counting -----

  lemma Pigeonhole(s: seq<nat>, n: nat)
    requires forall i :: 0 <= i < |s| ==> s[i] < n
    requires forall i, j :: 0 <= i < j < |s| ==> s[i] != s[j]
    ensures |s| <= n
  {
    MembersCount(s);
    assert Members(s) + (Below(n) - Members(s)) == Below(n);
  }

  ghost function Members(s: seq<nat>): set<int> {
    set x | x in s
  }

  ghost function Below(n: nat): (r: set<int>)
    ensures |r| == n && forall i :: i in r <==> 0 <= i < n
  {
    if n == 0 then {} else Below(n - 1) + {n - 1}
  }

  lemma {:induction false} MembersCount(s: seq<nat>)
    requires forall i, j :: 0 <= i < j < |s| ==> s[i] != s[j]
    ensures |Members(s)| == |s|
  {
    if s != [] {
      MembersCount(Front(s));
      FrontLast(s);
      assert Members(s) == Members(Front(s)) + {Last(s)};
    }
  }
}
