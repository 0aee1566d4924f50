/**
 * The in-memory cluster the controller's tests run against, the pod builder
 * they use, and the four table-driven scenarios.
 *
 * The fake serves both calls of a pass: listing returns its current pods
 * whatever the filters, and deleting filters out every pod with the given
 * namespace and name and never fails. A pass lists once and then iterates
 * that snapshot, so the fake's deletions never change what the pass sees.
 * The scenarios therefore run `Once` against the snapshot and then apply its
 * delete calls to the fake in the order they were issued, which leaves the
 * fake in the same state as interleaving them would.
 */
module ControllerTest {
  import opened Wrappers
  import opened Pods
  import opened Controller

  predicate Named(p: Pod, namespace: string, name: string) {
    p.namespace == namespace && p.name == name
  }

  /** `pods` without the pods named `namespace`/`name`, the others in their order. */
  function Without(pods: seq<Pod>, namespace: string, name: string): seq<Pod>
    decreases |pods|
  {
    if pods == [] then []
    else (if Named(pods[0], namespace, name) then [] else [pods[0]]) + Without(pods[1..], namespace, name)
  }

  /** Filtering distributes over concatenation, so the kept pods stay in order. */
  lemma {:induction false} WithoutAppend(a: seq<Pod>, b: seq<Pod>, namespace: string, name: string)
    ensures Without(a + b, namespace, name) == Without(a, namespace, name) + Without(b, namespace, name)
    decreases |a|
  {
    if a == [] {
      assert a + b == b;
    } else {
      assert (a + b)[0] == a[0];
      assert (a + b)[1..] == a[1..] + b;
      WithoutAppend(a[1..], b, namespace, name);
    }
  }

  /** A pod survives exactly when it was there and is not the one named. */
  lemma {:induction false} WithoutMembers(pods: seq<Pod>, namespace: string, name: string, p: Pod)
    ensures p in Without(pods, namespace, name) <==> p in pods && !Named(p, namespace, name)
    decreases |pods|
  {
    if pods != [] {
      WithoutMembers(pods[1..], namespace, name, p);
      assert pods == [pods[0]] + pods[1..];
    }
  }

  /** Deleting a name that is not listed changes nothing. */
  lemma {:induction false} WithoutAbsent(pods: seq<Pod>, namespace: string, name: string)
    requires forall i :: 0 <= i < |pods| ==> !Named(pods[i], namespace, name)
    ensures Without(pods, namespace, name) == pods
    decreases |pods|
  {
    if pods != [] {
      WithoutAbsent(pods[1..], namespace, name);
      assert pods == [pods[0]] + pods[1..];
    }
  }

  /** Deleting never adds a pod, and removes one for each pod with the name. */
  lemma {:induction false} WithoutLength(pods: seq<Pod>, namespace: string, name: string)
    ensures |Without(pods, namespace, name)| <= |pods|
    ensures (exists i :: 0 <= i < |pods| && Named(pods[i], namespace, name)) ==>
              |Without(pods, namespace, name)| < |pods|
    decreases |pods|
  {
    if pods != [] {
      WithoutLength(pods[1..], namespace, name);
      if exists i :: 0 <= i < |pods| && Named(pods[i], namespace, name) {
        var i :| 0 <= i < |pods| && Named(pods[i], namespace, name);
        if i > 0 {
          assert pods[1..][i - 1] == pods[i];
        }
      }
    }
  }

  /** The fake cluster: a list of pods that deletions filter. */
  class FakeCluster {
    var pods: seq<Pod>

    constructor (pods: seq<Pod>)
      ensures this.pods == pods
    {
      this.pods := pods;
    }

    /** The current pods, whatever namespace and selector are asked for. */
    function ListPods(namespace: string, selector: string): (r: ListResult)
      reads this
      ensures r.Listed? && r.pods == pods
    {
      Listed(pods)
    }

    /** Keeps every pod not named `namespace`/`name`, in order; never fails. */
    method DeletePod(namespace: string, name: string) returns (outcome: DeleteOutcome)
      modifies this
      ensures pods == Without(old(pods), namespace, name)
      ensures outcome == Deleted
    {
      var current := pods;
      var kept: seq<Pod> := [];
      var i := 0;
      while i < |current|
        invariant 0 <= i <= |current|
        invariant kept == Without(current[..i], namespace, name)
      {
        var p := current[i];
        assert current[..i + 1] == current[..i] + [p];
        WithoutAppend(current[..i], [p], namespace, name);
        if namespace == p.namespace && name == p.name {
          i := i + 1;
          continue;
        }
        kept := kept + [p];
        i := i + 1;
      }
      assert current[..i] == current;
      pods := kept;
      outcome := Deleted;
    }

    function LenPods(): (n: nat)
      reads this
      ensures n == |pods|
    {
      |pods|
    }
  }

  /** The pods left after applying `calls` one after another. */
  function ApplyDeletes(pods: seq<Pod>, calls: seq<PodId>): seq<Pod>
    decreases |calls|
  {
    if calls == [] then pods
    else
      var last := calls[|calls| - 1];
      Without(ApplyDeletes(pods, calls[..|calls| - 1]), last.namespace, last.name)
  }

  /** A pod survives a sequence of deletions exactly when no call names it. */
  lemma {:induction false} ApplyDeletesMembers(pods: seq<Pod>, calls: seq<PodId>, p: Pod)
    ensures p in ApplyDeletes(pods, calls) <==> p in pods && Id(p) !in calls
    decreases |calls|
  {
    if calls != [] {
      var front, last := calls[..|calls| - 1], calls[|calls| - 1];
      assert calls == front + [last];
      ApplyDeletesMembers(pods, front, p);
      WithoutMembers(ApplyDeletes(pods, front), last.namespace, last.name, p);
    }
  }

  /**
   * A pod `age` seconds old with one container status. "Running",
   * "Waiting" and "Terminated" set that part of the status, the last two
   * with `reason`; any other state leaves the status empty.
   */
  function MakePod(now: int, age: int, namespace: string, name: string, phase: string,
                   state: string, reason: string): (p: Pod)
    ensures Id(p) == PodId(namespace, name) && p.phase == phase
    ensures p.creationTimestamp + age == now
    ensures |p.containerStatuses| == 1
    ensures Reason(p.containerStatuses[0]) == if state in {"Waiting", "Terminated"} then reason else ""
    ensures p.containerStatuses[0].running <==> state == "Running"
  {
    var status :=
      if state == "Running" then EmptyStatus.(running := true)
      else if state == "Waiting" then EmptyStatus.(waiting := Some(reason))
      else if state == "Terminated" then EmptyStatus.(terminated := Some(reason))
      else EmptyStatus;
    Pod(namespace, name, now - age, phase, [status])
  }

  /** The options every scenario builds its controller with. */
  const TestOptions: seq<ControllerOption> := [WithGrace(5 * Minute), WithLogger]

  const TestSettings: Settings := DefaultSettings.(grace := 5 * Minute)

  const NeverCancelled: nat -> bool := i => false

  /** The fake's delete never returns an error. */
  const AlwaysDeleted: nat -> DeleteOutcome := k => Deleted

  lemma TestOptionsConfigure()
    ensures Configure(DefaultSettings, TestOptions) == Ok(TestSettings)
  {
    var graced := DefaultSettings.(grace := 5 * Minute);
    assert ApplyOption(DefaultSettings, TestOptions[0]) == Ok(graced);
    assert TestOptions[1..] == [WithLogger];
    assert ApplyOption(graced, WithLogger) == Ok(graced);
    assert [WithLogger][1..] == [];
    assert Configure(graced, [WithLogger]) == Ok(graced);
  }

  /** The pods the fake holds after one uncancelled pass over `pods`. */
  function Remaining(pods: seq<Pod>, now: int): seq<Pod> {
    ApplyDeletes(pods, Pass(TestSettings, now, Listed(pods), NeverCancelled, AlwaysDeleted).calls)
  }

  /** Issues `calls` to the fake one after another, in order. */
  method Replay(client: FakeCluster, calls: seq<PodId>)
    modifies client
    ensures client.pods == ApplyDeletes(old(client.pods), calls)
  {
    var k := 0;
    while k < |calls|
      invariant 0 <= k <= |calls|
      invariant client.pods == ApplyDeletes(old(client.pods), calls[..k])
    {
      assert calls[..k + 1][..k] == calls[..k];
      var _ := client.DeletePod(calls[k].namespace, calls[k].name);
      k := k + 1;
    }
    assert calls[..k] == calls;
  }

  /**
   * One scenario: a fake holding `pods`, a controller with a 5-minute grace
   * period, one pass at time `now`, and the number of pods left.
   */
  method RunTest(pods: seq<Pod>, now: int) returns (err: Option<PassError>, remaining: nat)
    ensures err == None
    ensures remaining == |Remaining(pods, now)|
  {
    var client := new FakeCluster(pods);
    var listed := client.ListPods("", "");
    var snapshot := listed.pods;
    TestOptionsConfigure();
    var c, _ := Controller.New((namespace, selector) => Listed(snapshot), AlwaysDeleted, TestOptions);
    var calls;
    calls, err := c.Once(now, NeverCancelled);
    UncancelledPass(TestSettings, now, pods);
    Replay(client, calls);
    remaining := client.LenPods();
  }

  /** Without cancellation and with a delete that never fails, a pass issues its whole plan. */
  lemma UncancelledPass(s: Settings, now: int, pods: seq<Pod>)
    ensures Pass(s, now, Listed(pods), NeverCancelled, AlwaysDeleted) == PassOutcome(Flatten(s, now, pods), None)
  {
    assert Reached(NeverCancelled, |pods|) == |pods|;
    assert pods[..|pods|] == pods;
  }

  /** The calls for a pod with a single container status. */
  lemma SingleStatusCalls(s: Settings, now: int, p: Pod)
    requires |p.containerStatuses| == 1
    ensures PodCalls(s, now, p) ==
            if s.dryRun || PhaseSkipped(p.phase) || TooYoung(s.grace, now, p)
               || Reason(p.containerStatuses[0]) !in s.reasons
            then [] else [Id(p)]
  {
    var sts := p.containerStatuses;
    StatusCallsStep(s.reasons, Id(p), sts, 0);
    assert sts[..1] == sts && sts[..0] == [];
  }

  lemma FlattenPair(s: Settings, now: int, p0: Pod, p1: Pod)
    ensures Flatten(s, now, [p0, p1]) == PodCalls(s, now, p0) + PodCalls(s, now, p1)
  {
    var pods := [p0, p1];
    FlattenStep(s, now, pods, 0);
    FlattenStep(s, now, pods, 1);
    assert pods[..0] == [] && pods[..2] == pods;
  }

  /** Deleting from a list of two pods with different names. */
  lemma WithoutPair(p0: Pod, p1: Pod)
    requires Id(p0) != Id(p1)
    ensures Without([p0, p1], p0.namespace, p0.name) == [p1]
    ensures Without([p0, p1], p1.namespace, p1.name) == [p0]
  {
    assert [p0, p1][1..] == [p1] && [p1][1..] == [];
    assert Without([p1], p0.namespace, p0.name) == [p1];
    assert Without([p1], p1.namespace, p1.name) == [];
  }

  lemma ScenarioEmpty(now: int)
    ensures Remaining([], now) == []
  {
    UncancelledPass(TestSettings, now, []);
  }

  /** A running container reports no reason, so its pod stays. */
  lemma ScenarioDeleteNone(now: int)
    ensures var p0 := MakePod(now, Hour, "default", "pod0", PodRunning, "Running", "");
            Remaining([p0], now) == [p0]
  {
    var p0 := MakePod(now, Hour, "default", "pod0", PodRunning, "Running", "");
    UncancelledPass(TestSettings, now, [p0]);
    FlattenStep(TestSettings, now, [p0], 0);
    assert [p0][..0] == [] && [p0][..1] == [p0];
    SingleStatusCalls(TestSettings, now, p0);
  }

  lemma ApplyTwoDeletes(pods: seq<Pod>, c0: PodId, c1: PodId)
    ensures ApplyDeletes(pods, [c0, c1]) == Without(Without(pods, c0.namespace, c0.name), c1.namespace, c1.name)
  {
    assert [c0, c1][..1] == [c0] && [c0][..0] == [];
    assert ApplyDeletes(pods, [c0]) == Without(pods, c0.namespace, c0.name);
  }

  /** A crash-looping pod built by `MakePod` is deleted once, unless it is younger than 5 minutes. */
  lemma CrashLoopingPodCalls(now: int, age: int, name: string)
    ensures var p := MakePod(now, age, "default", name, PodRunning, "Terminated", "CrashLoopBackOff");
            PodCalls(TestSettings, now, p) == if age < 5 * Minute then [] else [PodId("default", name)]
  {
    var p := MakePod(now, age, "default", name, PodRunning, "Terminated", "CrashLoopBackOff");
    SingleStatusCalls(TestSettings, now, p);
    assert "CrashLoopBackOff" in TestSettings.reasons;
  }

  /** An uncancelled pass over two pods issues the first pod's calls, then the second's. */
  lemma PairPassCalls(now: int, p0: Pod, p1: Pod)
    ensures Pass(TestSettings, now, Listed([p0, p1]), NeverCancelled, AlwaysDeleted).calls ==
            PodCalls(TestSettings, now, p0) + PodCalls(TestSettings, now, p1)
  {
    UncancelledPass(TestSettings, now, [p0, p1]);
    FlattenPair(TestSettings, now, p0, p1);
  }

  /** Both pods are older than the grace period and crash-looping: both go. */
  lemma ScenarioDeleteAll(now: int)
    ensures var p0 := MakePod(now, Hour, "default", "pod0", PodRunning, "Terminated", "CrashLoopBackOff");
            var p1 := MakePod(now, 3 * Hour, "default", "pod1", PodRunning, "Terminated", "CrashLoopBackOff");
            Remaining([p0, p1], now) == []
  {
    var p0 := MakePod(now, Hour, "default", "pod0", PodRunning, "Terminated", "CrashLoopBackOff");
    var p1 := MakePod(now, 3 * Hour, "default", "pod1", PodRunning, "Terminated", "CrashLoopBackOff");
    PairPassCalls(now, p0, p1);
    CrashLoopingPodCalls(now, Hour, "pod0");
    CrashLoopingPodCalls(now, 3 * Hour, "pod1");
    assert [Id(p0)] + [Id(p1)] == [Id(p0), Id(p1)];
    assert "pod0"[3] != "pod1"[3];
    WithoutPair(p0, p1);
    ApplyTwoDeletes([p0, p1], Id(p0), Id(p1));
    assert [p1][1..] == [];
    assert Without([p1], p1.namespace, p1.name) == [];
  }

  /** The 1-minute-old pod is inside the grace period and is the one left. */
  lemma ScenarioDeleteOne(now: int)
    ensures var p0 := MakePod(now, Minute, "default", "pod0", PodRunning, "Terminated", "CrashLoopBackOff");
            var p1 := MakePod(now, 3 * Hour, "default", "pod1", PodRunning, "Terminated", "CrashLoopBackOff");
            Remaining([p0, p1], now) == [p0]
  {
    var p0 := MakePod(now, Minute, "default", "pod0", PodRunning, "Terminated", "CrashLoopBackOff");
    var p1 := MakePod(now, 3 * Hour, "default", "pod1", PodRunning, "Terminated", "CrashLoopBackOff");
    var pods := [p0, p1];
    PairPassCalls(now, p0, p1);
    CrashLoopingPodCalls(now, Minute, "pod0");
    CrashLoopingPodCalls(now, 3 * Hour, "pod1");
    assert [Id(p1)][..0] == [];
    assert "pod0"[3] != "pod1"[3];
    WithoutPair(p0, p1);
    assert ApplyDeletes(pods, [Id(p1)]) == Without(pods, "default", "pod1");
  }

  /** The table of the controller's test, run end to end on the fake. */
  method TestController(now: int) returns (empty: nat, deleteNone: nat, deleteAll: nat, deleteOne: nat)
    ensures empty == 0 && deleteNone == 1 && deleteAll == 0 && deleteOne == 1
  {
    var err;
    err, empty := RunTest([], now);
    ScenarioEmpty(now);

    var running := MakePod(now, Hour, "default", "pod0", PodRunning, "Running", "");
    err, deleteNone := RunTest([running], now);
    ScenarioDeleteNone(now);

    var old0 := MakePod(now, Hour, "default", "pod0", PodRunning, "Terminated", "CrashLoopBackOff");
    var old1 := MakePod(now, 3 * Hour, "default", "pod1", PodRunning, "Terminated", "CrashLoopBackOff");
    err, deleteAll := RunTest([old0, old1], now);
    ScenarioDeleteAll(now);

    var young := MakePod(now, Minute, "default", "pod0", PodRunning, "Terminated", "CrashLoopBackOff");
    err, deleteOne := RunTest([young, old1], now);
    ScenarioDeleteOne(now);
  }
}
