/**
 * The pod deleter's controller: the policy fixed at construction by options,
 * the per-pod and per-container decision, and one reconciliation pass.
 *
 * A pass is specified in two layers. `Planned` is the sequence of delete
 * calls the pass would make if every call came back without a fatal error.
 * It concatenates each pod's calls, in list order, up to the first pod at
 * which cancellation is observed. `Pass` then cuts that plan right after the
 * first call whose response is fatal. `Controller.Once` walks the pods with
 * the source's nested loops and is proved to produce exactly `Pass`.
 */
module Controller {
  import opened Wrappers
  import opened Pods

  /** The failure reasons accepted when no option replaces them. */
  const DefaultReasons: seq<string> := ["CrashLoopBackOff", "Error"]

  /** Everything the options can set that affects a pass or the schedule. */
  datatype Settings = Settings(
    namespace: string,
    selector: string,
    grace: int,
    interval: int,
    dryRun: bool,
    reasons: seq<string>)

  /** The field values `New` starts from before it applies any option. */
  const DefaultSettings: Settings :=
    Settings("", "", 30 * Minute, 10 * Minute, false, DefaultReasons)

  /**
   * A construction option. The library's setters never fail; a caller may
   * pass its own option, and `FailingOption` stands for one that returns an
   * error.
   */
  datatype ControllerOption =
    | WithDryRun(dryRun: bool)
    | WithLogger
    | WithNamespace(namespace: string)
    | WithSelector(selector: string)
    | WithGrace(grace: int)
    | WithInterval(interval: int)
    | WithReasons(reasons: seq<string>)
    | FailingOption(cause: string)

  /** The effect of one option on the settings. */
  function ApplyOption(s: Settings, o: ControllerOption): Result<Settings, string> {
    match o
    case WithDryRun(d) => Ok(s.(dryRun := d))
    case WithLogger => Ok(s)
    case WithNamespace(ns) => Ok(s.(namespace := ns))
    case WithSelector(sel) => Ok(s.(selector := sel))
    case WithGrace(g) => Ok(s.(grace := g))
    case WithInterval(d) => Ok(s.(interval := d))
    case WithReasons(rs) => Ok(s.(reasons := rs))
    case FailingOption(e) => Err(e)
  }

  /** The options applied left to right; the first error stops the fold. */
  function Configure(s: Settings, options: seq<ControllerOption>): Result<Settings, string>
    decreases |options|
  {
    if options == [] then Ok(s)
    else
      match ApplyOption(s, options[0])
      case Err(e) => Err(e)
      case Ok(next) => Configure(next, options[1..])
  }

  /**
   * The value the last option that `pick` recognises carries, or `initial`
   * when no option does: an independent statement of "a later option
   * overwrites an earlier one".
   */
  function Last<T>(options: seq<ControllerOption>, pick: ControllerOption -> Option<T>, initial: T): T
    decreases |options|
  {
    if options == [] then initial
    else
      match pick(options[|options| - 1])
      case Some(v) => v
      case None => Last(options[..|options| - 1], pick, initial)
  }

  function NamespaceOf(o: ControllerOption): Option<string> {
    if o.WithNamespace? then Some(o.namespace) else None
  }

  function SelectorOf(o: ControllerOption): Option<string> {
    if o.WithSelector? then Some(o.selector) else None
  }

  function GraceOf(o: ControllerOption): Option<int> {
    if o.WithGrace? then Some(o.grace) else None
  }

  function IntervalOf(o: ControllerOption): Option<int> {
    if o.WithInterval? then Some(o.interval) else None
  }

  function DryRunOf(o: ControllerOption): Option<bool> {
    if o.WithDryRun? then Some(o.dryRun) else None
  }

  function ReasonsOf(o: ControllerOption): Option<seq<string>> {
    if o.WithReasons? then Some(o.reasons) else None
  }

  /** Applying `a ++ b` is applying `a`, then `b` to what `a` produced. */
  lemma {:induction false} ConfigureAppend(s: Settings, a: seq<ControllerOption>, b: seq<ControllerOption>)
    ensures Configure(s, a + b) ==
            match Configure(s, a)
            case Err(e) => Err(e)
            case Ok(t) => Configure(t, b)
    decreases |a|
  {
    if a == [] {
      assert a + b == b;
    } else {
      assert (a + b)[0] == a[0];
      assert (a + b)[1..] == a[1..] + b;
      match ApplyOption(s, a[0])
      case Err(e) =>
      case Ok(next) => ConfigureAppend(next, a[1..], b);
    }
  }

  /** Configuration fails exactly when some option fails. */
  lemma {:induction false} ConfigureFailsIff(s: Settings, options: seq<ControllerOption>)
    ensures Configure(s, options).Err? <==> exists j :: 0 <= j < |options| && options[j].FailingOption?
    decreases |options|
  {
    if options != [] {
      match ApplyOption(s, options[0])
      case Err(e) =>
      case Ok(next) =>
        ConfigureFailsIff(next, options[1..]);
        if exists j :: 0 <= j < |options| && options[j].FailingOption? {
          var j :| 0 <= j < |options| && options[j].FailingOption?;
          assert j > 0 && options[1..][j - 1] == options[j];
        }
        if exists j :: 0 <= j < |options[1..]| && options[1..][j].FailingOption? {
          var j :| 0 <= j < |options[1..]| && options[1..][j].FailingOption?;
          assert options[j + 1] == options[1..][j];
        }
    }
  }

  /** The first option that fails decides the error; later ones are never applied. */
  lemma {:induction false} FirstFailingOptionWins(s: Settings, options: seq<ControllerOption>, i: nat)
    requires i < |options| && options[i].FailingOption?
    requires forall j :: 0 <= j < i ==> !options[j].FailingOption?
    ensures Configure(s, options) == Err(options[i].cause)
    decreases i
  {
    if i > 0 {
      var next := ApplyOption(s, options[0]).value;
      FirstFailingOptionWins(next, options[1..], i - 1);
    }
  }

  /**
   * When configuration succeeds, every field holds the value of the last
   * option that sets it, or its starting value when none does.
   */
  lemma {:induction false} ConfigureLastWins(s: Settings, options: seq<ControllerOption>)
    requires Configure(s, options).Ok?
    ensures Configure(s, options).value ==
            Settings(
              Last(options, NamespaceOf, s.namespace),
              Last(options, SelectorOf, s.selector),
              Last(options, GraceOf, s.grace),
              Last(options, IntervalOf, s.interval),
              Last(options, DryRunOf, s.dryRun),
              Last(options, ReasonsOf, s.reasons))
    decreases |options|
  {
    if options != [] {
      var front, o := options[..|options| - 1], options[|options| - 1];
      assert options == front + [o];
      ConfigureAppend(s, front, [o]);
      assert Configure(s, front).Ok?;
      ConfigureLastWins(s, front);
    }
  }

  // ----------------------------------------------------------------------
  // The decision for one pod.

  /** Pods in these phases are skipped whatever their age or containers. */
  predicate PhaseSkipped(phase: string) {
    phase == PodPending || phase == PodSucceeded || phase == PodUnknown
  }

  /** A pod created less than `grace` before `now` is skipped. */
  predicate TooYoung(grace: int, now: int, p: Pod) {
    p.creationTimestamp + grace > now
  }

  /** The reason a container reports: terminated wins over waiting; neither gives "". */
  function Reason(st: ContainerStatus): string {
    if st.terminated.Some? then st.terminated.value
    else if st.waiting.Some? then st.waiting.value
    else ""
  }

  /** One delete of `id` per status whose reason is accepted, in status order. */
  function StatusCalls(reasons: seq<string>, id: PodId, statuses: seq<ContainerStatus>): seq<PodId>
    decreases |statuses|
  {
    if statuses == [] then []
    else
      StatusCalls(reasons, id, statuses[..|statuses| - 1])
      + (if Reason(statuses[|statuses| - 1]) in reasons then [id] else [])
  }

  /** The delete calls the pass makes for one pod when no call fails. */
  function PodCalls(s: Settings, now: int, p: Pod): seq<PodId> {
    if s.dryRun || PhaseSkipped(p.phase) || TooYoung(s.grace, now, p) then []
    else StatusCalls(s.reasons, Id(p), p.containerStatuses)
  }

  /** The pass deletes `p` at least once, stated without the call sequences. */
  predicate Deletes(s: Settings, now: int, p: Pod) {
    && !s.dryRun
    && !PhaseSkipped(p.phase)
    && !TooYoung(s.grace, now, p)
    && exists j :: 0 <= j < |p.containerStatuses| && Reason(p.containerStatuses[j]) in s.reasons
  }

  /** The indices of the statuses whose reason is accepted. */
  function MatchingStatuses(reasons: seq<string>, statuses: seq<ContainerStatus>): set<nat> {
    set j: nat | j < |statuses| && Reason(statuses[j]) in reasons
  }

  lemma {:induction false} InStatusCalls(reasons: seq<string>, id: PodId, statuses: seq<ContainerStatus>, c: PodId)
    ensures c in StatusCalls(reasons, id, statuses) <==>
            c == id && exists j :: 0 <= j < |statuses| && Reason(statuses[j]) in reasons
    decreases |statuses|
  {
    if statuses != [] {
      var front := statuses[..|statuses| - 1];
      InStatusCalls(reasons, id, front, c);
      if exists j :: 0 <= j < |front| && Reason(front[j]) in reasons {
        var j :| 0 <= j < |front| && Reason(front[j]) in reasons;
        assert statuses[j] == front[j];
      }
      if exists j :: 0 <= j < |statuses| && Reason(statuses[j]) in reasons {
        var j :| 0 <= j < |statuses| && Reason(statuses[j]) in reasons;
        if j < |front| {
          assert front[j] == statuses[j];
        }
      }
    }
  }

  /** There is exactly one call per matching status. */
  lemma {:induction false} StatusCallsCount(reasons: seq<string>, id: PodId, statuses: seq<ContainerStatus>)
    ensures |StatusCalls(reasons, id, statuses)| == |MatchingStatuses(reasons, statuses)|
    decreases |statuses|
  {
    if statuses != [] {
      var n := |statuses| - 1;
      var front := statuses[..n];
      StatusCallsCount(reasons, id, front);
      var before := MatchingStatuses(reasons, front);
      var after := MatchingStatuses(reasons, statuses);
      assert n !in before;
      if Reason(statuses[n]) in reasons {
        assert after == before + {n} by {
          forall j: nat ensures j in after <==> j in before + {n} {
            if j < n {
              assert front[j] == statuses[j];
            }
          }
        }
      } else {
        assert after == before by {
          forall j: nat ensures j in after <==> j in before {
            if j < n {
              assert front[j] == statuses[j];
            }
          }
        }
      }
    }
  }

  /**
   * A pod gets a delete call exactly when the pass deletes it, and every call
   * it gets names it.
   */
  lemma InPodCalls(s: Settings, now: int, p: Pod, c: PodId)
    ensures c in PodCalls(s, now, p) <==> Deletes(s, now, p) && c == Id(p)
  {
    InStatusCalls(s.reasons, Id(p), p.containerStatuses, c);
  }

  /**
   * The number of calls a pod gets: none when it is protected, otherwise one
   * per matching status (there is no `break` after a delete).
   */
  lemma PodCallsCount(s: Settings, now: int, p: Pod)
    ensures |PodCalls(s, now, p)| ==
            if s.dryRun || PhaseSkipped(p.phase) || TooYoung(s.grace, now, p) then 0
            else |MatchingStatuses(s.reasons, p.containerStatuses)|
  {
    StatusCallsCount(s.reasons, Id(p), p.containerStatuses);
  }

  // ----------------------------------------------------------------------
  // One pass over a listed sequence of pods.

  /** The calls for `pods`, pod after pod in list order. */
  function Flatten(s: Settings, now: int, pods: seq<Pod>): seq<PodId>
    decreases |pods|
  {
    if pods == [] then []
    else Flatten(s, now, pods[..|pods| - 1]) + PodCalls(s, now, pods[|pods| - 1])
  }

  /** The index of the first pod before which cancellation is seen, or `n`. */
  function Reached(cancelled: nat -> bool, n: nat): (r: nat)
    ensures r <= n
    ensures forall i :: 0 <= i < r ==> !cancelled(i)
    ensures r < n ==> cancelled(r)
    decreases n
  {
    if n == 0 then 0
    else
      var r := Reached(cancelled, n - 1);
      if r < n - 1 then r
      else if cancelled(n - 1) then n - 1
      else n
  }

  /** The first of the first `n` delete responses that is fatal, if any. */
  function FirstFatal(deleter: nat -> DeleteOutcome, n: nat): (r: Option<nat>)
    ensures r.Some? ==> r.value < n && Fatal(deleter(r.value))
    ensures r.Some? ==> forall k :: 0 <= k < r.value ==> !Fatal(deleter(k))
    ensures r.None? ==> forall k :: 0 <= k < n ==> !Fatal(deleter(k))
    decreases n
  {
    if n == 0 then None
    else
      match FirstFatal(deleter, n - 1)
      case Some(k) => Some(k)
      case None => if Fatal(deleter(n - 1)) then Some(n - 1) else None
  }

  /** The calls of a pass in which no delete fails fatally. */
  function Planned(s: Settings, now: int, pods: seq<Pod>, cancelled: nat -> bool): seq<PodId> {
    Flatten(s, now, pods[..Reached(cancelled, |pods|)])
  }

  datatype PassError =
    | ListFailed(cause: string)
    | DeleteFailed(namespace: string, name: string, cause: string)

  /** The delete calls a pass issued, in order, and how it ended. */
  datatype PassOutcome = PassOutcome(calls: seq<PodId>, err: Option<PassError>)

  /**
   * One pass. `deleter(k)` is the response to the pass's k-th delete call;
   * `cancelled(i)` says whether cancellation is seen before pod i.
   */
  function Pass(s: Settings, now: int, listing: ListResult, cancelled: nat -> bool,
                deleter: nat -> DeleteOutcome): PassOutcome
  {
    match listing
    case ListError(e) => PassOutcome([], Some(ListFailed(e)))
    case Listed(pods) =>
      var planned := Planned(s, now, pods, cancelled);
      match FirstFatal(deleter, |planned|)
      case None => PassOutcome(planned, None)
      case Some(k) =>
        PassOutcome(planned[..k + 1], Some(DeleteFailed(planned[k].namespace, planned[k].name, deleter(k).cause)))
  }

  lemma {:induction false} InFlatten(s: Settings, now: int, pods: seq<Pod>, c: PodId)
    ensures c in Flatten(s, now, pods) <==> exists i :: 0 <= i < |pods| && c in PodCalls(s, now, pods[i])
    decreases |pods|
  {
    if pods != [] {
      var front := pods[..|pods| - 1];
      InFlatten(s, now, front, c);
      if exists i :: 0 <= i < |front| && c in PodCalls(s, now, front[i]) {
        var i :| 0 <= i < |front| && c in PodCalls(s, now, front[i]);
        assert pods[i] == front[i];
      }
      if exists i :: 0 <= i < |pods| && c in PodCalls(s, now, pods[i]) {
        var i :| 0 <= i < |pods| && c in PodCalls(s, now, pods[i]);
        if i < |front| {
          assert front[i] == pods[i];
        }
      }
    }
  }

  /** The calls for a shorter prefix of the pods are a prefix of the calls for a longer one. */
  lemma {:induction false} FlattenPrefix(s: Settings, now: int, pods: seq<Pod>, a: nat, b: nat)
    requires a <= b <= |pods|
    ensures Flatten(s, now, pods[..a]) <= Flatten(s, now, pods[..b])
    decreases b - a
  {
    if a < b {
      FlattenPrefix(s, now, pods, a, b - 1);
      assert pods[..b][..b - 1] == pods[..b - 1];
    }
  }

  lemma {:induction false} StatusCallsPrefix(reasons: seq<string>, id: PodId, statuses: seq<ContainerStatus>, a: nat, b: nat)
    requires a <= b <= |statuses|
    ensures StatusCalls(reasons, id, statuses[..a]) <= StatusCalls(reasons, id, statuses[..b])
    decreases b - a
  {
    if a < b {
      StatusCallsPrefix(reasons, id, statuses, a, b - 1);
      assert statuses[..b][..b - 1] == statuses[..b - 1];
    }
  }

  lemma {:induction false} FlattenDryRun(s: Settings, now: int, pods: seq<Pod>)
    requires s.dryRun
    ensures Flatten(s, now, pods) == []
    decreases |pods|
  {
    if pods != [] {
      FlattenDryRun(s, now, pods[..|pods| - 1]);
    }
  }

  /** In dry-run mode a listed pass makes no delete call and succeeds. */
  lemma DryRunDeletesNothing(s: Settings, now: int, pods: seq<Pod>, cancelled: nat -> bool,
                             deleter: nat -> DeleteOutcome)
    requires s.dryRun
    ensures Pass(s, now, Listed(pods), cancelled, deleter) == PassOutcome([], None)
  {
    FlattenDryRun(s, now, pods[..Reached(cancelled, |pods|)]);
  }

  /** A failed listing ends the pass with an error before any delete. */
  lemma ListFailureDeletesNothing(s: Settings, now: int, cause: string, cancelled: nat -> bool,
                                  deleter: nat -> DeleteOutcome)
    ensures Pass(s, now, ListError(cause), cancelled, deleter) == PassOutcome([], Some(ListFailed(cause)))
  {
  }

  /**
   * The calls of a listed pass are a prefix of the plan. The pass succeeds
   * exactly when no response to its calls is fatal; then it issued the whole
   * plan. Otherwise its last call got the first fatal response, and the error
   * names that call's pod and cause.
   */
  lemma PassEndings(s: Settings, now: int, pods: seq<Pod>, cancelled: nat -> bool,
                    deleter: nat -> DeleteOutcome)
    ensures var r := Pass(s, now, Listed(pods), cancelled, deleter);
            && r.calls <= Planned(s, now, pods, cancelled)
            && (forall k :: 0 <= k < |r.calls| - 1 ==> !Fatal(deleter(k)))
            && (r.err.None? <==> forall k :: 0 <= k < |Planned(s, now, pods, cancelled)| ==> !Fatal(deleter(k)))
            && (r.err.None? ==> r.calls == Planned(s, now, pods, cancelled))
            && (r.err.Some? ==>
                  && r.err.value.DeleteFailed?
                  && |r.calls| > 0
                  && var last := r.calls[|r.calls| - 1];
                  && Fatal(deleter(|r.calls| - 1))
                  && r.err == Some(DeleteFailed(last.namespace, last.name, deleter(|r.calls| - 1).cause)))
  {
  }

  /**
   * Every call of a pass names a pod that the pass reached before any
   * cancellation and that the decision deletes.
   */
  lemma CallsTargetDeletablePods(s: Settings, now: int, pods: seq<Pod>, cancelled: nat -> bool,
                                 deleter: nat -> DeleteOutcome, c: PodId)
    requires c in Pass(s, now, Listed(pods), cancelled, deleter).calls
    ensures exists i :: 0 <= i < |pods| && (forall j :: 0 <= j <= i ==> !cancelled(j))
                        && Deletes(s, now, pods[i]) && c == Id(pods[i])
  {
    var n := Reached(cancelled, |pods|);
    var reached := pods[..n];
    PassEndings(s, now, pods, cancelled, deleter);
    assert c in Flatten(s, now, reached);
    InFlatten(s, now, reached, c);
    var i :| 0 <= i < |reached| && c in PodCalls(s, now, reached[i]);
    InPodCalls(s, now, reached[i], c);
    assert reached[i] == pods[i];
  }

  /**
   * A pod the decision protects (excluded phase, younger than the grace
   * period, no accepted reason, or dry run) is never deleted, as long as no
   * other listed pod has the same namespace and name.
   */
  lemma ProtectedPodNeverDeleted(s: Settings, now: int, pods: seq<Pod>, cancelled: nat -> bool,
                                 deleter: nat -> DeleteOutcome, i: nat)
    requires i < |pods|
    requires forall a, b :: 0 <= a < b < |pods| ==> Id(pods[a]) != Id(pods[b])
    requires !Deletes(s, now, pods[i])
    ensures Id(pods[i]) !in Pass(s, now, Listed(pods), cancelled, deleter).calls
  {
    if Id(pods[i]) in Pass(s, now, Listed(pods), cancelled, deleter).calls {
      CallsTargetDeletablePods(s, now, pods, cancelled, deleter, Id(pods[i]));
    }
  }

  /**
   * A pod the decision deletes gets its calls when the pass reaches it and no
   * response is fatal.
   */
  lemma DeletablePodDeleted(s: Settings, now: int, pods: seq<Pod>, cancelled: nat -> bool,
                            deleter: nat -> DeleteOutcome, i: nat)
    requires i < |pods| && Deletes(s, now, pods[i])
    requires forall j :: 0 <= j <= i ==> !cancelled(j)
    requires Pass(s, now, Listed(pods), cancelled, deleter).err.None?
    ensures Id(pods[i]) in Pass(s, now, Listed(pods), cancelled, deleter).calls
  {
    var n := Reached(cancelled, |pods|);
    assert i < n;
    var reached := pods[..n];
    PassEndings(s, now, pods, cancelled, deleter);
    assert reached[i] == pods[i];
    InPodCalls(s, now, pods[i], Id(pods[i]));
    InFlatten(s, now, reached, Id(pods[i]));
  }

  /** Pods at and after a cancelled index contribute no call. */
  lemma CancellationStopsPass(s: Settings, now: int, pods: seq<Pod>, cancelled: nat -> bool,
                              deleter: nat -> DeleteOutcome, i: nat)
    requires i <= |pods| && cancelled(i)
    ensures Pass(s, now, Listed(pods), cancelled, deleter).calls <= Flatten(s, now, pods[..i])
  {
    var n := Reached(cancelled, |pods|);
    assert n <= i;
    FlattenPrefix(s, now, pods, n, i);
    PassEndings(s, now, pods, cancelled, deleter);
  }

  // ----------------------------------------------------------------------
  // Facts the loops of `Once` rely on.

  /** The calls for the pods up to a reached pod i are a prefix of the plan. */
  lemma ReachedIsPlannedPrefix(s: Settings, now: int, pods: seq<Pod>, cancelled: nat -> bool, i: nat)
    requires i < |pods| && forall m :: 0 <= m <= i ==> !cancelled(m)
    ensures Flatten(s, now, pods[..i + 1]) <= Planned(s, now, pods, cancelled)
  {
    var n := Reached(cancelled, |pods|);
    assert i < n;
    FlattenPrefix(s, now, pods, i + 1, n);
  }

  /** A fatal response to the call that ends `issued` gives that outcome. */
  lemma FatalCallEndsPass(s: Settings, now: int, pods: seq<Pod>, cancelled: nat -> bool,
                          deleter: nat -> DeleteOutcome, issued: seq<PodId>)
    requires issued <= Planned(s, now, pods, cancelled) && |issued| > 0
    requires FirstFatal(deleter, |issued| - 1).None? && Fatal(deleter(|issued| - 1))
    ensures Pass(s, now, Listed(pods), cancelled, deleter) ==
            PassOutcome(issued, Some(DeleteFailed(issued[|issued| - 1].namespace, issued[|issued| - 1].name,
                                                  deleter(|issued| - 1).cause)))
  {
    var planned := Planned(s, now, pods, cancelled);
    var k := |issued| - 1;
    FirstFatalIs(deleter, k, |planned|);
    PrefixIsTake(issued, planned);
  }

  lemma PrefixTransitive<T>(a: seq<T>, b: seq<T>, c: seq<T>)
    requires a <= b && b <= c
    ensures a <= c
  {
    assert c[..|b|][..|a|] == c[..|a|];
  }

  lemma PrefixIsTake<T>(a: seq<T>, b: seq<T>)
    requires a <= b
    ensures |a| <= |b| && b[..|a|] == a
  {
  }

  /** The first fatal response is at `k` when `k` is fatal and nothing before it is. */
  lemma {:induction false} FirstFatalIs(deleter: nat -> DeleteOutcome, k: nat, n: nat)
    requires k < n && FirstFatal(deleter, k).None? && Fatal(deleter(k))
    ensures FirstFatal(deleter, n) == Some(k)
    decreases n
  {
    if n > k + 1 {
      FirstFatalIs(deleter, k, n - 1);
    }
  }

  /** A pass that got through pod `n - 1`, or stopped before pod `n`, issued the whole plan. */
  lemma CompletedPass(s: Settings, now: int, pods: seq<Pod>, cancelled: nat -> bool,
                      deleter: nat -> DeleteOutcome, n: nat)
    requires n <= |pods| && forall m :: 0 <= m < n ==> !cancelled(m)
    requires n == |pods| || cancelled(n)
    requires FirstFatal(deleter, |Flatten(s, now, pods[..n])|).None?
    ensures Pass(s, now, Listed(pods), cancelled, deleter) == PassOutcome(Flatten(s, now, pods[..n]), None)
  {
    assert Reached(cancelled, |pods|) == n;
  }

  lemma IssuedBeforeAllStatuses(reasons: seq<string>, id: PodId, statuses: seq<ContainerStatus>, j: nat,
                                issued: seq<PodId>)
    requires j <= |statuses|
    ensures issued + StatusCalls(reasons, id, statuses[..j]) <= issued + StatusCalls(reasons, id, statuses)
  {
    StatusCallsPrefix(reasons, id, statuses, j, |statuses|);
    assert statuses[..|statuses|] == statuses;
  }

  lemma FlattenStep(s: Settings, now: int, pods: seq<Pod>, i: nat)
    requires i < |pods|
    ensures Flatten(s, now, pods[..i + 1]) == Flatten(s, now, pods[..i]) + PodCalls(s, now, pods[i])
  {
    assert pods[..i + 1][..i] == pods[..i];
  }

  lemma StatusCallsStep(reasons: seq<string>, id: PodId, statuses: seq<ContainerStatus>, j: nat)
    requires j < |statuses|
    ensures StatusCalls(reasons, id, statuses[..j + 1]) ==
            StatusCalls(reasons, id, statuses[..j]) + (if Reason(statuses[j]) in reasons then [id] else [])
  {
    assert statuses[..j + 1][..j] == statuses[..j];
  }

  // ----------------------------------------------------------------------
  // The controller object.

  class Controller {
    var lister: (string, string) -> ListResult
    /** The response the cluster gives to the k-th delete call of a pass. */
    var deleter: nat -> DeleteOutcome
    var namespace: string
    var selector: string
    var grace: int
    var interval: int
    var dryRun: bool
    var reasons: seq<string>
    var reasonsMap: map<string, bool>

    function Config(): Settings
      reads this
    {
      Settings(namespace, selector, grace, interval, dryRun, reasons)
    }

    /** The lookup map holds exactly the accepted reasons. */
    ghost predicate Valid()
      reads this
    {
      && (forall r :: r in reasonsMap <==> r in reasons)
      && (forall r :: r in reasonsMap ==> reasonsMap[r])
    }

    /** The controller value `New` builds before applying options. */
    constructor WithDefaults(lister: (string, string) -> ListResult, deleter: nat -> DeleteOutcome)
      ensures this.lister == lister && this.deleter == deleter
      ensures Config() == DefaultSettings && reasonsMap == map[]
    {
      this.lister := lister;
      this.deleter := deleter;
      namespace, selector := "", "";
      grace, interval := 30 * Minute, 10 * Minute;
      dryRun := false;
      reasons := DefaultReasons;
      reasonsMap := map[];
    }

    /** Runs one option against this controller. */
    method Apply(o: ControllerOption) returns (err: Option<string>)
      modifies this
      ensures ApplyOption(old(Config()), o) == if err.Some? then Err(err.value) else Ok(Config())
      ensures err.Some? ==> Config() == old(Config())
      ensures lister == old(lister) && deleter == old(deleter) && reasonsMap == old(reasonsMap)
    {
      err := None;
      match o
      case WithDryRun(d) => dryRun := d;
      case WithLogger =>
      case WithNamespace(ns) => namespace := ns;
      case WithSelector(sel) => selector := sel;
      case WithGrace(g) => grace := g;
      case WithInterval(d) => interval := d;
      case WithReasons(rs) => reasons := rs;
      case FailingOption(e) => err := Some(e);
    }

    /** Marks every accepted reason in the lookup map. */
    method FillReasonsMap()
      modifies this`reasonsMap
      ensures reasonsMap == old(reasonsMap) + map r | r in reasons :: true
    {
      var i := 0;
      while i < |reasons|
        invariant 0 <= i <= |reasons|
        invariant reasonsMap == old(reasonsMap) + map r | r in reasons[..i] :: true
      {
        assert reasons[..i + 1] == reasons[..i] + [reasons[i]];
        reasonsMap := reasonsMap[reasons[i] := true];
        i := i + 1;
      }
      assert reasons[..i] == reasons;
    }

    /**
     * Builds a controller: defaults, then each option in order, then the
     * lookup map. The first failing option makes it return no controller.
     */
    static method New(lister: (string, string) -> ListResult, deleter: nat -> DeleteOutcome,
                      options: seq<ControllerOption>)
      returns (c: Controller?, err: Option<string>)
      ensures Configure(DefaultSettings, options).Err? ==>
                c == null && err == Some(Configure(DefaultSettings, options).error)
      ensures Configure(DefaultSettings, options).Ok? ==>
                && err == None && c != null && fresh(c)
                && c.Config() == Configure(DefaultSettings, options).value
                && c.lister == lister && c.deleter == deleter
                && c.reasonsMap == (map r | r in c.reasons :: true)
                && c.Valid()
    {
      var ctl := new Controller.WithDefaults(lister, deleter);
      var i := 0;
      while i < |options|
        invariant 0 <= i <= |options|
        invariant Configure(DefaultSettings, options) == Configure(ctl.Config(), options[i..])
        invariant ctl.lister == lister && ctl.deleter == deleter && ctl.reasonsMap == map[]
      {
        var e := ctl.Apply(options[i]);
        if e.Some? {
          return null, e;
        }
        assert options[i..][1..] == options[i + 1..];
        i := i + 1;
      }
      ctl.FillReasonsMap();
      return ctl, None;
    }

    /**
     * The container loop of a pass, for one pod that passed the phase and age
     * checks: a delete for each status whose reason is accepted, stopping at
     * the first fatal response. `issued` holds the pass's earlier calls.
     */
    method DeleteMatching(pod: Pod, issued: seq<PodId>) returns (calls: seq<PodId>, failure: Option<string>)
      requires Valid()
      requires FirstFatal(deleter, |issued|).None?
      ensures failure.None? ==>
                && calls == issued + (if dryRun then [] else StatusCalls(reasons, Id(pod), pod.containerStatuses))
                && FirstFatal(deleter, |calls|).None?
      ensures failure.Some? ==>
                && !dryRun
                && calls <= issued + StatusCalls(reasons, Id(pod), pod.containerStatuses)
                && |calls| > |issued| && calls[|calls| - 1] == Id(pod)
                && FirstFatal(deleter, |calls| - 1).None?
                && deleter(|calls| - 1) == DeleteError(failure.value)
    {
      var statuses, id, accepted, dry := pod.containerStatuses, Id(pod), reasons, dryRun;
      calls := issued;
      var j := 0;
      while j < |statuses|
        invariant 0 <= j <= |statuses|
        invariant calls == issued + (if dry then [] else StatusCalls(accepted, id, statuses[..j]))
        invariant FirstFatal(deleter, |calls|).None?
      {
        StatusCallsStep(accepted, id, statuses, j);
        var reason := Reason(statuses[j]);
        if reason !in reasonsMap {
          j := j + 1;
          continue;
        }
        assert reason in accepted;
        if !dry {
          var outcome := deleter(|calls|);
          ghost var before := calls;
          calls := calls + [id];
          if outcome.DeleteError? {
            IssuedBeforeAllStatuses(accepted, id, statuses, j + 1, issued);
            assert |calls| - 1 == |before| && calls[|calls| - 1] == id;
            assert calls == issued + StatusCalls(accepted, id, statuses[..j + 1]);
            return calls, Some(outcome.cause);
          }
        }
        j := j + 1;
      }
      assert statuses[..j] == statuses;
      failure := None;
    }

    /**
     * One reconciliation pass: list the pods once, then walk them in list
     * order, checking for cancellation before each pod.
     */
    method Once(now: int, cancelled: nat -> bool) returns (calls: seq<PodId>, err: Option<PassError>)
      requires Valid()
      ensures PassOutcome(calls, err) == Pass(Config(), now, lister(namespace, selector), cancelled, deleter)
    {
      var listing := lister(namespace, selector);
      if listing.ListError? {
        return [], Some(ListFailed(listing.cause));
      }
      var pods := listing.pods;
      ghost var s := Config();
      calls := [];
      var i := 0;
      while i < |pods|
        invariant 0 <= i <= |pods|
        invariant forall m :: 0 <= m < i ==> !cancelled(m)
        invariant calls == Flatten(s, now, pods[..i])
        invariant FirstFatal(deleter, |calls|).None?
      {
        if cancelled(i) {
          CompletedPass(s, now, pods, cancelled, deleter, i);
          return calls, None;
        }
        var pod := pods[i];
        FlattenStep(s, now, pods, i);
        if pod.phase == PodPending || pod.phase == PodSucceeded || pod.phase == PodUnknown {
          i := i + 1;
          continue;
        }
        if pod.creationTimestamp + grace > now {
          i := i + 1;
          continue;
        }
        assert PodCalls(s, now, pod) == if dryRun then [] else StatusCalls(reasons, Id(pod), pod.containerStatuses);
        var failure;
        calls, failure := DeleteMatching(pod, calls);
        if failure.Some? {
          ReachedIsPlannedPrefix(s, now, pods, cancelled, i);
          PrefixTransitive(calls, Flatten(s, now, pods[..i + 1]), Planned(s, now, pods, cancelled));
          FatalCallEndsPass(s, now, pods, cancelled, deleter, calls);
          return calls, Some(DeleteFailed(pod.namespace, pod.name, failure.value));
        }
        i := i + 1;
      }
      assert pods[..i] == pods;
      CompletedPass(s, now, pods, cancelled, deleter, i);
      err := None;
    }
  }
}
