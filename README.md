# k8s-pod-deleter controller, modelled in Dafny

k8s-pod-deleter is a small Kubernetes controller. It periodically lists the pods
matching a namespace and a label selector and deletes those that are stuck in a
failure state. A pod is stuck when one of its container statuses reports a
listed reason, `CrashLoopBackOff` or `Error` by default. A status reports its
terminated reason if it has one, else its waiting reason, else the empty
string. So a terminated reason hides a waiting one, and listing `""` as a
reason makes a pod whose container is only running deletable. A pod
is deleted only when its phase is not Pending, Succeeded or Unknown, and only
once it is at least as old as a grace period (30 minutes by default). This project models
the controller package and its test double:

- `wrappers.dfy` — `Option` and `Result`.
- `pods.dfy` — the parts of a Kubernetes pod the controller reads (namespace,
  name, creation time, phase, container states), the lister's answer, and the
  three kinds of answer a delete can get: deleted, not found, other error.
- `controller.dfy` — the configuration built by `New` from defaults and options,
  the decision for one pod and one container status, and one pass (`Once`).
  A pass is specified by the function `Pass`. `Planned` is the sequence of delete
  calls, pod by pod in list order, up to the first pod at which cancellation is
  observed. `Pass` cuts `Planned` after the first delete whose response is fatal,
  meaning an error other than not-found. The class `Controller` keeps the
  source's fields. `New` applies the options through its `Apply` method and fills
  `reasonsMap`. `Once` runs the source's two nested loops: the container loop is
  the helper method `DeleteMatching`. `Once` is proved to return exactly `Pass`.
- `controller_test.dfy` — the fake client `FakeCluster`, whose delete filters its
  pod list, the pod builder `MakePod`, and the four table scenarios of
  `TestController`, proved down to the number of pods left.

The environment is passed in explicitly:
- The lister is a function from (namespace, selector) to a `ListResult`.
- The deleter is a function from k to the response the k-th delete call of the
  pass receives, so every possible sequence of API answers is covered.
- Cancellation of the context is a predicate on the pod index, checked before
  each pod as the source does.
- The current time `now` is an integer number of seconds.

Two behaviours of the code a reader may not expect, both kept by the model:
- The container loop (pkg/controller/controller.go:121-152) has no `break`
  after a delete. It issues one `DeletePod` per container status whose reason
  is accepted, so a pod with two crashing containers gets two delete calls.
  The cluster answers the second call on its own terms. Success or not-found
  lets the pass go on, and any other error ends it. The model's deleter gives
  an arbitrary answer to every call, so all of these cases are covered.
  `StatusCallsCount` and `PodCallsCount` state the number of calls.
- The phase switch (pkg/controller/controller.go:103-110) skips only Pending,
  Succeeded and Unknown. Every other phase goes on to the age and reason
  checks, Running and Failed included, and so does an unrecognised phase
  string.

## Model

| member | source | states |
|---|---|---|
| Controller.Controller.WithDefaults | pkg/controller/controller.go:51-59 | a new controller holds the given lister and deleter, an empty namespace and selector, a 30-minute grace, a 10-minute interval, dry run off, the default reasons and an empty reasons map |
| Controller.Controller.Apply | pkg/controller/controller.go:191-256 | applying one option sets exactly the field that option names (the logger option changes no modelled field); a failing option reports its error and leaves the settings as they were |
| Controller.Controller.FillReasonsMap | pkg/controller/controller.go:75-77 | after the loop, every configured reason is a key of the map with value true, and the earlier entries are kept |
| Controller.Controller.New | pkg/controller/controller.go:50-80 | with a failing option: no controller, and the error of the first failing option; otherwise a fresh controller whose settings are the defaults with the options applied in order, whose lister and deleter are the given ones, and whose map's keys are exactly the configured reasons |
| Controller.ConfigureAppend | pkg/controller/controller.go:61-65 | applying the options `a + b` is applying `a`, then `b` to its result, and an error in `a` stops there |
| Controller.ConfigureFailsIff | pkg/controller/controller.go:61-65 | configuration fails if and only if some option in the list fails |
| Controller.FirstFailingOptionWins | pkg/controller/controller.go:61-65 | when option i is the first failing one, configuration reports exactly its error |
| Controller.ConfigureLastWins | pkg/controller/controller.go:51-65 | when configuration succeeds, each field is the value of the last option that sets it, or its default when no option does |
| Controller.InStatusCalls | pkg/controller/controller.go:121-137 | the container loop issues a call for a pod if and only if some container status's reason (terminated reason first, else waiting reason, else empty) is in the reason set |
| Controller.StatusCallsCount | pkg/controller/controller.go:121-152 | the container loop issues exactly one call per container status whose reason is accepted |
| Controller.InPodCalls | pkg/controller/controller.go:103-152 | a pod gets a delete call if and only if dry run is off, its phase is not Pending, Succeeded or Unknown, creation time plus grace is not after now, and some container reason is accepted; every such call names the pod itself |
| Controller.PodCallsCount | pkg/controller/controller.go:103-152 | a pod gets no call when it is skipped or dry run is on, and otherwise one call per matching container status |
| Controller.Reached | pkg/controller/controller.go:90-96 | the pass gets through exactly the pods before the first index at which cancellation is observed |
| Controller.FirstFatal | pkg/controller/controller.go:144-149 | the index of the first delete response that is neither success nor not-found, if there is one |
| Controller.InFlatten | pkg/controller/controller.go:90-153 | a call belongs to the calls for a list of pods if and only if it belongs to the calls for one of those pods |
| Controller.FlattenPrefix | pkg/controller/controller.go:90-153 | the calls for the first a pods are a prefix of the calls for the first b pods when a <= b: calls go out in list order |
| Controller.DryRunDeletesNothing | pkg/controller/controller.go:143-151 | in dry-run mode a pass issues no delete and ends without error |
| Controller.ListFailureDeletesNothing | pkg/controller/controller.go:85-88 | when listing fails, the pass issues no delete and returns the listing error |
| Controller.PassEndings | pkg/controller/controller.go:84-156 | the calls are a prefix of the plan. Every call but the last got a non-fatal answer. The pass ends without error exactly when no planned call gets a fatal answer, and then it issued the whole plan. Otherwise the error names the pod of the last call and carries the fatal answer's cause |
| Controller.CallsTargetDeletablePods | pkg/controller/controller.go:90-152 | every call names a listed pod that was reached before any cancellation and that the decision deletes |
| Controller.ProtectedPodNeverDeleted | pkg/controller/controller.go:103-137 | when pod identities are unique, a pod that is skipped by phase, age, reasons or dry run is never the target of a call |
| Controller.DeletablePodDeleted | pkg/controller/controller.go:90-152 | a pod the decision deletes, reached before any cancellation, is the target of a call when the pass ends without error |
| Controller.CancellationStopsPass | pkg/controller/controller.go:90-96 | once cancellation is observed at pod i, the pass issues nothing beyond the calls for pods before i |
| Controller.Controller.DeleteMatching | pkg/controller/controller.go:121-152 | without a fatal answer: the earlier calls followed by one call per matching status, or by nothing in dry run. With a fatal answer: a prefix of that, ending with a call for this pod, where the fatal answer is the first one of the pass and carries the returned cause |
| Controller.Controller.Once | pkg/controller/controller.go:84-156 | the calls issued and the error returned are exactly those of `Pass` for the controller's settings, what the lister returns for its namespace and selector, the cancellation points and the deleter's answers |
| ControllerTest.FakeCluster.constructor | pkg/controller/controller_test.go:123-124 | the fake starts with the scenario's pods |
| ControllerTest.FakeCluster.ListPods | pkg/controller/controller_test.go:18-20 | listing always succeeds and returns the pods the fake holds, whatever the namespace and selector |
| ControllerTest.FakeCluster.DeletePod | pkg/controller/controller_test.go:22-33 | the fake keeps, in order, exactly the pods that do not carry the given namespace and name, and answers success even when no pod matches |
| ControllerTest.FakeCluster.LenPods | pkg/controller/controller_test.go:35-37 | the number of pods the fake holds |
| ControllerTest.WithoutAppend | pkg/controller/controller_test.go:24-31 | the fake's filter works pod by pod: filtering `a + b` is filtering `a`, then `b`, concatenated |
| ControllerTest.WithoutMembers | pkg/controller/controller_test.go:24-31 | a pod survives the filter if and only if it was present and does not carry the deleted namespace and name |
| ControllerTest.WithoutAbsent | pkg/controller/controller_test.go:24-31 | deleting a name no pod carries leaves the list unchanged |
| ControllerTest.WithoutLength | pkg/controller/controller_test.go:24-31 | the filter never grows the list, and shrinks it when some pod carries the name |
| ControllerTest.ApplyDeletesMembers | pkg/controller/controller_test.go:22-33 | after a sequence of deletes, a pod remains if and only if it was present and no delete named it |
| ControllerTest.Replay | pkg/controller/controller_test.go:22-33 | issuing a sequence of deletes to the fake leaves it holding the pods that no delete named |
| ControllerTest.MakePod | pkg/controller/controller_test.go:51-80 | the built pod has the given namespace, name and phase, was created `age` before now, and has one container. The container's reason is the given one when the state is Waiting or Terminated and empty otherwise. It is running only for the Running state |
| ControllerTest.TestOptionsConfigure | pkg/controller/controller_test.go:126-129 | the scenarios' options give the default settings with a 5-minute grace |
| ControllerTest.RunTest | pkg/controller/controller_test.go:118-136 | one scenario (fake client, controller built with a 5-minute grace, one pass) returns no error and leaves the number of pods given by `Remaining` |
| ControllerTest.ScenarioEmpty | pkg/controller/controller_test.go:88-92 | an empty cluster stays empty |
| ControllerTest.ScenarioDeleteNone | pkg/controller/controller_test.go:93-99 | an hour-old running pod without a failure reason is kept |
| ControllerTest.ScenarioDeleteAll | pkg/controller/controller_test.go:100-107 | two crash-looping pods older than the grace period are both deleted |
| ControllerTest.ScenarioDeleteOne | pkg/controller/controller_test.go:108-115 | of two crash-looping pods, the one created a minute ago is kept and the three-hour-old one is deleted |
| ControllerTest.TestController | pkg/controller/controller_test.go:82-138 | the four scenarios end with 0, 1, 0 and 1 pods left |

## Left out

- `Loop` and `Stop` (pkg/controller/controller.go:158-189) are not modelled. They are concurrency: a ticker, a stop channel and a cancellable context. A pass at one instant is `Once`, and cancellation is its `cancelled` parameter. `Loop` runs `Once` once at start, then on every tick, and returns the first error.
- The logger is not modelled: the zap logger, the log lines and their fields. `WithLogger` is an option that changes no modelled field.
- Controller.Controller.New: does not model the failure to build the default production logger (pkg/controller/controller.go:67-73), because creating a logger is I/O. The model's `New` fails only through an option.
- Options are a closed set: the library's seven setters plus `FailingOption`. `FailingOption` stands for a caller-supplied option function that returns an error. Other effects of arbitrary caller functions are not modelled.
- Error wrapping is not modelled. The error texts from `errors.Wrap` and `errors.Wrapf` become `PassError` values: the cause of a listing failure, or the namespace, name and cause of a delete failure. The `New` option error is the option's own cause.
- `k8sErrors.IsNotFound` is the `NotFound` answer kind. Every other delete error is `DeleteError`.
- Controller.Controller.Once: judges every pod of a pass at one instant `now`. The source reads the clock inside the pod loop (pkg/controller/controller.go:113), once per pod that reaches the age check, so its "now" moves forward during a pass. A pod that crosses its grace boundary in the middle of a pass can therefore be deleted by the source but kept by the model.
- `time.Now()` becomes the parameter `now`. Timestamps and durations are whole seconds as unbounded integers: sub-second precision and int64 overflow of `CreationTimestamp + grace` are not modelled. `MakePod` takes the same `now` as the pass, whereas the test calls `time.Now()` separately. The scenario ages (one minute against five, one or three hours against five minutes) are far from the grace boundary.
- The `interval` setting is stored and configured but only `Loop` uses it, and `Loop` is left out.
- `stopChan`, created by `New`, is left out along with `Loop` and `Stop`.
- ControllerTest.RunTest: the deletes are replayed on the fake after the pass rather than interleaved with it. This is equivalent for this fake: its delete always succeeds, and `Once` iterates over the slice that `ListPods` returned before any delete. The pass is given that listing as a snapshot.
- `createLogger` (pkg/controller/controller_test.go:39-48), a debugging aid that no test calls, is left out.
- `t.Parallel()` and the subtest runner are left out. Each scenario is an independent `RunTest` call.
- pkg/k8s/k8s.go, the real API client, is not part of this model.
- cmd/k8s-pod-deleter/main.go, the flags and signal handling, is not part of this model.
