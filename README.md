# OpenShift test extension — a Dafny model

This project models `OpenShiftTestExtension`, the JUnit 5 extension that runs an
OpenShift test class. Before the tests it:

- optionally creates an ephemeral namespace;
- deploys the additional resources;
- runs the `@CustomizeApplicationDeployment` hooks;
- applies the generated manifest, waits for its image streams and builds the
  application, either from a native binary or from a tarball of `target`;
- configures the HTTP test client and waits for the application route.

After the tests it:

- runs the failure actions if a test failed;
- decides whether to undeploy the application;
- runs the `@CustomizeApplicationUndeployment` hooks;
- drops or keeps the ephemeral namespace.

It also resolves `@TestResource` fields and parameters, caching the OpenShift client,
metadata and utilities in the extension store.

## How the model is built

- **Inputs.** Everything the extension learns from outside is one value of type `Env`.
  This covers:
  - the configuration switches for ephemeral namespaces and retain-on-failure;
  - the `@ManualApplicationDeployment` and `@CustomAppMetadata` annotations;
  - `target/app-metadata.properties`;
  - whether `target/kubernetes/openshift.yml` exists and which objects it holds;
  - the files under `target`, the routes and Knative routes;
  - the methods of the test class and the discovered failure actions;
  - which outside calls throw (`env.failing`).
- **Effects.** Every command (`oc`, `tar`, `rm`), collaborator call, hook invocation,
  failure action and significant log line is an `Effect`.
  - A `Run` is the list of effects a phase emits, plus the error it ends with.
  - `Plan.Then` composes phases the way sequential Java statements do: once one throws,
    nothing after it runs.
  - `Plan` defines every phase as a function of `Env`.
- **The extension object.** `Lifecycle.Extension` is a class holding the store and the
  effects emitted so far:
  - `status` is the `TestsStatus`;
  - `namespace` is the `EphemeralNamespace`;
  - `cache` holds the cached collaborators;
  - `closeables` holds the registered additional resources;
  - `trace` holds the effects.

  Each method that emits effects is proved to append exactly the effects, and throw
  exactly the error, that the matching `Plan` function gives. The getters,
  `FailureOccurred` and the five exception handlers emit nothing; their contracts state
  the returned value and the new store or status directly.
- **Property modules.** `HookProperties`, `SetupProperties` and `TeardownProperties`
  prove the extension's promises about those functions: step order, the teardown
  decision matrix, hook selection and failure-action isolation.

Where the code does something a reader might not expect, the model follows the code:

- If `oc start-build --from-archive` fails, `rm app.tar.gz` is not run, because the
  exception leaves `doBeforeAll` (`SetupProperties.ArchiveBuild`).
- A failing `oc delete -f` throws out of `afterAll`, so the undeployment hooks and the
  namespace step are skipped (`TeardownProperties.UndeployFailureStops`).
- A throwing `@CustomizeApplicationUndeployment` hook likewise throws out of `afterAll`:
  the ephemeral namespace is then neither deleted nor reported as kept
  (`TeardownProperties.HookFailureStops`).
- The image streams of the manifest are awaited after `oc apply` and before the build.
- `Class.getMethods()` returns only public methods. An annotated non-public hook method
  is therefore silently ignored, not rejected (`HookProperties.HookPhaseSucceeds`).
- The ephemeral namespace is put in the store before `oc new-project` runs, so teardown
  still handles it even when its creation failed: it deletes the namespace or, with
  retain-on-failure, reports it kept. A throwing undeployment hook skips this step.
- `getURL` for a route that does not exist dereferences `null`. This is modelled as the
  error `NullRoute`.
- `resolveParameter` turns an `OpenShiftTestException` into a
  `ParameterResolutionException` with the same message.
- The exception handlers rethrow the original exception, unless the tests status is
  missing. In that case `failureOccured` throws its `IllegalStateException` instead.

## Model

| member | source | states |
|---|---|---|
| Lifecycle.ShouldUndeployApplication | common/src/main/java/io/quarkus/ts/openshift/common/OpenShiftTestExtension.java:270-289 | the flag updated through its three conditions equals the decision matrix's "delete application"; the "not deleting any resources" line is printed exactly for a failed run with retain-on-failure and no ephemeral namespace |
| Lifecycle.Extension.GetOrComputeIfAbsent | common/src/main/java/io/quarkus/ts/openshift/common/OpenShiftTestExtension.java:68-72 | a cached value is returned with the store unchanged and nothing built; otherwise the value is built, its build count goes up by one, and it is stored and returned; the store invariant keeps the build count of every cached key at exactly one and of every other key at zero |
| Lifecycle.Extension.GetOpenShiftClient | common/src/main/java/io/quarkus/ts/openshift/common/OpenShiftTestExtension.java:68-72 | returns the client the store holds under its key, building it only when absent, touching no other key |
| Lifecycle.Extension.GetAppMetadata | common/src/main/java/io/quarkus/ts/openshift/common/OpenShiftTestExtension.java:78-93 | `@CustomAppMetadata` takes precedence over the properties file; the result is the stored metadata, built only when absent; only the metadata key is cached |
| Lifecycle.Extension.GetAwaitUtil | common/src/main/java/io/quarkus/ts/openshift/common/OpenShiftTestExtension.java:95-100 | the awaiter is built from the effective metadata and caches the client and metadata on the way |
| Lifecycle.Extension.GetOpenShiftUtil | common/src/main/java/io/quarkus/ts/openshift/common/OpenShiftTestExtension.java:102-107 | the utility is built from the effective metadata and caches the client, metadata and awaiter on the way |
| Lifecycle.Extension.GetURL | common/src/main/java/io/quarkus/ts/openshift/common/OpenShiftTestExtension.java:399-418 | the URL is the named route's base address, or the application route's address plus its root; which keys are cached depends on `@WithName` |
| Lifecycle.Extension.ValueFor | common/src/main/java/io/quarkus/ts/openshift/common/OpenShiftTestExtension.java:378-397 | the dispatch over the injection point's type gives the reference resolution, caches exactly the keys its getters touch, and returns for the client, metadata, awaiter and utility the very value the store holds under their key |
| Lifecycle.Extension.ResolveParameter | common/src/main/java/io/quarkus/ts/openshift/common/OpenShiftTestExtension.java:368-376 | parameter resolution is the value for the injection point, with an `OpenShiftTestException` rewrapped |
| Lifecycle.Extension.ResolveArguments | common/src/main/java/io/quarkus/ts/openshift/common/OpenShiftTestExtension.java:328-334 | the arguments are the parameters' values in order, stopping at the first error |
| Lifecycle.Extension.InjectDependencies | common/src/main/java/io/quarkus/ts/openshift/common/OpenShiftTestExtension.java:469-477 | the `@TestResource` fields get their values in order; the first failure aborts the injection |
| Lifecycle.Extension.RunAndWait | common/src/main/java/io/quarkus/ts/openshift/common/OpenShiftTestExtension.java:153 | a command is emitted once, and throws exactly when the environment makes it fail |
| Lifecycle.Extension.RunHook | common/src/main/java/io/quarkus/ts/openshift/common/OpenShiftTestExtension.java:321-336 | one annotated method: signature check, argument resolution, then invocation |
| Lifecycle.Extension.RunPublicStaticVoidMethods | common/src/main/java/io/quarkus/ts/openshift/common/OpenShiftTestExtension.java:319-339 | the loop over the public methods emits and throws exactly what the hook phase does |
| Lifecycle.Extension.CreateEphemeralNamespaceIfNecessary | common/src/main/java/io/quarkus/ts/openshift/common/OpenShiftTestExtension.java:179-187 | when enabled, stores the generated namespace and runs `oc new-project`; otherwise does neither |
| Lifecycle.Extension.DeployDeclarations | common/src/main/java/io/quarkus/ts/openshift/common/OpenShiftTestExtension.java:194-209 | deploys every declaration in order, stopping at the first failure; registers each deployed declaration for closing unless namespaces are ephemeral |
| Lifecycle.Extension.DeployAdditionalResources | common/src/main/java/io/quarkus/ts/openshift/common/OpenShiftTestExtension.java:189-210 | the client, the metadata and the awaiter are fetched, so exactly their keys are added to the store; then the declarations are deployed and registered as above |
| Lifecycle.Extension.RunEach | common/src/main/java/io/quarkus/ts/openshift/common/OpenShiftTestExtension.java:223 | runs a list of collaborator calls in order, stopping at the first one that throws |
| Lifecycle.Extension.AwaitImageStreams | common/src/main/java/io/quarkus/ts/openshift/common/OpenShiftTestExtension.java:212-224 | awaits, in manifest order, every image stream not named like the application |
| Lifecycle.Extension.BuildApplication | common/src/main/java/io/quarkus/ts/openshift/common/OpenShiftTestExtension.java:157-171 | binary build from a native runner, or tar, archive build and removal |
| Lifecycle.Extension.DeployApplication | common/src/main/java/io/quarkus/ts/openshift/common/OpenShiftTestExtension.java:144-172 | the deploy block: skipped under manual deployment, missing-manifest error, then overrides, apply, image-stream awaits and the build |
| Lifecycle.Extension.SetUpRestAssured | common/src/main/java/io/quarkus/ts/openshift/common/OpenShiftTestExtension.java:226-254 | the client configuration is the reference configuration or its error |
| Lifecycle.Extension.PrepareDeployment | common/src/main/java/io/quarkus/ts/openshift/common/OpenShiftTestExtension.java:135-142 | namespace, additional resources and deployment hooks, in that order, with the store updated accordingly |
| Lifecycle.Extension.RollOut | common/src/main/java/io/quarkus/ts/openshift/common/OpenShiftTestExtension.java:144-176 | deploy block, client configuration and route await; the configuration is produced only when the steps before it complete |
| Lifecycle.Extension.DoBeforeAll | common/src/main/java/io/quarkus/ts/openshift/common/OpenShiftTestExtension.java:135-177 | the whole set-up emits and throws what `Plan.Setup` gives, and stores the namespace and the registered resources |
| Lifecycle.Extension.BeforeAll | common/src/main/java/io/quarkus/ts/openshift/common/OpenShiftTestExtension.java:123-133 | creates the tests status, runs the set-up, and marks the run failed exactly when the set-up throws, rethrowing its error |
| Lifecycle.Extension.FailureOccurred | common/src/main/java/io/quarkus/ts/openshift/common/OpenShiftTestExtension.java:479-481 | marks the run failed; with no tests status it throws the framework-bug error and changes nothing |
| Lifecycle.Extension.HandleBeforeAllMethodExecutionException | common/src/main/java/io/quarkus/ts/openshift/common/OpenShiftTestExtension.java:430-434 | when the tests status exists, marks the run failed and rethrows the same exception; otherwise throws the missing-status error and changes nothing |
| Lifecycle.Extension.HandleBeforeEachMethodExecutionException | common/src/main/java/io/quarkus/ts/openshift/common/OpenShiftTestExtension.java:436-440 | when the tests status exists, marks the run failed and rethrows the same exception; otherwise throws the missing-status error and changes nothing |
| Lifecycle.Extension.HandleAfterEachMethodExecutionException | common/src/main/java/io/quarkus/ts/openshift/common/OpenShiftTestExtension.java:442-446 | when the tests status exists, marks the run failed and rethrows the same exception; otherwise throws the missing-status error and changes nothing |
| Lifecycle.Extension.HandleAfterAllMethodExecutionException | common/src/main/java/io/quarkus/ts/openshift/common/OpenShiftTestExtension.java:448-452 | when the tests status exists, marks the run failed and rethrows the same exception; otherwise throws the missing-status error and changes nothing |
| Lifecycle.Extension.HandleTestExecutionException | common/src/main/java/io/quarkus/ts/openshift/common/OpenShiftTestExtension.java:454-458 | when the tests status exists, marks the run failed and rethrows the same exception; otherwise throws the missing-status error and changes nothing |
| Lifecycle.Extension.RunOnFailureAction | common/src/main/java/io/quarkus/ts/openshift/common/OpenShiftTestExtension.java:460-467 | injection, then execution; any error is logged and never thrown |
| Lifecycle.Extension.RunFailureActions | common/src/main/java/io/quarkus/ts/openshift/common/OpenShiftTestExtension.java:265 | every discovered action is attempted, in order |
| Lifecycle.Extension.ReportFailure | common/src/main/java/io/quarkus/ts/openshift/common/OpenShiftTestExtension.java:258-286 | the failure actions run only for a failed run; then the "not deleting" line is printed exactly when the flag computed by `shouldUndeployApplication` says so |
| Lifecycle.Extension.DropEphemeralNamespaceIfNecessary | common/src/main/java/io/quarkus/ts/openshift/common/OpenShiftTestExtension.java:304-317 | a stored namespace is deleted, or kept and reported for a failed run with retain-on-failure |
| Lifecycle.Extension.CleanUp | common/src/main/java/io/quarkus/ts/openshift/common/OpenShiftTestExtension.java:270-301 | undeploy exactly when the decision flag says so, then the undeployment hooks, then the namespace step, each only if the previous one completed |
| Lifecycle.Extension.AfterAll | common/src/main/java/io/quarkus/ts/openshift/common/OpenShiftTestExtension.java:256-302 | the undeploy decision is computed once; the whole tear-down emits and throws what `Plan.Teardown` gives for the stored status and namespace; with no status it throws before doing anything |
| Injection.EffectiveMetadata | common/src/main/java/io/quarkus/ts/openshift/common/OpenShiftTestExtension.java:78-93 | the annotation's metadata when present, otherwise the properties file's |
| Injection.ResolveParameter | common/src/main/java/io/quarkus/ts/openshift/common/OpenShiftTestExtension.java:368-376 | parameter resolution succeeds exactly when resolution does, with the same value; a failure never escapes as an `OpenShiftTestException` and keeps the original message: an `OpenShiftTestException` becomes a parameter-resolution error, any other error passes through unchanged |
| Injection.ResolveClosed | common/src/main/java/io/quarkus/ts/openshift/common/OpenShiftTestExtension.java:378-397 | only the seven known types resolve; any other type fails with "unsupported type", naming the type and the injection point, and nothing else fails that way; only URL injection can fail for a known type |
| Injection.UrlForRoutes | common/src/main/java/io/quarkus/ts/openshift/common/OpenShiftTestExtension.java:399-411 | a `@WithName` URL is the bare base address of the named route, and fails on a missing route; an unnamed URL is the application route's default address |
| Injection.ResolveAllInOrder | common/src/main/java/io/quarkus/ts/openshift/common/OpenShiftTestExtension.java:328-334 | a list resolves exactly when every element does, and then gives one value per element, in order |
| Injection.ResolveAllFirstError | common/src/main/java/io/quarkus/ts/openshift/common/OpenShiftTestExtension.java:328-334 | a failing list fails with the error of its first failing element |
| Injection.ResolveAllStable | common/src/main/java/io/quarkus/ts/openshift/common/OpenShiftTestExtension.java:328-334 | once a prefix fails, the elements after it do not change the result |
| Urls.BaseAddressScheme | common/src/main/java/io/quarkus/ts/openshift/common/OpenShiftTestExtension.java:420-426 | the address uses `https://` exactly when the route has TLS, `http://` otherwise, followed by the host |
| Urls.DefaultAddressRoot | common/src/main/java/io/quarkus/ts/openshift/common/OpenShiftTestExtension.java:404-411 | the root is appended exactly when it is longer than one character; a missing root and `/` give the bare base address |
| Urls.DefaultAddressExamples | common/src/main/java/io/quarkus/ts/openshift/common/OpenShiftTestExtension.java:404-411 | concrete addresses: a plain and a TLS route with the root `/api`, and a plain route with the root `/` |
| Plan.AdditionalEffects | common/src/main/java/io/quarkus/ts/openshift/common/OpenShiftTestExtension.java:196-199 | one deployment per `@AdditionalResources` declaration, in declaration order |
| Plan.AwaitEffects | common/src/main/java/io/quarkus/ts/openshift/common/OpenShiftTestExtension.java:223 | one await per image-stream name, in order |
| Plan.FindNativeBinary | common/src/main/java/io/quarkus/ts/openshift/common/OpenShiftTestExtension.java:483-489 | no result exactly when no file name matches `.*-runner`; otherwise the path of the first matching file |
| Plan.PublicMethodsMembers | common/src/main/java/io/quarkus/ts/openshift/common/OpenShiftTestExtension.java:320 | the methods considered are exactly the public methods of the test class |
| Plan.HookRunStable | common/src/main/java/io/quarkus/ts/openshift/common/OpenShiftTestExtension.java:319-339 | once a hook throws, the later hooks are not run |
| Plan.BuildPhaseFlat | common/src/main/java/io/quarkus/ts/openshift/common/OpenShiftTestExtension.java:157-171 | the build branch runs its command list in order and stops at the first failing command |
| Plan.DeployPhaseFlat | common/src/main/java/io/quarkus/ts/openshift/common/OpenShiftTestExtension.java:144-172 | the deploy block runs its command list (overrides, apply, awaits, build) in order and stops at the first failing command |
| HookProperties.HookRunSucceeds | common/src/main/java/io/quarkus/ts/openshift/common/OpenShiftTestExtension.java:319-339 | the hooks complete exactly when every annotated method is public static void, its arguments resolve and its invocation does not throw |
| HookProperties.HookRunInvocations | common/src/main/java/io/quarkus/ts/openshift/common/OpenShiftTestExtension.java:319-339 | every invocation is of an annotated public static void method, with its resolved arguments |
| HookProperties.HookRunInvokesAll | common/src/main/java/io/quarkus/ts/openshift/common/OpenShiftTestExtension.java:319-339 | when the hooks complete, every annotated method has been invoked |
| HookProperties.BadSignatureThrows | common/src/main/java/io/quarkus/ts/openshift/common/OpenShiftTestExtension.java:321-326 | an annotated method that is not public static void makes the hooks throw |
| HookProperties.HookPhaseSucceeds | common/src/main/java/io/quarkus/ts/openshift/common/OpenShiftTestExtension.java:319-339 | the hook phase completes exactly when every public annotated method conforms, resolves and runs; non-public methods do not matter |
| HookProperties.HookPhaseSkipsNonPublic | common/src/main/java/io/quarkus/ts/openshift/common/OpenShiftTestExtension.java:320-336 | every invocation is of a public method of the test class, for the phase's annotation |
| SetupProperties.RouteAwaitAfterConfig | common/src/main/java/io/quarkus/ts/openshift/common/OpenShiftTestExtension.java:135-177 | the route is awaited only when the HTTP client configuration exists, and that configuration exists only after the deployment hooks and the deploy block completed |
| SetupProperties.SetupOrdered | common/src/main/java/io/quarkus/ts/openshift/common/OpenShiftTestExtension.java:135-177 | set-up emits its steps in the fixed order: namespace, additional resources, deployment hooks, overrides, apply, image-stream awaits, build commands, route await |
| SetupProperties.SetupNamespace | common/src/main/java/io/quarkus/ts/openshift/common/OpenShiftTestExtension.java:179-187 | a namespace is created exactly when ephemeral namespaces are enabled, with the generated name, and as the very first effect |
| SetupProperties.ManualDeploymentRanks | common/src/main/java/io/quarkus/ts/openshift/common/OpenShiftTestExtension.java:144 | under manual deployment only the namespace, resource, hook and route-await steps occur |
| SetupProperties.ManualDeployment | common/src/main/java/io/quarkus/ts/openshift/common/OpenShiftTestExtension.java:144-172 | under manual deployment nothing is overridden, applied, built, archived or removed |
| SetupProperties.ManualDeploymentStillServes | common/src/main/java/io/quarkus/ts/openshift/common/OpenShiftTestExtension.java:144-176 | under manual deployment, when the hooks complete and the application's route exists, the client is still configured and the route still awaited, right after the hooks |
| SetupProperties.MissingManifestStops | common/src/main/java/io/quarkus/ts/openshift/common/OpenShiftTestExtension.java:145-148 | a missing manifest throws the missing-manifest error right after the hooks, and no client is configured |
| SetupProperties.MissingManifestNothingApplied | common/src/main/java/io/quarkus/ts/openshift/common/OpenShiftTestExtension.java:145-150 | with a missing manifest nothing is overridden, applied or built |
| SetupProperties.DeployCompletes | common/src/main/java/io/quarkus/ts/openshift/common/OpenShiftTestExtension.java:144-172 | the deploy block completes exactly when none of its commands fails; it then emits all of them, and otherwise a prefix |
| SetupProperties.DeployPhaseBuild | common/src/main/java/io/quarkus/ts/openshift/common/OpenShiftTestExtension.java:150-171 | the build comes last in the deploy block; everything before it is an override, the apply or an image-stream await |
| SetupProperties.ArchiveBuildPhase | common/src/main/java/io/quarkus/ts/openshift/common/OpenShiftTestExtension.java:161-171 | an archive build is tar, `start-build --from-archive`, `rm`, in that order; `rm` runs exactly when the two before it succeed |
| SetupProperties.NativeBuild | common/src/main/java/io/quarkus/ts/openshift/common/OpenShiftTestExtension.java:157-160 | with a native binary nothing is archived or removed; the build streams that binary for the application and comes last |
| SetupProperties.ArchiveBuild | common/src/main/java/io/quarkus/ts/openshift/common/OpenShiftTestExtension.java:161-171 | without a native binary no file build happens; a failing archive build leaves the archive behind; on success the block ends with tar, archive build, `rm` |
| SetupProperties.RunEachNoBuild | common/src/main/java/io/quarkus/ts/openshift/common/OpenShiftTestExtension.java:217-223 | the image-stream stage emits only image-stream awaits |
| SetupProperties.AwaitedMembers | common/src/main/java/io/quarkus/ts/openshift/common/OpenShiftTestExtension.java:217-223 | a name is awaited exactly when it names an image stream of the manifest and differs from the application name |
| SetupProperties.AwaitedAppend | common/src/main/java/io/quarkus/ts/openshift/common/OpenShiftTestExtension.java:217-223 | the filter works object by object: manifest order is kept |
| SetupProperties.RunnerNames | common/src/main/java/io/quarkus/ts/openshift/common/OpenShiftTestExtension.java:486 | `.*-runner` matches the whole file name: a `-runner` suffix, no line terminator before it |
| SetupProperties.RestAssuredRoute | common/src/main/java/io/quarkus/ts/openshift/common/OpenShiftTestExtension.java:226-254 | a non-Knative target uses the OpenShift route's base address as base URI, over HTTPS with relaxed validation exactly when it has TLS; a Knative target uses the Knative route URL; the base path is the root; a missing route is an error naming the application |
| SetupProperties.RegisteredAreDeployed | common/src/main/java/io/quarkus/ts/openshift/common/OpenShiftTestExtension.java:197-207 | only successfully deployed declarations are registered for closing, all of them when none fails, and none with ephemeral namespaces |
| TeardownProperties.UndeployRule | common/src/main/java/io/quarkus/ts/openshift/common/OpenShiftTestExtension.java:270-294 | `oc delete -f openshift.yml --ignore-not-found` runs exactly when the namespace is not ephemeral, the run is not both failed and retained, and the deployment is not manual; no other manifest deletion happens |
| TeardownProperties.NamespaceDrop | common/src/main/java/io/quarkus/ts/openshift/common/OpenShiftTestExtension.java:304-317 | once undeploy and hooks complete, the stored namespace is deleted exactly when not retained, and reported kept exactly when retained; with no stored namespace neither happens |
| TeardownProperties.UndeployFailureStops | common/src/main/java/io/quarkus/ts/openshift/common/OpenShiftTestExtension.java:291-301 | a failing undeploy ends tear-down with its error: no hook runs and the namespace is not deleted |
| TeardownProperties.HookFailureStops | common/src/main/java/io/quarkus/ts/openshift/common/OpenShiftTestExtension.java:299-301 | a throwing undeployment hook ends tear-down with its error right after the hooks: the namespace is neither deleted nor reported kept |
| TeardownProperties.TeardownMatchesDecide | common/src/main/java/io/quarkus/ts/openshift/common/OpenShiftTestExtension.java:270-317 | with the namespace set-up stored, the application and namespace deletions follow the decision matrix, and only the generated namespace is deleted |
| TeardownProperties.FailureActionsOnlyOnFailure | common/src/main/java/io/quarkus/ts/openshift/common/OpenShiftTestExtension.java:260-266 | without a failure no failure action runs and no failure line is logged |
| TeardownProperties.FailureActionsAllAttempted | common/src/main/java/io/quarkus/ts/openshift/common/OpenShiftTestExtension.java:460-467 | every action is attempted: it runs when its fields resolve, and its resolution error is logged otherwise |
| TeardownProperties.FailureActionsRunOnlyListed | common/src/main/java/io/quarkus/ts/openshift/common/OpenShiftTestExtension.java:460-467 | only listed actions whose fields resolve are run; an action that throws is logged, not propagated |
| TeardownProperties.FailureActionsIsolated | common/src/main/java/io/quarkus/ts/openshift/common/OpenShiftTestExtension.java:260-266 | after a failed run every action whose fields resolve is run, whatever the other actions did |
| TeardownProperties.HooksRunAfterUndeploy | common/src/main/java/io/quarkus/ts/openshift/common/OpenShiftTestExtension.java:291-299 | the undeployment hooks run after the undeploy command, and only once it has succeeded |
| TeardownProperties.RetainedEphemeralScenario | common/src/main/java/io/quarkus/ts/openshift/common/OpenShiftTestExtension.java:270-316 | a failed, retained run with an ephemeral namespace deletes nothing, prints no "not deleting" line, and, once the undeployment hooks complete, reports the namespace kept |
| TeardownProperties.RetainedFixedScenario | common/src/main/java/io/quarkus/ts/openshift/common/OpenShiftTestExtension.java:278-294 | a failed, retained run in a fixed namespace prints "not deleting any resources" and deletes nothing |
| TeardownProperties.ManualScenario | common/src/main/java/io/quarkus/ts/openshift/common/OpenShiftTestExtension.java:287-289 | a manually deployed application is never deleted |

## Left out

- Console output is modelled only where it carries a decision: the "not deleting any
  resources" line, the "keeping ephemeral namespace" line and the failure-action error
  line. Banners, progress lines and ANSI colouring are left out.
- `beforeEach` (lines 349-354) only prints a banner and is not modelled.
- `supportsParameter` is not modelled: it only checks for `@TestResource`.
- `postProcessTestInstance` is not modelled separately: it only delegates to
  `injectDependencies`, which is `Lifecycle.Extension.InjectDependencies`.
- The calls into other classes are single effects whose failure comes from
  `env.failing`. This covers `Command.runAndWait`, `ImageOverrides.apply`,
  `AdditionalResourcesDeployed.deploy`, `AwaitUtil.awaitImageStream`/`awaitAppRoute`,
  hook invocation and `OnOpenShiftFailureAction.execute`. Their internals (polling,
  timeouts, process I/O) are not part of this model.
- `EphemeralNamespace.newWithRandomName` is replaced by the generated name, an input in
  `Env`.
- The ServiceLoader discovery of failure actions is replaced by an input list in `Env`.
- The configuration switches for ephemeral namespaces and retain-on-failure are inputs
  in `Env`.
- Parsing of `target/app-metadata.properties` and of the manifest is not modelled. Their
  contents are inputs, and read errors are not modelled.
- The `Files.find` walk is replaced by its result: `Env.targetFiles` lists the entries (files and directories) in
  the order the walk yields them.
- The RestAssured global state is not written. `setUpRestAssured` returns the
  configuration it would set (`HttpConfig`) instead.
- `oc.adapt(KnativeClient.class)` is not modelled: the Knative client is a value, and the
  Knative routes are an input map.
- `MalformedURLException` (lines 412-417) is not modelled. URLs are strings, and no
  route host makes the address malformed in this model.
- `AdditionalResourcesDeployed.close` (closing the store) happens outside the
  extension's methods. The model only records which declarations are registered for
  closing.
- Lifecycle.Extension.DeployAdditionalResources, Lifecycle.Extension.DropEphemeralNamespaceIfNecessary
  and Lifecycle.Extension.CleanUp require the tests status to be present. Their only
  callers, `beforeAll` and `afterAll`, create or check it first, so the "missing
  TestsStatus" error of `getTestsStatus` inside them is not modelled.
- Lifecycle.Extension.ResolveArguments and Lifecycle.Extension.InjectDependencies state
  only that the cached keys grow, not exactly which keys, because a failing element
  stops the caching part way.
- Urls.AppendsHttpRoot counts the root's length in Unicode scalar values, where Java's
  `length()` counts UTF-16 code units; they differ only for a root made of a single
  character outside the Basic Multilingual Plane.
- Concurrency: the extension is used from one thread per test class, and the model is
  sequential.
