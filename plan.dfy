/**
  The effects the extension emits in each phase, as functions of the environment.

  A `Run` is what a phase emits and the error it ends with, if any.  Phases are
  composed with `Then`: a phase that throws stops everything after it, which is how
  the extension's sequential statements behave when one of them throws.
*/
module Plan {
  import opened Outcomes
  import opened Model
  import opened Urls
  import opened Injection

  /** The effects a phase emitted, and the error it threw (None: it completed). */
  datatype Run = Run(effects: seq<Effect>, err: Option<Error>)

  const Done: Run := Run([], None)

  function Abort(e: Error): Run
  {
    Run([], Some(e))
  }

  /** Sequential composition: `b` runs only when `a` completed. */
  function Then(a: Run, b: Run): (r: Run)
    ensures r.err.None? <==> a.err.None? && b.err.None?
    ensures a.err.Some? ==> r == a
    ensures a.err.None? ==> r.effects == a.effects + b.effects && r.err == b.err
  {
    if a.err.Some? then a else Run(a.effects + b.effects, b.err)
  }

  /** One effect, which throws when the environment makes it fail (`runAndWait` of a
      command that exits non-zero, a collaborator that throws). */
  function Exec(e: Effect, failing: set<Effect>): Run
  {
    Run([e], if e in failing then Some(EffectFailed(e)) else None)
  }

  /** The index of the first failing effect in `es`, or `|es|` when none fails. */
  function FirstFailing(es: seq<Effect>, failing: set<Effect>): (k: nat)
    ensures k <= |es|
    ensures forall j :: 0 <= j < k ==> es[j] !in failing
    ensures k < |es| ==> es[k] in failing
    decreases |es|
  {
    if es == [] then 0
    else if es[0] in failing then 0
    else 1 + FirstFailing(es[1..], failing)
  }

  /** The effects `es` run in order: everything up to and including the first one that
      fails, which is then the error. */
  function ExecEach(es: seq<Effect>, failing: set<Effect>): Run
  {
    var k := FirstFailing(es, failing);
    if k == |es| then Run(es, None) else Run(es[..k + 1], Some(EffectFailed(es[k])))
  }

  // ---- Hooks (`runPublicStaticVoidMethods`)

  /** `Class.getMethods()` returns only the public methods of the test class. */
  function PublicMethods(ms: seq<HookMethod>): seq<HookMethod>
    decreases |ms|
  {
    if ms == [] then []
    else (if ms[0].isPublic then [ms[0]] else []) + PublicMethods(ms[1..])
  }

  /** The methods considered are exactly the public ones. */
  lemma {:induction false} PublicMethodsMembers(ms: seq<HookMethod>)
    ensures forall m :: m in PublicMethods(ms) <==> m in ms && m.isPublic
    decreases |ms|
  {
    if ms != [] {
      PublicMethodsMembers(ms[1..]);
      assert ms == [ms[0]] + ms[1..];
    }
  }

  /** `isPublicStaticVoid` */
  predicate IsPublicStaticVoid(m: HookMethod)
  {
    m.isPublic && m.isStatic && m.returnsVoid
  }

  /** One method: ignored unless annotated with `kind`; a signature error before anything
      is resolved; then its arguments resolved in parameter order; then the invocation. */
  function HookStep(env: Env, kind: HookKind, m: HookMethod): Run
  {
    if kind !in m.annotations then Done
    else if !IsPublicStaticVoid(m) then Abort(HookNotPublicStaticVoid(kind, m.declaringClass, m.name))
    else
      match ResolveAll(env, m.parameters)
      case Failure(e) => Abort(e)
      case Success(args) => Exec(InvokeHook(kind, m.declaringClass, m.name, args), env.failing)
  }

  function HookRun(env: Env, kind: HookKind, ms: seq<HookMethod>): Run
    decreases |ms|
  {
    if ms == [] then Done
    else Then(HookRun(env, kind, ms[..|ms| - 1]), HookStep(env, kind, ms[|ms| - 1]))
  }

  function HookPhase(env: Env, kind: HookKind): Run
  {
    HookRun(env, kind, PublicMethods(env.testMethods))
  }

  /** Once a prefix of the methods throws, the later methods are not run. */
  lemma {:induction false} HookRunStable(env: Env, kind: HookKind, ms: seq<HookMethod>, i: nat)
    requires i <= |ms| && HookRun(env, kind, ms[..i]).err.Some?
    ensures HookRun(env, kind, ms) == HookRun(env, kind, ms[..i])
    decreases |ms|
  {
    if i < |ms| {
      var init := ms[..|ms| - 1];
      assert init[..i] == ms[..i];
      HookRunStable(env, kind, init, i);
    } else {
      assert ms[..i] == ms;
    }
  }

  // ---- Setup (`doBeforeAll`)

  /** `createEphemeralNamespaceIfNecessary` */
  function NamespacePhase(env: Env): Run
  {
    if env.ephemeralNamespaces then Exec(NewProject(env.randomNamespace), env.failing) else Done
  }

  /** `deployAdditionalResources`: one deployment per declaration, in order. */
  function AdditionalEffects(env: Env): (es: seq<Effect>)
    ensures |es| == |env.additionalResources|
    ensures forall i :: 0 <= i < |es| ==> es[i] == DeployAdditional(env.additionalResources[i])
  {
    DeployEach(env.additionalResources)
  }

  function DeployEach(declarations: seq<string>): (es: seq<Effect>)
    ensures |es| == |declarations|
    ensures forall i :: 0 <= i < |es| ==> es[i] == DeployAdditional(declarations[i])
    decreases |declarations|
  {
    if declarations == [] then []
    else [DeployAdditional(declarations[0])] + DeployEach(declarations[1..])
  }

  function AdditionalPhase(env: Env): Run
  {
    ExecEach(AdditionalEffects(env), env.failing)
  }

  /** The declarations registered in the store for closing: those deployed without an
      error, and none when namespaces are ephemeral. */
  function RegisteredAdditional(env: Env): seq<string>
  {
    if env.ephemeralNamespaces then []
    else env.additionalResources[..FirstFailing(AdditionalEffects(env), env.failing)]
  }

  /** The stream filter of `awaitImageStreams`: names of the manifest's image streams, in
      manifest order, without the one named like the application. */
  function AwaitedImageStreams(objs: seq<ManifestObject>, appName: string): seq<string>
    decreases |objs|
  {
    if objs == [] then []
    else
      (if objs[0].ImageStreamObject? && objs[0].name != appName then [objs[0].name] else [])
      + AwaitedImageStreams(objs[1..], appName)
  }

  function AwaitEffects(names: seq<string>): (es: seq<Effect>)
    ensures |es| == |names|
    ensures forall i :: 0 <= i < |es| ==> es[i] == AwaitImageStream(names[i])
    decreases |names|
  {
    if names == [] then [] else [AwaitImageStream(names[0])] + AwaitEffects(names[1..])
  }

  /** A line terminator, which the regular expression `.` does not match. */
  predicate IsLineTerminator(c: char)
  {
    c == '\n' || c == '\r' || c == '\U{0085}' || c == '\U{2028}' || c == '\U{2029}'
  }

  /** The file name matches `.*-runner` as a whole. */
  predicate IsRunnerName(name: string)
  {
    |name| >= 7 && name[|name| - 7..] == "-runner"
    && forall i :: 0 <= i < |name| - 7 ==> !IsLineTerminator(name[i])
  }

  /** `findNativeBinary`: the path of the first file whose name matches. */
  function FindNativeBinary(files: seq<TargetFile>): (r: Option<string>)
    ensures r.None? <==> forall i :: 0 <= i < |files| ==> !IsRunnerName(files[i].name)
    ensures r.Some? ==> exists i :: 0 <= i < |files| && files[i].path == r.value && IsRunnerName(files[i].name)
                                     && forall j :: 0 <= j < i ==> !IsRunnerName(files[j].name)
    decreases |files|
  {
    if files == [] then None
    else if IsRunnerName(files[0].name) then Some(files[0].path)
    else
      var rest := FindNativeBinary(files[1..]);
      if rest.Some? then
        ghost var i :| 0 <= i < |files[1..]| && files[1..][i].path == rest.value && IsRunnerName(files[1..][i].name)
                       && forall j :: 0 <= j < i ==> !IsRunnerName(files[1..][j].name);
        assert files[i + 1].path == rest.value;
        rest
      else rest
  }

  /** The build branch: a native binary is streamed as a single file; otherwise the
      `target` directory is archived, the archive streamed, and the archive removed. */
  function BuildEffects(appName: string, binary: Option<string>): seq<Effect>
  {
    match binary
    case Some(b) => [StartBuildFromFile(appName, b)]
    case None => [Tar, StartBuildFromArchive(appName), Rm]
  }

  /** The deploy block in order: image overrides, apply, image-stream awaits, build. */
  function DeployEffects(env: Env): seq<Effect>
  {
    var app := EffectiveMetadata(env).appName;
    [ApplyImageOverrides(ManifestPath), Apply(ManifestPath)]
    + AwaitEffects(AwaitedImageStreams(env.manifest, app))
    + BuildEffects(app, FindNativeBinary(env.targetFiles))
  }

  /** The build branch as the extension runs it: one command after another, each only when
      the previous one exited normally. */
  function BuildPhase(appName: string, binary: Option<string>, failing: set<Effect>): Run
  {
    match binary
    case Some(b) => Exec(StartBuildFromFile(appName, b), failing)
    case None => Then(Exec(Tar, failing), Then(Exec(StartBuildFromArchive(appName), failing), Exec(Rm, failing)))
  }

  /** The deploy block: skipped under manual deployment; a missing manifest throws first;
      then image overrides, apply, the image-stream awaits and the build, in that order. */
  function DeployPhase(env: Env): Run
  {
    if env.manualDeployment then Done
    else if !env.manifestExists then Abort(MissingManifest(ManifestPath))
    else
      var app := EffectiveMetadata(env).appName;
      Then(Exec(ApplyImageOverrides(ManifestPath), env.failing),
        Then(Exec(Apply(ManifestPath), env.failing),
          Then(ExecEach(AwaitEffects(AwaitedImageStreams(env.manifest, app)), env.failing),
            BuildPhase(app, FindNativeBinary(env.targetFiles), env.failing))))
  }

  /** `setUpRestAssured`: an OpenShift route unless the deployment target mentions
      "knative", then a Knative route's URL; the base path is the metadata's root. */
  function RestAssuredConfig(env: Env): Result<HttpConfig, Error>
  {
    var md := EffectiveMetadata(env);
    if md.deploymentTarget == "" || !Contains(md.deploymentTarget, "knative") then
      if md.appName !in env.routes then Failure(MissingRoute(md.appName))
      else
        var route := env.routes[md.appName];
        Success(HttpConfig(BaseAddress(route), md.httpRoot, route.tls))
    else
      if md.appName !in env.knativeRouteUrls then Failure(MissingKnativeRoute(md.appName))
      else Success(HttpConfig(env.knativeRouteUrls[md.appName], md.httpRoot, false))
  }

  function RestAssuredPhase(env: Env): Run
  {
    match RestAssuredConfig(env)
    case Success(_) => Done
    case Failure(e) => Abort(e)
  }

  /** The first half of `doBeforeAll`: namespace, additional resources, deployment hooks. */
  function PreDeploy(env: Env): Run
  {
    Then(NamespacePhase(env), Then(AdditionalPhase(env), HookPhase(env, CustomizeApplicationDeployment)))
  }

  /** The second half of `doBeforeAll`: deploy, configure the HTTP client, await the route. */
  function Rollout(env: Env): Run
  {
    Then(DeployPhase(env), Then(RestAssuredPhase(env), Exec(AwaitAppRoute, env.failing)))
  }

  /** `doBeforeAll` */
  function Setup(env: Env): Run
  {
    Then(PreDeploy(env), Rollout(env))
  }

  /** The HTTP client configuration the second half leaves behind, when it got that far. */
  function RolloutConfig(env: Env): Option<HttpConfig>
  {
    if DeployPhase(env).err.None? && RestAssuredConfig(env).Success? then Some(RestAssuredConfig(env).value)
    else None
  }

  /** The HTTP client configuration setup leaves behind, when it got that far. */
  function SetupConfig(env: Env): Option<HttpConfig>
  {
    if PreDeploy(env).err.None? then RolloutConfig(env) else None
  }

  /** The namespace setup stores: stored before `oc new-project` runs, so even when that
      command fails. */
  function StoredNamespace(env: Env): Option<string>
  {
    if env.ephemeralNamespaces then Some(env.randomNamespace) else None
  }

  // ---- Teardown (`afterAll`)

  /** The retention decision, written as an independent table. */
  datatype Decision = Decision(deleteApplication: bool, dropNamespace: bool)

  function Decide(ephemeral: bool, retainOnFailure: bool, failed: bool, manual: bool): Decision
  {
    var retained := retainOnFailure && failed;
    Decision(
      if manual then false else !ephemeral && !retained,
      ephemeral && !retained)
  }

  /** `runOnFailureAction`: injection, then execution; any exception is logged only. */
  function FailureActionEffects(env: Env, a: FailureAction): seq<Effect>
  {
    match ResolveAll(env, a.fields)
    case Failure(e) => [LogFailureActionError(a.name, e)]
    case Success(_) =>
      [RunFailureAction(a.name)]
      + (if RunFailureAction(a.name) in env.failing
         then [LogFailureActionError(a.name, EffectFailed(RunFailureAction(a.name)))] else [])
  }

  function FailureActionsRun(env: Env, actions: seq<FailureAction>): seq<Effect>
    decreases |actions|
  {
    if actions == [] then []
    else FailureActionsRun(env, actions[..|actions| - 1]) + FailureActionEffects(env, actions[|actions| - 1])
  }

  /** Failure actions (only on failure) and the "not deleting" log line. */
  function TeardownLogs(env: Env, failed: bool): seq<Effect>
  {
    (if failed then FailureActionsRun(env, env.failureActions) else [])
    + (if env.retainOnFailure && failed && !env.ephemeralNamespaces then [LogNotDeletingResources] else [])
  }

  function UndeployPhase(env: Env, failed: bool): Run
  {
    if Decide(env.ephemeralNamespaces, env.retainOnFailure, failed, env.manualDeployment).deleteApplication
    then Exec(DeleteManifest(ManifestPath, true), env.failing)
    else Done
  }

  /** `dropEphemeralNamespaceIfNecessary`, keyed on the namespace the store holds. */
  function DropPhase(ns: Option<string>, retainOnFailure: bool, failed: bool, failing: set<Effect>): Run
  {
    match ns
    case None => Done
    case Some(n) =>
      if retainOnFailure && failed then Run([LogKeepingNamespace(n)], None)
      else Exec(DeleteProject(n), failing)
  }

  /** What `afterAll` does after the failure reporting: undeploy, hooks, namespace. */
  function Cleanup(env: Env, failed: bool, ns: Option<string>): Run
  {
    Then(UndeployPhase(env, failed),
      Then(HookPhase(env, CustomizeApplicationUndeployment), DropPhase(ns, env.retainOnFailure, failed, env.failing)))
  }

  /** `afterAll` */
  function Teardown(env: Env, failed: bool, ns: Option<string>): Run
  {
    Then(Run(TeardownLogs(env, failed), None), Cleanup(env, failed, ns))
  }

  // ---- Composition lemmas

  lemma ThenAssoc(a: Run, b: Run, c: Run)
    ensures Then(Then(a, b), c) == Then(a, Then(b, c))
  {
  }

  /** The first failing index is determined by its two defining properties. */
  lemma {:induction false} FirstFailingUnique(es: seq<Effect>, failing: set<Effect>, k: nat)
    requires k <= |es|
    requires forall j :: 0 <= j < k ==> es[j] !in failing
    requires k < |es| ==> es[k] in failing
    ensures FirstFailing(es, failing) == k
    decreases |es|
  {
    if es != [] && es[0] !in failing {
      FirstFailingUnique(es[1..], failing, k - 1);
    }
  }

  /** Running two lists of effects in order is running the first, then the second. */
  lemma ExecEachAppend(a: seq<Effect>, b: seq<Effect>, failing: set<Effect>)
    ensures ExecEach(a + b, failing) == Then(ExecEach(a, failing), ExecEach(b, failing))
  {
    var ka, kb := FirstFailing(a, failing), FirstFailing(b, failing);
    var ab := a + b;
    if ka < |a| {
      FirstFailingUnique(ab, failing, ka);
      assert ab[..ka + 1] == a[..ka + 1];
    } else {
      assert forall j :: 0 <= j < |a| ==> ab[j] == a[j];
      assert forall j :: |a| <= j < |a| + kb ==> ab[j] == b[j - |a|];
      FirstFailingUnique(ab, failing, |a| + kb);
      if kb < |b| {
        assert ab[..|a| + kb + 1] == a + b[..kb + 1];
      }
    }
  }

  lemma ExecEachSingle(e: Effect, failing: set<Effect>)
    ensures ExecEach([e], failing) == Exec(e, failing)
  {
    if e in failing {
      FirstFailingUnique([e], failing, 0);
    } else {
      FirstFailingUnique([e], failing, 1);
    }
  }

  /** The effects emitted are a prefix of the list; the run throws exactly when some
      listed effect fails, and then the emitted effects end with the one that failed. */
  lemma ExecEachPrefix(es: seq<Effect>, failing: set<Effect>)
    ensures ExecEach(es, failing).effects <= es
    ensures ExecEach(es, failing).err.None? <==> forall e :: e in es ==> e !in failing
    ensures ExecEach(es, failing).err.None? ==> ExecEach(es, failing).effects == es
    ensures forall i :: 0 <= i < |ExecEach(es, failing).effects| - 1 ==> ExecEach(es, failing).effects[i] !in failing
  {
    var k := FirstFailing(es, failing);
    if k < |es| {
      assert es[k] in es;
    }
  }

  /** Adding one method to the list is running it after the others. */
  lemma HookRunSnoc(env: Env, kind: HookKind, ms: seq<HookMethod>, i: nat)
    requires i < |ms|
    ensures HookRun(env, kind, ms[..i + 1]) == Then(HookRun(env, kind, ms[..i]), HookStep(env, kind, ms[i]))
  {
    assert ms[..i + 1][..i] == ms[..i];
  }

  lemma TraceAssoc(a: seq<Effect>, b: seq<Effect>, c: seq<Effect>)
    ensures a + b + c == a + (b + c)
  {
  }

  /** Appending what `Then(a, b)` emits to a trace is appending what `a` emits and then,
      when `a` completed, what `b` emits. */
  lemma ThenEffects(t: seq<Effect>, a: Run, b: Run)
    ensures a.err.None? ==> t + Then(a, b).effects == t + a.effects + b.effects
    ensures a.err.Some? ==> t + Then(a, b).effects == t + a.effects
  {
    if a.err.None? {
      TraceAssoc(t, a.effects, b.effects);
    }
  }

  /** The build commands run as one list: up to and including the first that fails. */
  lemma BuildPhaseFlat(appName: string, binary: Option<string>, failing: set<Effect>)
    ensures BuildPhase(appName, binary, failing) == ExecEach(BuildEffects(appName, binary), failing)
  {
    match binary
    case Some(b) =>
      ExecEachSingle(StartBuildFromFile(appName, b), failing);
    case None =>
      var t, s, r := Tar, StartBuildFromArchive(appName), Rm;
      assert BuildEffects(appName, binary) == [t] + ([s] + [r]);
      ExecEachAppend([t], [s] + [r], failing);
      ExecEachAppend([s], [r], failing);
      ExecEachSingle(t, failing);
      ExecEachSingle(s, failing);
      ExecEachSingle(r, failing);
  }

  /** The deploy block is the effect list `DeployEffects` run in order: it emits a prefix
      of that list and stops at the first effect that fails. */
  lemma {:induction false} DeployPhaseFlat(env: Env)
    requires !env.manualDeployment && env.manifestExists
    ensures DeployPhase(env) == ExecEach(DeployEffects(env), env.failing)
  {
    var f := env.failing;
    var app := EffectiveMetadata(env).appName;
    var o, a := ApplyImageOverrides(ManifestPath), Apply(ManifestPath);
    var w := AwaitEffects(AwaitedImageStreams(env.manifest, app));
    var b := BuildEffects(app, FindNativeBinary(env.targetFiles));
    BuildPhaseFlat(app, FindNativeBinary(env.targetFiles), f);
    assert DeployEffects(env) == [o] + ([a] + (w + b));
    ExecEachAppend([o], [a] + (w + b), f);
    ExecEachAppend([a], w + b, f);
    ExecEachAppend(w, b, f);
    ExecEachSingle(o, f);
    ExecEachSingle(a, f);
  }
}
