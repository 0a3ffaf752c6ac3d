/**
  Properties of `doBeforeAll`: the fixed order of its steps, the namespace it creates,
  the manual-deployment and missing-manifest cases, the build branch and the
  image-stream filter.
*/
module SetupProperties {
  import opened Outcomes
  import opened Model
  import opened Urls
  import opened Injection
  import opened Plan
  import opened HookProperties

  /** The position of each setup step in the order `doBeforeAll` runs them. */
  function Rank(e: Effect): nat
  {
    match e
    case NewProject(_) => 0
    case DeployAdditional(_) => 1
    case InvokeHook(_, _, _, _) => 2
    case ApplyImageOverrides(_) => 3
    case Apply(_) => 4
    case AwaitImageStream(_) => 5
    case StartBuildFromFile(_, _) => 6
    case Tar => 6
    case StartBuildFromArchive(_) => 7
    case Rm => 8
    case AwaitAppRoute => 9
    case _ => 10
  }

  /** Every effect of `es` has a rank between `lo` and `hi`. */
  predicate Within(es: seq<Effect>, lo: nat, hi: nat)
  {
    forall i :: 0 <= i < |es| ==> lo <= Rank(es[i]) <= hi
  }

  /** The ranks never decrease along `es`. */
  predicate Ordered(es: seq<Effect>)
  {
    forall i, j :: 0 <= i < j < |es| ==> Rank(es[i]) <= Rank(es[j])
  }

  /** A run whose effects are in order and between `lo` and `hi`. */
  predicate Stage(r: Run, lo: nat, hi: nat)
  {
    Ordered(r.effects) && Within(r.effects, lo, hi)
  }

  // ---- composing stages

  lemma ThenStage(a: Run, b: Run, lo: nat, mid: nat, hi: nat)
    requires lo <= mid <= hi
    requires Stage(a, lo, mid) && Stage(b, mid, hi)
    ensures Stage(Then(a, b), lo, hi)
  {
    if a.err.None? {
      var ab := a.effects + b.effects;
      assert forall i :: 0 <= i < |a.effects| ==> ab[i] == a.effects[i];
      assert forall i :: |a.effects| <= i < |ab| ==> ab[i] == b.effects[i - |a.effects|];
    }
  }

  lemma ExecStage(e: Effect, failing: set<Effect>)
    ensures Stage(Exec(e, failing), Rank(e), Rank(e))
  {
  }

  /** Running a list stops at a prefix of it, so an ordered list gives an ordered run. */
  lemma ExecEachStage(es: seq<Effect>, failing: set<Effect>, lo: nat, hi: nat)
    requires Ordered(es) && Within(es, lo, hi)
    ensures Stage(ExecEach(es, failing), lo, hi)
  {
    ExecEachPrefix(es, failing);
    var r := ExecEach(es, failing).effects;
    assert forall i :: 0 <= i < |r| ==> r[i] == es[i];
  }

  lemma {:induction false} HookRunStage(env: Env, kind: HookKind, ms: seq<HookMethod>)
    ensures Stage(HookRun(env, kind, ms), 2, 2)
    decreases |ms|
  {
    if ms != [] {
      HookRunStage(env, kind, ms[..|ms| - 1]);
      ThenStage(HookRun(env, kind, ms[..|ms| - 1]), HookStep(env, kind, ms[|ms| - 1]), 2, 2, 2);
    }
  }

  /** The effects of the two runs of `Then(a, b)` keep their ranks. */
  lemma ThenRanks(a: Run, b: Run, lo1: nat, hi1: nat, lo2: nat, hi2: nat)
    requires Within(a.effects, lo1, hi1) && Within(b.effects, lo2, hi2)
    ensures forall e :: e in Then(a, b).effects ==> (lo1 <= Rank(e) <= hi1) || (lo2 <= Rank(e) <= hi2)
  {
    ThenMembers(a, b);
    forall e | e in Then(a, b).effects
      ensures (lo1 <= Rank(e) <= hi1) || (lo2 <= Rank(e) <= hi2)
    {
      if e in a.effects {
        var i :| 0 <= i < |a.effects| && a.effects[i] == e;
      } else {
        var i :| 0 <= i < |b.effects| && b.effects[i] == e;
      }
    }
  }

  lemma BuildPhaseStage(appName: string, binary: Option<string>, failing: set<Effect>)
    ensures Stage(BuildPhase(appName, binary, failing), 6, 8)
  {
    match binary
    case Some(b) =>
      ExecStage(StartBuildFromFile(appName, b), failing);
    case None =>
      var s, r := Exec(StartBuildFromArchive(appName), failing), Exec(Rm, failing);
      ExecStage(Tar, failing);
      ExecStage(StartBuildFromArchive(appName), failing);
      ExecStage(Rm, failing);
      ThenStage(s, r, 7, 8, 8);
      ThenStage(Exec(Tar, failing), Then(s, r), 6, 7, 8);
  }

  lemma DeployPhaseStage(env: Env)
    ensures Stage(DeployPhase(env), 3, 8)
  {
    if !env.manualDeployment && env.manifestExists {
      var f := env.failing;
      var app := EffectiveMetadata(env).appName;
      var o, a := Exec(ApplyImageOverrides(ManifestPath), f), Exec(Apply(ManifestPath), f);
      var w := ExecEach(AwaitEffects(AwaitedImageStreams(env.manifest, app)), f);
      var build := BuildPhase(app, FindNativeBinary(env.targetFiles), f);
      ExecStage(ApplyImageOverrides(ManifestPath), f);
      ExecStage(Apply(ManifestPath), f);
      AwaitStage(AwaitedImageStreams(env.manifest, app), f);
      BuildPhaseStage(app, FindNativeBinary(env.targetFiles), f);
      DeployStepsStage(o, a, w, build);
    }
  }

  /** Awaiting a list of image streams emits only awaits, in list order. */
  lemma AwaitStage(names: seq<string>, failing: set<Effect>)
    ensures Stage(ExecEach(AwaitEffects(names), failing), 5, 5)
  {
    ExecEachStage(AwaitEffects(names), failing, 5, 5);
  }

  /** The deployment steps in sequence: overrides, apply, image-stream waits, build. */
  lemma DeployStepsStage(o: Run, a: Run, w: Run, build: Run)
    requires Stage(o, 3, 3) && Stage(a, 4, 4) && Stage(w, 5, 5) && Stage(build, 6, 8)
    ensures Stage(Then(o, Then(a, Then(w, build))), 3, 8)
  {
    ThenStage(w, build, 5, 6, 8);
    ThenStage(a, Then(w, build), 4, 5, 8);
    ThenStage(o, Then(a, Then(w, build)), 3, 4, 8);
  }

  lemma PreDeployStage(env: Env)
    ensures Stage(PreDeploy(env), 0, 2)
    ensures Stage(Then(AdditionalPhase(env), HookPhase(env, CustomizeApplicationDeployment)), 1, 2)
  {
    ExecStage(NewProject(env.randomNamespace), env.failing);
    ExecEachStage(AdditionalEffects(env), env.failing, 1, 1);
    HookRunStage(env, CustomizeApplicationDeployment, PublicMethods(env.testMethods));
    ThenStage(AdditionalPhase(env), HookPhase(env, CustomizeApplicationDeployment), 1, 2, 2);
    ThenStage(NamespacePhase(env), Then(AdditionalPhase(env), HookPhase(env, CustomizeApplicationDeployment)), 0, 1, 2);
  }

  lemma RolloutStage(env: Env)
    ensures Stage(Rollout(env), 3, 9)
    ensures env.manualDeployment ==> Stage(Rollout(env), 9, 9)
  {
    DeployPhaseStage(env);
    ExecStage(AwaitAppRoute, env.failing);
    ThenStage(RestAssuredPhase(env), Exec(AwaitAppRoute, env.failing), 9, 9, 9);
    ThenStage(DeployPhase(env), Then(RestAssuredPhase(env), Exec(AwaitAppRoute, env.failing)), 3, 9, 9);
    if env.manualDeployment {
      ThenStage(DeployPhase(env), Then(RestAssuredPhase(env), Exec(AwaitAppRoute, env.failing)), 9, 9, 9);
    }
  }

  // ---- setup order

  /** Setup emits its steps in the fixed order: namespace, additional resources,
      deployment hooks, image overrides, apply, image-stream awaits, the build commands,
      the route await. */
  lemma SetupOrdered(env: Env)
    ensures Ordered(Setup(env).effects) && Within(Setup(env).effects, 0, 9)
  {
    PreDeployStage(env);
    RolloutStage(env);
    ThenStage(PreDeploy(env), Rollout(env), 0, 2, 9);
  }

  /** The route is awaited only once the HTTP client has been configured: the await
      comes after the deployment hooks, the deploy block and the configuration step, and
      each of them must have completed for it to run. */
  lemma RouteAwaitAfterConfig(env: Env)
    ensures AwaitAppRoute in Setup(env).effects ==> SetupConfig(env).Some?
    ensures SetupConfig(env).Some? ==> PreDeploy(env).err.None? && DeployPhase(env).err.None?
  {
    PreDeployStage(env);
    DeployPhaseStage(env);
    AwaitAfterPhases(PreDeploy(env), DeployPhase(env), RestAssuredPhase(env), Exec(AwaitAppRoute, env.failing));
  }

  /** An effect ranked 9 that follows three phases ranked below it, the last of which
      emits nothing, runs only when all three phases complete. */
  lemma AwaitAfterPhases(pd: Run, dp: Run, ra: Run, aw: Run)
    requires Within(pd.effects, 0, 2) && Within(dp.effects, 3, 8) && ra.effects == []
    ensures AwaitAppRoute in Then(pd, Then(dp, Then(ra, aw))).effects ==>
              pd.err.None? && dp.err.None? && ra.err.None?
  {
    ThenMembers(ra, aw);
    ThenMembers(dp, Then(ra, aw));
    ThenMembers(pd, Then(dp, Then(ra, aw)));
    assert AwaitAppRoute !in pd.effects && AwaitAppRoute !in dp.effects;
  }

  /** A namespace is created exactly when ephemeral namespaces are enabled, with the
      generated name, and it is the first thing setup does. */
  lemma SetupNamespace(env: Env, n: string)
    ensures NewProject(n) in Setup(env).effects <==> env.ephemeralNamespaces && n == env.randomNamespace
    ensures env.ephemeralNamespaces ==> Setup(env).effects[0] == NewProject(env.randomNamespace)
  {
    PreDeployStage(env);
    RolloutStage(env);
    var rest := Then(Then(AdditionalPhase(env), HookPhase(env, CustomizeApplicationDeployment)), Rollout(env));
    ThenStage(Then(AdditionalPhase(env), HookPhase(env, CustomizeApplicationDeployment)), Rollout(env), 1, 2, 9);
    ThenAssoc(NamespacePhase(env), Then(AdditionalPhase(env), HookPhase(env, CustomizeApplicationDeployment)), Rollout(env));
    ThenMembers(NamespacePhase(env), rest);
    ThenRanks(NamespacePhase(env), rest, 0, 0, 1, 9);
  }

  /** Under manual deployment setup emits only the namespace, the additional resources,
      the hooks and the route await. */
  lemma ManualDeploymentRanks(env: Env)
    requires env.manualDeployment
    ensures forall e :: e in Setup(env).effects ==> Rank(e) <= 2 || Rank(e) == 9
  {
    PreDeployStage(env);
    RolloutStage(env);
    ThenRanks(PreDeploy(env), Rollout(env), 0, 2, 9, 9);
  }

  /** Under manual deployment setup emits neither image overrides, apply, build commands
      nor the archive removal. */
  lemma ManualDeployment(env: Env)
    requires env.manualDeployment
    ensures NoDeploySteps(Setup(env).effects)
  {
    ManualDeploymentRanks(env);
    RanksOutsideDeploy(Setup(env).effects);
  }

  /** No image override, apply, build command or archive removal in `es`. */
  predicate NoDeploySteps(es: seq<Effect>)
  {
    forall e :: e in es ==>
      !e.ApplyImageOverrides? && !e.Apply? && !e.StartBuildFromFile? && e != Tar
      && !e.StartBuildFromArchive? && e != Rm
  }

  lemma RanksOutsideDeploy(es: seq<Effect>)
    requires forall e :: e in es ==> Rank(e) <= 2 || Rank(e) == 9
    ensures NoDeploySteps(es)
  {
  }

  /** Under manual deployment the HTTP client is still configured and the route still
      awaited once the earlier steps completed. */
  lemma ManualDeploymentStillServes(env: Env)
    requires env.manualDeployment && PreDeploy(env).err.None? && RestAssuredConfig(env).Success?
    ensures Setup(env).effects == PreDeploy(env).effects + [AwaitAppRoute]
    ensures Setup(env).err == Exec(AwaitAppRoute, env.failing).err
    ensures SetupConfig(env) == Some(RestAssuredConfig(env).value)
  {
    assert Rollout(env).effects == [] + ([] + [AwaitAppRoute]);
  }

  /** A missing manifest throws right after the deployment hooks, and nothing after it
      runs: no client is configured. */
  lemma MissingManifestStops(env: Env)
    requires !env.manualDeployment && !env.manifestExists
    ensures PreDeploy(env).err.None? ==>
              Setup(env) == Run(PreDeploy(env).effects, Some(MissingManifest(ManifestPath)))
    ensures SetupConfig(env) == None
  {
    assert Rollout(env) == Run([], Some(MissingManifest(ManifestPath)));
    assert PreDeploy(env).effects + [] == PreDeploy(env).effects;
  }

  /** With a missing manifest nothing is applied or built. */
  lemma MissingManifestNothingApplied(env: Env)
    requires !env.manualDeployment && !env.manifestExists
    ensures forall e :: e in Setup(env).effects ==> Rank(e) <= 2
  {
    PreDeployStage(env);
    assert Rollout(env).effects == [];
    ThenRanks(PreDeploy(env), Rollout(env), 0, 2, 0, 2);
  }

  // ---- the build branch

  /** When no deploy step fails, the deploy block emits its whole list and completes. */
  lemma DeployCompletes(env: Env)
    requires !env.manualDeployment && env.manifestExists
    ensures DeployPhase(env).err.None? <==> forall e :: e in DeployEffects(env) ==> e !in env.failing
    ensures DeployPhase(env).err.None? ==> DeployPhase(env).effects == DeployEffects(env)
    ensures DeployPhase(env).effects <= DeployEffects(env)
  {
    DeployPhaseFlat(env);
    ExecEachPrefix(DeployEffects(env), env.failing);
  }

  /** The build phase of `doBeforeAll` for the application `appName`. */
  function Build(env: Env): Run
  {
    BuildPhase(EffectiveMetadata(env).appName, FindNativeBinary(env.targetFiles), env.failing)
  }

  /** The deploy block emits image overrides, apply and image-stream awaits, then the
      build; when it completes, the build's effects are its last ones. */
  lemma DeployPhaseBuild(env: Env)
    requires !env.manualDeployment && env.manifestExists
    ensures forall e :: e in DeployPhase(env).effects ==>
              e in Build(env).effects || e.ApplyImageOverrides? || e.Apply? || e.AwaitImageStream?
    ensures DeployPhase(env).err.None? ==>
              Build(env).err.None? && |Build(env).effects| <= |DeployPhase(env).effects|
              && DeployPhase(env).effects[|DeployPhase(env).effects| - |Build(env).effects|..] == Build(env).effects
  {
    var app := EffectiveMetadata(env).appName;
    var f := env.failing;
    var o, a := Exec(ApplyImageOverrides(ManifestPath), f), Exec(Apply(ManifestPath), f);
    var w := ExecEach(AwaitEffects(AwaitedImageStreams(env.manifest, app)), f);
    var build := Build(env);
    ThenMembers(w, build);
    ThenMembers(a, Then(w, build));
    ThenMembers(o, Then(a, Then(w, build)));
    RunEachNoBuild(AwaitEffects(AwaitedImageStreams(env.manifest, app)), f);
    if DeployPhase(env).err.None? {
      assert DeployPhase(env).effects == (o.effects + a.effects + w.effects) + build.effects;
    }
  }

  /** A native build streams the binary and nothing else. */
  lemma NativeBuildPhase(appName: string, b: string, failing: set<Effect>)
    ensures BuildPhase(appName, Some(b), failing).effects == [StartBuildFromFile(appName, b)]
  {
  }

  /** An archive build tars, streams the archive and removes it, each only once the
      previous one returned normally. */
  lemma ArchiveBuildPhase(appName: string, failing: set<Effect>)
    ensures var r := BuildPhase(appName, None, failing);
            (forall e :: e in r.effects ==> e == Tar || e == StartBuildFromArchive(appName) || e == Rm)
            && (Rm in r.effects <==> Tar !in failing && StartBuildFromArchive(appName) !in failing)
            && (r.err.None? ==> r.effects == [Tar, StartBuildFromArchive(appName), Rm])
  {
    var s := Then(Exec(StartBuildFromArchive(appName), failing), Exec(Rm, failing));
    ThenMembers(Exec(StartBuildFromArchive(appName), failing), Exec(Rm, failing));
    ThenMembers(Exec(Tar, failing), s);
  }

  /** With a native binary, the build streams the first matching file and nothing is
      archived or removed; the build comes last. */
  lemma NativeBuild(env: Env, b: string)
    requires !env.manualDeployment && env.manifestExists && FindNativeBinary(env.targetFiles) == Some(b)
    ensures forall e :: e in DeployPhase(env).effects ==> e != Tar && !e.StartBuildFromArchive? && e != Rm
    ensures forall e :: e in DeployPhase(env).effects && e.StartBuildFromFile? ==>
              e == StartBuildFromFile(EffectiveMetadata(env).appName, b)
    ensures DeployPhase(env).err.None? ==>
              DeployPhase(env).effects[|DeployPhase(env).effects| - 1] == StartBuildFromFile(EffectiveMetadata(env).appName, b)
  {
    DeployPhaseBuild(env);
    NativeBuildPhase(EffectiveMetadata(env).appName, b, env.failing);
    var r := DeployPhase(env).effects;
    if DeployPhase(env).err.None? {
      assert r[|r| - 1] == r[|r| - 1..][0];
    }
  }

  /** Without a native binary, the build archives `target`, streams the archive, then
      removes it, in that order; the removal runs only once the archive build has
      returned normally, so a failing build leaves the archive behind. */
  lemma ArchiveBuild(env: Env)
    requires !env.manualDeployment && env.manifestExists && FindNativeBinary(env.targetFiles).None?
    ensures forall e :: e in DeployPhase(env).effects ==> !e.StartBuildFromFile?
    ensures Rm in DeployPhase(env).effects ==>
              Tar !in env.failing && StartBuildFromArchive(EffectiveMetadata(env).appName) !in env.failing
    ensures StartBuildFromArchive(EffectiveMetadata(env).appName) in env.failing ==> Rm !in DeployPhase(env).effects
    ensures DeployPhase(env).err.None? ==>
              var r := DeployPhase(env).effects;
              |r| >= 3 && r[|r| - 3..] == [Tar, StartBuildFromArchive(EffectiveMetadata(env).appName), Rm]
  {
    DeployPhaseBuild(env);
    ArchiveBuildPhase(EffectiveMetadata(env).appName, env.failing);
  }

  /** The image-stream awaits emit no build command. */
  lemma RunEachNoBuild(es: seq<Effect>, failing: set<Effect>)
    requires forall i :: 0 <= i < |es| ==> es[i].AwaitImageStream?
    ensures forall e :: e in ExecEach(es, failing).effects ==> e.AwaitImageStream?
  {
    ExecEachPrefix(es, failing);
    var r := ExecEach(es, failing).effects;
    assert forall i :: 0 <= i < |r| ==> r[i] == es[i];
  }

  // ---- the image-stream filter and the binary name

  /** The awaited names are exactly the manifest's image streams not named like the
      application. */
  lemma {:induction false} AwaitedMembers(objs: seq<ManifestObject>, appName: string, n: string)
    ensures n in AwaitedImageStreams(objs, appName) <==> ImageStreamObject(n) in objs && n != appName
    decreases |objs|
  {
    if objs != [] {
      AwaitedMembers(objs[1..], appName, n);
      assert objs == [objs[0]] + objs[1..];
    }
  }

  /** The filter keeps manifest order: the awaits of two parts of a manifest are those of
      the first part, then those of the second. */
  lemma {:induction false} AwaitedAppend(a: seq<ManifestObject>, b: seq<ManifestObject>, appName: string)
    ensures AwaitedImageStreams(a + b, appName) == AwaitedImageStreams(a, appName) + AwaitedImageStreams(b, appName)
    decreases |a|
  {
    if a != [] {
      assert (a + b)[1..] == a[1..] + b;
      AwaitedAppend(a[1..], b, appName);
    } else {
      assert a + b == b;
    }
  }

  /** Names matching `.*-runner` as a whole: a plain `-runner` suffix matches; a name with
      a later extension or a line break before the suffix does not. */
  lemma RunnerNames()
    ensures IsRunnerName("app-1.0-runner")
    ensures IsRunnerName("-runner")
    ensures !IsRunnerName("app-1.0-runner.jar")
    ensures !IsRunnerName("runner")
    ensures !IsRunnerName("a\nb-runner")
  {
    assert "app-1.0-runner.jar"[11..] != "-runner";
    assert "a\nb-runner"[1] == '\n';
  }

  // ---- the HTTP client and the additional resources

  /** Unless the deployment target mentions "knative", the client points at the
      application's OpenShift route, over HTTPS exactly when the route has TLS (relaxed
      validation then); otherwise at the Knative route's URL.  The base path is always the
      metadata's root, and a missing route is an error naming the application. */
  lemma RestAssuredRoute(env: Env)
    ensures var md := EffectiveMetadata(env);
            var knative := md.deploymentTarget != "" && Contains(md.deploymentTarget, "knative");
            var r := RestAssuredConfig(env);
            (r.Success? ==> r.value.basePath == md.httpRoot)
            && (!knative && md.appName in env.routes ==>
                  r.Success? && r.value.relaxedHttps == env.routes[md.appName].tls
                  && r.value.baseUri == BaseAddress(env.routes[md.appName])
                  && (HasPrefix(r.value.baseUri, "https://") <==> env.routes[md.appName].tls))
            && (!knative && md.appName !in env.routes ==> r == Failure(MissingRoute(md.appName)))
            && (knative && md.appName in env.knativeRouteUrls ==>
                  r == Success(HttpConfig(env.knativeRouteUrls[md.appName], md.httpRoot, false)))
            && (knative && md.appName !in env.knativeRouteUrls ==> r == Failure(MissingKnativeRoute(md.appName)))
  {
    var md := EffectiveMetadata(env);
    if md.appName in env.routes {
      BaseAddressScheme(env.routes[md.appName]);
    }
  }

  /** The declarations registered for closing are those deployed before the first failing
      one, and none at all with ephemeral namespaces. */
  lemma RegisteredAreDeployed(env: Env)
    ensures env.ephemeralNamespaces ==> RegisteredAdditional(env) == []
    ensures RegisteredAdditional(env) <= env.additionalResources
    ensures forall d :: d in RegisteredAdditional(env) ==>
              DeployAdditional(d) in AdditionalPhase(env).effects && DeployAdditional(d) !in env.failing
    ensures !env.ephemeralNamespaces && AdditionalPhase(env).err.None? ==>
              RegisteredAdditional(env) == env.additionalResources
  {
    var es := AdditionalEffects(env);
    var k := FirstFailing(es, env.failing);
    ExecEachPrefix(es, env.failing);
    if !env.ephemeralNamespaces {
      forall d | d in RegisteredAdditional(env)
        ensures DeployAdditional(d) in AdditionalPhase(env).effects && DeployAdditional(d) !in env.failing
      {
        var i :| 0 <= i < k && env.additionalResources[i] == d;
        assert es[i] == DeployAdditional(d);
        assert AdditionalPhase(env).effects[i] == es[i];
      }
      if AdditionalPhase(env).err.None? {
        assert k == |es|;
      }
    }
  }
}
