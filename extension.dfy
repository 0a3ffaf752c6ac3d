/**
  The extension object for one test class: the store it keeps (the tests status, the
  ephemeral namespace, the cached collaborators, the additional resources registered for
  closing) and the callbacks the test framework invokes on it.

  Every method that emits effects is proved against the phase functions of `Plan`: the
  effects it appends to `trace` and the error it throws are those the functions give for
  the environment. The store accessors and the injection methods are stated against
  `Injection` and `Expected`; `FailureOccurred` and the exception handlers are stated
  against the tests status directly.
*/
module Lifecycle {
  import opened Outcomes
  import opened Model
  import opened Urls
  import opened Injection
  import opened Plan

  /** `afterAll`'s `shouldUndeployApplication`, updated through its three conditions, and
      whether the "not deleting any resources" line is printed. */
  method ShouldUndeployApplication(ephemeral: bool, retainOnFailure: bool, testsFailed: bool, manual: bool)
    returns (undeploy: bool, logNotDeleting: bool)
    ensures undeploy == Decide(ephemeral, retainOnFailure, testsFailed, manual).deleteApplication
    ensures logNotDeleting <==> retainOnFailure && testsFailed && !ephemeral
  {
    undeploy := true;
    logNotDeleting := false;
    if ephemeral {
      undeploy := false;
    }
    if retainOnFailure && testsFailed {
      undeploy := false;
      if !ephemeral {
        logNotDeleting := true;
      }
    }
    if manual {
      undeploy := false;
    }
  }

  class Extension {
    /** The run's environment: configuration, annotations, files, routes. */
    const env: Env
    /** The `TestsStatus` in the store: `Some(failed)` once `beforeAll` created it. */
    var status: Option<bool>
    /** The `EphemeralNamespace` in the store. */
    var namespace: Option<string>
    /** The collaborators in the store, by key. */
    var cache: map<CacheKey, Value>
    /** The additional-resource declarations put in the store to be closed with it. */
    var closeables: seq<string>
    /** The effects emitted so far. */
    var trace: seq<Effect>
    /** How many times the collaborator of each key has been built. */
    ghost var built: multiset<CacheKey>

    /** Each cached collaborator is the one the environment determines, and was built
        exactly once; nothing else was built. */
    ghost predicate Valid()
      reads this`cache, this`built
    {
      (forall k :: k in cache ==> cache[k] == Expected(env, k))
      && (forall k :: built[k] == if k in cache then 1 else 0)
    }

    constructor (env: Env)
      ensures this.env == env && Valid()
      ensures status == None && namespace == None && cache == map[]
      ensures closeables == [] && trace == [] && built == multiset{}
    {
      this.env := env;
      status := None;
      namespace := None;
      cache := map[];
      closeables := [];
      trace := [];
      built := multiset{};
    }

    // ---- the store

    /** `Store.getOrComputeIfAbsent`: the stored value if there is one, and then the
        store is unchanged and nothing is built; otherwise the computed value, which is
        built once and stored. */
    method GetOrComputeIfAbsent(k: CacheKey, computed: Value) returns (v: Value)
      requires Valid() && computed == Expected(env, k)
      modifies this`cache, this`built
      ensures Valid() && v == Expected(env, k) && k in cache && v == cache[k]
      ensures built == old(built) + (if k in old(cache) then multiset{} else multiset{k})
      ensures k in old(cache) ==> v == old(cache)[k]
      ensures cache.Keys == old(cache.Keys) + {k}
      ensures k in old(cache) ==> cache == old(cache)
      ensures k !in old(cache) ==> cache == old(cache)[k := computed]
    {
      if k in cache {
        v := cache[k];
      } else {
        v := computed;
        cache := cache[k := computed];
        built := built + multiset{k};
      }
    }

    method GetOpenShiftClient() returns (c: Value)
      requires Valid()
      modifies this`cache, this`built
      ensures Valid() && c == ClientValue && ClientKey in cache && c == cache[ClientKey]
      ensures cache.Keys == old(cache.Keys) + {ClientKey}
    {
      c := GetOrComputeIfAbsent(ClientKey, ClientValue);
    }

    /** `getAppMetadata`: the custom annotation's four values when it is present, the
        properties file otherwise; computed at most once per store. */
    method GetAppMetadata() returns (md: AppMetadata)
      requires Valid()
      modifies this`cache, this`built
      ensures Valid()
      ensures env.customMetadata.Some? ==> md == env.customMetadata.value
      ensures env.customMetadata.None? ==> md == env.propertiesMetadata
      ensures MetadataKey in cache && cache[MetadataKey] == MetadataValue(md)
      ensures cache.Keys == old(cache.Keys) + {MetadataKey}
    {
      var v;
      if env.customMetadata.Some? {
        var custom := env.customMetadata.value;
        v := GetOrComputeIfAbsent(MetadataKey,
          MetadataValue(AppMetadata(custom.appName, custom.httpRoot, custom.knownEndpoint, custom.deploymentTarget)));
      } else {
        v := GetOrComputeIfAbsent(MetadataKey, MetadataValue(env.propertiesMetadata));
      }
      md := v.md;
    }

    method GetAwaitUtil() returns (a: Value)
      requires Valid()
      modifies this`cache, this`built
      ensures Valid() && a == AwaitUtilValue(EffectiveMetadata(env))
      ensures AwaitUtilKey in cache && a == cache[AwaitUtilKey]
      ensures cache.Keys == old(cache.Keys) + {ClientKey, MetadataKey, AwaitUtilKey}
    {
      var oc := GetOpenShiftClient();
      var metadata := GetAppMetadata();
      a := GetOrComputeIfAbsent(AwaitUtilKey, AwaitUtilValue(metadata));
    }

    method GetOpenShiftUtil() returns (u: Value)
      requires Valid()
      modifies this`cache, this`built
      ensures Valid() && u == OpenShiftUtilValue(EffectiveMetadata(env))
      ensures OpenShiftUtilKey in cache && u == cache[OpenShiftUtilKey]
      ensures cache.Keys == old(cache.Keys) + {ClientKey, MetadataKey, AwaitUtilKey, OpenShiftUtilKey}
    {
      var oc := GetOpenShiftClient();
      var await := GetAwaitUtil();
      u := GetOrComputeIfAbsent(OpenShiftUtilKey, OpenShiftUtilValue(await.md));
    }

    // ---- injection

    /** `getURL` */
    method GetURL(ip: InjectionPoint) returns (r: Result<Value, Error>)
      requires Valid()
      modifies this`cache, this`built
      ensures Valid() && r == UrlFor(env, ip)
      ensures cache.Keys == old(cache.Keys) + (if ip.withName.Some? then {ClientKey} else {MetadataKey, ClientKey})
    {
      var address;
      if ip.withName.Some? {
        var routeName := ip.withName.value;
        var oc := GetOpenShiftClient();
        if routeName !in env.routes {
          return Failure(NullRoute(routeName));
        }
        address := BaseAddress(env.routes[routeName]);
      } else {
        var metadata := GetAppMetadata();
        var routeName := metadata.appName;
        var oc := GetOpenShiftClient();
        if routeName !in env.routes {
          return Failure(NullRoute(routeName));
        }
        address := BaseAddress(env.routes[routeName]);
        if metadata.httpRoot.Some? && |metadata.httpRoot.value| > 1 {
          address := address + metadata.httpRoot.value;
        } else {
          assert address + "" == address;
        }
        assert address == DefaultAddress(env.routes[routeName], metadata.httpRoot);
      }
      r := Success(UrlValue(address));
    }

    /** `valueFor` */
    method ValueFor(ip: InjectionPoint) returns (r: Result<Value, Error>)
      requires Valid()
      modifies this`cache, this`built
      ensures Valid() && r == Resolve(env, ip)
      ensures cache.Keys == old(cache.Keys) + Touched(ip)
      ensures r.Success? && ip.typ == OpenShiftClientType ==> r.value == cache[ClientKey]
      ensures r.Success? && ip.typ == AppMetadataType ==> r.value == cache[MetadataKey]
      ensures r.Success? && ip.typ == AwaitUtilType ==> r.value == cache[AwaitUtilKey]
      ensures r.Success? && ip.typ == OpenShiftUtilType ==> r.value == cache[OpenShiftUtilKey]
    {
      match ip.typ {
        case OpenShiftClientType =>
          var c := GetOpenShiftClient();
          r := Success(c);
        case KnativeClientType =>
          var c := GetOpenShiftClient();
          r := Success(KnativeClientValue);
        case AppMetadataType =>
          var md := GetAppMetadata();
          r := Success(MetadataValue(md));
        case AwaitUtilType =>
          var a := GetAwaitUtil();
          r := Success(a);
        case OpenShiftUtilType =>
          var u := GetOpenShiftUtil();
          r := Success(u);
        case ConfigType =>
          r := Success(ConfigValue);
        case UrlType =>
          r := GetURL(ip);
        case OtherType(name) =>
          r := Failure(UnsupportedType(name, ip.description));
      }
    }

    /** `resolveParameter` */
    method ResolveParameter(ip: InjectionPoint) returns (r: Result<Value, Error>)
      requires Valid()
      modifies this`cache, this`built
      ensures Valid() && r == Injection.ResolveParameter(env, ip)
      ensures cache.Keys == old(cache.Keys) + Touched(ip)
    {
      r := ValueFor(ip);
      if r.Failure? && IsOpenShiftTestException(r.error) {
        r := Failure(ParameterResolution(Message(r.error)));
      }
    }

    /** The loop of `runPublicStaticVoidMethods` filling the `arguments` array. */
    method ResolveArguments(parameters: seq<InjectionPoint>) returns (r: Result<seq<Value>, Error>)
      requires Valid()
      modifies this`cache, this`built
      ensures Valid() && r == ResolveAll(env, parameters)
      ensures old(cache.Keys) <= cache.Keys
    {
      var arguments := new Value[|parameters|];
      var i := 0;
      while i < |parameters|
        invariant 0 <= i <= |parameters|
        invariant Valid() && old(cache.Keys) <= cache.Keys
        invariant ResolveAll(env, parameters[..i]) == Success(arguments[..i])
      {
        assert parameters[..i + 1][..i] == parameters[..i];
        var v := ValueFor(parameters[i]);
        if v.Failure? {
          ResolveAllStable(env, parameters, i + 1);
          return Failure(v.error);
        }
        arguments[i] := v.value;
        assert arguments[..i + 1] == arguments[..i] + [v.value];
        i := i + 1;
      }
      assert parameters[..i] == parameters;
      assert arguments[..] == arguments[..i];
      r := Success(arguments[..]);
    }

    /** `injectDependencies`: the `@TestResource` fields of an instance, set in order. */
    method InjectDependencies(fields: seq<InjectionPoint>) returns (r: Result<seq<Value>, Error>)
      requires Valid()
      modifies this`cache, this`built
      ensures Valid() && r == ResolveAll(env, fields)
      ensures old(cache.Keys) <= cache.Keys
    {
      var values: seq<Value> := [];
      var i := 0;
      while i < |fields|
        invariant 0 <= i <= |fields|
        invariant Valid() && old(cache.Keys) <= cache.Keys
        invariant ResolveAll(env, fields[..i]) == Success(values)
      {
        assert fields[..i + 1][..i] == fields[..i];
        var v := ValueFor(fields[i]);
        if v.Failure? {
          ResolveAllStable(env, fields, i + 1);
          return Failure(v.error);
        }
        values := values + [v.value];
        i := i + 1;
      }
      assert fields[..i] == fields;
      r := Success(values);
    }

    // ---- effects

    /** `new Command(...).runAndWait()` and the other external calls: the effect is
        emitted, and throws when the environment makes it fail. */
    method RunAndWait(e: Effect) returns (err: Option<Error>)
      modifies this`trace
      ensures trace == old(trace) + [e]
      ensures err == Exec(e, env.failing).err
    {
      trace := trace + [e];
      err := if e in env.failing then Some(EffectFailed(e)) else None;
    }

    /** The body of `runPublicStaticVoidMethods`' loop for one method. */
    method RunHook(kind: HookKind, m: HookMethod) returns (err: Option<Error>)
      requires Valid()
      modifies this`cache, this`built, this`trace
      ensures Valid() && old(cache.Keys) <= cache.Keys
      ensures trace == old(trace) + HookStep(env, kind, m).effects
      ensures err == HookStep(env, kind, m).err
    {
      if kind !in m.annotations {
        return None;
      }
      if !IsPublicStaticVoid(m) {
        return Some(HookNotPublicStaticVoid(kind, m.declaringClass, m.name));
      }
      var arguments := ResolveArguments(m.parameters);
      if arguments.Failure? {
        return Some(arguments.error);
      }
      err := RunAndWait(InvokeHook(kind, m.declaringClass, m.name, arguments.value));
    }

    /** `runPublicStaticVoidMethods`: the public methods of the test class annotated with
        `kind`, each checked, its arguments resolved, then invoked. */
    method RunPublicStaticVoidMethods(kind: HookKind) returns (err: Option<Error>)
      requires Valid()
      modifies this`cache, this`built, this`trace
      ensures Valid() && old(cache.Keys) <= cache.Keys
      ensures trace == old(trace) + HookPhase(env, kind).effects
      ensures err == HookPhase(env, kind).err
    {
      var methods := PublicMethods(env.testMethods);
      var i := 0;
      while i < |methods|
        invariant 0 <= i <= |methods|
        invariant Valid() && old(cache.Keys) <= cache.Keys
        invariant trace == old(trace) + HookRun(env, kind, methods[..i]).effects
        invariant HookRun(env, kind, methods[..i]).err.None?
      {
        HookRunSnoc(env, kind, methods, i);
        ThenEffects(old(trace), HookRun(env, kind, methods[..i]), HookStep(env, kind, methods[i]));
        err := RunHook(kind, methods[i]);
        i := i + 1;
        if err.Some? {
          HookRunStable(env, kind, methods, i);
          return;
        }
      }
      assert methods[..i] == methods;
      err := None;
    }

    // ---- setup

    /** `createEphemeralNamespaceIfNecessary`: the namespace is stored before
        `oc new-project` runs. */
    method CreateEphemeralNamespaceIfNecessary() returns (err: Option<Error>)
      modifies this`namespace, this`trace
      ensures namespace == if env.ephemeralNamespaces then Some(env.randomNamespace) else old(namespace)
      ensures trace == old(trace) + NamespacePhase(env).effects && err == NamespacePhase(env).err
    {
      err := None;
      if env.ephemeralNamespaces {
        namespace := Some(env.randomNamespace);
        err := RunAndWait(NewProject(env.randomNamespace));
      }
    }

    /** The loop of `deployAdditionalResources` over the declarations. */
    method DeployDeclarations() returns (err: Option<Error>)
      modifies this`closeables, this`trace
      ensures trace == old(trace) + AdditionalPhase(env).effects && err == AdditionalPhase(env).err
      ensures closeables == old(closeables) + RegisteredAdditional(env)
    {
      ghost var es := AdditionalEffects(env);
      var declarations := env.additionalResources;
      var i := 0;
      while i < |declarations|
        invariant 0 <= i <= |declarations|
        invariant trace == old(trace) + es[..i]
        invariant forall j :: 0 <= j < i ==> es[j] !in env.failing
        invariant closeables == old(closeables) + (if env.ephemeralNamespaces then [] else declarations[..i])
      {
        assert es[..i + 1] == es[..i] + [es[i]];
        TraceAssoc(old(trace), es[..i], [es[i]]);
        err := RunAndWait(DeployAdditional(declarations[i]));
        if err.Some? {
          FirstFailingUnique(es, env.failing, i);
          return;
        }
        if !env.ephemeralNamespaces {
          assert declarations[..i + 1] == declarations[..i] + [declarations[i]];
          closeables := closeables + [declarations[i]];
        }
        i := i + 1;
      }
      FirstFailingUnique(es, env.failing, i);
      assert es[..i] == es;
      assert declarations[..i] == declarations;
      err := None;
    }

    /** `deployAdditionalResources`: each deployed declaration is registered for closing
        with the store, unless namespaces are ephemeral.  The tests status it reads is the
        one `beforeAll` stores before setup starts. */
    method DeployAdditionalResources() returns (err: Option<Error>)
      requires Valid() && status.Some?
      modifies this`cache, this`built, this`closeables, this`trace
      ensures Valid() && old(cache.Keys) <= cache.Keys
      ensures cache.Keys == old(cache.Keys) + {ClientKey, MetadataKey, AwaitUtilKey}
      ensures trace == old(trace) + AdditionalPhase(env).effects && err == AdditionalPhase(env).err
      ensures closeables == old(closeables) + RegisteredAdditional(env)
    {
      var oc := GetOpenShiftClient();
      var awaitUtil := GetAwaitUtil();
      err := DeployDeclarations();
    }

    /** Each effect of `es` in order, stopping at the first that throws. */
    method RunEach(es: seq<Effect>) returns (err: Option<Error>)
      modifies this`trace
      ensures trace == old(trace) + ExecEach(es, env.failing).effects
      ensures err == ExecEach(es, env.failing).err
    {
      var i := 0;
      while i < |es|
        invariant 0 <= i <= |es|
        invariant trace == old(trace) + es[..i]
        invariant forall j :: 0 <= j < i ==> es[j] !in env.failing
      {
        assert es[..i + 1] == es[..i] + [es[i]];
        TraceAssoc(old(trace), es[..i], [es[i]]);
        err := RunAndWait(es[i]);
        if err.Some? {
          FirstFailingUnique(es, env.failing, i);
          return;
        }
        i := i + 1;
      }
      FirstFailingUnique(es, env.failing, i);
      assert es[..i] == es;
      err := None;
    }

    /** `awaitImageStreams`: the manifest's image streams in order, except the one named
        like the application. */
    method AwaitImageStreams() returns (err: Option<Error>)
      requires Valid()
      modifies this`cache, this`built, this`trace
      ensures Valid() && old(cache.Keys) <= cache.Keys
      ensures trace == old(trace) + ExecEach(AwaitEffects(AwaitedImageStreams(env.manifest, EffectiveMetadata(env).appName)), env.failing).effects
      ensures err == ExecEach(AwaitEffects(AwaitedImageStreams(env.manifest, EffectiveMetadata(env).appName)), env.failing).err
    {
      var oc := GetOpenShiftClient();
      var metadata := GetAppMetadata();
      var awaitUtil := GetAwaitUtil();
      var names := AwaitedImageStreams(env.manifest, metadata.appName);
      err := RunEach(AwaitEffects(names));
    }

    /** The build branch of the deploy block. */
    method BuildApplication(binary: Option<string>) returns (err: Option<Error>)
      requires Valid()
      modifies this`cache, this`built, this`trace
      ensures Valid() && old(cache.Keys) <= cache.Keys
      ensures trace == old(trace) + BuildPhase(EffectiveMetadata(env).appName, binary, env.failing).effects
      ensures err == BuildPhase(EffectiveMetadata(env).appName, binary, env.failing).err
    {
      ghost var app := EffectiveMetadata(env).appName;
      ghost var f := env.failing;
      if binary.Some? {
        var metadata := GetAppMetadata();
        err := RunAndWait(StartBuildFromFile(metadata.appName, binary.value));
      } else {
        ghost var s, r := Exec(StartBuildFromArchive(app), f), Exec(Rm, f);
        ThenEffects(trace, Exec(Tar, f), Then(s, r));
        err := RunAndWait(Tar);
        if err.Some? {
          return;
        }
        ThenEffects(trace, s, r);
        var metadata := GetAppMetadata();
        err := RunAndWait(StartBuildFromArchive(metadata.appName));
        if err.Some? {
          return;
        }
        err := RunAndWait(Rm);
      }
    }

    /** The deploy block of `doBeforeAll`. */
    method DeployApplication() returns (err: Option<Error>)
      requires Valid()
      modifies this`cache, this`built, this`trace
      ensures Valid() && old(cache.Keys) <= cache.Keys
      ensures trace == old(trace) + DeployPhase(env).effects && err == DeployPhase(env).err
    {
      if env.manualDeployment {
        return None;
      }
      var openshiftResources := ManifestPath;
      if !env.manifestExists {
        return Some(MissingManifest(openshiftResources));
      }
      ghost var f := env.failing;
      ghost var app := EffectiveMetadata(env).appName;
      ghost var o, a := Exec(ApplyImageOverrides(ManifestPath), f), Exec(Apply(ManifestPath), f);
      ghost var w := ExecEach(AwaitEffects(AwaitedImageStreams(env.manifest, app)), f);
      ghost var b := BuildPhase(app, FindNativeBinary(env.targetFiles), f);
      var oc := GetOpenShiftClient();
      ThenEffects(trace, o, Then(a, Then(w, b)));
      err := RunAndWait(ApplyImageOverrides(openshiftResources));
      if err.Some? {
        return;
      }
      ThenEffects(trace, a, Then(w, b));
      err := RunAndWait(Apply(openshiftResources));
      if err.Some? {
        return;
      }
      ThenEffects(trace, w, b);
      err := AwaitImageStreams();
      if err.Some? {
        return;
      }
      var binary := FindNativeBinary(env.targetFiles);
      err := BuildApplication(binary);
    }

    /** `setUpRestAssured`, returning what `OpenShiftTestExtension` assigns to RestAssured's globals. */
    method SetUpRestAssured() returns (r: Result<HttpConfig, Error>)
      requires Valid()
      modifies this`cache, this`built
      ensures Valid() && old(cache.Keys) <= cache.Keys
      ensures r == RestAssuredConfig(env)
    {
      var oc := GetOpenShiftClient();
      var metadata := GetAppMetadata();
      var baseUri, relaxed;
      if metadata.deploymentTarget == "" || !Contains(metadata.deploymentTarget, "knative") {
        if metadata.appName !in env.routes {
          return Failure(MissingRoute(metadata.appName));
        }
        var route := env.routes[metadata.appName];
        if route.tls {
          relaxed := true;
          baseUri := "https://" + route.host;
        } else {
          relaxed := false;
          baseUri := "http://" + route.host;
        }
      } else {
        if metadata.appName !in env.knativeRouteUrls {
          return Failure(MissingKnativeRoute(metadata.appName));
        }
        relaxed := false;
        baseUri := env.knativeRouteUrls[metadata.appName];
      }
      r := Success(HttpConfig(baseUri, metadata.httpRoot, relaxed));
    }

    /** The first half of `doBeforeAll`. */
    method PrepareDeployment() returns (err: Option<Error>)
      requires Valid() && status.Some?
      modifies this`namespace, this`cache, this`built, this`closeables, this`trace
      ensures Valid() && old(cache.Keys) <= cache.Keys
      ensures trace == old(trace) + PreDeploy(env).effects && err == PreDeploy(env).err
      ensures namespace == if env.ephemeralNamespaces then Some(env.randomNamespace) else old(namespace)
      ensures closeables == old(closeables) + RegisteredAdditional(env)
    {
      ghost var p1, p2 := NamespacePhase(env), AdditionalPhase(env);
      ghost var p3 := HookPhase(env, CustomizeApplicationDeployment);
      ThenEffects(trace, p1, Then(p2, p3));
      err := CreateEphemeralNamespaceIfNecessary();
      if err.Some? {
        return;
      }
      ThenEffects(trace, p2, p3);
      err := DeployAdditionalResources();
      if err.Some? {
        return;
      }
      err := RunPublicStaticVoidMethods(CustomizeApplicationDeployment);
    }

    /** The second half of `doBeforeAll`. */
    method RollOut() returns (config: Option<HttpConfig>, err: Option<Error>)
      requires Valid()
      modifies this`cache, this`built, this`trace
      ensures Valid() && old(cache.Keys) <= cache.Keys
      ensures trace == old(trace) + Rollout(env).effects && err == Rollout(env).err
      ensures config == RolloutConfig(env)
    {
      ghost var p4, p5, p6 := DeployPhase(env), RestAssuredPhase(env), Exec(AwaitAppRoute, env.failing);
      config := None;
      ThenEffects(trace, p4, Then(p5, p6));
      err := DeployApplication();
      if err.Some? {
        return;
      }
      ThenEffects(trace, p5, p6);
      var rest := SetUpRestAssured();
      if rest.Failure? {
        return None, Some(rest.error);
      }
      config := Some(rest.value);
      var awaitUtil := GetAwaitUtil();
      err := RunAndWait(AwaitAppRoute);
    }

    /** `doBeforeAll`: the phases in order, each run only when the previous completed. */
    method DoBeforeAll() returns (config: Option<HttpConfig>, err: Option<Error>)
      requires Valid() && status.Some?
      modifies this`namespace, this`cache, this`built, this`closeables, this`trace
      ensures Valid() && old(cache.Keys) <= cache.Keys
      ensures trace == old(trace) + Setup(env).effects && err == Setup(env).err
      ensures config == SetupConfig(env)
      ensures namespace == if env.ephemeralNamespaces then Some(env.randomNamespace) else old(namespace)
      ensures closeables == old(closeables) + RegisteredAdditional(env)
    {
      config := None;
      ThenEffects(trace, PreDeploy(env), Rollout(env));
      err := PrepareDeployment();
      if err.Some? {
        return;
      }
      config, err := RollOut();
    }

    /** `beforeAll`: a fresh tests status, then setup; a setup error marks the run failed
        and is rethrown unchanged. */
    method BeforeAll() returns (config: Option<HttpConfig>, err: Option<Error>)
      requires Valid()
      modifies this`status, this`namespace, this`cache, this`built, this`closeables, this`trace
      ensures Valid() && old(cache.Keys) <= cache.Keys
      ensures status == Some(err.Some?)
      ensures trace == old(trace) + Setup(env).effects && err == Setup(env).err
      ensures config == SetupConfig(env)
      ensures namespace == if env.ephemeralNamespaces then Some(env.randomNamespace) else old(namespace)
      ensures closeables == old(closeables) + RegisteredAdditional(env)
    {
      status := Some(false);
      config, err := DoBeforeAll();
      if err.Some? {
        status := Some(true);
      }
    }

    // ---- failure bookkeeping

    /** `failureOccured`; without a tests status, `getTestsStatus` throws instead. */
    method FailureOccurred() returns (err: Option<Error>)
      modifies this`status
      ensures old(status).Some? ==> status == Some(true) && err == None
      ensures old(status).None? ==> status == None && err == Some(MissingTestsStatus)
    {
      if status.None? {
        return Some(MissingTestsStatus);
      }
      status := Some(true);
      err := None;
    }

    method HandleBeforeAllMethodExecutionException(throwable: Error) returns (thrown: Error)
      modifies this`status
      ensures old(status).Some? ==> status == Some(true) && thrown == throwable
      ensures old(status).None? ==> status == None && thrown == MissingTestsStatus
    {
      var err := FailureOccurred();
      thrown := if err.Some? then err.value else throwable;
    }

    method HandleBeforeEachMethodExecutionException(throwable: Error) returns (thrown: Error)
      modifies this`status
      ensures old(status).Some? ==> status == Some(true) && thrown == throwable
      ensures old(status).None? ==> status == None && thrown == MissingTestsStatus
    {
      var err := FailureOccurred();
      thrown := if err.Some? then err.value else throwable;
    }

    method HandleAfterEachMethodExecutionException(throwable: Error) returns (thrown: Error)
      modifies this`status
      ensures old(status).Some? ==> status == Some(true) && thrown == throwable
      ensures old(status).None? ==> status == None && thrown == MissingTestsStatus
    {
      var err := FailureOccurred();
      thrown := if err.Some? then err.value else throwable;
    }

    method HandleAfterAllMethodExecutionException(throwable: Error) returns (thrown: Error)
      modifies this`status
      ensures old(status).Some? ==> status == Some(true) && thrown == throwable
      ensures old(status).None? ==> status == None && thrown == MissingTestsStatus
    {
      var err := FailureOccurred();
      thrown := if err.Some? then err.value else throwable;
    }

    method HandleTestExecutionException(throwable: Error) returns (thrown: Error)
      modifies this`status
      ensures old(status).Some? ==> status == Some(true) && thrown == throwable
      ensures old(status).None? ==> status == None && thrown == MissingTestsStatus
    {
      var err := FailureOccurred();
      thrown := if err.Some? then err.value else throwable;
    }

    // ---- teardown

    /** `runOnFailureAction`: an exception from injection or execution is logged only. */
    method RunOnFailureAction(action: FailureAction)
      requires Valid()
      modifies this`cache, this`built, this`trace
      ensures Valid() && old(cache.Keys) <= cache.Keys
      ensures trace == old(trace) + FailureActionEffects(env, action)
    {
      var injected := InjectDependencies(action.fields);
      if injected.Failure? {
        trace := trace + [LogFailureActionError(action.name, injected.error)];
        return;
      }
      var err := RunAndWait(RunFailureAction(action.name));
      if err.Some? {
        trace := trace + [LogFailureActionError(action.name, err.value)];
      }
    }

    /** `dropEphemeralNamespaceIfNecessary` */
    method DropEphemeralNamespaceIfNecessary() returns (err: Option<Error>)
      requires status.Some?
      modifies this`trace
      ensures trace == old(trace) + DropPhase(namespace, env.retainOnFailure, status.value, env.failing).effects
      ensures err == DropPhase(namespace, env.retainOnFailure, status.value, env.failing).err
    {
      err := None;
      if namespace.Some? {
        if env.retainOnFailure && status.value {
          trace := trace + [LogKeepingNamespace(namespace.value)];
        } else {
          err := RunAndWait(DeleteProject(namespace.value));
        }
      }
    }

    /** The failure-action loop of `afterAll`: every action runs, whatever the others do. */
    method RunFailureActions()
      requires Valid()
      modifies this`cache, this`built, this`trace
      ensures Valid() && old(cache.Keys) <= cache.Keys
      ensures trace == old(trace) + FailureActionsRun(env, env.failureActions)
    {
      var actions := env.failureActions;
      var i := 0;
      while i < |actions|
        invariant 0 <= i <= |actions|
        invariant Valid() && old(cache.Keys) <= cache.Keys
        invariant trace == old(trace) + FailureActionsRun(env, actions[..i])
      {
        assert actions[..i + 1][..i] == actions[..i];
        TraceAssoc(old(trace), FailureActionsRun(env, actions[..i]), FailureActionEffects(env, actions[i]));
        RunOnFailureAction(actions[i]);
        i := i + 1;
      }
      assert actions[..i] == actions;
    }

    /** The failure reporting of `afterAll`: the failure actions and the line saying that
        nothing is deleted. */
    method ReportFailure(testsFailed: bool, logNotDeleting: bool)
      requires Valid()
      requires logNotDeleting <==> env.retainOnFailure && testsFailed && !env.ephemeralNamespaces
      modifies this`cache, this`built, this`trace
      ensures Valid() && old(cache.Keys) <= cache.Keys
      ensures trace == old(trace) + TeardownLogs(env, testsFailed)
    {
      if testsFailed {
        RunFailureActions();
      }
      if logNotDeleting {
        TraceAssoc(old(trace), FailureActionsRun(env, env.failureActions), [LogNotDeletingResources]);
        trace := trace + [LogNotDeletingResources];
      } else {
        assert TeardownLogs(env, testsFailed) == (if testsFailed then FailureActionsRun(env, env.failureActions) else []) + [];
      }
    }

    /** What `afterAll` does after the failure reporting. */
    method CleanUp(testsFailed: bool, undeploy: bool) returns (err: Option<Error>)
      requires Valid() && status == Some(testsFailed)
      requires undeploy == Decide(env.ephemeralNamespaces, env.retainOnFailure, testsFailed, env.manualDeployment).deleteApplication
      modifies this`cache, this`built, this`trace
      ensures Valid() && old(cache.Keys) <= cache.Keys
      ensures trace == old(trace) + Cleanup(env, testsFailed, namespace).effects
      ensures err == Cleanup(env, testsFailed, namespace).err
    {
      ghost var u := UndeployPhase(env, testsFailed);
      ghost var h := HookPhase(env, CustomizeApplicationUndeployment);
      ghost var d := DropPhase(namespace, env.retainOnFailure, testsFailed, env.failing);
      ThenEffects(trace, u, Then(h, d));
      if undeploy {
        err := RunAndWait(DeleteManifest(ManifestPath, true));
        if err.Some? {
          return;
        }
      }
      ThenEffects(trace, h, d);
      err := RunPublicStaticVoidMethods(CustomizeApplicationUndeployment);
      if err.Some? {
        return;
      }
      err := DropEphemeralNamespaceIfNecessary();
    }

    /** `afterAll`: failure actions on failure, the undeploy decision, the undeployment
        hooks, then the namespace; an error stops the remaining steps. */
    method AfterAll() returns (err: Option<Error>)
      requires Valid()
      modifies this`cache, this`built, this`trace
      ensures Valid() && old(cache.Keys) <= cache.Keys
      ensures status.None? ==> err == Some(MissingTestsStatus) && trace == old(trace)
      ensures status.Some? ==> trace == old(trace) + Teardown(env, status.value, namespace).effects
      ensures status.Some? ==> err == Teardown(env, status.value, namespace).err
    {
      if status.None? {
        return Some(MissingTestsStatus);
      }
      var testsFailed := status.value;
      ghost var t := TeardownLogs(env, testsFailed);
      var undeploy, logNotDeleting := ShouldUndeployApplication(
        env.ephemeralNamespaces, env.retainOnFailure, testsFailed, env.manualDeployment);
      ReportFailure(testsFailed, logNotDeleting);
      ThenEffects(old(trace), Run(t, None), Cleanup(env, testsFailed, namespace));
      err := CleanUp(testsFailed, undeploy);
    }
  }
}
