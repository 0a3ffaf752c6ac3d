/**
  Resolution of `@TestResource` injection points (`valueFor`, `getURL`) and the values
  the store-cached collaborators hold.  Resolution is a function of the environment: the
  cache decides how often a collaborator is built, not what it is.
*/
module Injection {
  import opened Outcomes
  import opened Model
  import opened Urls

  /** `getAppMetadata`: the `@CustomAppMetadata` annotation, when present, takes
      precedence over `target/app-metadata.properties`. */
  function EffectiveMetadata(env: Env): (md: AppMetadata)
    ensures env.customMetadata.Some? ==> md == env.customMetadata.value
    ensures env.customMetadata.None? ==> md == env.propertiesMetadata
  {
    match env.customMetadata
    case Some(custom) =>
      AppMetadata(custom.appName, custom.httpRoot, custom.knownEndpoint, custom.deploymentTarget)
    case None => env.propertiesMetadata
  }

  /** What the store holds under each key once the collaborator has been computed. */
  function Expected(env: Env, k: CacheKey): Value
  {
    match k
    case ClientKey => ClientValue
    case MetadataKey => MetadataValue(EffectiveMetadata(env))
    case AwaitUtilKey => AwaitUtilValue(EffectiveMetadata(env))
    case OpenShiftUtilKey => OpenShiftUtilValue(EffectiveMetadata(env))
  }

  /** `getURL`: a `@WithName` route gives its bare base address; otherwise the
      application's own route, with the metadata's root appended when it is longer than
      one character.  A route that does not exist is dereferenced as null. */
  function UrlFor(env: Env, ip: InjectionPoint): Result<Value, Error>
  {
    match ip.withName
    case Some(routeName) =>
      if routeName in env.routes then Success(UrlValue(BaseAddress(env.routes[routeName])))
      else Failure(NullRoute(routeName))
    case None =>
      var md := EffectiveMetadata(env);
      if md.appName in env.routes then Success(UrlValue(DefaultAddress(env.routes[md.appName], md.httpRoot)))
      else Failure(NullRoute(md.appName))
  }

  /** `valueFor`: the closed dispatch over the seven resolvable types. */
  function Resolve(env: Env, ip: InjectionPoint): Result<Value, Error>
  {
    match ip.typ
    case OpenShiftClientType => Success(ClientValue)
    case KnativeClientType => Success(KnativeClientValue)
    case AppMetadataType => Success(MetadataValue(EffectiveMetadata(env)))
    case AwaitUtilType => Success(AwaitUtilValue(EffectiveMetadata(env)))
    case OpenShiftUtilType => Success(OpenShiftUtilValue(EffectiveMetadata(env)))
    case ConfigType => Success(ConfigValue)
    case UrlType => UrlFor(env, ip)
    case OtherType(name) => Failure(UnsupportedType(name, ip.description))
  }

  /** The store keys `valueFor` reads or fills for an injection point, through the chain
      of cached getters (the awaiter needs the client and the metadata, the utility the
      client and the awaiter). */
  function Touched(ip: InjectionPoint): set<CacheKey>
  {
    match ip.typ
    case OpenShiftClientType => {ClientKey}
    case KnativeClientType => {ClientKey}
    case AppMetadataType => {MetadataKey}
    case AwaitUtilType => {ClientKey, MetadataKey, AwaitUtilKey}
    case OpenShiftUtilType => {ClientKey, MetadataKey, AwaitUtilKey, OpenShiftUtilKey}
    case ConfigType => {}
    case UrlType => if ip.withName.Some? then {ClientKey} else {MetadataKey, ClientKey}
    case OtherType(_) => {}
  }

  /** Resolution of a list of injection points in order, stopping at the first error
      (the arguments of a hook, the fields of an instance). */
  function ResolveAll(env: Env, ips: seq<InjectionPoint>): Result<seq<Value>, Error>
    decreases |ips|
  {
    if ips == [] then Success([])
    else
      match ResolveAll(env, ips[..|ips| - 1])
      case Failure(e) => Failure(e)
      case Success(vs) =>
        match Resolve(env, ips[|ips| - 1])
        case Failure(e) => Failure(e)
        case Success(v) => Success(vs + [v])
  }

  /** `resolveParameter`: an `OpenShiftTestException` becomes a
      `ParameterResolutionException` with the same message; anything else passes through. */
  function ResolveParameter(env: Env, ip: InjectionPoint): (r: Result<Value, Error>)
    ensures r.Success? <==> Resolve(env, ip).Success?
    ensures r.Success? ==> r.value == Resolve(env, ip).value
    ensures r.Failure? ==>
              !IsOpenShiftTestException(r.error) && Message(r.error) == Message(Resolve(env, ip).error)
    ensures r.Failure? && IsOpenShiftTestException(Resolve(env, ip).error) ==> r.error.ParameterResolution?
    ensures r.Failure? && !IsOpenShiftTestException(Resolve(env, ip).error) ==> r.error == Resolve(env, ip).error
  {
    match Resolve(env, ip)
    case Success(v) => Success(v)
    case Failure(e) => if IsOpenShiftTestException(e) then Failure(ParameterResolution(Message(e))) else Failure(e)
  }

  // ---- properties

  /** Exactly the seven known types resolve unconditionally or through a route; every other
      type yields an "unsupported type" error naming the type and the injection point, and
      nothing but such a type yields that error. */
  lemma ResolveClosed(env: Env, ip: InjectionPoint)
    ensures ip.typ.OtherType? ==> Resolve(env, ip) == Failure(UnsupportedType(ip.typ.simpleName, ip.description))
    ensures (Resolve(env, ip).Failure? && Resolve(env, ip).error.UnsupportedType?) <==> ip.typ.OtherType?
    ensures Resolve(env, ip).Failure? ==> ip.typ.OtherType? || ip.typ == UrlType
    ensures ip.typ.OtherType? ==>
              Contains(Message(Resolve(env, ip).error), ip.typ.simpleName)
              && Contains(Message(Resolve(env, ip).error), ip.description)
  {
    if ip.typ.OtherType? {
      var t, d := ip.typ.simpleName, ip.description;
      assert Message(Resolve(env, ip).error) == "Unsupported type " + t + " for @TestResource " + d;
      ContainsInfix("Unsupported type ", t, " for @TestResource " + d);
      assert "Unsupported type " + t + " for @TestResource " + d
          == "Unsupported type " + t + (" for @TestResource " + d);
      ContainsInfix("Unsupported type " + t + " for @TestResource ", d, "");
      assert "Unsupported type " + t + " for @TestResource " + d
          == "Unsupported type " + t + " for @TestResource " + d + "";
    }
  }

  /** A `@WithName` URL is the named route's base address, never with a root appended;
      an unnamed URL is the application route's default address. */
  lemma UrlForRoutes(env: Env, ip: InjectionPoint)
    requires ip.typ == UrlType
    ensures ip.withName.Some? && ip.withName.value in env.routes ==>
              Resolve(env, ip) == Success(UrlValue(BaseAddress(env.routes[ip.withName.value])))
    ensures ip.withName.None? && EffectiveMetadata(env).appName in env.routes ==>
              Resolve(env, ip) == Success(UrlValue(DefaultAddress(env.routes[EffectiveMetadata(env).appName],
                                                                  EffectiveMetadata(env).httpRoot)))
    ensures ip.withName.Some? && ip.withName.value !in env.routes ==>
              Resolve(env, ip) == Failure(NullRoute(ip.withName.value))
  {
  }

  /** Resolving a list succeeds exactly when every point resolves, and then yields the
      values in parameter order. */
  lemma {:induction false} ResolveAllInOrder(env: Env, ips: seq<InjectionPoint>)
    ensures ResolveAll(env, ips).Success? <==> forall i :: 0 <= i < |ips| ==> Resolve(env, ips[i]).Success?
    ensures ResolveAll(env, ips).Success? ==>
              |ResolveAll(env, ips).value| == |ips|
              && forall i :: 0 <= i < |ips| ==> Resolve(env, ips[i]) == Success(ResolveAll(env, ips).value[i])
    decreases |ips|
  {
    if ips != [] {
      var init := ips[..|ips| - 1];
      ResolveAllInOrder(env, init);
      assert forall i :: 0 <= i < |init| ==> init[i] == ips[i];
    }
  }

  /** A failing list fails with the error of its first failing point. */
  lemma {:induction false} ResolveAllFirstError(env: Env, ips: seq<InjectionPoint>)
    requires ResolveAll(env, ips).Failure?
    ensures exists i :: 0 <= i < |ips|
              && Resolve(env, ips[i]) == Failure(ResolveAll(env, ips).error)
              && forall j :: 0 <= j < i ==> Resolve(env, ips[j]).Success?
    decreases |ips|
  {
    var init := ips[..|ips| - 1];
    assert forall i :: 0 <= i < |init| ==> init[i] == ips[i];
    if ResolveAll(env, init).Failure? {
      ResolveAllFirstError(env, init);
      var i :| 0 <= i < |init| && Resolve(env, init[i]) == Failure(ResolveAll(env, init).error)
               && forall j :: 0 <= j < i ==> Resolve(env, init[j]).Success?;
      assert Resolve(env, ips[i]) == Failure(ResolveAll(env, ips).error);
    } else {
      ResolveAllInOrder(env, init);
      var i := |ips| - 1;
      assert Resolve(env, ips[i]) == Failure(ResolveAll(env, ips).error);
    }
  }

  /** Once a prefix of the list fails, resolving the whole list fails the same way. */
  lemma {:induction false} ResolveAllStable(env: Env, ips: seq<InjectionPoint>, i: nat)
    requires i <= |ips| && ResolveAll(env, ips[..i]).Failure?
    ensures ResolveAll(env, ips) == ResolveAll(env, ips[..i])
    decreases |ips|
  {
    if i < |ips| {
      var init := ips[..|ips| - 1];
      assert init[..i] == ips[..i];
      ResolveAllStable(env, init, i);
    } else {
      assert ips[..i] == ips;
    }
  }
}
