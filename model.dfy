/**
  The entities of the OpenShift test extension and the environment it runs in.

  Every external effect of the extension (an `oc`, `tar` or `rm` command, a call into a
  collaborator whose code is not part of this model, a hook invocation, a log line that
  matters for retention) is an `Effect`; the extension's observable behaviour is the
  sequence of effects it emits.  The environment (configuration flags, annotations,
  files, routes, and which effects fail) is a plain input value `Env`.
*/
module Model {
  import opened Outcomes

  /** An OpenShift route: its host and whether it declares TLS. */
  datatype Route = Route(host: string, tls: bool)

  /** Application metadata: from `@CustomAppMetadata` or `target/app-metadata.properties`.
      `httpRoot` may be null in the extension, hence the option. */
  datatype AppMetadata = AppMetadata(
    appName: string,
    httpRoot: Option<string>,
    knownEndpoint: string,
    deploymentTarget: string)

  /** A file found under `target/`: its normalized path and its file name. */
  datatype TargetFile = TargetFile(path: string, name: string)

  /** An object of the generated manifest; only image streams matter to the extension. */
  datatype ManifestObject = ImageStreamObject(name: string) | OtherObject(kind: string, name: string)

  /** The two hook annotations on static methods of the test class. */
  datatype HookKind = CustomizeApplicationDeployment | CustomizeApplicationUndeployment

  /** The declared type of an injection point; `OtherType` is anything else, by simple name. */
  datatype TypeName =
    | OpenShiftClientType
    | KnativeClientType
    | AppMetadataType
    | AwaitUtilType
    | OpenShiftUtilType
    | ConfigType
    | UrlType
    | OtherType(simpleName: string)

  /** A `@TestResource` field or parameter: its type, its `@WithName` value if any, and
      the description the extension uses in error messages. */
  datatype InjectionPoint = InjectionPoint(typ: TypeName, withName: Option<string>, description: string)

  /** A method of the test class, as far as hook selection and invocation need it. */
  datatype HookMethod = HookMethod(
    declaringClass: string,
    name: string,
    annotations: set<HookKind>,
    isPublic: bool,
    isStatic: bool,
    returnsVoid: bool,
    parameters: seq<InjectionPoint>)

  /** A failure action found by service discovery, with its `@TestResource` fields. */
  datatype FailureAction = FailureAction(name: string, fields: seq<InjectionPoint>)

  /** A resolved injection value.  Collaborators carry the metadata they were built with. */
  datatype Value =
    | ClientValue
    | KnativeClientValue
    | MetadataValue(md: AppMetadata)
    | AwaitUtilValue(md: AppMetadata)
    | OpenShiftUtilValue(md: AppMetadata)
    | ConfigValue
    | UrlValue(address: string)

  /** The keys under which collaborators are cached in the extension store. */
  datatype CacheKey = ClientKey | MetadataKey | AwaitUtilKey | OpenShiftUtilKey

  /** What setup sets on the test HTTP client (RestAssured): base URI, base path, relaxed HTTPS. */
  datatype HttpConfig = HttpConfig(baseUri: string, basePath: Option<string>, relaxedHttps: bool)

  /** Observable events, in the order the extension emits them. */
  datatype Effect =
    | NewProject(name: string)                       // oc new-project <name>
    | DeployAdditional(declaration: string)         // AdditionalResourcesDeployed.deploy
    | InvokeHook(kind: HookKind, declaringClass: string, methodName: string, arguments: seq<Value>)
    | ApplyImageOverrides(manifest: string)          // ImageOverrides.apply
    | Apply(manifest: string)                        // oc apply -f <manifest>
    | AwaitImageStream(name: string)                 // AwaitUtil.awaitImageStream
    | StartBuildFromFile(app: string, binary: string) // oc start-build <app> --from-file=<binary> --follow
    | Tar                                            // tar czf app.tar.gz target
    | StartBuildFromArchive(app: string)             // oc start-build <app> --from-archive=app.tar.gz --follow
    | Rm                                             // rm app.tar.gz
    | AwaitAppRoute                                  // AwaitUtil.awaitAppRoute
    | RunFailureAction(action: string)               // OnOpenShiftFailureAction.execute
    | DeleteManifest(manifest: string, ignoreNotFound: bool) // oc delete -f <manifest> [--ignore-not-found]
    | DeleteProject(name: string)                    // oc delete project <name>
    | LogNotDeletingResources
    | LogKeepingNamespace(name: string)
    | LogFailureActionError(action: string, cause: Error)

  /** What the extension throws (or rethrows). */
  datatype Error =
    | EffectFailed(effect: Effect)           // a command exits non-zero, a collaborator throws
    | MissingManifest(path: string)
    | HookNotPublicStaticVoid(kind: HookKind, declaringClass: string, methodName: string)
    | UnsupportedType(simpleName: string, description: string)
    | MissingRoute(name: string)             // no OpenShift route while configuring RestAssured
    | MissingKnativeRoute(name: string)      // no Knative route while configuring RestAssured
    | NullRoute(name: string)                // getURL dereferences a missing route
    | ParameterResolution(message: string)
    | MissingTestsStatus                     // IllegalStateException: no TestsStatus in the store
    | Thrown(description: string)            // a throwable from test code, passed to a handler

  /** The inputs of one test-class run. */
  datatype Env = Env(
    ephemeralNamespaces: bool,
    retainOnFailure: bool,
    manualDeployment: bool,
    customMetadata: Option<AppMetadata>,
    propertiesMetadata: AppMetadata,
    randomNamespace: string,
    additionalResources: seq<string>,
    testMethods: seq<HookMethod>,
    manifestExists: bool,
    manifest: seq<ManifestObject>,
    targetFiles: seq<TargetFile>,
    routes: map<string, Route>,
    knativeRouteUrls: map<string, string>,
    failureActions: seq<FailureAction>,
    failing: set<Effect>)

  /** `Paths.get("target", "kubernetes", "openshift.yml").toString()` */
  const ManifestPath: string := "target/kubernetes/openshift.yml"

  /** The simple name of a hook annotation, as used in the signature error message. */
  function HookAnnotationName(kind: HookKind): string
  {
    match kind
    case CustomizeApplicationDeployment => "CustomizeApplicationDeployment"
    case CustomizeApplicationUndeployment => "CustomizeApplicationUndeployment"
  }

  /** The errors the extension raises as `OpenShiftTestException`. */
  predicate IsOpenShiftTestException(e: Error)
  {
    e.MissingManifest? || e.HookNotPublicStaticVoid? || e.UnsupportedType?
    || e.MissingRoute? || e.MissingKnativeRoute?
  }

  /** The message of an error, for those whose message the extension spells out. */
  function Message(e: Error): string
  {
    match e
    case MissingManifest(p) =>
      "Missing " + p + ", did you add the quarkus-kubernetes or quarkus-openshift extension?"
    case HookNotPublicStaticVoid(k, c, m) =>
      "@" + HookAnnotationName(k) + " method " + c + "." + m + " must be public static void"
    case UnsupportedType(t, d) => "Unsupported type " + t + " for @TestResource " + d
    case MissingRoute(n) => "Missing route " + n + ", did you set quarkus.openshift.expose=true?"
    case MissingKnativeRoute(n) => "Missing route " + n
    case ParameterResolution(msg) => msg
    case MissingTestsStatus => "missing TestsStatus, this is test framework bug"
    case _ => ""
  }
}
