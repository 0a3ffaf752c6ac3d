/**
  Properties of `afterAll`: the decision matrix for undeploying the application and
  dropping the namespace, the failure actions, and the order of the cleanup steps.
*/
module TeardownProperties {
  import opened Outcomes
  import opened Model
  import opened Injection
  import opened Plan
  import opened HookProperties

  /** The cleanup steps that precede the namespace step: undeploy, then the undeployment
      hooks. */
  function PreDrop(env: Env, failed: bool): Run
  {
    Then(UndeployPhase(env, failed), HookPhase(env, CustomizeApplicationUndeployment))
  }

  /** Only the failure reporting emits failure-action effects and log lines. */
  predicate IsReport(e: Effect)
  {
    e.RunFailureAction? || e.LogFailureActionError? || e == LogNotDeletingResources
  }

  // ---- what each part of teardown emits

  lemma {:induction false} FailureActionsRunKinds(env: Env, actions: seq<FailureAction>)
    ensures forall e :: e in FailureActionsRun(env, actions) ==> e.RunFailureAction? || e.LogFailureActionError?
    decreases |actions|
  {
    if actions != [] {
      FailureActionsRunKinds(env, actions[..|actions| - 1]);
    }
  }

  lemma TeardownLogsKinds(env: Env, failed: bool)
    ensures forall e :: e in TeardownLogs(env, failed) ==> IsReport(e)
    ensures !failed ==> TeardownLogs(env, failed) == []
  {
    FailureActionsRunKinds(env, env.failureActions);
  }

  lemma HookPhaseKinds(env: Env, kind: HookKind)
    ensures forall e :: e in HookPhase(env, kind).effects ==> e.InvokeHook?
  {
    HookPhaseSkipsNonPublic(env, kind);
  }

  /** What teardown emits is what the report, undeploy, hooks and namespace step emit,
      each only when the steps before it completed. */
  lemma TeardownMembers(env: Env, failed: bool, ns: Option<string>)
    ensures forall e :: e in Teardown(env, failed, ns).effects <==>
              e in TeardownLogs(env, failed)
              || e in UndeployPhase(env, failed).effects
              || (UndeployPhase(env, failed).err.None? && e in HookPhase(env, CustomizeApplicationUndeployment).effects)
              || (PreDrop(env, failed).err.None? && e in DropPhase(ns, env.retainOnFailure, failed, env.failing).effects)
  {
    var u, h := UndeployPhase(env, failed), HookPhase(env, CustomizeApplicationUndeployment);
    var d := DropPhase(ns, env.retainOnFailure, failed, env.failing);
    ThenMembers(h, d);
    ThenMembers(u, Then(h, d));
    ThenMembers(u, h);
    ThenMembers(Run(TeardownLogs(env, failed), None), Cleanup(env, failed, ns));
  }

  // ---- the decision matrix

  /** The application is deleted, with `--ignore-not-found`, exactly when the namespace is
      not ephemeral, the resources are not retained for a failed run, and the deployment
      is not manual; no other manifest deletion happens. */
  lemma UndeployRule(env: Env, failed: bool, ns: Option<string>)
    ensures DeleteManifest(ManifestPath, true) in Teardown(env, failed, ns).effects <==>
              !env.ephemeralNamespaces && !(env.retainOnFailure && failed) && !env.manualDeployment
    ensures forall e :: e in Teardown(env, failed, ns).effects && e.DeleteManifest? ==>
              e == DeleteManifest(ManifestPath, true)
  {
    TeardownMembers(env, failed, ns);
    TeardownLogsKinds(env, failed);
    HookPhaseKinds(env, CustomizeApplicationUndeployment);
  }

  /** Once undeploy and the hooks have completed, the stored namespace is deleted unless
      the resources are retained for a failed run, in which case it is only reported; with
      no stored namespace neither happens. */
  lemma NamespaceDrop(env: Env, failed: bool, ns: Option<string>, n: string)
    requires PreDrop(env, failed).err.None?
    ensures DeleteProject(n) in Teardown(env, failed, ns).effects <==>
              ns == Some(n) && !(env.retainOnFailure && failed)
    ensures LogKeepingNamespace(n) in Teardown(env, failed, ns).effects <==>
              ns == Some(n) && env.retainOnFailure && failed
  {
    TeardownMembers(env, failed, ns);
    TeardownLogsKinds(env, failed);
    HookPhaseKinds(env, CustomizeApplicationUndeployment);
  }

  /** A failing undeploy throws out of teardown: the hooks and the namespace step are
      skipped. */
  lemma UndeployFailureStops(env: Env, failed: bool, ns: Option<string>)
    requires UndeployPhase(env, failed).err.Some?
    ensures Teardown(env, failed, ns).effects == TeardownLogs(env, failed) + [DeleteManifest(ManifestPath, true)]
    ensures Teardown(env, failed, ns).err == Some(EffectFailed(DeleteManifest(ManifestPath, true)))
    ensures forall e :: e in Teardown(env, failed, ns).effects ==> !e.InvokeHook? && !e.DeleteProject?
  {
    TeardownLogsKinds(env, failed);
  }

  /** A throwing undeployment hook throws out of teardown after the undeploy: the
      namespace is neither deleted nor reported kept. */
  lemma HookFailureStops(env: Env, failed: bool, ns: Option<string>)
    requires UndeployPhase(env, failed).err.None?
    requires HookPhase(env, CustomizeApplicationUndeployment).err.Some?
    ensures Teardown(env, failed, ns).effects
            == TeardownLogs(env, failed) + UndeployPhase(env, failed).effects
               + HookPhase(env, CustomizeApplicationUndeployment).effects
    ensures Teardown(env, failed, ns).err == HookPhase(env, CustomizeApplicationUndeployment).err
    ensures forall e :: e in Teardown(env, failed, ns).effects ==> !e.DeleteProject? && !e.LogKeepingNamespace?
  {
    TeardownMembers(env, failed, ns);
    TeardownLogsKinds(env, failed);
    HookPhaseKinds(env, CustomizeApplicationUndeployment);
  }

  /** With the namespace `beforeAll` stored, teardown follows the decision matrix: delete
      the application exactly when it decides so, and the namespace exactly when it decides
      so (once undeploy and the hooks completed). */
  lemma TeardownMatchesDecide(env: Env, failed: bool)
    requires PreDrop(env, failed).err.None?
    ensures var d := Decide(env.ephemeralNamespaces, env.retainOnFailure, failed, env.manualDeployment);
            (DeleteManifest(ManifestPath, true) in Teardown(env, failed, StoredNamespace(env)).effects <==> d.deleteApplication)
            && (DeleteProject(env.randomNamespace) in Teardown(env, failed, StoredNamespace(env)).effects <==> d.dropNamespace)
    ensures forall e :: e in Teardown(env, failed, StoredNamespace(env)).effects && e.DeleteProject? ==>
              e == DeleteProject(env.randomNamespace)
  {
    UndeployRule(env, failed, StoredNamespace(env));
    NamespaceDrop(env, failed, StoredNamespace(env), env.randomNamespace);
    TeardownMembers(env, failed, StoredNamespace(env));
    TeardownLogsKinds(env, failed);
    HookPhaseKinds(env, CustomizeApplicationUndeployment);
  }

  // ---- failure actions

  /** Without a failure no failure action runs and nothing is reported. */
  lemma FailureActionsOnlyOnFailure(env: Env, ns: Option<string>)
    ensures forall e :: e in Teardown(env, false, ns).effects ==> !IsReport(e)
  {
    TeardownMembers(env, false, ns);
    TeardownLogsKinds(env, false);
    HookPhaseKinds(env, CustomizeApplicationUndeployment);
  }

  /** Every action of the list is attempted, whatever the earlier ones did: it runs when
      its fields resolve, and its resolution error is logged otherwise. */
  lemma {:induction false} FailureActionsAllAttempted(env: Env, actions: seq<FailureAction>)
    ensures forall a :: a in actions && ResolveAll(env, a.fields).Success? ==>
              RunFailureAction(a.name) in FailureActionsRun(env, actions)
    ensures forall a :: a in actions && ResolveAll(env, a.fields).Failure? ==>
              LogFailureActionError(a.name, ResolveAll(env, a.fields).error) in FailureActionsRun(env, actions)
    decreases |actions|
  {
    if actions != [] {
      var init, last := actions[..|actions| - 1], actions[|actions| - 1];
      FailureActionsAllAttempted(env, init);
      assert actions == init + [last];
      assert forall a :: a in actions <==> a in init || a == last;
    }
  }

  /** An action runs only if it is in the list and its fields resolve; a failing action is
      logged and not propagated. */
  lemma {:induction false} FailureActionsRunOnlyListed(env: Env, actions: seq<FailureAction>)
    ensures forall x :: RunFailureAction(x) in FailureActionsRun(env, actions) ==>
              exists a :: a in actions && a.name == x && ResolveAll(env, a.fields).Success?
    ensures forall a :: a in actions && ResolveAll(env, a.fields).Success? && RunFailureAction(a.name) in env.failing ==>
              LogFailureActionError(a.name, EffectFailed(RunFailureAction(a.name))) in FailureActionsRun(env, actions)
    decreases |actions|
  {
    if actions != [] {
      var init, last := actions[..|actions| - 1], actions[|actions| - 1];
      FailureActionsRunOnlyListed(env, init);
      assert actions == init + [last];
      assert forall a :: a in actions <==> a in init || a == last;
    }
  }

  /** After a failed run every failure action whose fields resolve is run, even when
      other actions threw. */
  lemma FailureActionsIsolated(env: Env, ns: Option<string>, a: FailureAction)
    requires a in env.failureActions && ResolveAll(env, a.fields).Success?
    ensures RunFailureAction(a.name) in Teardown(env, true, ns).effects
  {
    FailureActionsAllAttempted(env, env.failureActions);
    TeardownMembers(env, true, ns);
  }

  // ---- order of the cleanup steps

  /** The undeployment hooks run after the application was deleted, and only once that
      has succeeded. */
  lemma HooksRunAfterUndeploy(env: Env, failed: bool, ns: Option<string>)
    ensures UndeployPhase(env, failed).err.None? ==>
              forall e :: e in HookPhase(env, CustomizeApplicationUndeployment).effects ==>
                e in Teardown(env, failed, ns).effects
    ensures UndeployPhase(env, failed).err.None? ==>
              Teardown(env, failed, ns).effects[..|TeardownLogs(env, failed)| + |UndeployPhase(env, failed).effects|]
              == TeardownLogs(env, failed) + UndeployPhase(env, failed).effects
  {
    TeardownMembers(env, failed, ns);
    var rest := Then(HookPhase(env, CustomizeApplicationUndeployment),
                     DropPhase(ns, env.retainOnFailure, failed, env.failing)).effects;
    if UndeployPhase(env, failed).err.None? {
      assert Teardown(env, failed, ns).effects
          == (TeardownLogs(env, failed) + UndeployPhase(env, failed).effects) + rest;
    }
  }

  // ---- scenarios

  /** Retaining the resources of a failed run with an ephemeral namespace deletes nothing
      and reports the namespace kept. */
  lemma RetainedEphemeralScenario(env: Env, n: string)
    requires env.ephemeralNamespaces && env.retainOnFailure
    ensures forall e :: e in Teardown(env, true, Some(n)).effects ==> !e.DeleteManifest? && !e.DeleteProject?
    ensures LogNotDeletingResources !in Teardown(env, true, Some(n)).effects
    ensures PreDrop(env, true).err.None? ==> LogKeepingNamespace(n) in Teardown(env, true, Some(n)).effects
  {
    TeardownMembers(env, true, Some(n));
    TeardownLogsKinds(env, true);
    FailureActionsRunKinds(env, env.failureActions);
    HookPhaseKinds(env, CustomizeApplicationUndeployment);
  }

  /** Retaining the resources of a failed run in a fixed namespace announces it and
      deletes nothing. */
  lemma RetainedFixedScenario(env: Env, ns: Option<string>)
    requires !env.ephemeralNamespaces && env.retainOnFailure && ns == StoredNamespace(env)
    ensures LogNotDeletingResources in Teardown(env, true, ns).effects
    ensures forall e :: e in Teardown(env, true, ns).effects ==> !e.DeleteManifest? && !e.DeleteProject?
  {
    TeardownMembers(env, true, ns);
    TeardownLogsKinds(env, true);
    HookPhaseKinds(env, CustomizeApplicationUndeployment);
  }

  /** A manually deployed application is never deleted. */
  lemma ManualScenario(env: Env, failed: bool, ns: Option<string>)
    requires env.manualDeployment
    ensures forall e :: e in Teardown(env, failed, ns).effects ==> !e.DeleteManifest?
  {
    UndeployRule(env, failed, ns);
  }
}
