/**
  Properties of `runPublicStaticVoidMethods`: which methods are invoked, with which
  arguments, and when the hooks run to completion.
*/
module HookProperties {
  import opened Outcomes
  import opened Model
  import opened Injection
  import opened Plan

  /** What the list of hooks emits is what `a` emitted, then, when `a` completed, `b`'s. */
  lemma ThenMembers(a: Run, b: Run)
    ensures forall e :: e in Then(a, b).effects <==> e in a.effects || (a.err.None? && e in b.effects)
  {
  }

  /** The hooks complete exactly when every annotated method is public, static and void,
      its arguments resolve, and its invocation does not throw. */
  lemma {:induction false} HookRunSucceeds(env: Env, kind: HookKind, ms: seq<HookMethod>)
    ensures HookRun(env, kind, ms).err.None? <==>
              forall m :: m in ms && kind in m.annotations ==>
                IsPublicStaticVoid(m) && ResolveAll(env, m.parameters).Success?
                && InvokeHook(kind, m.declaringClass, m.name, ResolveAll(env, m.parameters).value) !in env.failing
    decreases |ms|
  {
    if ms != [] {
      var init, last := ms[..|ms| - 1], ms[|ms| - 1];
      HookRunSucceeds(env, kind, init);
      assert ms == init + [last];
      assert forall m :: m in ms <==> m in init || m == last;
    }
  }

  /** Every invocation is of an annotated public static void method, with its arguments
      resolved in parameter order. */
  lemma {:induction false} HookRunInvocations(env: Env, kind: HookKind, ms: seq<HookMethod>)
    ensures forall e :: e in HookRun(env, kind, ms).effects ==>
              exists m :: m in ms && kind in m.annotations && IsPublicStaticVoid(m)
                && ResolveAll(env, m.parameters).Success?
                && e == InvokeHook(kind, m.declaringClass, m.name, ResolveAll(env, m.parameters).value)
    decreases |ms|
  {
    if ms != [] {
      var init, last := ms[..|ms| - 1], ms[|ms| - 1];
      HookRunInvocations(env, kind, init);
      ThenMembers(HookRun(env, kind, init), HookStep(env, kind, last));
      assert last in ms;
      assert forall m :: m in init ==> m in ms;
    }
  }

  /** When the hooks complete, every annotated method was invoked with its resolved
      arguments. */
  lemma {:induction false} HookRunInvokesAll(env: Env, kind: HookKind, ms: seq<HookMethod>)
    requires HookRun(env, kind, ms).err.None?
    ensures forall m :: m in ms && kind in m.annotations ==>
              ResolveAll(env, m.parameters).Success?
              && InvokeHook(kind, m.declaringClass, m.name, ResolveAll(env, m.parameters).value)
                 in HookRun(env, kind, ms).effects
    decreases |ms|
  {
    if ms != [] {
      var init, last := ms[..|ms| - 1], ms[|ms| - 1];
      HookRunInvokesAll(env, kind, init);
      ThenMembers(HookRun(env, kind, init), HookStep(env, kind, last));
      assert ms == init + [last];
      assert forall m :: m in ms <==> m in init || m == last;
    }
  }

  /** An annotated method that is not public, static and void makes the hooks throw; it is
      never invoked, since only conforming methods are. */
  lemma BadSignatureThrows(env: Env, kind: HookKind, ms: seq<HookMethod>, m: HookMethod)
    requires m in ms && kind in m.annotations && !IsPublicStaticVoid(m)
    ensures HookRun(env, kind, ms).err.Some?
  {
    HookRunSucceeds(env, kind, ms);
  }

  /** Only the public methods of the test class are considered: the hooks of a kind complete
      exactly when every public method annotated with it conforms, resolves and runs.  An
      annotated method that is not public is ignored, whatever its signature. */
  lemma HookPhaseSucceeds(env: Env, kind: HookKind)
    ensures HookPhase(env, kind).err.None? <==>
              forall m :: m in env.testMethods && m.isPublic && kind in m.annotations ==>
                IsPublicStaticVoid(m) && ResolveAll(env, m.parameters).Success?
                && InvokeHook(kind, m.declaringClass, m.name, ResolveAll(env, m.parameters).value) !in env.failing
  {
    PublicMethodsMembers(env.testMethods);
    HookRunSucceeds(env, kind, PublicMethods(env.testMethods));
  }

  /** A method that is not public is never invoked. */
  lemma HookPhaseSkipsNonPublic(env: Env, kind: HookKind)
    ensures forall e :: e in HookPhase(env, kind).effects ==>
              e.InvokeHook? && e.kind == kind
              && exists m :: m in env.testMethods && m.isPublic && m.name == e.methodName
                              && m.declaringClass == e.declaringClass
  {
    PublicMethodsMembers(env.testMethods);
    HookRunInvocations(env, kind, PublicMethods(env.testMethods));
  }
}
