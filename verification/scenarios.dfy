/**
  Concrete instances: the OpenTelemetry example module, and a three-entry
  hook list in which the middle module cannot be loaded.
*/
module Scenarios {
  import opened Options
  import opened Reflection
  import opened Loader
  import opened Config
  import opened Hooks

  /** `Examples/EnableOpenTelemetryTracing`: an internal `BetterStartupHook` with `public static void Initialize()`. */
  const OpenTelemetryModule: Assembly :=
    Assembly(map[StartupHookTypeName := [MethodInfo(InitializeMethodName, true, 0, true, Returns)]])

  lemma OpenTelemetryModuleIsInvoked()
    ensures ExecuteStartupHook(OpenTelemetryModule).outcome
            == Initialized(MethodInfo(InitializeMethodName, true, 0, true, Returns))
  {
    var ms := HookMethods(OpenTelemetryModule);
    assert BindsUniquely(ms, StaticParameterless, InitializeMethodName, 0);
  }

  /** A module whose only `Initialize` is an instance method: found by name only, so `BadSignature`. */
  lemma InstanceInitializeIsBadSignature()
    ensures ExecuteStartupHook(Assembly(map[StartupHookTypeName :=
              [MethodInfo(InitializeMethodName, false, 0, true, Returns)]])).outcome == BadSignature
  {
    var ms := [MethodInfo(InitializeMethodName, false, 0, true, Returns)];
    assert Binds(AnyShape, InitializeMethodName, ms[0]);
  }

  /**
    Two wrongly shaped overloads make the by-name search ambiguous; the
    ambiguity is swallowed and the call fails as for a single wrong one.
  */
  lemma OverloadedInitializeIsBadSignature()
    ensures ExecuteStartupHook(Assembly(map[StartupHookTypeName :=
              [MethodInfo(InitializeMethodName, true, 1, true, Returns),
               MethodInfo(InitializeMethodName, true, 2, true, Returns)]])).outcome == BadSignature
  {
    var ms := [MethodInfo(InitializeMethodName, true, 1, true, Returns),
               MethodInfo(InitializeMethodName, true, 2, true, Returns)];
    assert Binds(AnyShape, InitializeMethodName, ms[0]);
  }

  /** A hook type without any `Initialize`: `MissingMethod`. */
  lemma NoInitializeIsMissingMethod()
    ensures ExecuteStartupHook(Assembly(map[StartupHookTypeName :=
              [MethodInfo("Init", true, 0, true, Returns)]])).outcome == MissingMethod
  {
  }

  /**
    Modules `A`, `B` and `C` exist; the resolvers of `A` and `C` map their
    module to its file, which holds `hook`; `B`'s resolver maps nothing. `missing` is what the runtime
    does when a context's `Load` gives null.
  */
  function ThreeModules(missing: LoadResult, hook: Assembly): Runtime
  {
    Runtime(
      Host({"A", "B", "C"}, "BetterStartupHook",
           root => if root == "B" then map[] else map[root := root],
           path => Image(hook),
           name => missing),
      entry => entry,
      name => true)
  }

  const ThreeEntries: string := "A;B;C"

  lemma ThreeEntriesSplit()
    ensures Split(ThreeEntries) == ["A", "B", "C"]
  {
    assert ThreeEntries == Join(["A", "B", "C"]);
    SplitJoin(["A", "B", "C"]);
  }

  function Ran(entry: string, hook: Assembly): Step
  {
    Step(entry, false, Executed(ExecuteStartupHook(hook)))
  }

  /** `A` and `C` resolve through their own context and run their hook. */
  lemma ResolvedModuleRuns(entry: string, missing: LoadResult, hook: Assembly)
    requires entry == "A" || entry == "C"
    ensures RunEntry(entry, ThreeModules(missing, hook)) == Ran(entry, hook)
  {
    var rt := ThreeModules(missing, hook);
    var ctx := NewContext(Some(entry), rt.host).context;
    assert ctx.resolver == map[entry := entry];
    assert LoadEntry(entry, rt) == Loaded(hook);
    RunEntryCases(entry, rt);
  }

  /** `B` resolves nowhere, so its step is whatever the runtime does on a miss. */
  lemma UnresolvedModuleStep(missing: LoadResult, hook: Assembly)
    requires !missing.Loaded?
    ensures RunEntry("B", ThreeModules(missing, hook))
            == Step("B", false, if missing.NotFound? then CouldNotLoad else LoadFaulted(missing.detail))
  {
    var rt := ThreeModules(missing, hook);
    var ctx := NewContext(Some("B"), rt.host).context;
    assert ctx.resolver == map[];
    assert LoadEntry("B", rt) == missing;
    RunEntryCases("B", rt);
  }

  /** The pass as written over `A;B;C`, given what the last two entries' steps are. */
  lemma ThreeStepPass(rt: Runtime, a: Step, b: Step, c: Step)
    requires RunEntry("A", rt) == a && RunEntry("B", rt) == b && RunEntry("C", rt) == c
    requires !a.result.LoadFaulted?
    ensures b.result.LoadFaulted? ==> TryExecuteStartupHooks(Some(ThreeEntries), rt) == [a, b]
    ensures !b.result.LoadFaulted? && !c.result.LoadFaulted? ==>
              TryExecuteStartupHooks(Some(ThreeEntries), rt) == [a, b, c]
  {
    ThreeEntriesSplit();
    assert ConfiguredEntries(Some(ThreeEntries)) == ["A", "B", "C"];
    assert ["A", "B", "C"][1..] == ["B", "C"] && ["B", "C"][1..] == ["C"] && ["C"][1..] == [];
    assert RunEntries(["A", "B", "C"], rt) == [a] + RunEntries(["B", "C"], rt);
    if !b.result.LoadFaulted? {
      assert RunEntries(["B", "C"], rt) == [b] + RunEntries(["C"], rt);
    }
  }

  /**
    When `B`'s load gives null, the pass runs `A`, reports `B` and still runs
    `C`, in that order.
  */
  lemma NullLoadSkipsOnlyThatEntry(hook: Assembly)
    ensures TryExecuteStartupHooks(Some(ThreeEntries), ThreeModules(NotFound, hook))
            == [Ran("A", hook), Step("B", false, CouldNotLoad), Ran("C", hook)]
  {
    var rt := ThreeModules(NotFound, hook);
    ResolvedModuleRuns("A", NotFound, hook);
    UnresolvedModuleStep(NotFound, hook);
    ResolvedModuleRuns("C", NotFound, hook);
    ThreeStepPass(rt, Ran("A", hook), Step("B", false, CouldNotLoad), Ran("C", hook));
  }

  /**
    The runtime throws when no context resolves `B`. As written, the exception
    from the load escapes the pass and `C` is never attempted.
  */
  lemma LoadExceptionSkipsLaterEntries(hook: Assembly)
    ensures TryExecuteStartupHooks(Some(ThreeEntries), ThreeModules(Threw("FileNotFoundException"), hook))
            == [Ran("A", hook), Step("B", false, LoadFaulted("FileNotFoundException"))]
  {
    var missing := Threw("FileNotFoundException");
    var rt := ThreeModules(missing, hook);
    ResolvedModuleRuns("A", missing, hook);
    UnresolvedModuleStep(missing, hook);
    ResolvedModuleRuns("C", missing, hook);
    ThreeStepPass(rt, Ran("A", hook), Step("B", false, LoadFaulted("FileNotFoundException")), Ran("C", hook));
  }

  /** With load failures contained, the same configuration still runs `C`. */
  lemma ContainedPassRunsLaterEntries(hook: Assembly)
    ensures TryExecuteStartupHooksContained(Some(ThreeEntries), ThreeModules(Threw("FileNotFoundException"), hook))
            == [Ran("A", hook), Step("B", false, LoadFaulted("FileNotFoundException")), Ran("C", hook)]
  {
    var missing := Threw("FileNotFoundException");
    var rt := ThreeModules(missing, hook);
    ResolvedModuleRuns("A", missing, hook);
    UnresolvedModuleStep(missing, hook);
    ResolvedModuleRuns("C", missing, hook);
    ThreeEntriesSplit();
    assert ConfiguredEntries(Some(ThreeEntries)) == ["A", "B", "C"];
    var trace := TryExecuteStartupHooksContained(Some(ThreeEntries), rt);
    assert |trace| == 3;
    assert trace[0] == RunEntry("A", rt) && trace[1] == RunEntry("B", rt) && trace[2] == RunEntry("C", rt);
  }

}
