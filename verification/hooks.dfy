/**
  `StartupHook`: the entry-point classifier `ExecuteStartupHook` and the pass
  `TryExecuteStartupHooks` that loads and runs every configured hook.

  Reflection is the descriptor view of `Reflection`; loading goes through the
  `SharedAssemblyLoadContext` model of `Loader`. A run records, besides its
  outcome, the reflective calls it made, so that "no lookup happens" and
  "invoked exactly once" are statements about the model.
*/
module Hooks {
  import opened Options
  import opened Reflection
  import opened Loader
  import opened Config

  const StartupHookTypeName: string := "BetterStartupHook"
  const InitializeMethodName: string := "Initialize"

  /**
    How one `ExecuteStartupHook` call ends. Every outcome except `Initialized`
    is an exception leaving the call:
    - `TypeNotFound`: `TypeLoadException` from `GetType(..., throwOnError: true)`;
    - `AmbiguousMatch`: `AmbiguousMatchException` from the exact lookup, which is not inside the inner `try`;
    - `MissingMethod`: `MissingMethodException`, no method of the entry point's name at all;
    - `BadSignature`: `ArgumentException("Couldn't find startuphook")`;
    - `InitializationFault`: the module's `Initialize` faulted (`TargetInvocationException`).
  */
  datatype HookOutcome =
    | TypeNotFound
    | AmbiguousMatch
    | MissingMethod
    | BadSignature
    | Initialized(entry: MethodInfo)
    | InitializationFault(entry: MethodInfo, detail: string)
  {
    predicate Invoked()
    {
      Initialized? || InitializationFault?
    }
  }

  /**
    A reflective operation, in the order performed. `Invoke(callee)` is
    `callee.Invoke(null, null)`: a static call, no arguments.
  */
  datatype ReflectionCall = TypeLookup | ExactLookup | NameLookup | Invoke(callee: MethodInfo)

  datatype Execution = Execution(outcome: HookOutcome, calls: seq<ReflectionCall>)

  /** The module contract: a static, parameterless `void Initialize`. */
  predicate Conforming(m: MethodInfo)
  {
    m.name == InitializeMethodName && m.isStatic && m.paramCount == 0 && m.returnsVoid
  }

  predicate HasHookType(asm: Assembly)
  {
    StartupHookTypeName in asm.types
  }

  function HookMethods(asm: Assembly): seq<MethodInfo>
    requires HasHookType(asm)
  {
    asm.types[StartupHookTypeName]
  }

  /** Invoking the selected entry point runs the module's own code once. */
  function InvokeEntryPoint(m: MethodInfo): HookOutcome
  {
    match m.behaviour
    case Returns => Initialized(m)
    case Faults(d) => InitializationFault(m, d)
  }

  /**
    The method search and invocation on the hook type's methods `ms`. The
    outcome is classified by the method table alone: invoked exactly when one
    static parameterless `Initialize` exists and it is `void`; `MissingMethod`
    exactly when no method has that name; `BadSignature` when only wrongly
    shaped ones exist (one or several: an ambiguity there is swallowed) or the
    one found is not `void`.
  */
  function FindAndInvoke(ms: seq<MethodInfo>): (r: Execution)
    // the lookups are made in order; the by-name search only after the exact one failed
    ensures |r.calls| >= 2 && r.calls[0] == TypeLookup && r.calls[1] == ExactLookup
    ensures NameLookup in r.calls <==> NoneBinds(ms, StaticParameterless, InitializeMethodName)
    // invocation happens at most once, last, and only of a conforming entry point
    ensures r.outcome.Invoked() <==> exists k :: 0 <= k < |r.calls| && r.calls[k].Invoke?
    ensures r.outcome.Invoked() ==>
              && r.calls[|r.calls| - 1] == Invoke(r.outcome.entry)
              && forall k :: 0 <= k < |r.calls| - 1 ==> !r.calls[k].Invoke?
    ensures r.outcome.Invoked() ==> Conforming(r.outcome.entry) && r.outcome.entry in ms
    ensures r.outcome.Initialized? ==> r.outcome.entry.behaviour == Returns
    ensures r.outcome.InitializationFault? ==> r.outcome.entry.behaviour == Faults(r.outcome.detail)
    // the classification, in terms of the method table
    ensures !r.outcome.TypeNotFound?
    ensures r.outcome.Invoked() <==>
              exists i :: BindsUniquely(ms, StaticParameterless, InitializeMethodName, i) && ms[i].returnsVoid
    ensures r.outcome.MissingMethod? <==> NoneBinds(ms, AnyShape, InitializeMethodName)
    ensures r.outcome.AmbiguousMatch? <==> BindsTwice(ms, StaticParameterless, InitializeMethodName)
    ensures r.outcome.BadSignature? <==>
              || (&& NoneBinds(ms, StaticParameterless, InitializeMethodName)
                  && !NoneBinds(ms, AnyShape, InitializeMethodName))
              || exists i :: BindsUniquely(ms, StaticParameterless, InitializeMethodName, i) && !ms[i].returnsVoid
  {
    match GetMethod(ms, StaticParameterless, InitializeMethodName)
    case Ambiguous =>
      NoneBindsAnyShape(ms);
      Execution(AmbiguousMatch, [TypeLookup, ExactLookup])
    case NoMatch =>
      // The by-name search only refines the error; one or several hits end the same way.
      var calls := [TypeLookup, ExactLookup, NameLookup];
      if GetMethod(ms, AnyShape, InitializeMethodName).NoMatch? then
        Execution(MissingMethod, calls)
      else
        Execution(BadSignature, calls)
    case Match(m) =>
      NoneBindsAnyShape(ms);
      if !m.returnsVoid then
        Execution(BadSignature, [TypeLookup, ExactLookup])
      else
        var calls := [TypeLookup, ExactLookup, Invoke(m)];
        assert calls[2].Invoke?;
        Execution(InvokeEntryPoint(m), calls)
  }

  /** A method the exact search accepts is also one the by-name search accepts. */
  lemma NoneBindsAnyShape(ms: seq<MethodInfo>)
    ensures NoneBinds(ms, AnyShape, InitializeMethodName) ==> NoneBinds(ms, StaticParameterless, InitializeMethodName)
  {
  }

  /**
    `ExecuteStartupHook`: find type `BetterStartupHook` in `asm`, then its
    entry point, and invoke it. A missing type ends the call before any method
    lookup.
  */
  function ExecuteStartupHook(asm: Assembly): (r: Execution)
    ensures |r.calls| >= 1 && r.calls[0] == TypeLookup
    ensures r.outcome.TypeNotFound? <==> !HasHookType(asm)
    ensures r.outcome.TypeNotFound? ==> |r.calls| == 1
    ensures r.outcome.Invoked() ==>
              && HasHookType(asm)
              && Conforming(r.outcome.entry)
              && r.outcome.entry in HookMethods(asm)
              && Invoke(r.outcome.entry) in r.calls
  {
    if !HasHookType(asm) then
      Execution(TypeNotFound, [TypeLookup])
    else
      FindAndInvoke(HookMethods(asm))
  }

  /**
    The runtime a pass runs against: the loader's host,
    `Path.GetFileNameWithoutExtension`, and whether `new AssemblyName` accepts
    a non-empty display name.
  */
  datatype Runtime = Runtime(host: Host, fileNameOf: string -> string, nameParses: string -> bool)

  /** What `new AssemblyName` throws for an empty name, and for a malformed one. */
  const EmptyNameFault: string := "ArgumentException"
  const MalformedNameFault: string := "FileLoadException"

  /** What happened to one configured entry. */
  datatype EntryResult =
    | CouldNotLoad                  // the load gave null: "Couldn't load" is printed
    | Executed(run: Execution)      // the hook ran; an exception from it was caught and printed
    | LoadFaulted(detail: string)   // the load itself threw

  /** One entry's step; `rootMissing` records the context's "Could not find" diagnostic. */
  datatype Step = Step(entry: string, rootMissing: bool, result: EntryResult)
  {
    predicate Invoked()
    {
      result.Executed? && result.run.outcome.Invoked()
    }
  }

  /**
    Loading an entry: a fresh context built for the entry, asked for the
    entry's file name. The name is made into an `AssemblyName` first, which
    throws for an empty or malformed name before any context is consulted.
  */
  function LoadEntry(entry: string, rt: Runtime): LoadResult
  {
    var ctx := NewContext(Some(entry), rt.host).context;
    var name := rt.fileNameOf(entry);
    if name == "" then Threw(EmptyNameFault)
    else if !rt.nameParses(name) then Threw(MalformedNameFault)
    else LoadFromAssemblyName(ctx, name, rt.host)
  }

  /** One iteration of the loop: construct a context, load, and run the hook if there is one. */
  function RunEntry(entry: string, rt: Runtime): (s: Step)
    ensures s.entry == entry
    ensures entry != "" ==> (s.rootMissing <==> entry !in rt.host.files)
    ensures s.Invoked() ==> Conforming(s.result.run.outcome.entry)
  {
    var built := NewContext(Some(entry), rt.host);
    var result :=
      match LoadEntry(entry, rt)
      case NotFound => CouldNotLoad
      case Threw(d) => LoadFaulted(d)
      case Loaded(asm) => Executed(ExecuteStartupHook(asm));
    Step(entry, built.reportedMissing, result)
  }

  /**
    The three ways an iteration goes: a null load is reported and nothing is
    invoked; a load that throws is recorded; a loaded assembly is run.
  */
  lemma RunEntryCases(entry: string, rt: Runtime)
    ensures RunEntry(entry, rt).result.CouldNotLoad? <==> LoadEntry(entry, rt).NotFound?
    ensures RunEntry(entry, rt).result.LoadFaulted? <==> LoadEntry(entry, rt).Threw?
    ensures RunEntry(entry, rt).result.Executed? <==>
              && LoadEntry(entry, rt).Loaded?
              && RunEntry(entry, rt).result.run == ExecuteStartupHook(LoadEntry(entry, rt).assembly)
    ensures RunEntry(entry, rt).result.CouldNotLoad? ==> !RunEntry(entry, rt).Invoked()
  {
  }

  function Entries(trace: seq<Step>): (r: seq<string>)
    ensures |r| == |trace|
    ensures forall i :: 0 <= i < |trace| ==> r[i] == trace[i].entry
  {
    if trace == [] then [] else [trace[0].entry] + Entries(trace[1..])
  }

  /**
    The `foreach` as written: the `try` covers only `ExecuteStartupHook`, so a
    hook's exception is contained but a load that throws ends the pass.
    Each entry's step depends on that entry alone.
  */
  function RunEntries(entries: seq<string>, rt: Runtime): (trace: seq<Step>)
    ensures |trace| <= |entries|
    ensures forall i :: 0 <= i < |trace| ==> trace[i] == RunEntry(entries[i], rt)
    ensures forall i :: 0 <= i < |trace| - 1 ==> !trace[i].result.LoadFaulted?
    ensures |trace| < |entries| ==> |trace| > 0 && trace[|trace| - 1].result.LoadFaulted?
  {
    if entries == [] then []
    else
      var s := RunEntry(entries[0], rt);
      if s.result.LoadFaulted? then [s]
      else [s] + RunEntries(entries[1..], rt)
  }

  /** The configured list: nothing when the value is absent or empty, otherwise its entries. */
  function ConfiguredEntries(config: Option<string>): (r: seq<string>)
    ensures !Given(config) ==> r == []
    ensures forall i :: 0 <= i < |r| ==> IsEntry(r[i])
    ensures Given(config) ==> r == Split(config.value)
  {
    if config.None? || config.value == "" then [] else Split(config.value)
  }

  /**
    `TryExecuteStartupHooks` as written. The entries attempted are a prefix of
    the configured list in configured order, one step each, and no step ends
    the pass except a load that throws.
  */
  function TryExecuteStartupHooks(config: Option<string>, rt: Runtime): (trace: seq<Step>)
    ensures !Given(config) ==> trace == []
    ensures |trace| <= |ConfiguredEntries(config)|
    ensures Entries(trace) == ConfiguredEntries(config)[..|trace|]
    ensures forall i :: 0 <= i < |trace| - 1 ==> !trace[i].result.LoadFaulted?
    ensures |trace| < |ConfiguredEntries(config)| ==> |trace| > 0 && trace[|trace| - 1].result.LoadFaulted?
  {
    var entries := ConfiguredEntries(config);
    var trace := RunEntries(entries, rt);
    assert forall i :: 0 <= i < |trace| ==> trace[i].entry == entries[i];
    EntriesOfSteps(trace, entries);
    trace
  }

  lemma EntriesOfSteps(trace: seq<Step>, entries: seq<string>)
    requires |trace| <= |entries|
    requires forall i :: 0 <= i < |trace| ==> trace[i].entry == entries[i]
    ensures Entries(trace) == entries[..|trace|]
  {
  }

  /** Whatever the configuration, every entry point the pass invokes is a static, parameterless, `void` `Initialize`. */
  lemma InvokedEntryPointsConform(config: Option<string>, rt: Runtime)
    ensures forall s :: s in TryExecuteStartupHooks(config, rt) && s.Invoked() ==>
              Conforming(s.result.run.outcome.entry)
    ensures forall s :: s in TryExecuteStartupHooksContained(config, rt) && s.Invoked() ==>
              Conforming(s.result.run.outcome.entry)
  {
    var entries := ConfiguredEntries(config);
    forall s | s in RunEntries(entries, rt) ensures s.Invoked() ==> Conforming(s.result.run.outcome.entry) {
      var i :| 0 <= i < |RunEntries(entries, rt)| && RunEntries(entries, rt)[i] == s;
      assert s == RunEntry(entries[i], rt);
    }
    forall s | s in RunEntriesContained(entries, rt) ensures s.Invoked() ==> Conforming(s.result.run.outcome.entry) {
      var i :| 0 <= i < |RunEntriesContained(entries, rt)| && RunEntriesContained(entries, rt)[i] == s;
      assert s == RunEntry(entries[i], rt);
    }
  }

  /**
    When no load throws, every configured entry is attempted exactly once, in
    order, whatever the hooks themselves do.
  */
  lemma EveryEntryAttempted(config: Option<string>, rt: Runtime)
    requires forall e :: e in ConfiguredEntries(config) ==> !LoadEntry(e, rt).Threw?
    ensures Entries(TryExecuteStartupHooks(config, rt)) == ConfiguredEntries(config)
  {
    forall e | e in ConfiguredEntries(config) ensures !RunEntry(e, rt).result.LoadFaulted? {
      RunEntryCases(e, rt);
    }
  }

  /**
    As written, an entry whose load throws is the last one attempted: no
    later entry is loaded or run.
  */
  lemma LoadFaultEndsPass(config: Option<string>, rt: Runtime, k: nat)
    requires k < |ConfiguredEntries(config)|
    requires LoadEntry(ConfiguredEntries(config)[k], rt).Threw?
    ensures |TryExecuteStartupHooks(config, rt)| <= k + 1
  {
    RunEntryCases(ConfiguredEntries(config)[k], rt);
  }

  /**
    As written, an entry whose file name is empty (`hooks/`, `.dll`) or is not
    a valid assembly name ends the pass: the `AssemblyName` constructor throws
    outside the `try`, and no later entry is attempted.
  */
  lemma InvalidNameEndsPass(config: Option<string>, rt: Runtime, k: nat)
    requires k < |ConfiguredEntries(config)|
    requires var name := rt.fileNameOf(ConfiguredEntries(config)[k]); name == "" || !rt.nameParses(name)
    ensures |TryExecuteStartupHooks(config, rt)| <= k + 1
    ensures RunEntry(ConfiguredEntries(config)[k], rt).result
            == LoadFaulted(if rt.fileNameOf(ConfiguredEntries(config)[k]) == "" then EmptyNameFault else MalformedNameFault)
  {
    LoadFaultEndsPass(config, rt, k);
  }

  /**
    The contained pass: every entry is loaded and run inside its own failure
    boundary, so a load that throws is recorded and the pass goes on.
  */
  function RunEntriesContained(entries: seq<string>, rt: Runtime): (trace: seq<Step>)
    ensures |trace| == |entries|
    ensures forall i :: 0 <= i < |trace| ==> trace[i] == RunEntry(entries[i], rt)
  {
    if entries == [] then [] else [RunEntry(entries[0], rt)] + RunEntriesContained(entries[1..], rt)
  }

  /** `TryExecuteStartupHooks` with load failures contained as the "Couldn't load" branch intends. */
  function TryExecuteStartupHooksContained(config: Option<string>, rt: Runtime): (trace: seq<Step>)
    ensures Entries(trace) == ConfiguredEntries(config)
  {
    var entries := ConfiguredEntries(config);
    var trace := RunEntriesContained(entries, rt);
    assert forall i :: 0 <= i < |trace| ==> trace[i].entry == entries[i];
    EntriesOfSteps(trace, entries);
    assert entries[..|trace|] == entries;
    trace
  }

  /** When no load throws, the contained pass and the pass as written produce the same steps. */
  lemma {:induction false} ContainedAgreesWithoutLoadFaults(entries: seq<string>, rt: Runtime)
    requires forall e :: e in entries ==> !LoadEntry(e, rt).Threw?
    ensures RunEntries(entries, rt) == RunEntriesContained(entries, rt)
  {
    if entries != [] {
      assert entries[0] in entries;
      RunEntryCases(entries[0], rt);
      assert forall e :: e in entries[1..] ==> e in entries;
      ContainedAgreesWithoutLoadFaults(entries[1..], rt);
    }
  }

}
