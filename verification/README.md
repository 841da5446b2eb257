# BetterStartupHook, modelled in Dafny

BetterStartupHook is a .NET startup hook that loads further "startup hooks". It reads a `;`-separated list of
assembly paths. It loads each assembly into its own `SharedAssemblyLoadContext`, whose dependency resolver is rooted
at that assembly. It then looks for a type `BetterStartupHook` with a static, parameterless, `void` method
`Initialize` and invokes it. A failing hook is reported and the pass moves on to the next entry.

This project models that pipeline. Reflection and the runtime are replaced by explicit data.

- `Reflection` (`reflection.dfy`): a type is a sequence of method descriptors: name, static or not, parameter
  count, `void` or not, and what its body does (returns or faults). An assembly maps type names to types.
  `GetMethod` models both `Type.GetMethod` calls the hook makes. It returns `null` (`NoMatch`), one method
  (`Match`) or `AmbiguousMatchException` (`Ambiguous`). Which of the three happens is characterised by the method
  table: no method qualifies, exactly one index qualifies, or two distinct indices qualify.
- `Loader` (`loader.dfy`): `SharedAssemblyLoadContext`. The constructor chooses the resolver's root; `Load`
  consults only this context's resolver. The runtime services are fields of a `Host` record:
  - `File.Exists`;
  - the executing assembly's location;
  - what an `AssemblyDependencyResolver` rooted at a path maps names to;
  - what `LoadFromAssemblyPath` yields;
  - what the runtime does when `Load` returns null.
- `Config` (`config.dfy`): `Split(';', RemoveEmptyEntries)` and its inverse `Join`.
- `Hooks` (`hooks.dfy`): `ExecuteStartupHook` (with the method search in `FindAndInvoke`), one loop iteration
  (`RunEntry`) and the pass `TryExecuteStartupHooks`. A run records its outcome and the reflective calls it made,
  in order: type lookup, exact lookup, by-name lookup, invocation.
- `Scenarios` (`scenarios.dfy`): the OpenTelemetry example module and small hook lists as concrete instances.

`ExecuteStartupHook` has six outcomes:
- `TypeNotFound`;
- `AmbiguousMatch`;
- `MissingMethod`;
- `BadSignature`;
- `Initialized` (the entry point ran and returned);
- `InitializationFault` (the entry point ran and faulted).

Every outcome except `Initialized` is an exception that the pass catches. `AmbiguousMatch` arises only when two
static parameterless `Initialize` methods exist. C# allows this only with a generic overload
(`Initialize()` next to `Initialize<T>()`; generic methods are not modelled otherwise), and IL also allows it by
return type. The exact lookup at line 20 is
outside the inner `try`, so that exception propagates as it is.

Where the documented behaviour and the code disagree, the model follows the code:
- One or several wrongly shaped `Initialize` methods raise `ArgumentException` (`BadSignature`). Only the complete
  absence of the name raises `MissingMethodException` (`MissingMethod`). The two cases are not one
  "missing entry point" failure.
- A path that does not exist only roots the resolver at the hook's own location. The pass still asks for the
  entry's file name through that context.
- A load that throws is not contained (see Findings).

## Model

| member | source | states |
|---|---|---|
| `Reflection.GetMethod` | BetterStartupHook/StartupHook.cs:20-36 | null exactly when no method qualifies; one method exactly when a unique method qualifies, and it is that method; ambiguous exactly when two distinct methods qualify |
| `Reflection.OneCandidate` | BetterStartupHook/StartupHook.cs:32-33 | the search yields a single candidate exactly when one index of the method table qualifies, and that candidate is the method at that index |
| `Hooks.FindAndInvoke` | BetterStartupHook/StartupHook.cs:19-61 | invoked exactly when a unique static parameterless `Initialize` exists and is `void`. `MissingMethod` exactly when no method has the name. `BadSignature` exactly when the exact search finds nothing but the name exists (one or several: ambiguity swallowed), or the one found is not `void`. `AmbiguousMatch` exactly when two static parameterless ones exist. The by-name search is made only after the exact one found nothing. Invocation is the last call, happens once, and only of a static, parameterless, `void` `Initialize` of the type |
| `Hooks.ExecuteStartupHook` | BetterStartupHook/StartupHook.cs:13-61 | the type lookup comes first. `TypeNotFound` exactly when the assembly has no `BetterStartupHook` type, and then no method lookup or invocation follows. Whenever invocation is reached, the invoked method is a static, parameterless, `void` `Initialize` of that type, and its invocation is among the calls made |
| `Hooks.RunEntry` | BetterStartupHook/StartupHook.cs:71-86 | each entry gets a fresh context. The "could not find" diagnostic is printed exactly when the entry is not an existing file. Anything invoked conforms to the module contract |
| `Hooks.RunEntryCases` | BetterStartupHook/StartupHook.cs:72-86 | a null load gives `CouldNotLoad` and nothing is invoked. A throwing load gives `LoadFaulted`. A loaded assembly gives exactly the run of `ExecuteStartupHook` on it |
| `Hooks.RunEntries` | BetterStartupHook/StartupHook.cs:69-87 | as written: one step per attempted entry; the attempted entries are a prefix of the list, and step i is entry i's own step. Only a load exception stops the pass early, and it is then the last step |
| `Hooks.ConfiguredEntries` | BetterStartupHook/StartupHook.cs:66-69 | an absent or empty value lists nothing; any other value lists exactly its split entries, each non-empty and without `;` |
| `Hooks.InvalidNameEndsPass` | BetterStartupHook/StartupHook.cs:72 | as written, an entry whose file name is empty or not a valid assembly name makes `new AssemblyName` throw outside the `try`: its step is that exception and no later entry is attempted |
| `Hooks.TryExecuteStartupHooks` | BetterStartupHook/StartupHook.cs:64-89 | no attempt for an absent or empty value. The entries attempted are the configured ones, in order, up to the first load that throws. Only a load exception ends the pass early, and it is then the last step |
| `Hooks.InvokedEntryPointsConform` | BetterStartupHook/StartupHook.cs:56-61 | in every step of either pass, an invoked entry point is a static, parameterless, `void` `Initialize` |
| `Hooks.EveryEntryAttempted` | BetterStartupHook/StartupHook.cs:69-86 | when no load throws, every configured entry is attempted exactly once, in configured order, whatever the hooks do |
| `Hooks.LoadFaultEndsPass` | BetterStartupHook/StartupHook.cs:72-80 | as written, an entry whose load throws is the last one attempted |
| `Hooks.RunEntriesContained` | BetterStartupHook/StartupHook.cs:69-86 | corrected loop: exactly one step per entry, step i being entry i's own step |
| `Hooks.TryExecuteStartupHooksContained` | BetterStartupHook/StartupHook.cs:64-89 | corrected pass: the attempted entries are exactly the configured ones, in order, whatever the loads and hooks do |
| `Hooks.ContainedAgreesWithoutLoadFaults` | BetterStartupHook/StartupHook.cs:72-86 | when no load throws, the corrected loop and the loop as written produce the same steps |
| `Config.Split` | BetterStartupHook/StartupHook.cs:69 | every entry is non-empty and free of `;`, and the entries hold all other characters of the value, in order |
| `Config.SplitSeparator` | BetterStartupHook/StartupHook.cs:69 | every `;` is an entry boundary: the entries of `s;t` are those of `s` followed by those of `t`, so leading, trailing and doubled separators add no entry |
| `Config.SplitRun` | BetterStartupHook/StartupHook.cs:69 | a `;`-free run is a single entry, and an empty one is no entry |
| `Config.SplitJoin` | BetterStartupHook/StartupHook.cs:69 | splitting a `;`-joined list of such entries gives back exactly that list |
| `Config.SplitNothing` | BetterStartupHook/StartupHook.cs:67-69 | the split lists nothing exactly when the value consists of separators only |
| `Loader.NewContext` | BetterStartupHook/SharedAssemblyLoadContext.cs:13-26 | the resolver is built from the chosen root, which is the executing location or an existing file. A null or empty path gives the executing location. An existing path gives that path. A missing path is reported and gives the executing location. Construction never fails |
| `Loader.Load` | BetterStartupHook/SharedAssemblyLoadContext.cs:28-39 | null exactly when the resolver has no entry for the name; a loaded assembly, or an exception, comes from the resolved path exactly |
| `Loader.LoadFromAssemblyName` | BetterStartupHook/StartupHook.cs:71-72 | a name the context resolves is loaded by the context's own `Load` and is never null; only an unresolved name reaches the runtime's fallback |
| `Loader.LoadSeesOnlyOwnResolver` | BetterStartupHook/SharedAssemblyLoadContext.cs:25-33 | two contexts whose resolvers agree on a name load the same thing for it, whatever else they hold |
| `Loader.ContextsResolveIndependently` | BetterStartupHook/SharedAssemblyLoadContext.cs:13-33 | contexts built for two existing modules are rooted at them, and each loads a shared dependency name from its own resolver's path |
| `Scenarios.OpenTelemetryModuleIsInvoked` | Examples/EnableOpenTelemetryTracing/StartupHook.cs:5-7 | the example module's `Initialize` is the one invoked |
| `Scenarios.InstanceInitializeIsBadSignature` | BetterStartupHook/StartupHook.cs:34-53 | an instance `Initialize` alone gives `ArgumentException` |
| `Scenarios.OverloadedInitializeIsBadSignature` | BetterStartupHook/StartupHook.cs:43-53 | two wrongly shaped overloads give `ArgumentException`, the ambiguity being swallowed |
| `Scenarios.NoInitializeIsMissingMethod` | BetterStartupHook/StartupHook.cs:34-41 | no method named `Initialize` gives `MissingMethodException` |
| `Scenarios.NullLoadSkipsOnlyThatEntry` | BetterStartupHook/StartupHook.cs:72-86 | for `A;B;C` where `B`'s load gives null: `A` runs, `B` is reported, `C` runs, in that order |
| `Scenarios.LoadExceptionSkipsLaterEntries` | BetterStartupHook/StartupHook.cs:72-80 | for `A;B;C` where `B`'s load throws: as written, `A` runs and `B` faults; `C` is never attempted |
| `Scenarios.ContainedPassRunsLaterEntries` | BetterStartupHook/StartupHook.cs:72-86 | the corrected pass on the same input still runs `C` |

## Left out

- Reflection details are not modelled. This covers visibility, inherited members and `FlattenHierarchy`, generic
  methods, and how the default binder treats `params` arrays and optional parameters. A type is the method table
  reflection would report for it.
- The environment-variable read is not modelled. The configured value is a parameter (`Option<string>`, `None` for
  an unset variable).
- Console output is not modelled. Each diagnostic is recorded as a step kind or a flag instead: "Could not find",
  "Couldn't load", and "Error in startuphook" with the exception text.
- `Debug.Assert` is not modelled as a runtime check. Its conditions are postconditions of `ExecuteStartupHook`.
- Exception objects, their messages and stack traces are not modelled. Each exception is one outcome constructor.
- `AssemblyDependencyResolver` is abstract. This covers deps.json probing, and the constructor's own failures on a
  malformed component are not modelled. The resolver is a name-to-path map chosen by the host for a root.
- `LoadFromAssemblyPath` is abstract: an image or an exception chosen by the host per path.
- The runtime's fallback when `Load` returns null is abstract: the default context, then the `Resolving` event.
  The host gives the result per name.
- `Loader.LoadFromAssemblyName` may give null (`NotFound`) only because the fallback is abstract. The real runtime
  never returns null here; it throws `FileNotFoundException` when nothing resolves the name. So `CouldNotLoad` and
  `Scenarios.NullLoadSkipsOnlyThatEntry` describe the source's null branch (lines 74-75), not a runtime behaviour.
- `Path.GetFileNameWithoutExtension` is an uninterpreted function of the runtime record. Which non-empty names the
  `AssemblyName` constructor accepts is a predicate of the runtime record too; the empty name is rejected
  explicitly.
- An `Initialize` that never returns is not modelled. A body either returns or faults, so a hung hook, which
  blocks the pass, is outside the model.
- The hook's own `Initialize` (StartupHook.cs lines 91-94) is not modelled separately. It only calls
  `TryExecuteStartupHooks`.
- The OpenTelemetry builder calls in the example module are not modelled. Its body is abstracted to "returns".

## Findings

| source | as written | input that shows it | evidently intended | confidence | as-written member | corrected member |
|---|---|---|---|---|---|---|
| BetterStartupHook/StartupHook.cs:72-86 | The load call at line 72 is outside the `try`. `LoadFromAssemblyName` throws (`FileNotFoundException`) when no context resolves the name, so the exception leaves `TryExecuteStartupHooks` and no later entry is attempted. | `A;B;C` where `B`'s resolver maps nothing and the runtime throws on the miss: `A` runs, `B` faults, `C` is never tried | a module that cannot be loaded is reported and skipped, as the `Couldn't load` branch does for null, and every entry is attempted | medium, not executed | `Scenarios.LoadExceptionSkipsLaterEntries` | `Scenarios.ContainedPassRunsLaterEntries` |

`Hooks.TryExecuteStartupHooks` and `Hooks.LoadFaultEndsPass` state the behaviour as written for every input.
`Hooks.InvalidNameEndsPass` states the same for an entry whose file name the `AssemblyName` constructor rejects,
which also throws at line 72 outside the `try`.
`Hooks.TryExecuteStartupHooksContained` is the corrected pass: load and run share one failure boundary. It attempts
every configured entry in order. `Hooks.ContainedAgreesWithoutLoadFaults` shows that the two passes agree whenever
no load throws.
