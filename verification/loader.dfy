/**
  `SharedAssemblyLoadContext`: an isolated load context whose dependency
  resolver is rooted at the module it was built for.

  The runtime services the context relies on are fields of `Host`: the file
  system's existence test, the location of the hook's own assembly, what an
  `AssemblyDependencyResolver` rooted at a path maps assembly names to, what
  `LoadFromAssemblyPath` yields for a path, and what the runtime falls back to
  when the context's `Load` returns null.
*/
module Loader {
  import opened Options
  import opened Reflection

  /** What `LoadFromAssemblyPath` yields: an image, or an exception. */
  datatype PathLoad = Image(image: Assembly) | BadImage(reason: string)

  /** An assembly load: a handle, `null`, or an exception that propagates. */
  datatype LoadResult = Loaded(assembly: Assembly) | NotFound | Threw(detail: string)

  datatype Host = Host(
    files: set<string>,
    executingLocation: string,
    manifest: string -> map<string, string>,
    loadFromPath: string -> PathLoad,
    fallback: string -> LoadResult)

  /** A load context: the root its resolver was built from, and that resolver's name-to-path table. */
  datatype Context = Context(root: string, resolver: map<string, string>)

  /** A constructed context, and whether construction printed the "Could not find" diagnostic. */
  datatype Construction = Construction(context: Context, reportedMissing: bool)

  /** The context's resolver is the one the host builds for the context's root. */
  predicate RootedAt(ctx: Context, host: Host)
  {
    ctx.resolver == host.manifest(ctx.root)
  }

  predicate Given(path: Option<string>)
  {
    path.Some? && path.value != ""
  }

  /**
    The constructor. A null or empty path roots the resolver at the hook's own
    location; a path naming an existing file roots it there; any other path is
    reported and the hook's own location is used instead. Construction never fails.
  */
  function NewContext(assemblyPath: Option<string>, host: Host): (c: Construction)
    ensures RootedAt(c.context, host)
    ensures c.context.root == host.executingLocation || c.context.root in host.files
    ensures c.reportedMissing <==> Given(assemblyPath) && assemblyPath.value !in host.files
    ensures !Given(assemblyPath) ==> c.context.root == host.executingLocation
    ensures Given(assemblyPath) && assemblyPath.value in host.files ==> c.context.root == assemblyPath.value
    ensures c.reportedMissing ==> c.context.root == host.executingLocation
  {
    var location := host.executingLocation;
    var (root, reported) :=
      if assemblyPath.Some? && assemblyPath.value != "" then
        if assemblyPath.value in host.files then (assemblyPath.value, false)
        else (location, true)
      else (location, false);
    Construction(Context(root, host.manifest(root)), reported)
  }

  /**
    The `Load` override: resolve the name with this context's resolver; on a
    hit load from exactly the resolved path, on a miss return null.
  */
  function Load(ctx: Context, name: string, host: Host): (r: LoadResult)
    ensures r.NotFound? <==> name !in ctx.resolver
    ensures r.Loaded? ==> host.loadFromPath(ctx.resolver[name]) == Image(r.assembly)
    ensures r.Threw? ==> host.loadFromPath(ctx.resolver[name]) == BadImage(r.detail)
  {
    if name in ctx.resolver then
      match host.loadFromPath(ctx.resolver[name])
      case Image(a) => Loaded(a)
      case BadImage(why) => Threw(why)
    else NotFound
  }

  /**
    `LoadFromAssemblyName` on a fresh context: the context's own `Load` is
    consulted first, and only a null from it lets the runtime fall back.
  */
  function LoadFromAssemblyName(ctx: Context, name: string, host: Host): (r: LoadResult)
    ensures name in ctx.resolver ==> r == Load(ctx, name, host) && !r.NotFound?
    ensures name !in ctx.resolver ==> r == host.fallback(name)
  {
    var local := Load(ctx, name, host);
    if local.NotFound? then host.fallback(name) else local
  }

  /**
    What a context loads for a name depends on nothing but the entry its
    resolver has for that name: two contexts that agree there agree on the
    load, whatever else their resolvers hold.
  */
  lemma LoadSeesOnlyOwnResolver(c1: Context, c2: Context, name: string, host: Host)
    requires name in c1.resolver <==> name in c2.resolver
    requires name in c1.resolver ==> c1.resolver[name] == c2.resolver[name]
    ensures Load(c1, name, host) == Load(c2, name, host)
    ensures LoadFromAssemblyName(c1, name, host) == LoadFromAssemblyName(c2, name, host)
  {
  }

  /**
    Two modules that share a dependency name but resolve it to different
    files each load their own copy: each context's hit comes from the path its
    own resolver gives.
  */
  lemma ContextsResolveIndependently(p1: string, p2: string, name: string, host: Host)
    requires p1 != "" && p2 != ""
    requires p1 in host.files && p2 in host.files
    requires name in host.manifest(p1) && name in host.manifest(p2)
    ensures var c1 := NewContext(Some(p1), host).context;
            var c2 := NewContext(Some(p2), host).context;
            && c1.root == p1 && c2.root == p2
            && LoadFromAssemblyName(c1, name, host) == Load(c1, name, host)
            && LoadFromAssemblyName(c2, name, host) == Load(c2, name, host)
            && (Load(c1, name, host).Loaded? ==>
                  host.loadFromPath(host.manifest(p1)[name]) == Image(Load(c1, name, host).assembly))
            && (Load(c2, name, host).Loaded? ==>
                  host.loadFromPath(host.manifest(p2)[name]) == Image(Load(c2, name, host).assembly))
  {
  }

}
