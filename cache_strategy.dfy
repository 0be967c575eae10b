/**
 * The three-way choice of `VichUploaderExtension::registerCacheStrategy`:
 * `metadata.cache` is `none`, `file`, or the id of a cache service.
 */
module CacheStrategy {
  import opened Wrappers
  import opened Errors
  import opened Configuration

  const NoneSetting := "none"
  const FileSetting := "file"

  datatype Strategy = NoCache | FileCache | ServiceCache(service: string)

  /** The `metadata.cache` value that names a strategy. */
  function Setting(s: Strategy): string {
    match s
    case NoCache => NoneSetting
    case FileCache => FileSetting
    case ServiceCache(id) => id
  }

  /**
   * The tests on lines 134, 136 and 148: `none` and `file` are matched exactly
   * (case matters); every other value is taken as a service id, kept verbatim.
   */
  function Select(setting: string): (s: Strategy)
    ensures Setting(s) == setting
    ensures s == NoCache <==> setting == NoneSetting
    ensures s == FileCache <==> setting == FileSetting
  {
    if setting == NoneSetting then NoCache
    else if setting == FileSetting then FileCache
    else ServiceCache(setting)
  }

  /** A container alias: the service it points to and whether it is public. */
  datatype Alias = Alias(id: string, isPublic: bool)

  /**
   * What registerCacheStrategy reads and writes: the alias
   * `vich_uploader.metadata.cache` (None once removed), argument 0 of the
   * `vich_uploader.metadata.cache.file_cache` definition, and the set of
   * existing directories.
   */
  datatype CacheState = CacheState(alias: Option<Alias>, fileCacheArg: string, dirs: set<string>)

  /**
   * registerCacheStrategy with the service branch as intended. `none` removes
   * the alias and a service id becomes a private alias; neither touches the
   * filesystem. `file` records the unresolved directory setting; the resolved
   * directory is created only when nothing exists at that path (`file_exists`,
   * so an existing regular file also counts), and when creation fails the step
   * fails naming it. Whether `mkdir` succeeds is given as `mkdirSucceeds`.
   */
  function ApplyCacheStrategy(s: CacheState, files: set<string>, resolveValue: string -> string,
                              cache: string, fileCacheDir: string, mkdirSucceeds: bool): (r: (Outcome<Error>, CacheState))
    ensures cache != FileSetting ==> r.0 == Pass && r.1.dirs == s.dirs && r.1.fileCacheArg == s.fileCacheArg
    ensures cache == NoneSetting ==> r.1.alias == None
    ensures Select(cache).ServiceCache? ==> r.1.alias == Some(Alias(cache, false))
    ensures cache == FileSetting ==> r.1.fileCacheArg == fileCacheDir && r.1.alias == s.alias
    ensures cache == FileSetting ==>
      var dir := resolveValue(fileCacheDir);
      && s.dirs <= r.1.dirs <= s.dirs + {dir}
      && (r.0 == Pass <==> dir in r.1.dirs || dir in files)
      && (r.0 != Pass ==> r.0 == Fail(CacheDirectoryNotCreated(dir)))
      && (r.1.dirs != s.dirs <==> dir !in s.dirs && dir !in files && mkdirSucceeds)
  {
    match Select(cache)
    case NoCache => (Pass, s.(alias := None))
    case ServiceCache(id) => (Pass, s.(alias := Some(Alias(id, false))))
    case FileCache =>
      var s' := s.(fileCacheArg := fileCacheDir);
      var dir := resolveValue(fileCacheDir);
      if dir in s.dirs || dir in files then (Pass, s')
      else if mkdirSucceeds then (Pass, s'.(dirs := s.dirs + {dir}))
      else (Fail(CacheDirectoryNotCreated(dir)), s')
  }

  /**
   * The class line 149 instantiates. The file imports no `Alias`, so PHP
   * resolves the name in the file's own namespace, where no such class exists.
   */
  const UnimportedAlias := "Vich\\UploaderBundle\\DependencyInjection\\Alias"

  /** Select as line 149 behaves: the service branch stops with a missing class. */
  function SelectAsWritten(setting: string): (r: Result<Strategy, Error>)
    ensures r.Ok? ==> r.value == Select(setting)
    ensures r.Err? <==> Select(setting).ServiceCache?
    ensures r.Err? ==> r.error == ClassNotFound(UnimportedAlias)
  {
    var s := Select(setting);
    if s.ServiceCache? then Err(ClassNotFound(UnimportedAlias)) else Ok(s)
  }

  /**
   * Any service id, e.g. `redis_cache_service`, makes the code as written fail,
   * where the intended behaviour aliases the cache to that service.
   */
  lemma MissingAliasImport(service: string)
    requires service != NoneSetting && service != FileSetting
    ensures SelectAsWritten(service) == Err(ClassNotFound(UnimportedAlias))
    ensures Select(service) == ServiceCache(service)
  {
  }

  /**
   * With the `metadata` node left at its defaults, the file cache is chosen: the
   * definition receives `%kernel.cache_dir%/vich_uploader`, the alias is kept,
   * and the step passes exactly when that directory, once resolved, exists or
   * could be created.
   */
  lemma DefaultFileCache(s: CacheState, files: set<string>, resolveValue: string -> string,
                         entries: seq<DirectoryConfig>, mkdirSucceeds: bool)
    ensures var md := DefaultMetadata(entries);
      var r := ApplyCacheStrategy(s, files, resolveValue, md.cache, md.fileCacheDir, mkdirSucceeds);
      var dir := resolveValue("%kernel.cache_dir%/vich_uploader");
      && Select(md.cache) == FileCache
      && r.1.fileCacheArg == "%kernel.cache_dir%/vich_uploader"
      && r.1.alias == s.alias
      && (r.0 == Pass <==> dir in s.dirs || dir in files || mkdirSucceeds)
  {
  }
}
