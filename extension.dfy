/**
 * `VichUploaderExtension::load` and the two registration steps it ends with,
 * acting on the parts of the service container and of the filesystem they touch.
 */
module Extension {
  import opened Wrappers
  import opened PhpStrings
  import opened PhpArrays
  import opened Errors
  import opened Configuration
  import opened Driver
  import opened MetadataDirectories
  import opened CacheStrategy

  /** The filesystem as the extension sees it: which paths are directories and which are files. */
  class FileSystem {
    var dirs: set<string>
    var files: set<string>

    constructor (dirs: set<string>, files: set<string>)
      ensures this.dirs == dirs && this.files == files
    {
      this.dirs := dirs;
      this.files := files;
    }

    /** `file_exists($path)`. */
    predicate FileExists(path: string)
      reads this
    {
      path in dirs || path in files
    }

    /**
     * `@mkdir($path, 0777, true)`. Whether the system lets it succeed is not
     * modelled and is given as `succeeds`.
     */
    method MakeDirectory(path: string, succeeds: bool) returns (ok: bool)
      modifies this
      ensures ok == succeeds
      ensures dirs == if ok then old(dirs) + {path} else old(dirs)
      ensures files == old(files)
    {
      ok := succeeds;
      if ok {
        dirs := dirs + {path};
      }
    }
  }

  /** The parameters, definition arguments, tags and alias the extension reads or writes. */
  class Container {
    /** `kernel.bundles`. */
    const bundles: Bundles
    /** The parameter bag's `resolveValue` (placeholders such as `%kernel.cache_dir%`). */
    const resolveValue: string -> string
    /** `vich_uploader.mappings`. */
    var mappings: Option<map<string, MappingConfig>>
    /** `vich_uploader.storage_service`. */
    var storageService: Option<string>
    /** `vich_uploader.adapter.class`. */
    var adapterClass: Option<string>
    /** The tags of `vich_uploader.listener.uploader`. */
    var listenerTags: seq<string>
    /** Argument 0 of `vich_uploader.metadata.file_locator`. */
    var locatorDirectories: Directories
    /** Argument 0 of `vich_uploader.metadata.cache.file_cache`. */
    var fileCacheDir: string
    /** The alias `vich_uploader.metadata.cache`, None once removed. */
    var cacheAlias: Option<Alias>

    /** A container holding the service definitions of the bundle's XML files. */
    constructor (bundles: Bundles, resolveValue: string -> string, locatorDirectories: Directories, fileCacheDir: string, cacheAlias: Option<Alias>)
      ensures this.bundles == bundles && this.resolveValue == resolveValue
      ensures mappings == None && storageService == None && adapterClass == None && listenerTags == []
      ensures this.locatorDirectories == locatorDirectories
      ensures this.fileCacheDir == fileCacheDir && this.cacheAlias == cacheAlias
    {
      this.bundles := bundles;
      this.resolveValue := resolveValue;
      mappings := None;
      storageService := None;
      adapterClass := None;
      listenerTags := [];
      this.locatorDirectories := locatorDirectories;
      this.fileCacheDir := fileCacheDir;
      this.cacheAlias := cacheAlias;
    }
  }

  /** `VichUploaderExtension`; its tag map is the one field it changes. */
  class UploaderExtension {
    var tagMap: map<string, string>

    ghost predicate Valid()
      reads this
    {
      && tagMap.Keys == AdapterMap.Keys
      && tagMap[Orm] == OrmSubscriberTag
      && tagMap[MongoDb] in {MongoDbSubscriberTag, LegacyMongoDbSubscriberTag}
    }

    constructor ()
      ensures Valid() && tagMap == InitialTagMap
    {
      tagMap := InitialTagMap;
    }

    /**
     * `load`, from the processed configuration on. The framework version test
     * rewrites the MongoDB tag before anything else; an unknown driver then
     * stops the load with nothing registered. Otherwise the mappings (empty when
     * absent), the storage service, the driver's adapter class and its listener
     * tag are registered, then the metadata directories and the cache strategy;
     * either of those may still fail, leaving what was registered before it.
     */
    method Load(config: Config, container: Container, fs: FileSystem, versionId: Option<int>, mkdirSucceeds: bool)
      returns (outcome: Outcome<Error>)
      requires Valid()
      modifies this, container, fs
      ensures Valid()
      ensures tagMap == TagMapFor(old(tagMap), versionId)
      ensures SelectDriver(config.dbDriver, tagMap).Err? ==>
        && outcome == Fail(SelectDriver(config.dbDriver, tagMap).error)
        && unchanged(container)
        && unchanged(fs)
      ensures SelectDriver(config.dbDriver, tagMap).Ok? ==>
        var setup := SelectDriver(config.dbDriver, tagMap).value;
        && container.mappings == Some(config.mappings.GetOr(map[]))
        && container.storageService == Some(config.storage)
        && container.adapterClass == Some(setup.adapterClass)
        && container.listenerTags == old(container.listenerTags) + [setup.subscriberTag]
      ensures SelectDriver(config.dbDriver, tagMap).Ok? ==>
        match ResolveDirectories(container.bundles, old(fs.dirs), config.metadata.autoDetection, config.metadata.directories)
        case Err(e) =>
          && outcome == Fail(e)
          && container.locatorDirectories == old(container.locatorDirectories)
          && container.fileCacheDir == old(container.fileCacheDir)
          && container.cacheAlias == old(container.cacheAlias)
          && unchanged(fs)
        case Ok(directories) =>
          && container.locatorDirectories == directories
          && fs.files == old(fs.files)
          && (outcome, CacheState(container.cacheAlias, container.fileCacheDir, fs.dirs))
             == ApplyCacheStrategy(CacheState(old(container.cacheAlias), old(container.fileCacheDir), old(fs.dirs)),
                                   old(fs.files), container.resolveValue,
                                   config.metadata.cache, config.metadata.fileCacheDir, mkdirSucceeds)
    {
      AdjustForKernel(versionId);
      var selected := SelectDriver(config.dbDriver, tagMap);
      if selected.Err? {
        return Fail(selected.error);
      }
      RegisterDriver(container, config, selected.value);

      ghost var resolved := ResolveDirectories(container.bundles, fs.dirs, config.metadata.autoDetection, config.metadata.directories);
      outcome := RegisterMetadataDirectories(container, fs, config.metadata);
      if outcome.Fail? {
        return;
      }
      assert resolved == Ok(container.locatorDirectories);
      outcome := RegisterCacheStrategy(container, fs, config.metadata, mkdirSucceeds);
    }

    /** The framework version test: before Symfony 2.1 the MongoDB listener tag had its old name. */
    method AdjustForKernel(versionId: Option<int>)
      requires Valid()
      modifies this
      ensures Valid()
      ensures tagMap == TagMapFor(old(tagMap), versionId)
    {
      if IsLegacyKernel(versionId) {
        tagMap := tagMap[MongoDb := LegacyMongoDbSubscriberTag];
      }
    }

    /**
     * The driver-dependent part of `load`: the mappings (empty when absent), the
     * storage service, the driver's adapter class and its listener tag.
     */
    method RegisterDriver(container: Container, config: Config, setup: DriverSetup)
      modifies container`mappings, container`storageService, container`adapterClass, container`listenerTags
      ensures container.mappings == Some(config.mappings.GetOr(map[]))
      ensures container.storageService == Some(config.storage)
      ensures container.adapterClass == Some(setup.adapterClass)
      ensures container.listenerTags == old(container.listenerTags) + [setup.subscriberTag]
    {
      var mappings := if config.mappings.Some? then config.mappings.value else map[];
      container.mappings := Some(mappings);
      container.storageService := Some(config.storage);
      container.adapterClass := Some(setup.adapterClass);
      container.listenerTags := container.listenerTags + [setup.subscriberTag];
    }

    /** `registerMetadataDirectories`: the locator receives the resolved map. */
    method RegisterMetadataDirectories(container: Container, fs: FileSystem, metadata: MetadataConfig)
      returns (outcome: Outcome<Error>)
      modifies container`locatorDirectories
      ensures match ResolveDirectories(container.bundles, fs.dirs, metadata.autoDetection, metadata.directories)
        case Ok(directories) => outcome == Pass && container.locatorDirectories == directories
        case Err(e) => outcome == Fail(e) && container.locatorDirectories == old(container.locatorDirectories)
    {
      var directories := BuildDirectories(container.bundles, fs.dirs, metadata);
      match directories
      case Err(e) =>
        outcome := Fail(e);
      case Ok(d) =>
        container.locatorDirectories := d;
        outcome := Pass;
    }

    /**
     * `registerCacheStrategy`, with the service branch as intended: the missing
     * import of `Alias` on line 149 is taken as fixed.
     */
    method RegisterCacheStrategy(container: Container, fs: FileSystem, metadata: MetadataConfig, mkdirSucceeds: bool)
      returns (outcome: Outcome<Error>)
      modifies container`cacheAlias, container`fileCacheDir, fs
      ensures fs.files == old(fs.files)
      ensures (outcome, CacheState(container.cacheAlias, container.fileCacheDir, fs.dirs))
        == ApplyCacheStrategy(CacheState(old(container.cacheAlias), old(container.fileCacheDir), old(fs.dirs)),
                              old(fs.files), container.resolveValue, metadata.cache, metadata.fileCacheDir, mkdirSucceeds)
    {
      outcome := Pass;
      if metadata.cache == NoneSetting {
        container.cacheAlias := None;
      } else if metadata.cache == FileSetting {
        container.fileCacheDir := metadata.fileCacheDir;
        var dir := container.resolveValue(metadata.fileCacheDir);
        if !fs.FileExists(dir) {
          var ok := fs.MakeDirectory(dir, mkdirSucceeds);
          if !ok {
            outcome := Fail(CacheDirectoryNotCreated(dir));
          }
        }
      } else {
        container.cacheAlias := Some(Alias(metadata.cache, false));
      }
    }
  }
}
