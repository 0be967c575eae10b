/**
 * The processed `vich_uploader` configuration the extension receives, with the
 * `metadata` defaults its configuration tree declares (DependencyInjection/Configuration.php).
 * Merging several configuration files and validating the tree are done by the
 * framework before the extension runs and are not modelled.
 */
module Configuration {
  import opened Wrappers

  /** One entry of `metadata.directories`. */
  datatype DirectoryConfig = DirectoryConfig(path: string, namespacePrefix: string)

  /** The `metadata` node. */
  datatype MetadataConfig = MetadataConfig(
    cache: string,
    fileCacheDir: string,
    autoDetection: bool,
    directories: seq<DirectoryConfig>)

  /** One entry of `mappings`, passed through to the container unchanged. */
  datatype MappingConfig = MappingConfig(
    uriPrefix: string,
    uploadDestination: string,
    namer: Option<string>,
    directoryNamer: Option<string>,
    deleteOnRemove: bool,
    deleteOnUpdate: bool,
    injectOnLoad: bool)

  datatype Config = Config(
    dbDriver: string,
    storage: string,
    twig: bool,
    gaufrette: bool,
    metadata: MetadataConfig,
    mappings: Option<map<string, MappingConfig>>)

  const DefaultCache := "file"
  const DefaultFileCacheDir := "%kernel.cache_dir%/vich_uploader"

  /** The `metadata` node when the configuration leaves it out. */
  function DefaultMetadata(directories: seq<DirectoryConfig>): MetadataConfig {
    MetadataConfig(DefaultCache, DefaultFileCacheDir, true, directories)
  }
}
