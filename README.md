# VichUploaderBundle configuration loading, in Dafny

This project models how VichUploaderBundle's dependency-injection extension,
`VichUploaderExtension`, turns the processed `vich_uploader` configuration
into container state. It covers three steps:

- **Driver selection** (`load`). The version test rewrites the MongoDB
  listener tag on Symfony before 2.1. `db_driver` is lower-cased and checked
  against the tag map. An accepted driver picks the adapter class and the tag
  added to the upload listener. The mappings (an empty map when absent) and
  the storage service are stored as container parameters.
- **Metadata directories** (`registerMetadataDirectories`). This builds the
  map from namespace prefix to metadata directory. Bundles whose
  `Resources/config/vich_uploader` directory exists are detected first, when
  auto-detection is on. The configured `metadata.directories` entries are
  then written over them in order:
  - each path has `\` turned into `/` and trailing slashes trimmed;
  - `@Bundle` is expanded to the bundle's directory;
  - an unknown bundle aborts the load with a message listing the registered
    bundles.
- **Cache strategy** (`registerCacheStrategy`). `none` removes the cache
  alias. `file` records the cache directory and creates it when missing. Any
  other value is meant to alias the cache, privately, to that service. As
  written, line 149 instead stops with a class-not-found error, because
  `Alias` is not imported (see Findings); the main model follows the
  intended behaviour.

Files, one module each:

| file | content |
|---|---|
| `wrappers.dfy` | `Option`, `Result` and `Outcome` |
| `php_strings.dfy` | The PHP string built-ins the extension calls: `str_replace`, `rtrim`, `strtolower`, `strpos`, `substr` and `implode`. |
| `php_arrays.dfy` | A PHP array used as a dictionary: an ordered list of pairs where assigning to a key overwrites it in place. |
| `errors.dfy` | The exceptions and their messages. |
| `configuration.dfy` | The processed configuration record, with the `metadata` defaults of `DependencyInjection/Configuration.php`. |
| `driver.dfy` | The tag and adapter maps, the version test and driver validation. |
| `metadata_directories.dfy` | Path normalisation, `@Bundle` expansion, both loops of `registerMetadataDirectories` (functions, plus a method with loops) and their properties. |
| `cache_strategy.dfy` | The three-way cache choice, as a function over a small state. |
| `extension.dfy` | Three classes: the extension (whose `tagMap` field `load` rewrites), the container, and the filesystem. |

Modelling decisions:

- **Container.** The parts of the container the extension writes are fields
  of a `Container` object. `kernel.bundles` is an ordered list of bundle
  records. Each record holds the namespace and base directory that reflection
  would yield.
- **Filesystem.** It is two sets: existing directories (`is_dir`) and other
  existing files, which `file_exists` also sees.
- **Inputs given as parameters.** These are:
  - `Kernel::VERSION_ID`, with None when it is undefined;
  - the parameter bag's placeholder resolution (`resolveValue`), as a function;
  - whether `mkdir` succeeds, as a boolean.
- **PHP version.** The built-ins and messages are those of PHP 8.2: `substr`
  returns `""` rather than `false`, `strtolower` changes ASCII letters only,
  reading past the end of a string warns, and `new` on a missing class throws
  an `Error` reading `Class "X" not found`.
- **Failures.** An exception becomes `Fail(error)` or `Err(error)`, carrying
  the exception's data. `Error.Message` rebuilds the exact message text.
- **Empty path (line 112).** A path that trims to the empty string, such as
  `/`, has its offset 0 read. PHP yields `""` for that read, with a warning.
  The model therefore treats it as an ordinary path and stores `""` under the
  entry's key.

The model follows the code, including where it does less than one might
expect:

- **Namespace prefix.** Only trailing `\` are stripped from a namespace
  prefix (line 123). A trailing `/` is kept.
- **Paths are not made absolute.** A relative path is stored as given, after
  trimming.
- **`\` in bundle directories.** For an `@Bundle` path, `\` is replaced only
  in the configured part. The bundle's own directory is used as reflection
  reports it, so the no-backslash guarantee is stated only for paths without
  `@`.
In two places the main model follows the evidently intended behaviour
instead, and a separate as-written member keeps the code's own behaviour
(see Findings):

- **Bare `@Bundle`.** In the code as written, a bare `@Bundle` (or
  `@Bundle/`) does not resolve to the bundle root: line 113 looks up the
  bundle name minus its last character. The main model uses the corrected
  bundle name, so `ResolvePath`, `ResolveDirectories`, `BuildDirectories`,
  `RegisterMetadataDirectories` and `Load` resolve `@Acme` and `@Acme/` to
  the root of bundle `Acme`. `ResolvePathAsWritten` is the as-written path,
  and `TrailingSlashFinding` states the difference.
- **Service cache.** Line 149 creates an `Alias` that the file never imports,
  so a service id makes the code as written fail with a class-not-found
  error. `ApplyCacheStrategy`, `RegisterCacheStrategy` and `Load` make the
  cache alias a private alias to that service instead. `SelectAsWritten` is
  the as-written choice, and `MissingAliasImport` states the difference.

## Model

| member | source | states |
|---|---|---|
| PhpStrings.ReplaceChar | DependencyInjection/VichUploaderExtension.php:110 | `str_replace('\\', '/', …)` keeps the length, and with distinct characters no searched character is left. |
| PhpStrings.ReplaceCharPointwise | DependencyInjection/VichUploaderExtension.php:110 | Each occurrence of the searched character becomes the replacement; every other character is unchanged. |
| PhpStrings.ReplaceCharAppend | DependencyInjection/VichUploaderExtension.php:110 | Replacing in a concatenation is replacing in each part. |
| PhpStrings.RTrim | DependencyInjection/VichUploaderExtension.php:110-123 | `rtrim` returns a prefix of its input that does not end in a trimmed character. |
| PhpStrings.RTrimDropped | DependencyInjection/VichUploaderExtension.php:110-123 | Everything `rtrim` removes is a trimmed character, so its result is the longest such prefix. |
| PhpStrings.RTrimUnique | DependencyInjection/VichUploaderExtension.php:110-123 | Those two properties determine `rtrim`'s result uniquely. |
| PhpStrings.RTrimAppendTrimmed | DependencyInjection/VichUploaderExtension.php:110-123 | Trimming with `/` first (line 110) and then with `\/` (line 123) is the same as the second trim alone. |
| PhpStrings.RTrimKeepsHead | DependencyInjection/VichUploaderExtension.php:123 | `rtrim` never reaches into a head that does not end in a trimmed character. |
| PhpStrings.ToLower | DependencyInjection/VichUploaderExtension.php:53 | `strtolower` keeps the length and lower-cases each character (ASCII letters). |
| PhpStrings.IndexOf | DependencyInjection/VichUploaderExtension.php:113 | `strpos` returns the first position of the character, or none (`false`) exactly when it does not occur. |
| PhpStrings.Substr | DependencyInjection/VichUploaderExtension.php:113-120 | `substr` returns the part of the string starting at `start`. Its length is `length` capped at the end of the string; a negative `length` leaves that many characters off the end, and nothing is left when that would end before `start`. |
| PhpStrings.Join | DependencyInjection/VichUploaderExtension.php:116 | `implode`; JoinContainsParts states that every part occurs in the result. |
| PhpStrings.JoinContainsParts | DependencyInjection/VichUploaderExtension.php:116 | `implode` keeps every part it joins. |
| PhpArrays.Keys | DependencyInjection/VichUploaderExtension.php:116 | `array_keys` lists the keys in order. |
| PhpArrays.Get | DependencyInjection/VichUploaderExtension.php:115 | A lookup finds a value exactly when `isset` holds for the key. |
| PhpArrays.GetValue | DependencyInjection/VichUploaderExtension.php:119 | The value found is the one paired with the key's first occurrence. |
| PhpArrays.Put | DependencyInjection/VichUploaderExtension.php:105-123 | `$m[$k] = $v`; PutGet, PutGetOther, PutKeys and PutUnique state its meaning. |
| PhpArrays.PutGet | DependencyInjection/VichUploaderExtension.php:105-123 | After `$m[$k] = $v`, `$m[$k]` is `$v`. |
| PhpArrays.PutGetOther | DependencyInjection/VichUploaderExtension.php:105-123 | `$m[$k] = $v` leaves every other key's value unchanged. |
| PhpArrays.PutKeys | DependencyInjection/VichUploaderExtension.php:105-123 | An existing key keeps its position; a new key is appended. |
| PhpArrays.PutUnique | DependencyInjection/VichUploaderExtension.php:105-123 | Keys stay distinct. |
| Errors.Error.Message | DependencyInjection/VichUploaderExtension.php:55-145 | Each message names the offending value. The unknown-bundle message also names every registered bundle. |
| Driver.IsLegacyKernel | DependencyInjection/VichUploaderExtension.php:45 | The kernel is legacy when `Kernel::VERSION_ID` is undefined or below 20100. |
| Driver.TagMapFor | DependencyInjection/VichUploaderExtension.php:44-47 | Before Symfony 2.1, or with no version constant, the `mongodb` tag becomes `doctrine.odm.mongodb.event_subscriber`. Otherwise the tag map is unchanged. Other keys are never touched. |
| Driver.ValidateDriver | DependencyInjection/VichUploaderExtension.php:53-59 | The driver is accepted iff its lower-cased form is a known key. The accepted value is the lower-cased form. A refusal names the lower-cased form. |
| Driver.SelectDriver | DependencyInjection/VichUploaderExtension.php:53-84 | Selection succeeds iff the lower-cased driver is a key of the tag map; the setup then carries that key, and the adapter class and the subscriber tag are looked up with it. Otherwise the error names the lower-cased driver. |
| Driver.DriverAccepted | DependencyInjection/VichUploaderExtension.php:53-59 | `db_driver` is accepted iff it equals `orm` or `mongodb` ignoring case. Otherwise the error names the lower-cased value. |
| Driver.SetupAgrees | DependencyInjection/VichUploaderExtension.php:45-84 | The adapter and the tag come from the same validated key. The `mongodb` tag is the legacy one exactly on a legacy kernel. |
| Driver.MixedCaseAccepted | DependencyInjection/VichUploaderExtension.php:53-54 | `ORM` and `MongoDB` are accepted as `orm` and `mongodb`. |
| Driver.UnknownDriverRefused | DependencyInjection/VichUploaderExtension.php:53-58 | `Propel` is refused, with the error naming `propel`. |
| MetadataDirectories.AutoDetect | DependencyInjection/VichUploaderExtension.php:96-107 | The first loop; AutoDetectGet gives every key's value after it. |
| MetadataDirectories.LastDetecting | DependencyInjection/VichUploaderExtension.php:97-106 | The last bundle with a given namespace whose metadata directory exists; none when there is no such bundle. |
| MetadataDirectories.AutoDetectGet | DependencyInjection/VichUploaderExtension.php:96-107 | After auto-detection, a namespace maps to the directory of the last bundle with that namespace whose directory exists. Bundles without the directory are skipped. Other keys keep their values. |
| MetadataDirectories.NormalisePath | DependencyInjection/VichUploaderExtension.php:110 | The normalised path is the path with `\` replaced by `/` and only trailing `/` removed: a prefix of it, after which every character is `/`. It has no `\` and no trailing `/`. |
| MetadataDirectories.IsBundleReference | DependencyInjection/VichUploaderExtension.php:112 | A path is a bundle reference when its first character is `@`; an empty path is not. |
| MetadataDirectories.BundleName | DependencyInjection/VichUploaderExtension.php:113 | Corrected line 113: the bundle name is the text after `@` up to the first `/` or the end. |
| MetadataDirectories.BundleNameAsWritten | DependencyInjection/VichUploaderExtension.php:113 | Line 113 as written. With a `/` in the path it gives the corrected bundle name. Without one it gives the text after `@` minus its last character, and nothing for a bare `@`. |
| MetadataDirectories.ExpandReference | DependencyInjection/VichUploaderExtension.php:115-123 | Fails exactly when the bundle is not registered, with an error naming it and listing the registered bundles. Otherwise the result has no trailing slash. |
| MetadataDirectories.ResolvePath | DependencyInjection/VichUploaderExtension.php:110-123 | A path without `@` always resolves, to the configured text with `\` turned into `/` and trailing `/` and `\` trimmed. Resolution fails iff the path names a bundle that is not registered, and the error then reports all registered bundles. The stored path never ends in `/` or `\`, and has no `\` unless it came from an `@` path. |
| MetadataDirectories.ResolvePathAsWritten | DependencyInjection/VichUploaderExtension.php:110-123 | One entry as written: a path without `@` resolves as in ResolvePath; an `@` path fails iff the line-113 name is not a registered bundle, with that name in the error. |
| MetadataDirectories.EntryKey | DependencyInjection/VichUploaderExtension.php:123 | The key is the prefix with its trailing `\` removed and nothing else; `""` stays `""`. |
| MetadataDirectories.ApplyExplicit | DependencyInjection/VichUploaderExtension.php:109-124 | The second loop; ApplyExplicitOutcome and ExplicitLastWriteWins state its outcome and result. |
| MetadataDirectories.FirstFailure | DependencyInjection/VichUploaderExtension.php:109-117 | The first configured entry whose path does not resolve; none when every entry resolves. |
| MetadataDirectories.LastEntryFor | DependencyInjection/VichUploaderExtension.php:109-123 | The last configured entry with a given key; none when there is no such entry. |
| MetadataDirectories.ApplyExplicitOutcome | DependencyInjection/VichUploaderExtension.php:109-124 | The second loop fails iff some entry fails to resolve, and then with the first such entry's error. |
| MetadataDirectories.ExplicitLastWriteWins | DependencyInjection/VichUploaderExtension.php:109-124 | A key ends with the path of the last entry with that key. Keys no entry names keep their earlier value. |
| MetadataDirectories.ResolveDirectories | DependencyInjection/VichUploaderExtension.php:92-124 | The directory map; DirectoryLookup, ResolveDirectoriesFailure and ResolvedDirectoriesShape state its meaning. |
| MetadataDirectories.DefaultMetadataDetects | DependencyInjection/Configuration.php:42-50 | With the `metadata` defaults, auto-detection is on and no entry is configured, so the directories are the auto-detected ones. |
| MetadataDirectories.DirectoryLookup | DependencyInjection/VichUploaderExtension.php:95-124 | A key's final value is the last configured entry's path if there is one. Otherwise it is the auto-detected directory, only when auto-detection is on. Otherwise the key is absent. |
| MetadataDirectories.ResolveDirectoriesFailure | DependencyInjection/VichUploaderExtension.php:109-117 | The routine fails iff an entry fails to resolve. The error is the first such entry's unknown-bundle error, listing every registered bundle. |
| MetadataDirectories.ResolvedDirectoriesShape | DependencyInjection/VichUploaderExtension.php:105-123 | In the resulting map the keys are distinct and no value ends in `/` or `\`. |
| MetadataDirectories.BuildDirectories | DependencyInjection/VichUploaderExtension.php:92-124 | The two loops compute the specified map, or the exception. |
| MetadataDirectories.ResolveEntry | DependencyInjection/VichUploaderExtension.php:110-123 | The loop body computes ResolvePath for one entry. |
| MetadataDirectories.NormaliseReference | DependencyInjection/VichUploaderExtension.php:110 | `@name/rest` normalises to `@name` followed by either nothing or a `/`-led tail. |
| MetadataDirectories.BundleReference | DependencyInjection/VichUploaderExtension.php:110-123 | `@B/rest` resolves to B's directory + `/rest` (with `\` replaced, then trimmed) when B is registered. Otherwise it fails naming B and listing the registered bundles. |
| MetadataDirectories.BundleReferenceAsWritten | DependencyInjection/VichUploaderExtension.php:113 | Line 113 as written agrees with the corrected bundle name whenever something other than slashes follows the name. |
| MetadataDirectories.AsWrittenDropsLastChar | DependencyInjection/VichUploaderExtension.php:113 | Without a `/`, line 113 drops the last character of the bundle name; the corrected name keeps it. |
| MetadataDirectories.TrailingSlashFinding | DependencyInjection/VichUploaderExtension.php:110-116 | `@B/` with B registered fails as written, naming B minus its last character. Corrected, it resolves to B's directory. |
| CacheStrategy.Select | DependencyInjection/VichUploaderExtension.php:134-150 | `none` and `file` are matched exactly; any other value is a service id, kept verbatim. |
| CacheStrategy.ApplyCacheStrategy | DependencyInjection/VichUploaderExtension.php:132-151 | See note 1 below. |
| CacheStrategy.SelectAsWritten | DependencyInjection/VichUploaderExtension.php:149 | As written, the service branch fails on the unimported `Alias` class. The other branches are unaffected. |
| CacheStrategy.DefaultFileCache | DependencyInjection/Configuration.php:35-39 | With the `metadata` defaults, the file cache is chosen with directory `%kernel.cache_dir%/vich_uploader`, and the step passes iff that directory exists or can be created. |
| CacheStrategy.MissingAliasImport | DependencyInjection/VichUploaderExtension.php:149 | Any service id makes the code as written fail, where the intended behaviour is a private alias to that service. |
| Extension.FileSystem.FileExists | DependencyInjection/VichUploaderExtension.php:143 | `file_exists` sees directories and other files alike. |
| Extension.FileSystem.MakeDirectory | DependencyInjection/VichUploaderExtension.php:144 | `mkdir` adds the directory exactly when it succeeds. |
| Extension.UploaderExtension.constructor | DependencyInjection/VichUploaderExtension.php:22-25 | The tag map starts as declared. |
| Extension.UploaderExtension.AdjustForKernel | DependencyInjection/VichUploaderExtension.php:44-47 | The tag-map field becomes `TagMapFor(old tag map, version)` and keeps its invariant. |
| Extension.UploaderExtension.RegisterDriver | DependencyInjection/VichUploaderExtension.php:79-84 | Sets the mappings (empty when absent), the storage service and the adapter class, and appends the subscriber tag. |
| Extension.UploaderExtension.RegisterMetadataDirectories | DependencyInjection/VichUploaderExtension.php:90-130 | The locator's argument becomes the resolved map. On failure it is unchanged and the error is returned. |
| Extension.UploaderExtension.RegisterCacheStrategy | DependencyInjection/VichUploaderExtension.php:132-151 | Alias, file-cache argument and directories change exactly as ApplyCacheStrategy says. Other files are untouched. |
| Extension.UploaderExtension.Load | DependencyInjection/VichUploaderExtension.php:42-88 | See note 2 below. |

**Note 1, `CacheStrategy.ApplyCacheStrategy`:**

- `none` removes the alias.
- A service id becomes a private alias.
- Neither touches directories.
- `file` records the unresolved directory setting and leaves the alias alone.
- `file` never removes directories and adds at most the resolved one.
- `file` passes iff the resolved path exists afterwards.
- `file` creates the directory only when nothing existed at that path and `mkdir` succeeds.
- A `file` failure names the directory.

**Note 2, `Extension.UploaderExtension.Load`:**

- The tag map is rewritten by the version test first.
- An unknown driver fails with nothing in the container or filesystem changed.
- Otherwise the mappings, the storage service, the adapter and the tag are registered.
- An unknown bundle then fails, leaving the directories, cache state and filesystem as they were.
- Otherwise the directories are stored and the cache step is the one ApplyCacheStrategy specifies.

## Left out

- XML service loading (lines 61-77), including the conditional `gaufrette.xml` and `twig.xml`. It reads files and has no logic beyond "load if flag". `twig` and `gaufrette` are kept in the configuration record only.
- `processConfiguration` (line 51): merging and validating configuration files is done by the framework. The model starts from the processed record, with the `metadata` defaults of `DependencyInjection/Configuration.php`:31-52 (DefaultMetadata). The defaults of `storage`, `twig` and `gaufrette` (lines 28-30) reach the model only as values of the processed record.
- The per-mapping defaults of `DependencyInjection/Configuration.php`:53-66. The mappings are passed to the container as they are, so the model does not look inside them.
- The container API (`setParameter`, `getDefinition`, `addTag`, `replaceArgument`, `removeAlias`, `setAlias`) is not modelled as such. Only the fields these calls write are modelled.
- PHP reflection (`ReflectionClass`, `getFileName`, `dirname`, `getNamespaceName`). Bundle records carrying the namespace and base directory replace it.
- Real filesystem semantics of `is_dir`, `file_exists` and `mkdir`: recursive creation, mode `0777`, umask, and parents left behind by a failed `mkdir`. The filesystem is two sets, and `mkdir`'s success is an input.
- Placeholder resolution of `%kernel.cache_dir%` (line 142). It is a function given with the container.
- MetadataDirectories.ResolvePath: a bare `@Bundle` or `@Bundle/` resolves to the bundle root here, while line 113 as written looks up the name minus its last character and so fails or picks the wrong bundle. ResolvePathAsWritten is the as-written path.
- MetadataDirectories.BuildDirectories: uses ResolvePath, so a bare `@Bundle` or `@Bundle/` resolves to the bundle root, where the source fails or picks the wrong bundle. ResolvePathAsWritten is the as-written path.
- CacheStrategy.ApplyCacheStrategy: a service id becomes a private alias to that service, the intended behaviour; line 149 as written fails with a class-not-found error. SelectAsWritten and MissingAliasImport are the as-written half.
- Extension.UploaderExtension.RegisterCacheStrategy: follows ApplyCacheStrategy, so a service id becomes a private alias, where line 149 as written fails with a class-not-found error. SelectAsWritten and MissingAliasImport are the as-written half.
- Extension.UploaderExtension.Load: its cache step follows ApplyCacheStrategy, so a service id becomes a private alias, where line 149 as written fails with a class-not-found error. SelectAsWritten and MissingAliasImport are the as-written half.
- Extension.UploaderExtension.RegisterMetadataDirectories: resolves through ResolvePath, so a bare `@Bundle` or `@Bundle/` resolves to the bundle root, where the source fails or picks the wrong bundle. ResolvePathAsWritten is the as-written path.
- Extension.UploaderExtension.Load: registers directories through ResolvePath, so a bare `@Bundle` or `@Bundle/` resolves to the bundle root, where the source fails or picks the wrong bundle. ResolvePathAsWritten is the as-written path.
- Extension.FileSystem.MakeDirectory: mkdir's recursive creation of missing parents is not modelled; only the target directory is added.
- The warning PHP raises when line 112 reads offset 0 of an empty path.
- Behaviour of PHP before 8.2: `substr` returning `false`, locale-dependent `strtolower`, a notice instead of a warning at line 112, and the single-quoted class-not-found message. The model follows PHP 8.2 throughout.

## Findings

| source | as written | input that shows it | evidently intended | confidence | as-written member | corrected member |
|---|---|---|---|---|---|---|
| DependencyInjection/VichUploaderExtension.php:113 | The bundle name's length is `strpos($path, '/') - 1`. With no `/` after the bundle name, `strpos` is `false` (0), the length is -1, and the name loses its last character. Line 110 has already trimmed a trailing `/`, so `@AcmeBundle/` hits this too. | `metadata.directories: [{path: "@AcmeBundle/"}]` with `AcmeBundle` registered: the bundle `AcmeBundl` is reported as not registered. | `@AcmeBundle` and `@AcmeBundle/` name the bundle's own directory. | not executed | MetadataDirectories.TrailingSlashFinding | MetadataDirectories.BundleName |
| DependencyInjection/VichUploaderExtension.php:149 | `new Alias(...)` with no `use` for `Alias` among the imports (lines 5-10). The name resolves in the extension's own namespace, where no such class exists. | `metadata.cache: "my_cache_service"`: loading stops with a class-not-found error. | The cache alias points, privately, to the named service. | not executed | CacheStrategy.MissingAliasImport | CacheStrategy.ApplyCacheStrategy |
