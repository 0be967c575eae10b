/**
 * `VichUploaderExtension::registerMetadataDirectories`: the map from namespace
 * prefix to metadata directory handed to the metadata file locator. Bundles
 * whose `Resources/config/vich_uploader` directory exists are detected first
 * (when auto-detection is on); the configured `metadata.directories` entries
 * are then written over them in order.
 */
module MetadataDirectories {
  import opened Wrappers
  import opened PhpStrings
  import opened PhpArrays
  import opened Errors
  import opened Configuration

  /**
   * What reflection yields for a bundle class: its namespace
   * (`getNamespaceName()`) and the directory of its file
   * (`dirname($ref->getFileName())`).
   */
  datatype BundleClass = BundleClass(namespace: string, baseDir: string)

  /** The `kernel.bundles` parameter: bundle name to bundle class, in registration order. */
  type Bundles = OrderedMap<string, BundleClass>

  /** The locator's argument: namespace prefix to directory. */
  type Directories = OrderedMap<string, string>

  const ConfigSubdir := "/Resources/config/vich_uploader"
  const Slashes: set<char> := {'\\', '/'}

  /** The directory auto-detection looks for in a bundle. */
  function MetadataDir(c: BundleClass): string {
    c.baseDir + ConfigSubdir
  }

  predicate NoTrailingSlash(p: string) {
    p == [] || p[|p| - 1] !in Slashes
  }

  // ---------------------------------------------------------------------------
  // Auto-detection (lines 96-107)

  /** Bundle `c` contributes `ns`: its namespace is `ns` and its directory exists. */
  predicate Detects(c: BundleClass, isDir: set<string>, ns: string) {
    c.namespace == ns && MetadataDir(c) in isDir
  }

  /** The first loop, from the state `acc` onwards. */
  function AutoDetect(acc: Directories, bundles: Bundles, isDir: set<string>): Directories
    decreases |bundles|
  {
    if bundles == [] then acc
    else
      var c := bundles[0].1;
      var acc' := if MetadataDir(c) in isDir then Put(acc, c.namespace, MetadataDir(c)) else acc;
      AutoDetect(acc', bundles[1..], isDir)
  }

  /** The position of the last bundle that contributes `ns`, if any. */
  function LastDetecting(bundles: Bundles, isDir: set<string>, ns: string): (r: Option<nat>)
    ensures r.Some? ==> r.value < |bundles| && Detects(bundles[r.value].1, isDir, ns)
    ensures r.Some? ==> forall j :: r.value < j < |bundles| ==> !Detects(bundles[j].1, isDir, ns)
    ensures r.None? ==> forall j :: 0 <= j < |bundles| ==> !Detects(bundles[j].1, isDir, ns)
  {
    if bundles == [] then None
    else match LastDetecting(bundles[1..], isDir, ns)
      case Some(j) => Some(j + 1)
      case None => if Detects(bundles[0].1, isDir, ns) then Some(0) else None
  }

  /**
   * After auto-detection a namespace maps to the metadata directory of the last
   * bundle that contributes it; bundles whose directory is missing are skipped
   * and every other key keeps its earlier value.
   */
  lemma {:induction false} AutoDetectGet(acc: Directories, bundles: Bundles, isDir: set<string>, ns: string)
    ensures Get(AutoDetect(acc, bundles, isDir), ns) ==
      match LastDetecting(bundles, isDir, ns)
      case Some(i) => Some(MetadataDir(bundles[i].1))
      case None => Get(acc, ns)
    decreases |bundles|
  {
    if bundles != [] {
      var c, dir := bundles[0].1, MetadataDir(bundles[0].1);
      var acc' := if dir in isDir then Put(acc, c.namespace, dir) else acc;
      AutoDetectGet(acc', bundles[1..], isDir, ns);
      match LastDetecting(bundles[1..], isDir, ns)
      case Some(j) =>
        assert bundles[1..][j] == bundles[j + 1];
      case None =>
        if dir in isDir {
          if c.namespace == ns {
            PutGet(acc, ns, dir);
          } else {
            PutGetOther(acc, c.namespace, dir, ns);
          }
        }
    }
  }

  // ---------------------------------------------------------------------------
  // One configured entry (lines 110-123)

  /** `rtrim(str_replace('\\', '/', $path), '/')`. */
  function NormalisePath(path: string): (p: string)
    ensures '\\' !in p
    ensures p == [] || p[|p| - 1] != '/'
    ensures p <= ReplaceChar(path, '\\', '/')
    ensures forall i :: |p| <= i < |path| ==> ReplaceChar(path, '\\', '/')[i] == '/'
  {
    RTrimDropped(ReplaceChar(path, '\\', '/'), {'/'});
    RTrim(ReplaceChar(path, '\\', '/'), {'/'})
  }

  /**
   * `'@' === $path[0]`. Reading offset 0 of an empty string yields "" in PHP
   * (with a warning), so an empty path is not a bundle reference.
   */
  predicate IsBundleReference(p: string) {
    |p| > 0 && p[0] == '@'
  }

  /**
   * The bundle an `@` path names: the text between `@` and the first `/`, or
   * everything after `@` when there is no `/`.
   */
  function BundleName(p: string): (name: string)
    requires IsBundleReference(p)
    ensures 1 + |name| <= |p| && name == p[1..1 + |name|]
    ensures '/' !in name
    ensures 1 + |name| == |p| || p[1 + |name|] == '/'
  {
    match IndexOf(p, '/')
    case Some(i) => p[1..i]
    case None => p[1..]
  }

  /**
   * Line 113 as written: `substr($path, 1, strpos($path, '/') - 1)`. Without a
   * `/`, `strpos` returns false, which counts as 0, so the length is -1 and the
   * last character of the path is cut off.
   */
  function BundleNameAsWritten(p: string): (name: string)
    requires IsBundleReference(p)
    ensures 1 + |name| <= |p| && name == p[1..1 + |name|]
    ensures IndexOf(p, '/').Some? ==> name == BundleName(p)
    ensures IndexOf(p, '/').None? ==> name == p[1..if |p| >= 2 then |p| - 1 else 1]
  {
    var slash := match IndexOf(p, '/') case Some(i) => i as int case None => 0;
    Substr(p, 1, slash - 1)
  }

  /**
   * Lines 115-120 and the `rtrim($path, '\\/')` of line 123 for an `@` path whose
   * bundle name is `name`: an unknown bundle is an error naming it and listing
   * the registered bundles; a known one has `@name` replaced by its directory.
   */
  function ExpandReference(bundles: Bundles, p: string, name: string): (r: Result<string, Error>)
    requires 1 + |name| <= |p|
    ensures r.Err? <==> name !in Keys(bundles)
    ensures r.Err? ==> r.error == UnknownBundle(name, Keys(bundles))
    ensures r.Ok? ==> NoTrailingSlash(r.value)
  {
    match Get(bundles, name)
    case None => Err(UnknownBundle(name, Keys(bundles)))
    case Some(c) => Ok(RTrim(c.baseDir + p[1 + |name|..], Slashes))
  }

  /**
   * The path stored for one configured entry. It never ends in `/` or `\`;
   * unless it names a bundle it holds no `\` at all; it fails only on an
   * unknown bundle.
   */
  function ResolvePath(bundles: Bundles, path: string): (r: Result<string, Error>)
    ensures r.Ok? ==> NoTrailingSlash(r.value)
    ensures r.Ok? && !IsBundleReference(path) ==> '\\' !in r.value
    ensures !IsBundleReference(NormalisePath(path)) ==> r == Ok(RTrim(ReplaceChar(path, '\\', '/'), Slashes))
    ensures r.Err? <==> IsBundleReference(NormalisePath(path)) && BundleName(NormalisePath(path)) !in Keys(bundles)
    ensures r.Err? ==>
      && r.error.UnknownBundle?
      && r.error.bundle !in Keys(bundles)
      && r.error.available == Keys(bundles)
  {
    var p := NormalisePath(path);
    if IsBundleReference(p) then ExpandReference(bundles, p, BundleName(p))
    else
      var q := RTrim(p, Slashes);
      assert forall i :: 0 <= i < |q| ==> q[i] == p[i];
      assert q == RTrim(ReplaceChar(path, '\\', '/'), Slashes) by {
        var y := ReplaceChar(path, '\\', '/');
        RTrimAppendTrimmed([], y, {'/'}, Slashes);
        assert [] + RTrim(y, {'/'}) == p;
        assert [] + y == y;
      }
      Ok(q)
  }

  /** ResolvePath with the bundle name computed as line 113 computes it. */
  function ResolvePathAsWritten(bundles: Bundles, path: string): (r: Result<string, Error>)
    ensures !IsBundleReference(NormalisePath(path)) ==> r == ResolvePath(bundles, path)
    ensures r.Err? <==>
      IsBundleReference(NormalisePath(path)) && BundleNameAsWritten(NormalisePath(path)) !in Keys(bundles)
    ensures r.Err? ==> r.error == UnknownBundle(BundleNameAsWritten(NormalisePath(path)), Keys(bundles))
  {
    var p := NormalisePath(path);
    if IsBundleReference(p) then ExpandReference(bundles, p, BundleNameAsWritten(p))
    else Ok(RTrim(p, Slashes))
  }

  /**
   * `rtrim($namespace_prefix, '\\')`: only backslashes are trimmed, so a trailing
   * `/` stays and the empty prefix stays empty.
   */
  function EntryKey(prefix: string): (k: string)
    ensures k <= prefix
    ensures k == [] || k[|k| - 1] != '\\'
    ensures forall i :: |k| <= i < |prefix| ==> prefix[i] == '\\'
  {
    RTrimDropped(prefix, {'\\'});
    RTrim(prefix, {'\\'})
  }

  // ---------------------------------------------------------------------------
  // The configured entries (lines 109-124)

  /**
   * How the second loop turns a configured path into the stored one. The loop's
   * properties hold for any such resolution; the loop itself uses ResolvePath.
   */
  type Resolver = string -> Result<string, Error>

  function EntryResolver(bundles: Bundles): Resolver {
    path => ResolvePath(bundles, path)
  }

  /** The second loop, from the state `acc` onwards; the first failing entry aborts it. */
  function ApplyExplicit(acc: Directories, resolve: Resolver, entries: seq<DirectoryConfig>): Result<Directories, Error>
    decreases |entries|
  {
    if entries == [] then Ok(acc)
    else match resolve(entries[0].path)
      case Err(e) => Err(e)
      case Ok(p) => ApplyExplicit(Put(acc, EntryKey(entries[0].namespacePrefix), p), resolve, entries[1..])
  }

  /** The position of the last entry whose key is `key`, if any. */
  function LastEntryFor(entries: seq<DirectoryConfig>, key: string): (r: Option<nat>)
    ensures r.Some? ==> r.value < |entries| && EntryKey(entries[r.value].namespacePrefix) == key
    ensures r.Some? ==> forall j :: r.value < j < |entries| ==> EntryKey(entries[j].namespacePrefix) != key
    ensures r.None? ==> forall j :: 0 <= j < |entries| ==> EntryKey(entries[j].namespacePrefix) != key
  {
    if entries == [] then None
    else match LastEntryFor(entries[1..], key)
      case Some(j) => Some(j + 1)
      case None => if EntryKey(entries[0].namespacePrefix) == key then Some(0) else None
  }

  /** The position of the first entry that fails to resolve, if any. */
  function FirstFailure(resolve: Resolver, entries: seq<DirectoryConfig>): (r: Option<nat>)
    ensures r.Some? ==> r.value < |entries| && resolve(entries[r.value].path).Err?
    ensures r.Some? ==> forall j :: 0 <= j < r.value ==> resolve(entries[j].path).Ok?
    ensures r.None? ==> forall j :: 0 <= j < |entries| ==> resolve(entries[j].path).Ok?
  {
    if entries == [] then None
    else if resolve(entries[0].path).Err? then Some(0)
    else match FirstFailure(resolve, entries[1..])
      case None => None
      case Some(j) => Some(j + 1)
  }

  /**
   * The entries fail exactly when one of them fails to resolve (for ResolvePath:
   * names an unknown bundle), and then with the error of the first such entry.
   */
  lemma {:induction false} ApplyExplicitOutcome(acc: Directories, resolve: Resolver, entries: seq<DirectoryConfig>)
    ensures ApplyExplicit(acc, resolve, entries).Ok? <==> FirstFailure(resolve, entries).None?
    ensures ApplyExplicit(acc, resolve, entries).Err? ==>
      ApplyExplicit(acc, resolve, entries).error == resolve(entries[FirstFailure(resolve, entries).value].path).error
    decreases |entries|
  {
    if entries != [] {
      var r0 := resolve(entries[0].path);
      if r0.Ok? {
        ApplyExplicitOutcome(Put(acc, EntryKey(entries[0].namespacePrefix), r0.value), resolve, entries[1..]);
        match FirstFailure(resolve, entries[1..])
        case None =>
        case Some(j) =>
          assert entries[1..][j] == entries[j + 1];
      }
    }
  }

  /**
   * Last write wins: a key takes the path of the last entry with that key;
   * keys no entry names keep their earlier value.
   */
  lemma {:induction false} ExplicitLastWriteWins(acc: Directories, resolve: Resolver, entries: seq<DirectoryConfig>, r: Directories, key: string)
    requires ApplyExplicit(acc, resolve, entries) == Ok(r)
    ensures match LastEntryFor(entries, key)
      case None => Get(r, key) == Get(acc, key)
      case Some(i) =>
        && resolve(entries[i].path).Ok?
        && Get(r, key) == Some(resolve(entries[i].path).value)
    decreases |entries|
  {
    if entries != [] {
      var p := resolve(entries[0].path).value;
      var k := EntryKey(entries[0].namespacePrefix);
      var acc' := Put(acc, k, p);
      assert ApplyExplicit(acc', resolve, entries[1..]) == Ok(r);
      ExplicitLastWriteWins(acc', resolve, entries[1..], r, key);
      match LastEntryFor(entries[1..], key)
      case Some(j) =>
        assert entries[1..][j] == entries[j + 1];
      case None =>
        if k == key {
          PutGet(acc, k, p);
        } else {
          PutGetOther(acc, k, p, key);
        }
    }
  }

  // ---------------------------------------------------------------------------
  // The whole routine

  /** `$directories` at line 126, or the exception the loops throw. */
  function ResolveDirectories(bundles: Bundles, isDir: set<string>, autoDetection: bool, entries: seq<DirectoryConfig>): Result<Directories, Error> {
    ApplyExplicit(if autoDetection then AutoDetect([], bundles, isDir) else [], EntryResolver(bundles), entries)
  }

  /**
   * With the `metadata` node left at its defaults, auto-detection is on and no
   * entry is configured, so the directories are exactly the auto-detected ones.
   */
  lemma DefaultMetadataDetects(bundles: Bundles, isDir: set<string>)
    ensures var md := DefaultMetadata([]);
      ResolveDirectories(bundles, isDir, md.autoDetection, md.directories) == Ok(AutoDetect([], bundles, isDir))
  {
  }

  /**
   * The value for a key: the last configured entry with that key if there is
   * one (configured entries always win), else the auto-detected directory of the
   * last bundle with that namespace (only when auto-detection is on), else none.
   */
  lemma DirectoryLookup(bundles: Bundles, isDir: set<string>, autoDetection: bool, entries: seq<DirectoryConfig>, r: Directories, key: string)
    requires ResolveDirectories(bundles, isDir, autoDetection, entries) == Ok(r)
    ensures match LastEntryFor(entries, key)
      case Some(i) =>
        && ResolvePath(bundles, entries[i].path).Ok?
        && Get(r, key) == Some(ResolvePath(bundles, entries[i].path).value)
      case None =>
        Get(r, key) ==
          if !autoDetection then None
          else match LastDetecting(bundles, isDir, key)
            case Some(j) => Some(MetadataDir(bundles[j].1))
            case None => None
  {
    var start: Directories := if autoDetection then AutoDetect([], bundles, isDir) else [];
    ExplicitLastWriteWins(start, EntryResolver(bundles), entries, r, key);
    if autoDetection {
      AutoDetectGet([], bundles, isDir, key);
    }
  }

  /**
   * The routine fails exactly when some configured entry fails to resolve, and
   * then with the first such entry's error: an unknown bundle, reported together
   * with every registered bundle name.
   */
  lemma ResolveDirectoriesFailure(bundles: Bundles, isDir: set<string>, autoDetection: bool, entries: seq<DirectoryConfig>)
    ensures var r := ResolveDirectories(bundles, isDir, autoDetection, entries);
      var first := FirstFailure(EntryResolver(bundles), entries);
      && (r.Err? <==> first.Some?)
      && (r.Err? ==>
            && ResolvePath(bundles, entries[first.value].path) == Err(r.error)
            && r.error.UnknownBundle?
            && r.error.available == Keys(bundles))
  {
    var start: Directories := if autoDetection then AutoDetect([], bundles, isDir) else [];
    ApplyExplicitOutcome(start, EntryResolver(bundles), entries);
  }

  /** Every stored directory ends in neither `/` nor `\`, and keys stay distinct. */
  lemma ResolvedDirectoriesShape(bundles: Bundles, isDir: set<string>, autoDetection: bool, entries: seq<DirectoryConfig>, r: Directories)
    requires ResolveDirectories(bundles, isDir, autoDetection, entries) == Ok(r)
    ensures UniqueKeys(r)
    ensures forall i :: 0 <= i < |r| ==> NoTrailingSlash(r[i].1)
  {
    if autoDetection {
      AutoDetectShape([], bundles, isDir);
      ApplyExplicitShape(AutoDetect([], bundles, isDir), EntryResolver(bundles), entries);
    } else {
      ApplyExplicitShape([], EntryResolver(bundles), entries);
    }
  }

  ghost predicate WellShaped(m: Directories) {
    UniqueKeys(m) && forall i :: 0 <= i < |m| ==> NoTrailingSlash(m[i].1)
  }

  lemma PutWellShaped(m: Directories, k: string, v: string)
    requires WellShaped(m) && NoTrailingSlash(v)
    ensures WellShaped(Put(m, k, v))
  {
    PutUnique(m, k, v);
    PutValues(m, k, v);
  }

  /** Every value after `$m[$k] = $v` is `$v` or was already there. */
  lemma {:induction false} PutValues(m: Directories, k: string, v: string)
    ensures forall i :: 0 <= i < |Put(m, k, v)| ==> Put(m, k, v)[i].1 == v || Put(m, k, v)[i] in m
  {
    if m != [] && m[0].0 != k {
      PutValues(m[1..], k, v);
    }
  }

  lemma {:induction false} AutoDetectShape(acc: Directories, bundles: Bundles, isDir: set<string>)
    requires WellShaped(acc)
    ensures WellShaped(AutoDetect(acc, bundles, isDir))
    decreases |bundles|
  {
    if bundles != [] {
      var c := bundles[0].1;
      if MetadataDir(c) in isDir {
        assert MetadataDir(c)[|MetadataDir(c)| - 1] == 'r';
        PutWellShaped(acc, c.namespace, MetadataDir(c));
        AutoDetectShape(Put(acc, c.namespace, MetadataDir(c)), bundles[1..], isDir);
      } else {
        AutoDetectShape(acc, bundles[1..], isDir);
      }
    }
  }

  lemma {:induction false} ApplyExplicitShape(acc: Directories, resolve: Resolver, entries: seq<DirectoryConfig>)
    requires WellShaped(acc)
    requires forall path :: resolve(path).Ok? ==> NoTrailingSlash(resolve(path).value)
    ensures ApplyExplicit(acc, resolve, entries).Ok? ==> WellShaped(ApplyExplicit(acc, resolve, entries).value)
    decreases |entries|
  {
    if entries != [] && resolve(entries[0].path).Ok? {
      var p := resolve(entries[0].path).value;
      var k := EntryKey(entries[0].namespacePrefix);
      PutWellShaped(acc, k, p);
      ApplyExplicitShape(Put(acc, k, p), resolve, entries[1..]);
    }
  }

  /** The two loops of `registerMetadataDirectories`. */
  method BuildDirectories(bundles: Bundles, isDir: set<string>, metadata: MetadataConfig) returns (r: Result<Directories, Error>)
    ensures r == ResolveDirectories(bundles, isDir, metadata.autoDetection, metadata.directories)
  {
    var directories: Directories := [];
    if metadata.autoDetection {
      for i := 0 to |bundles|
        invariant AutoDetect(directories, bundles[i..], isDir) == AutoDetect([], bundles, isDir)
      {
        assert bundles[i..][1..] == bundles[i + 1..];
        var c := bundles[i].1;
        var directory := c.baseDir + ConfigSubdir;
        if directory !in isDir {
          continue;
        }
        directories := Put(directories, c.namespace, directory);
      }
    }
    ghost var start := directories;
    var entries := metadata.directories;
    for j := 0 to |entries|
      invariant ApplyExplicit(directories, EntryResolver(bundles), entries[j..]) == ApplyExplicit(start, EntryResolver(bundles), entries)
    {
      assert entries[j..][1..] == entries[j + 1..];
      var path := ResolveEntry(bundles, entries[j].path);
      if path.Err? {
        return Err(path.error);
      }
      directories := Put(directories, EntryKey(entries[j].namespacePrefix), path.value);
    }
    r := Ok(directories);
  }

  /** The body of the second loop for one entry's path (lines 110-123). */
  method ResolveEntry(bundles: Bundles, entryPath: string) returns (r: Result<string, Error>)
    ensures r == ResolvePath(bundles, entryPath)
  {
    var path := NormalisePath(entryPath);
    if IsBundleReference(path) {
      var bundleName := BundleName(path);
      var bundle := Get(bundles, bundleName);
      if bundle.None? {
        return Err(UnknownBundle(bundleName, Keys(bundles)));
      }
      path := bundle.value.baseDir + path[1 + |bundleName|..];
    }
    return Ok(RTrim(path, Slashes));
  }

  // ---------------------------------------------------------------------------
  // `@Bundle` references

  /** How an `@name/rest` path normalises. */
  lemma NormaliseReference(name: string, rest: string)
    requires '/' !in name && '\\' !in name
    ensures var tail := RTrim("/" + ReplaceChar(rest, '\\', '/'), {'/'});
      && NormalisePath("@" + name + "/" + rest) == "@" + name + tail
      && (tail == [] || tail[0] == '/')
  {
    var x := "@" + name + "/" + rest;
    var r' := ReplaceChar(rest, '\\', '/');
    var head, body := "@" + name, "/" + r';
    var tail := RTrim(body, {'/'});
    ReplaceReference(name, rest);
    assert A: ReplaceChar(x, '\\', '/') == head + body;
    HeadKept(name);
    RTrimKeepsHead(head, body, {'/'});
    assert B: RTrim(head + body, {'/'}) == head + tail;
    assert NormalisePath(x) == RTrim(ReplaceChar(x, '\\', '/'), {'/'});
    assert tail <= body;
  }

  lemma ReplaceReference(name: string, rest: string)
    requires '\\' !in name
    ensures ReplaceChar("@" + name + "/" + rest, '\\', '/') == ("@" + name) + ("/" + ReplaceChar(rest, '\\', '/'))
  {
    var head, body := "@" + name, "/" + rest;
    assert "@" + name + "/" + rest == head + body;
    ReplaceCharAppend(head, body, '\\', '/');
    ReplaceCharAppend("@", name, '\\', '/');
    ReplaceCharAbsent(name, '\\', '/');
    ReplaceCharAppend("/", rest, '\\', '/');
  }

  lemma HeadKept(name: string)
    requires '/' !in name
    ensures ("@" + name)[|"@" + name| - 1] != '/'
  {
    if name != [] {
      assert ("@" + name)[|"@" + name| - 1] == name[|name| - 1];
    }
  }

  /** The bundle name of `@name` followed by nothing or by a `/` is `name`. */
  lemma BundleNameOf(name: string, tail: string)
    requires '/' !in name
    requires tail == [] || tail[0] == '/'
    ensures BundleName("@" + name + tail) == name
  {
    var p := "@" + name + tail;
    var n := BundleName(p);
    assert p[1..1 + |name|] == name;
  }

  /**
   * `@name/rest` resolves to the bundle's directory followed by `/rest`
   * (backslashes turned into slashes, trailing slashes trimmed), or fails naming
   * `name` and listing the registered bundles.
   */
  lemma BundleReference(bundles: Bundles, name: string, rest: string)
    requires '/' !in name && '\\' !in name
    ensures ResolvePath(bundles, "@" + name + "/" + rest) ==
      match Get(bundles, name)
      case Some(c) => Ok(RTrim(c.baseDir + "/" + ReplaceChar(rest, '\\', '/'), Slashes))
      case None => Err(UnknownBundle(name, Keys(bundles)))
  {
    var path, r' := "@" + name + "/" + rest, ReplaceChar(rest, '\\', '/');
    var body := "/" + r';
    var tail := RTrim(body, {'/'});
    var expanded := ExpandReference(bundles, "@" + name + tail, name);
    assert ResolvePath(bundles, path) == expanded by {
      ReferenceExpanded(bundles, name, rest);
    }
    match Get(bundles, name)
    case Some(c) =>
      KnownBundleExpanded(bundles, name, rest, c);
    case None =>
      assert expanded == Err(UnknownBundle(name, Keys(bundles))) by {
        ExpandTail(bundles, name, tail);
      }
  }

  /** BundleReference for a registered bundle: its directory followed by the normalised rest. */
  lemma KnownBundleExpanded(bundles: Bundles, name: string, rest: string, c: BundleClass)
    requires Get(bundles, name) == Some(c)
    ensures var tail := RTrim("/" + ReplaceChar(rest, '\\', '/'), {'/'});
      ExpandReference(bundles, "@" + name + tail, name)
        == Ok(RTrim(c.baseDir + "/" + ReplaceChar(rest, '\\', '/'), Slashes))
  {
    ExpandTail(bundles, name, RTrim("/" + ReplaceChar(rest, '\\', '/'), {'/'}));
    TrimmedTailAbsorbed(c.baseDir, ReplaceChar(rest, '\\', '/'));
  }

  /** Trimming the `/`-led tail before appending it to a directory changes nothing. */
  lemma TrimmedTailAbsorbed(dir: string, s: string)
    ensures RTrim(dir + RTrim("/" + s, {'/'}), Slashes) == RTrim(dir + "/" + s, Slashes)
  {
    RTrimAppendTrimmed(dir, "/" + s, {'/'}, Slashes);
    assert dir + ("/" + s) == dir + "/" + s;
  }

  /** `@name/rest` is expanded with the bundle name `name` and the normalised rest. */
  lemma ReferenceExpanded(bundles: Bundles, name: string, rest: string)
    requires '/' !in name && '\\' !in name
    ensures var tail := RTrim("/" + ReplaceChar(rest, '\\', '/'), {'/'});
      ResolvePath(bundles, "@" + name + "/" + rest) == ExpandReference(bundles, "@" + name + tail, name)
  {
    var path := "@" + name + "/" + rest;
    var tail := RTrim("/" + ReplaceChar(rest, '\\', '/'), {'/'});
    NormaliseReference(name, rest);
    BundleNameOf(name, tail);
    ResolveReference(bundles, path);
  }

  /** A path that normalises to an `@` reference is expanded from its bundle name. */
  lemma ResolveReference(bundles: Bundles, path: string)
    requires IsBundleReference(NormalisePath(path))
    ensures ResolvePath(bundles, path)
      == ExpandReference(bundles, NormalisePath(path), BundleName(NormalisePath(path)))
  {
  }

  /** Expanding `@name` followed by `tail` puts the bundle's directory in front of `tail`. */
  lemma ExpandTail(bundles: Bundles, name: string, tail: string)
    ensures ExpandReference(bundles, "@" + name + tail, name) ==
      match Get(bundles, name)
      case Some(c) => Ok(RTrim(c.baseDir + tail, Slashes))
      case None => Err(UnknownBundle(name, Keys(bundles)))
  {
    assert ("@" + name + tail)[1 + |name|..] == tail;
  }

  /**
   * Line 113 as written agrees with BundleReference as long as something other
   * than slashes follows the bundle name.
   */
  lemma BundleReferenceAsWritten(bundles: Bundles, name: string, rest: string, k: nat)
    requires '/' !in name && '\\' !in name
    requires k < |rest| && rest[k] !in Slashes
    ensures ResolvePathAsWritten(bundles, "@" + name + "/" + rest) == ResolvePath(bundles, "@" + name + "/" + rest)
  {
    NormaliseReference(name, rest);
    var s := "/" + ReplaceChar(rest, '\\', '/');
    var tail := RTrim(s, {'/'});
    RTrimDropped(s, {'/'});
    ReplaceCharPointwise(rest, '\\', '/');
    assert s[k + 1] == rest[k];
    assert tail != [];
    var p := "@" + name + tail;
    assert p[1 + |name|] == '/';
    assert '/' !in p[..1 + |name|] by {
      assert p[..1 + |name|] == "@" + name;
    }
    assert IndexOf(p, '/') == Some(1 + |name|);
  }

  /** Without a `/` after it, line 113 cuts the last character off the bundle name. */
  lemma AsWrittenDropsLastChar(name: string)
    requires name != [] && '/' !in name
    ensures BundleNameAsWritten("@" + name) == name[..|name| - 1]
    ensures BundleName("@" + name) == name
  {
    assert '/' !in "@" + name;
  }

  /**
   * `@AcmeBundle/`, a natural way to name a bundle's own directory, loses its
   * slash to the trim on line 110, and line 113 then looks up `AcmeBundl`: the
   * entry fails although the bundle is registered (or, should a bundle of the
   * shorter name exist, resolves into that bundle with an `e` appended).
   */
  lemma TrailingSlashFinding(bundles: Bundles, name: string, c: BundleClass)
    requires name != [] && '/' !in name && '\\' !in name
    requires Get(bundles, name) == Some(c)
    requires name[..|name| - 1] !in Keys(bundles)
    ensures ResolvePathAsWritten(bundles, "@" + name + "/") == Err(UnknownBundle(name[..|name| - 1], Keys(bundles)))
    ensures ResolvePath(bundles, "@" + name + "/") == Ok(RTrim(c.baseDir, Slashes))
  {
    NormaliseReference(name, "");
    assert "@" + name + "/" + "" == "@" + name + "/";
    assert ReplaceChar("", '\\', '/') == "";
    RTrimAll("/", {'/'});
    assert "/" + "" == "/";
    var p := "@" + name;
    assert NormalisePath("@" + name + "/") == p;
    AsWrittenDropsLastChar(name);
    BundleNameOf(name, "");
    assert p + "" == p;
    assert p[1 + |name|..] == [];
    assert c.baseDir + [] == c.baseDir;
  }
}
