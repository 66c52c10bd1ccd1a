/**
 * Package mode (`GeneratePackage`): the runtime binary copied to offset 0
 * with no index entry, then every queued assembly and its `.config`, the
 * machine-wide config files, the config directory, the embedded options,
 * the environment variables and the native libraries, each recorded in
 * the container's index, which `Close` appends.
 */
module Package {
  import opened Wrappers
  import opened Bytes
  import opened Utf8
  import opened AssemblyNames
  import opened FileSystem
  import opened Container

  /** The settings `GeneratePackage` reads; the two dictionaries in their enumeration order. */
  datatype PackageOptions = PackageOptions(
    style: Style,
    cwd: string,
    runtime: Option<string>,
    ctorFunc: Option<string>,
    configFile: Option<string>,
    machineConfigFile: Option<string>,
    configDir: Option<string>,
    embeddedOptions: Option<string>,
    environment: seq<(string, string)>,
    libraries: seq<(string, string)>)

  datatype PackageError =
    | NoRuntime
    | MissingRuntime(path: string)
    | StaticCtorUnsupported
    | MissingAssembly(url: string)
    | MissingFile(path: string)
    | KeyTooLong(key: string)

  /** One call on the `PackageMaker`: `Add` of a file's content, `AddString` or `AddStringPair`. */
  datatype Item =
    | FileItem(entry: string, content: seq<byte>)
    | StringItem(entry: string, text: string)
    | PairItem(entry: string, key: string, value: string)

  predicate Writable(it: Item)
  {
    it.PairItem? ==> |Encode(it.key)| <= 255
  }

  /** The bytes the call writes. */
  function Payload(it: Item): seq<byte>
    requires Writable(it)
  {
    match it
    case FileItem(_, content) => content
    case StringItem(_, text) => Encode(text)
    case PairItem(_, key, value) => KeyValueBytes(key, value)
  }

  /** The size the call records: `AddFile` truncates the file length to an `int`. */
  function Size(it: Item): int
  {
    match it
    case FileItem(_, content) => Int32Wrap(|content|)
    case StringItem(_, text) => |Encode(text)|
    case PairItem(_, key, value) => |Encode(key)| + |Encode(value)| + 3
  }

  // ---------------------------------------------------------------------
  // What `GeneratePackage` adds, in order
  // ---------------------------------------------------------------------

  /** The items for each element of `xs`, in order; the first failure ends it. */
  function Collect<T>(f: T -> Result<seq<Item>, PackageError>, xs: seq<T>): Result<seq<Item>, PackageError>
    decreases |xs|
  {
    if xs == [] then Ok([])
    else
      var prefix := Collect(f, xs[..|xs| - 1]);
      if prefix.Err? then prefix
      else
        var r := f(xs[|xs| - 1]);
        if r.Err? then r else Ok(prefix.value + r.value)
  }

  /** The first failure of the two, or both lists of items. */
  function Then(a: Result<seq<Item>, PackageError>, b: Result<seq<Item>, PackageError>): Result<seq<Item>, PackageError>
  {
    if a.Err? then a else if b.Err? then b else Ok(a.value + b.value)
  }

  /** One queued assembly: `assembly:<name>` and, when it exists, `config:<name>`; `LocateFile` throws when neither candidate exists. */
  function AssemblyItems(o: PackageOptions, fs: Files, url: string): Result<seq<Item>, PackageError>
  {
    var located := LocateFile(fs, o.cwd, url);
    if located.None? then Err(MissingAssembly(url))
    else
      var fname := located.value;
      var aname := GetAssemblyName(fname, o.style);
      Ok([FileItem("assembly:" + aname, fs[fname])]
         + if fname + ".config" in fs then [FileItem("config:" + aname, fs[fname + ".config"])] else [])
  }

  /** `MaybeAddFile`: nothing when the setting is absent, an error when the file does not exist. */
  function MaybeFileItems(code: string, file: Option<string>, fs: Files): Result<seq<Item>, PackageError>
  {
    if file.None? then Ok([])
    else if file.value !in fs then Err(MissingFile(file.value))
    else Ok([FileItem(code, fs[file.value])])
  }

  /** Corrected: the config directory recorded as its path, as `config_dir` is meant to be read. */
  function ConfigDirItems(configDir: Option<string>): Result<seq<Item>, PackageError>
  {
    if configDir.None? then Ok([]) else Ok([StringItem("config_dir:", configDir.value)])
  }

  /**
   * As written, `maker.Add("config_dir:", dir)` adds the directory like a
   * file: its contents are copied, and a path that is no file ends the
   * program, just as `MaybeAddFile` does for a missing file.
   */
  function ConfigDirItemsAsWritten(configDir: Option<string>, fs: Files): Result<seq<Item>, PackageError>
  {
    MaybeFileItems("config_dir:", configDir, fs)
  }

  function OptionsItems(embeddedOptions: Option<string>): Result<seq<Item>, PackageError>
  {
    if embeddedOptions.None? then Ok([]) else Ok([StringItem("options:", embeddedOptions.value)])
  }

  /** `AddStringPair("env:" + key, key, value)`, which exits when the key is longer than 255 bytes. */
  function EnvItems(kv: (string, string)): Result<seq<Item>, PackageError>
  {
    if |Encode(kv.0)| > 255 then Err(KeyTooLong(kv.0)) else Ok([PairItem("env:" + kv.0, kv.0, kv.1)])
  }

  /** `Add("library:" + alias, path)`, which throws when the file does not exist. */
  function LibraryItems(fs: Files, aliasAndPath: (string, string)): Result<seq<Item>, PackageError>
  {
    var (alias, path) := aliasAndPath;
    if path !in fs then Err(MissingFile(path)) else Ok([FileItem("library:" + alias, fs[path])])
  }

  /** The assemblies and their config files, then the machine-wide config files. */
  function FileEntries(o: PackageOptions, fs: Files, files: seq<string>): Result<seq<Item>, PackageError>
  {
    Then(Then(Collect(url => AssemblyItems(o, fs, url), files),
              MaybeFileItems("systemconfig:", o.configFile, fs)),
         MaybeFileItems("machineconfig:", o.machineConfigFile, fs))
  }

  /** The config directory, the embedded options, the environment and the libraries. */
  function SettingEntries(o: PackageOptions, fs: Files): Result<seq<Item>, PackageError>
  {
    Then(Then(Then(ConfigDirItemsAsWritten(o.configDir, fs), OptionsItems(o.embeddedOptions)),
              Collect(EnvItems, o.environment)),
         Collect(kv => LibraryItems(fs, kv), o.libraries))
  }

  /** Everything after the runtime, in the order `GeneratePackage` adds it. */
  function Entries(o: PackageOptions, fs: Files, files: seq<string>): Result<seq<Item>, PackageError>
  {
    Then(FileEntries(o, fs, files), SettingEntries(o, fs))
  }

  /** The checks before the maker is created, then the items. */
  function Plan(o: PackageOptions, fs: Files, files: seq<string>): Result<seq<Item>, PackageError>
  {
    if o.runtime.None? then Err(NoRuntime)
    else if o.runtime.value !in fs then Err(MissingRuntime(o.runtime.value))
    else if o.ctorFunc.Some? then Err(StaticCtorUnsupported)
    else Entries(o, fs, files)
  }

  // ---------------------------------------------------------------------
  // Last write wins
  // ---------------------------------------------------------------------

  /** The item each entry name ends up with: the last one added under it. */
  function Final(items: seq<Item>): map<string, Item>
  {
    if items == [] then map[] else Final(items[..|items| - 1])[items[|items| - 1].entry := items[|items| - 1]]
  }

  predicate LastWith(items: seq<Item>, e: string, i: int)
  {
    0 <= i < |items| && items[i].entry == e && forall j :: i < j < |items| ==> items[j].entry != e
  }

  /** An entry name is recorded exactly when some item uses it, and it holds the last such item. */
  lemma {:induction false} FinalIsLast(items: seq<Item>, e: string)
    ensures e in Final(items) <==> exists i :: 0 <= i < |items| && items[i].entry == e
    ensures e in Final(items) ==> exists i :: LastWith(items, e, i) && Final(items)[e] == items[i]
  {
    if items != [] {
      var init, last := items[..|items| - 1], items[|items| - 1];
      FinalIsLast(init, e);
      if last.entry == e {
        assert LastWith(items, e, |items| - 1);
      } else if e in Final(init) {
        var i :| LastWith(init, e, i) && Final(init)[e] == init[i];
        assert LastWith(items, e, i);
      } else {
        forall i | 0 <= i < |items|
          ensures items[i].entry != e
        {
          if i < |init| {
            assert items[i] == init[i];
          }
        }
      }
    }
  }

  // ---------------------------------------------------------------------
  // The package the maker holds
  // ---------------------------------------------------------------------

  /** `bytes` sits at `offset` in `data`. */
  predicate Holds(data: seq<byte>, offset: int, bytes: seq<byte>)
  {
    0 <= offset && offset + |bytes| <= |data| && data[offset..offset + |bytes|] == bytes
  }

  /** Every recorded entry is the final item of its name: its size, and its payload at its offset. */
  predicate Stored(data: seq<byte>, locations: map<string, Location>, final: map<string, Item>)
  {
    && locations.Keys == final.Keys
    && forall e :: e in locations ==>
         && Writable(final[e])
         && locations[e].1 == Size(final[e])
         && Holds(data, locations[e].0, Payload(final[e]))
  }

  /** A write at or past the end keeps what is stored, and stores the new item. */
  lemma StoredWrite(data: seq<byte>, position: nat, locations: map<string, Location>, final: map<string, Item>, it: Item)
    requires Stored(data, locations, final) && |data| <= position && Writable(it)
    ensures Stored(WriteAt(data, position, Payload(it)), locations[it.entry := (position, Size(it))], final[it.entry := it])
  {
    var data' := WriteAt(data, position, Payload(it));
    assert data'[position..position + |Payload(it)|] == Payload(it);
    StoredExtended(data, data', locations, final);
  }

  /** Writing after the end keeps every byte already there. */
  lemma HoldsExtended(data: seq<byte>, data': seq<byte>, offset: int, bytes: seq<byte>)
    requires Holds(data, offset, bytes) && |data| <= |data'| && data'[..|data|] == data
    ensures Holds(data', offset, bytes)
  {
    assert data'[offset..offset + |bytes|] == data'[..|data|][offset..offset + |bytes|];
  }

  lemma StoredExtended(data: seq<byte>, data': seq<byte>, locations: map<string, Location>, final: map<string, Item>)
    requires Stored(data, locations, final) && |data| <= |data'| && data'[..|data|] == data
    ensures Stored(data', locations, final)
  {
    forall e | e in locations
      ensures Holds(data', locations[e].0, Payload(final[e]))
    {
      HoldsExtended(data, data', locations[e].0, Payload(final[e]));
    }
  }

  /**
   * The package while `GeneratePackage` adds items: the runtime at offset 0,
   * every entry after it, and each recorded entry holding its final item.
   */
  predicate Layout(data: seq<byte>, position: nat, locations: map<string, Location>, runtime: seq<byte>, items: seq<Item>)
  {
    && |runtime| < position
    && Holds(data, 0, runtime)
    && (forall e :: e in locations ==> |runtime| < locations[e].0)
    && Stored(data, locations, Final(items))
  }

  ghost predicate Started(maker: PackageMaker, runtime: seq<byte>, items: seq<Item>)
    reads maker
  {
    maker.Valid() && Layout(maker.data, maker.position, maker.locations, runtime, items)
  }

  /** `maker.Add(entry, fname)` for a file with the given content. */
  method PutFile(maker: PackageMaker, ghost runtime: seq<byte>, ghost items: seq<Item>, entry: string, content: seq<byte>)
    requires Started(maker, runtime, items)
    modifies maker
    ensures Started(maker, runtime, items + [FileItem(entry, content)])
    ensures maker.data == WriteAt(old(maker.data), old(maker.position), content)
    ensures maker.locations == old(maker.locations)[entry := (old(maker.position), Int32Wrap(|content|))]
  {
    ghost var data0, position0, locations0 := maker.data, maker.position, maker.locations;
    assert Layout(data0, position0, locations0, runtime, items) && |data0| <= position0;
    maker.Add(entry, content);
    PutKeeps(runtime, items, FileItem(entry, content), data0, position0, locations0, maker.data, maker.position, maker.locations);
  }

  /** `maker.AddString(entry, text)`. */
  method PutString(maker: PackageMaker, ghost runtime: seq<byte>, ghost items: seq<Item>, entry: string, text: string)
    requires Started(maker, runtime, items)
    modifies maker
    ensures Started(maker, runtime, items + [StringItem(entry, text)])
    ensures maker.data == WriteAt(old(maker.data), old(maker.position), Encode(text))
    ensures maker.locations == old(maker.locations)[entry := (old(maker.position), |Encode(text)|)]
  {
    ghost var data0, position0, locations0 := maker.data, maker.position, maker.locations;
    assert Layout(data0, position0, locations0, runtime, items) && |data0| <= position0;
    maker.AddString(entry, text);
    PutKeeps(runtime, items, StringItem(entry, text), data0, position0, locations0, maker.data, maker.position, maker.locations);
  }

  /** `maker.AddStringPair(entry, key, value)`; a key longer than 255 bytes writes nothing. */
  method PutPair(maker: PackageMaker, ghost runtime: seq<byte>, ghost items: seq<Item>, entry: string, key: string, value: string)
    returns (ok: bool)
    requires Started(maker, runtime, items)
    modifies maker
    ensures ok <==> |Encode(key)| <= 255
    ensures ok ==> Started(maker, runtime, items + [PairItem(entry, key, value)])
    ensures ok ==> maker.data == WriteAt(old(maker.data), old(maker.position), KeyValueBytes(key, value))
    ensures ok ==> maker.locations == old(maker.locations)[entry := (old(maker.position), |Encode(key)| + |Encode(value)| + 3)]
  {
    ghost var data0, position0, locations0 := maker.data, maker.position, maker.locations;
    assert Layout(data0, position0, locations0, runtime, items) && |data0| <= position0;
    ok := maker.AddStringPair(entry, key, value);
    if ok {
      ghost var it := PairItem(entry, key, value);
      assert Writable(it);
      assert Payload(it) == KeyValueBytes(key, value);
      assert Size(it) == |Encode(key)| + |Encode(value)| + 3;
      assert maker.data == WriteAt(data0, position0, Payload(it));
      assert maker.position == NextBlock(|maker.data|);
      assert maker.locations == locations0[entry := (position0, Size(it))];
      PutKeeps(runtime, items, it, data0, position0, locations0, maker.data, maker.position, maker.locations);
    }
  }

  /** An item written at the position keeps the layout, with the item recorded last. */
  lemma PutKeeps(runtime: seq<byte>, items: seq<Item>, it: Item, data: seq<byte>, position: nat, locations: map<string, Location>,
                 data': seq<byte>, position': nat, locations': map<string, Location>)
    requires Writable(it) && |data| <= position
    requires Layout(data, position, locations, runtime, items)
    requires data' == WriteAt(data, position, Payload(it))
    requires position' == NextBlock(|data'|)
    requires locations' == locations[it.entry := (position, Size(it))]
    ensures Layout(data', position', locations', runtime, items + [it])
  {
    assert (items + [it])[..|items|] == items;
    StoredWrite(data, position, locations, Final(items), it);
    HoldsExtended(data, data', 0, runtime);
  }

  // ---------------------------------------------------------------------
  // `GeneratePackage`
  // ---------------------------------------------------------------------

  lemma {:induction false} CollectPrefixError<T>(f: T -> Result<seq<Item>, PackageError>, xs: seq<T>, i: nat)
    requires i <= |xs| && Collect(f, xs[..i]).Err?
    ensures Collect(f, xs) == Collect(f, xs[..i])
    decreases |xs| - i
  {
    if i < |xs| {
      assert xs[..i + 1][..i] == xs[..i];
      CollectPrefixError(f, xs, i + 1);
    } else {
      assert xs[..i] == xs;
    }
  }

  lemma CollectStep<T>(f: T -> Result<seq<Item>, PackageError>, xs: seq<T>, i: nat)
    requires i < |xs| && Collect(f, xs[..i]).Ok?
    ensures Collect(f, xs[..i + 1])
        == if f(xs[i]).Err? then f(xs[i]) else Ok(Collect(f, xs[..i]).value + f(xs[i]).value)
  {
    assert xs[..i + 1][..i] == xs[..i];
  }

  lemma Associative<T>(a: seq<T>, b: seq<T>, c: seq<T>)
    ensures a + b + c == a + (b + c)
  {
  }

  /** The loop over `files`: each located assembly, then its `.config` when one exists. */
  method AddAssemblies(maker: PackageMaker, o: PackageOptions, fs: Files, files: seq<string>,
                       ghost runtime: seq<byte>, ghost done: seq<Item>)
    returns (err: Option<PackageError>)
    requires Started(maker, runtime, done)
    modifies maker
    ensures var c := Collect(url => AssemblyItems(o, fs, url), files);
      && (c.Err? ==> err == Some(c.error))
      && (c.Ok? ==> err.None? && Started(maker, runtime, done + c.value))
  {
    ghost var f := url => AssemblyItems(o, fs, url);
    assert files[..0] == [] && done + Collect(f, files[..0]).value == done;
    for i := 0 to |files|
      invariant Collect(f, files[..i]).Ok?
      invariant Started(maker, runtime, done + Collect(f, files[..i]).value)
    {
      ghost var sofar := done + Collect(f, files[..i]).value;
      CollectStep(f, files, i);
      var e := AddAssembly(maker, o, fs, files[i], runtime, sofar);
      if e.Some? {
        CollectPrefixError(f, files, i + 1);
        return e;
      }
      Associative(done, Collect(f, files[..i]).value, f(files[i]).value);
    }
    assert files[..|files|] == files;
    return None;
  }

  /** The body of the loop over `files` for one url. */
  method AddAssembly(maker: PackageMaker, o: PackageOptions, fs: Files, url: string,
                     ghost runtime: seq<byte>, ghost done: seq<Item>)
    returns (err: Option<PackageError>)
    requires Started(maker, runtime, done)
    modifies maker
    ensures var c := AssemblyItems(o, fs, url);
      && (c.Err? ==> err == Some(c.error))
      && (c.Ok? ==> err.None? && Started(maker, runtime, done + c.value))
  {
    var located := LocateFile(fs, o.cwd, url);
    if located.None? {
      return Some(MissingAssembly(url));
    }
    var fname := located.value;
    var aname := GetAssemblyName(fname, o.style);
    var assembly := FileItem("assembly:" + aname, fs[fname]);
    PutFile(maker, runtime, done, assembly.entry, assembly.content);
    if fname + ".config" in fs {
      var config := FileItem("config:" + aname, fs[fname + ".config"]);
      PutFile(maker, runtime, done + [assembly], config.entry, config.content);
      Associative(done, [assembly], [config]);
    }
    return None;
  }

  /** `MaybeAddFile(maker, code, file)`. */
  method MaybeAddFile(maker: PackageMaker, code: string, file: Option<string>, fs: Files,
                      ghost runtime: seq<byte>, ghost done: seq<Item>)
    returns (err: Option<PackageError>)
    requires Started(maker, runtime, done)
    modifies maker
    ensures var c := MaybeFileItems(code, file, fs);
      && (c.Err? ==> err == Some(c.error))
      && (c.Ok? ==> err.None? && Started(maker, runtime, done + c.value))
  {
    if file.None? {
      assert done + [] == done;
      return None;
    }
    if file.value !in fs {
      return Some(MissingFile(file.value));
    }
    PutFile(maker, runtime, done, code, fs[file.value]);
    return None;
  }

  /** The `foreach` over `Environment`. */
  method AddEnvironment(maker: PackageMaker, environment: seq<(string, string)>,
                        ghost runtime: seq<byte>, ghost done: seq<Item>)
    returns (err: Option<PackageError>)
    requires Started(maker, runtime, done)
    modifies maker
    ensures var c := Collect(EnvItems, environment);
      && (c.Err? ==> err == Some(c.error))
      && (c.Ok? ==> err.None? && Started(maker, runtime, done + c.value))
  {
    assert environment[..0] == [] && done + Collect(EnvItems, environment[..0]).value == done;
    for i := 0 to |environment|
      invariant Collect(EnvItems, environment[..i]).Ok?
      invariant Started(maker, runtime, done + Collect(EnvItems, environment[..i]).value)
    {
      ghost var sofar := done + Collect(EnvItems, environment[..i]).value;
      CollectStep(EnvItems, environment, i);
      var (key, value) := environment[i];
      var ok := PutPair(maker, runtime, sofar, "env:" + key, key, value);
      if !ok {
        CollectPrefixError(EnvItems, environment, i + 1);
        return Some(KeyTooLong(key));
      }
      Associative(done, Collect(EnvItems, environment[..i]).value, EnvItems(environment[i]).value);
    }
    assert environment[..|environment|] == environment;
    return None;
  }

  /** The `foreach` over `Libraries`. */
  method AddLibraries(maker: PackageMaker, fs: Files, libraries: seq<(string, string)>,
                      ghost runtime: seq<byte>, ghost done: seq<Item>)
    returns (err: Option<PackageError>)
    requires Started(maker, runtime, done)
    modifies maker
    ensures var c := Collect(kv => LibraryItems(fs, kv), libraries);
      && (c.Err? ==> err == Some(c.error))
      && (c.Ok? ==> err.None? && Started(maker, runtime, done + c.value))
  {
    ghost var f := kv => LibraryItems(fs, kv);
    assert libraries[..0] == [] && done + Collect(f, libraries[..0]).value == done;
    for i := 0 to |libraries|
      invariant Collect(f, libraries[..i]).Ok?
      invariant Started(maker, runtime, done + Collect(f, libraries[..i]).value)
    {
      ghost var sofar := done + Collect(f, libraries[..i]).value;
      CollectStep(f, libraries, i);
      var (alias, path) := libraries[i];
      if path !in fs {
        CollectPrefixError(f, libraries, i + 1);
        return Some(MissingFile(path));
      }
      PutFile(maker, runtime, sofar, "library:" + alias, fs[path]);
      Associative(done, Collect(f, libraries[..i]).value, f(libraries[i]).value);
    }
    assert libraries[..|libraries|] == libraries;
    return None;
  }

  /** The assemblies, then `systemconfig:` and `machineconfig:`. */
  method AddFiles(maker: PackageMaker, o: PackageOptions, fs: Files, files: seq<string>, ghost runtime: seq<byte>)
    returns (err: Option<PackageError>)
    requires Started(maker, runtime, [])
    modifies maker
    ensures FileEntries(o, fs, files).Err? ==> err == Some(FileEntries(o, fs, files).error)
    ensures FileEntries(o, fs, files).Ok? ==> err.None? && Started(maker, runtime, FileEntries(o, fs, files).value)
  {
    var assemblies := Collect(url => AssemblyItems(o, fs, url), files);
    err := AddAssemblies(maker, o, fs, files, runtime, []);
    if err.Some? {
      return;
    }
    assert [] + assemblies.value == assemblies.value;
    var system := MaybeFileItems("systemconfig:", o.configFile, fs);
    err := MaybeAddFile(maker, "systemconfig:", o.configFile, fs, runtime, assemblies.value);
    if err.Some? {
      return;
    }
    var machine := MaybeFileItems("machineconfig:", o.machineConfigFile, fs);
    err := MaybeAddFile(maker, "machineconfig:", o.machineConfigFile, fs, runtime, assemblies.value + system.value);
  }

  /** `config_dir:`, `options:`, the `env:` pairs and the `library:` files. */
  method AddSettings(maker: PackageMaker, o: PackageOptions, fs: Files, ghost runtime: seq<byte>, ghost done: seq<Item>)
    returns (err: Option<PackageError>)
    requires Started(maker, runtime, done)
    modifies maker
    ensures SettingEntries(o, fs).Err? ==> err == Some(SettingEntries(o, fs).error)
    ensures SettingEntries(o, fs).Ok? ==> err.None? && Started(maker, runtime, done + SettingEntries(o, fs).value)
  {
    err := MaybeAddFile(maker, "config_dir:", o.configDir, fs, runtime, done);
    if err.Some? {
      return;
    }
    ghost var dir := ConfigDirItemsAsWritten(o.configDir, fs).value;
    ghost var fixed := dir + OptionsItems(o.embeddedOptions).value;
    AddOptions(maker, o, runtime, done + dir);
    Associative(done, dir, OptionsItems(o.embeddedOptions).value);
    var env := Collect(EnvItems, o.environment);
    err := AddEnvironment(maker, o.environment, runtime, done + fixed);
    if err.Some? {
      return;
    }
    Associative(done, fixed, env.value);
    var libraries := Collect(kv => LibraryItems(fs, kv), o.libraries);
    err := AddLibraries(maker, fs, o.libraries, runtime, done + (fixed + env.value));
    if libraries.Ok? {
      Associative(done, fixed + env.value, libraries.value);
    }
  }

  /** `options:`, when set. */
  method AddOptions(maker: PackageMaker, o: PackageOptions, ghost runtime: seq<byte>, ghost done: seq<Item>)
    requires Started(maker, runtime, done)
    modifies maker
    ensures Started(maker, runtime, done + OptionsItems(o.embeddedOptions).value)
  {
    if o.embeddedOptions.Some? {
      PutString(maker, runtime, done, "options:", o.embeddedOptions.value);
    } else {
      assert done + [] == done;
    }
  }

  /** Every entry after the runtime. */
  method AddEntries(maker: PackageMaker, o: PackageOptions, fs: Files, files: seq<string>, ghost runtime: seq<byte>)
    returns (err: Option<PackageError>)
    requires Started(maker, runtime, [])
    modifies maker
    ensures Entries(o, fs, files).Err? ==> err == Some(Entries(o, fs, files).error)
    ensures Entries(o, fs, files).Ok? ==> err.None? && Started(maker, runtime, Entries(o, fs, files).value)
  {
    err := AddFiles(maker, o, fs, files, runtime);
    if err.Some? {
      return;
    }
    err := AddSettings(maker, o, fs, runtime, FileEntries(o, fs, files).value);
  }

  /** The runtime alone in the maker: at offset 0, with no entry. */
  lemma RuntimeFirst(runtime: seq<byte>, data: seq<byte>, position: nat)
    requires data == WriteAt([], 0, runtime) && position == NextBlock(|data|)
    ensures Layout(data, position, map[], runtime, [])
  {
    assert data[0..|runtime|] == runtime;
  }

  /**
   * The container file: the runtime at offset 0, every entry at a block
   * after it holding the last item added under its name, and an index that
   * reads back as the entries whenever their values fit its fields.
   */
  predicate Packaged(bytes: seq<byte>, locations: map<string, Location>, runtime: seq<byte>, items: seq<Item>)
  {
    && Holds(bytes, 0, runtime)
    && (forall e :: e in locations ==> |runtime| < locations[e].0 && locations[e].0 % ALIGN == 0)
    && Stored(bytes, locations, Final(items))
    && (IndexFits(locations, 0) && |bytes| < TWO_63 ==> ParseIndex(bytes) == Some(locations))
  }

  /** `GeneratePackage(files)`: the checks, then the package. */
  method GeneratePackage(o: PackageOptions, fs: Files, files: seq<string>)
    returns (r: Result<seq<byte>, PackageError>, ghost locations: map<string, Location>)
    ensures Plan(o, fs, files).Err? ==> r == Err(Plan(o, fs, files).error)
    ensures Plan(o, fs, files).Ok? ==> r.Ok? && Packaged(r.value, locations, fs[o.runtime.value], Plan(o, fs, files).value)
  {
    if o.runtime.None? {
      return Err(NoRuntime), map[];
    }
    var runtime := o.runtime.value;
    if runtime !in fs {
      return Err(MissingRuntime(runtime)), map[];
    }
    if o.ctorFunc.Some? {
      return Err(StaticCtorUnsupported), map[];
    }
    r, locations := WritePackage(o, fs, files, fs[runtime]);
  }

  /** The maker's life: the runtime with `AddFile`, every entry, then `Close`. */
  method WritePackage(o: PackageOptions, fs: Files, files: seq<string>, runtime: seq<byte>)
    returns (r: Result<seq<byte>, PackageError>, ghost locations: map<string, Location>)
    ensures Entries(o, fs, files).Err? ==> r == Err(Entries(o, fs, files).error)
    ensures Entries(o, fs, files).Ok? ==> r.Ok? && Packaged(r.value, locations, runtime, Entries(o, fs, files).value)
  {
    var maker := Start(runtime);
    var err := AddEntries(maker, o, fs, files, runtime);
    if err.Some? {
      return Err(err.value), map[];
    }
    var bytes;
    bytes, locations := Finish(maker, runtime, Entries(o, fs, files).value);
    r := Ok(bytes);
  }

  /** A new maker with the runtime copied in by `AddFile`. */
  method Start(runtime: seq<byte>) returns (maker: PackageMaker)
    ensures fresh(maker) && Started(maker, runtime, [])
  {
    maker := new PackageMaker();
    var _ := maker.AddFile(runtime);
    RuntimeFirst(runtime, maker.data, maker.position);
  }

  /** `Dump` and `Close`: the index is appended and the file is complete. */
  method Finish(maker: PackageMaker, ghost runtime: seq<byte>, ghost items: seq<Item>)
    returns (bytes: seq<byte>, ghost locations: map<string, Location>)
    requires Started(maker, runtime, items)
    modifies maker
    ensures Packaged(bytes, locations, runtime, items)
    ensures locations == old(maker.locations)
  {
    locations := maker.locations;
    ghost var data, position := maker.data, maker.position;
    assert Layout(data, position, locations, runtime, items) && |data| <= position;
    assert forall e :: e in locations ==> locations[e].0 % ALIGN == 0;
    maker.Close();
    Closed(data, position, maker.data, locations, runtime, items);
    bytes := maker.data;
  }

  /** Closing appends the index after everything the maker holds. */
  lemma Closed(data: seq<byte>, position: nat, data': seq<byte>, locations: map<string, Location>,
               runtime: seq<byte>, items: seq<Item>)
    requires Layout(data, position, locations, runtime, items) && |data| <= position
    requires forall e :: e in locations ==> locations[e].0 % ALIGN == 0
    requires |data'| >= position && data'[..position] == data + Zeros(position - |data|)
    requires IndexFits(locations, position) ==> ParseIndex(data') == Some(locations)
    ensures Packaged(data', locations, runtime, items)
  {
    assert data'[..|data|] == data'[..position][..|data|];
    HoldsExtended(data, data', 0, runtime);
    StoredExtended(data, data', locations, Final(items));
  }

  // ---------------------------------------------------------------------
  // Properties of the plan
  // ---------------------------------------------------------------------

  /** When every element succeeds, each contributes all its items. */
  lemma {:induction false} CollectOk<T>(f: T -> Result<seq<Item>, PackageError>, xs: seq<T>)
    requires Collect(f, xs).Ok?
    ensures forall i :: 0 <= i < |xs| ==> f(xs[i]).Ok? && forall it :: it in f(xs[i]).value ==> it in Collect(f, xs).value
    decreases |xs|
  {
    if xs != [] {
      var init := xs[..|xs| - 1];
      CollectOk(f, init);
      forall i | 0 <= i < |init|
        ensures xs[i] == init[i]
      {
      }
    }
  }

  /**
   * Every queued assembly of a package that can be written is recorded as
   * `assembly:` followed by the canonical name of the file it was located
   * at, and its config file, when one exists, as `config:` with that name.
   */
  lemma PlanAssemblies(o: PackageOptions, fs: Files, files: seq<string>, i: int)
    requires Plan(o, fs, files).Ok? && 0 <= i < |files|
    ensures LocateFile(fs, o.cwd, files[i]).Some?
    ensures var fname := LocateFile(fs, o.cwd, files[i]).value;
      && "assembly:" + GetAssemblyName(fname, o.style) in Final(Plan(o, fs, files).value)
      && (fname + ".config" in fs ==> "config:" + GetAssemblyName(fname, o.style) in Final(Plan(o, fs, files).value))
  {
    var f := url => AssemblyItems(o, fs, url);
    var items := Plan(o, fs, files).value;
    AssembliesPlanned(o, fs, files);
    CollectOk(f, files);
    var mine := f(files[i]).value;
    InFinal(items, mine[0]);
    if |mine| == 2 {
      InFinal(items, mine[1]);
    }
  }

  /** The items of the assembly loop are among the items of the package. */
  lemma AssembliesPlanned(o: PackageOptions, fs: Files, files: seq<string>)
    requires Plan(o, fs, files).Ok?
    ensures Collect(url => AssemblyItems(o, fs, url), files).Ok?
    ensures forall it :: it in Collect(url => AssemblyItems(o, fs, url), files).value ==> it in Plan(o, fs, files).value
  {
    var c := Collect(url => AssemblyItems(o, fs, url), files);
    var system := MaybeFileItems("systemconfig:", o.configFile, fs);
    var machine := MaybeFileItems("machineconfig:", o.machineConfigFile, fs);
    assert FileEntries(o, fs, files).value == c.value + system.value + machine.value;
  }

  /** An item's name is recorded in the final map. */
  lemma InFinal(items: seq<Item>, it: Item)
    requires it in items
    ensures it.entry in Final(items)
  {
    FinalIsLast(items, it.entry);
  }

  /** A path that is no file leaves the as-written config directory step failing, where the corrected one records the path. */
  lemma ConfigDirAsWritten(dir: string, fs: Files)
    requires dir !in fs
    ensures ConfigDirItemsAsWritten(Some(dir), fs) == Err(MissingFile(dir))
    ensures ConfigDirItems(Some(dir)) == Ok([StringItem("config_dir:", dir)])
  {
  }

  /** The corrected `config_dir:` entry decodes back to the directory's path. */
  lemma ConfigDirRoundTrip(dir: string)
    ensures Decode(Payload(ConfigDirItems(Some(dir)).value[0])) == Some(dir)
  {
    DecodeEncode(dir);
  }
}
