/**
 * `GenerateBundles`: the assembler file (`temp.s`) that embeds every queued
 * assembly and config file, and the C lines (`temp.c`) that declare those
 * blobs, list the bundle descriptors in `files` order, register the AOT
 * modules and select the AOT mode.
 *
 * Only the generated text is modelled; the fixed C preamble, the embedded C
 * templates and the assembler and compiler runs are not.
 */
module Bundles {
  import opened Wrappers
  import opened Bytes
  import opened AssemblyNames
  import opened Symbols
  import opened Assembler
  import opened FileSystem

  // ---------------------------------------------------------------------
  // AOT mode
  // ---------------------------------------------------------------------

  datatype AotMode = Normal | Full | LlvmOnly

  /** The `switch (_aotMode)`: any other string throws "Unsupported AOT mode". */
  function ParseAotMode(s: string): Option<AotMode>
  {
    if s == "full" then Some(Full)
    else if s == "llvmonly" then Some(LlvmOnly)
    else if s == "" then Some(Normal)
    else None
  }

  /** The `--aot` setting that selects a mode. */
  function AotModeName(m: AotMode): string
  {
    match m
    case Normal => ""
    case Full => "full"
    case LlvmOnly => "llvmonly"
  }

  function AotModeEnum(m: AotMode): string
  {
    match m
    case Normal => "MONO_AOT_MODE_NORMAL"
    case Full => "MONO_AOT_MODE_FULL"
    case LlvmOnly => "MONO_AOT_MODE_LLVMONLY"
  }

  /** Exactly the three settings are accepted, each selecting its own mode. */
  lemma AotModeInverse(s: string, m: AotMode)
    ensures ParseAotMode(s) == Some(m) <==> s == AotModeName(m)
  {
    if s == AotModeName(m) {
      match m
      case Normal =>
        assert s != "full" && s != "llvmonly";
      case Full =>
      case LlvmOnly =>
        assert s != "full";
    }
  }

  /** The three modes get three different enumerators. */
  lemma AotModeEnumInjective(m1: AotMode, m2: AotMode)
    ensures AotModeEnum(m1) == AotModeEnum(m2) <==> m1 == m2
  {
  }

  // ---------------------------------------------------------------------
  // Inputs
  // ---------------------------------------------------------------------

  /** The settings `GenerateBundles` reads. */
  datatype Options = Options(
    style: Style,
    target64: bool,
    compress: bool,
    cwd: string,
    configFile: Option<string>,
    machineConfigFile: Option<string>,
    aotMode: string,
    aotNames: seq<string>,
    ctorFunc: Option<string>,
    configDir: Option<string>)

  datatype BundleError =
    | MissingAssembly(path: string)
    | ConfigOpenFailure(path: string)
    | UnsupportedAotMode(mode: string)

  /** What the two loops over `files` know about one queued assembly. */
  datatype Entry = Entry(
    fname: string,
    aname: string,
    encoded: string,
    data: seq<byte>,
    realSize: nat,
    config: Option<seq<byte>>)

  /**
   * One located assembly: its canonical name, the escaped symbol, the bytes
   * to embed (the gzip output under `-z`), its real size and its
   * `<file>.config`, when that exists.
   */
  function MakeEntry(o: Options, gzip: seq<byte> -> seq<byte>, fs: Files, fname: string): Entry
    requires fname in fs
  {
    var raw := fs[fname];
    var aname := GetAssemblyName(fname, o.style);
    var configPath := fname + ".config";
    Entry(fname, aname, EscapeDataSymbol(aname), if o.compress then gzip(raw) else raw, |raw|,
          if configPath in fs then Some(fs[configPath]) else None)
  }

  /** `Body(url)`: locate the file and read it; `LocateFile` throws when neither candidate exists. */
  function ReadEntry(o: Options, gzip: seq<byte> -> seq<byte>, fs: Files, url: string): Result<Entry, BundleError>
  {
    var located := LocateFile(fs, o.cwd, url);
    if located.None? then Err(MissingAssembly(url)) else Ok(MakeEntry(o, gzip, fs, located.value))
  }

  /** Reads every url in order; the first failure ends the run. */
  function ReadAll<T>(read: string -> Result<T, BundleError>, files: seq<string>): Result<seq<T>, BundleError>
    decreases |files|
  {
    if files == [] then Ok([])
    else
      var prefix := ReadAll(read, files[..|files| - 1]);
      if prefix.Err? then prefix
      else
        var r := read(files[|files| - 1]);
        if r.Err? then Err(r.error) else Ok(prefix.value + [r.value])
  }

  /** The reading loop of `GenerateBundles` over `files`. */
  function Entries(o: Options, gzip: seq<byte> -> seq<byte>, fs: Files, files: seq<string>): Result<seq<Entry>, BundleError>
  {
    ReadAll(url => ReadEntry(o, gzip, fs, url), files)
  }

  /** When every read succeeds, result `i` is what url `i` read to. */
  lemma {:induction false} ReadAllOk<T>(read: string -> Result<T, BundleError>, files: seq<string>)
    requires ReadAll(read, files).Ok?
    ensures |ReadAll(read, files).value| == |files|
    ensures forall i :: 0 <= i < |files| ==> read(files[i]).Ok? && ReadAll(read, files).value[i] == read(files[i]).value
    decreases |files|
  {
    if files != [] {
      var init := files[..|files| - 1];
      ReadAllOk(read, init);
      forall i | 0 <= i < |init|
        ensures files[i] == init[i]
      {
      }
    }
  }

  /** When a read fails, the error is that of the first url that could not be read. */
  lemma {:induction false} ReadAllErr<T>(read: string -> Result<T, BundleError>, files: seq<string>)
    requires ReadAll(read, files).Err?
    ensures exists i :: FirstFailure(read, files, i) && ReadAll(read, files).error == read(files[i]).error
    decreases |files|
  {
    var init := files[..|files| - 1];
    if ReadAll(read, init).Err? {
      ReadAllErr(read, init);
      var i :| FirstFailure(read, init, i) && ReadAll(read, init).error == read(init[i]).error;
      assert forall j :: 0 <= j <= i ==> files[j] == init[j];
      assert FirstFailure(read, files, i);
    } else {
      ReadAllOk(read, init);
      assert forall j :: 0 <= j < |init| ==> files[j] == init[j];
      assert FirstFailure(read, files, |init|);
    }
  }

  /** Url `i` is the first whose read fails. */
  predicate FirstFailure<T>(read: string -> Result<T, BundleError>, files: seq<string>, i: int)
  {
    && 0 <= i < |files|
    && (forall j :: 0 <= j < i ==> read(files[j]).Ok?)
    && read(files[i]).Err?
  }

  predicate Located(o: Options, fs: Files, url: string)
  {
    LocateFile(fs, o.cwd, url).Some?
  }

  /** When the reading loop succeeds, entry `i` is the entry of the file url `i` located to. */
  lemma EntriesOk(o: Options, gzip: seq<byte> -> seq<byte>, fs: Files, files: seq<string>)
    requires Entries(o, gzip, fs, files).Ok?
    ensures |Entries(o, gzip, fs, files).value| == |files|
    ensures forall i :: 0 <= i < |files| ==>
      (Located(o, fs, files[i]) && Entries(o, gzip, fs, files).value[i] == MakeEntry(o, gzip, fs, LocateFile(fs, o.cwd, files[i]).value))
  {
    ReadAllOk(url => ReadEntry(o, gzip, fs, url), files);
  }

  /** When it fails, it names the first url that could not be located. */
  lemma EntriesErr(o: Options, gzip: seq<byte> -> seq<byte>, fs: Files, files: seq<string>)
    requires Entries(o, gzip, fs, files).Err?
    ensures exists i :: FirstMissing(o, fs, files, i) && Entries(o, gzip, fs, files).error == MissingAssembly(files[i])
  {
    var read := url => ReadEntry(o, gzip, fs, url);
    ReadAllErr(read, files);
    var i :| FirstFailure(read, files, i) && ReadAll(read, files).error == read(files[i]).error;
    FirstFailureIsMissing(o, gzip, fs, files, i);
  }

  lemma FirstFailureIsMissing(o: Options, gzip: seq<byte> -> seq<byte>, fs: Files, files: seq<string>, i: int)
    requires FirstFailure(url => ReadEntry(o, gzip, fs, url), files, i)
    ensures FirstMissing(o, fs, files, i)
    ensures ReadEntry(o, gzip, fs, files[i]).error == MissingAssembly(files[i])
  {
    forall j | 0 <= j < i
      ensures Located(o, fs, files[j])
    {
      assert ReadEntry(o, gzip, fs, files[j]).Ok?;
    }
  }

  /** Url `i` is the first that cannot be located. */
  predicate FirstMissing(o: Options, fs: Files, files: seq<string>, i: int)
  {
    && 0 <= i < |files|
    && (forall j :: 0 <= j < i ==> Located(o, fs, files[j]))
    && !Located(o, fs, files[i])
  }

  // ---------------------------------------------------------------------
  // What each entry contributes
  // ---------------------------------------------------------------------

  function DataSymbol(e: Entry): string { "assembly_data_" + e.encoded }
  function ConfigSymbol(e: Entry): string { "assembly_config_" + e.encoded }
  function BundleName(e: Entry): string { "assembly_bundle_" + e.encoded }

  function ExternLine(symbol: string): string
  {
    "extern const unsigned char " + symbol + " [];"
  }

  /** The descriptor: `CompressedAssembly` with the compressed length under `-z`, `MonoBundledAssembly` otherwise. */
  function DescriptorLine(compress: bool, e: Entry): string
  {
    if compress then
      "static CompressedAssembly " + BundleName(e) + " = {{\"" + e.aname + "\", " + DataSymbol(e) + ", "
        + DecimalText(e.realSize) + "}, " + DecimalText(|e.data|) + "};"
    else
      "static const MonoBundledAssembly " + BundleName(e) + " = {\"" + e.aname + "\", " + DataSymbol(e) + ", "
        + DecimalText(e.realSize) + "};"
  }

  /** The symbols of `temp.s` the entry defines, in order. */
  function EntryBlocks(e: Entry): seq<Block>
  {
    [Block(DataSymbol(e), |e.data|, e.data, false, false)]
      + if e.config.Some? then [Block(ConfigSymbol(e), |e.config.value|, e.config.value, false, true)] else []
  }

  function EntryLines(compress: bool, e: Entry): seq<string>
  {
    [ExternLine(DataSymbol(e)), DescriptorLine(compress, e)]
      + if e.config.Some? then [ExternLine(ConfigSymbol(e))] else []
  }

  function ConfigRegistration(e: Entry): string
  {
    "\tmono_register_config_for_assembly (\"" + e.aname + "\", " + ConfigSymbol(e) + ");\n"
  }

  // The accumulations of the embedding loop.

  function AllBlocks(es: seq<Entry>): seq<Block>
  {
    if es == [] then [] else AllBlocks(es[..|es| - 1]) + EntryBlocks(es[|es| - 1])
  }

  function AllLines(compress: bool, es: seq<Entry>): seq<string>
  {
    if es == [] then [] else AllLines(compress, es[..|es| - 1]) + EntryLines(compress, es[|es| - 1])
  }

  /** `cBundleNames`: one descriptor per entry, in `files` order. */
  function BundleNames(es: seq<Entry>): (r: seq<string>)
    ensures |r| == |es|
    ensures forall i :: 0 <= i < |es| ==> r[i] == BundleName(es[i])
  {
    if es == [] then [] else BundleNames(es[..|es| - 1]) + [BundleName(es[|es| - 1])]
  }

  /** `configNames`, already turned into their registration lines. */
  function ConfigRegistrations(es: seq<Entry>): seq<string>
  {
    if es == [] then []
    else
      var last := es[|es| - 1];
      ConfigRegistrations(es[..|es| - 1]) + if last.config.Some? then [ConfigRegistration(last)] else []
  }

  // ---------------------------------------------------------------------
  // The rest of the output
  // ---------------------------------------------------------------------

  /**
   * Corrected: a machine-wide config file, its bytes and a NUL terminator,
   * declaring the number of bytes that follow the label.
   */
  function ConfigFileBlock(name: string, path: string, content: seq<byte>): Block
  {
    Block(name, |content| + 1, content, true, true)
  }

  /** A machine-wide config file as written: the length of its path is declared as the size of its symbol. */
  function ConfigFileBlockAsWritten(name: string, path: string, content: seq<byte>): Block
  {
    Block(name, |path|, content, true, true)
  }

  /** The machine-wide config blocks `GenerateBundles` writes: `system_config`, then `machine_config`. */
  function SystemBlocks(o: Options, fs: Files): seq<Block>
    requires o.configFile.Some? ==> o.configFile.value in fs
    requires o.machineConfigFile.Some? ==> o.machineConfigFile.value in fs
  {
    (if o.configFile.Some? then [ConfigFileBlockAsWritten("system_config", o.configFile.value, fs[o.configFile.value])] else [])
      + if o.machineConfigFile.Some? then
          [ConfigFileBlockAsWritten("machine_config", o.machineConfigFile.value, fs[o.machineConfigFile.value])]
        else []
  }

  /** Corrected: the same blocks declaring their true sizes. */
  function SystemBlocksCorrected(o: Options, fs: Files): seq<Block>
    requires o.configFile.Some? ==> o.configFile.value in fs
    requires o.machineConfigFile.Some? ==> o.machineConfigFile.value in fs
  {
    (if o.configFile.Some? then [ConfigFileBlock("system_config", o.configFile.value, fs[o.configFile.value])] else [])
      + if o.machineConfigFile.Some? then
          [ConfigFileBlock("machine_config", o.machineConfigFile.value, fs[o.machineConfigFile.value])]
        else []
  }

  function SystemExterns(o: Options): seq<string>
  {
    (if o.configFile.Some? then ["extern const char system_config;"] else [])
      + if o.machineConfigFile.Some? then ["extern const char machine_config;"] else []
  }

  /** One line per item, in order: the `foreach` loops that write a formatted line per name. */
  function Lines(format: string -> string, items: seq<string>): (r: seq<string>)
    ensures |r| == |items|
    ensures forall i :: 0 <= i < |items| ==> r[i] == format(items[i])
  {
    if items == [] then [] else Lines(format, items[..|items| - 1]) + [format(items[|items| - 1])]
  }

  method WriteLines(format: string -> string, items: seq<string>) returns (r: seq<string>)
    ensures r == Lines(format, items)
  {
    r := [];
    for i := 0 to |items|
      invariant r == Lines(format, items[..i])
    {
      assert items[..i + 1][..i] == items[..i];
      r := r + [format(items[i])];
    }
    assert items[..|items|] == items;
  }

  function ArrayHeader(compress: bool): string
  {
    if compress then "\nstatic const CompressedAssembly *compressed [] = {"
    else "\nstatic const MonoBundledAssembly *bundled [] = {"
  }

  const ARRAY_END: string := "\tNULL\n};\n"

  function DescriptorRef(name: string): string { "\t&" + name + "," }

  /** The descriptor array, NULL terminated. */
  function DescriptorArray(compress: bool, names: seq<string>): (r: seq<string>)
  {
    [ArrayHeader(compress)] + Lines(DescriptorRef, names) + [ARRAY_END]
  }

  function AotExtern(asm: string): string
  {
    "\textern const void *mono_aot_module_" + asm + "_info;"
  }

  function AotRegistration(asm: string): string
  {
    "\tmono_aot_register_module (mono_aot_module_" + asm + "_info);\n"
  }

  function AotModeLine(m: AotMode): string
  {
    "\tmono_jit_set_aot_mode (" + AotModeEnum(m) + ");"
  }

  const INSTALL_AOT: string := "\nstatic void install_aot_modules (void) {\n"
  const AOT_END: string := "\n}\n"

  function AotLines(aotNames: seq<string>, m: AotMode): seq<string>
  {
    Lines(AotExtern, aotNames) + [INSTALL_AOT] + Lines(AotRegistration, aotNames) + [AotModeLine(m), AOT_END]
  }

  /** `prog`: the canonical name of the first assembly (an empty string when there is none). */
  function ImageNameLine(es: seq<Entry>): string
  {
    "static char *image_name = \"" + (if es == [] then "" else es[0].aname) + "\";"
  }

  function CtorLines(o: Options): seq<string>
  {
    if o.ctorFunc.None? then []
    else
      ["\nextern void " + o.ctorFunc.value + " (void);",
       "\n__attribute__ ((constructor)) static void mono_mkbundle_ctor (void)",
       "{\n\t" + o.ctorFunc.value + " ();\n}"]
  }

  const INSTALL_CONFIG: string := "\nstatic void install_dll_config_files (void) {\n"
  const PARSE_SYSTEM_CONFIG: string := "\tmono_config_parse_memory (&system_config);\n"
  const REGISTER_MACHINE_CONFIG: string := "\tmono_register_machine_config (&machine_config);\n"
  const INSTALL_END: string := "}\n"

  function ConfigInstallLines(o: Options, es: seq<Entry>): seq<string>
  {
    [INSTALL_CONFIG] + ConfigRegistrations(es)
      + (if o.configFile.Some? then [PARSE_SYSTEM_CONFIG] else [])
      + (if o.machineConfigFile.Some? then [REGISTER_MACHINE_CONFIG] else [])
      + [INSTALL_END]
  }

  function ConfigDirLine(o: Options): string
  {
    if o.configDir.Some? then "static const char *config_dir = \"" + o.configDir.value + "\";"
    else "static const char *config_dir = NULL;"
  }

  /** The symbols of `temp.s` and the lines of `temp.c`. */
  datatype Output = Output(blocks: seq<Block>, lines: seq<string>)

  /** Everything after the embedding loop, given its accumulations. */
  function Tail(o: Options, es: seq<Entry>, m: AotMode): seq<string>
  {
    DescriptorArray(o.compress, BundleNames(es)) + AotLines(o.aotNames, m) + [ImageNameLine(es)]
      + CtorLines(o) + ConfigInstallLines(o, es) + [ConfigDirLine(o)]
  }

  function Generate(o: Options, gzip: seq<byte> -> seq<byte>, fs: Files, files: seq<string>): Result<Output, BundleError>
  {
    var entries := Entries(o, gzip, fs, files);
    if entries.Err? then Err(entries.error) else Sources(o, fs, entries.value)
  }

  /** The output once every file is read: `temp.s` and `temp.c`, unless a config file or the AOT mode fails. */
  function Sources(o: Options, fs: Files, es: seq<Entry>): Result<Output, BundleError>
  {
    if o.configFile.Some? && o.configFile.value !in fs then Err(ConfigOpenFailure(o.configFile.value))
    else if o.machineConfigFile.Some? && o.machineConfigFile.value !in fs then Err(ConfigOpenFailure(o.machineConfigFile.value))
    else if ParseAotMode(o.aotMode).None? then Err(UnsupportedAotMode(o.aotMode))
    else
      Ok(Output(AllBlocks(es) + SystemBlocks(o, fs),
                AllLines(o.compress, es) + SystemExterns(o) + Tail(o, es, ParseAotMode(o.aotMode).value)))
  }

  // ---------------------------------------------------------------------
  // The generator as the program runs it
  // ---------------------------------------------------------------------

  lemma {:induction false} ReadAllPrefixError<T>(read: string -> Result<T, BundleError>, files: seq<string>, i: nat)
    requires i <= |files| && ReadAll(read, files[..i]).Err?
    ensures ReadAll(read, files) == ReadAll(read, files[..i])
    decreases |files| - i
  {
    if i < |files| {
      assert files[..i + 1][..i] == files[..i];
      ReadAllPrefixError(read, files, i + 1);
    } else {
      assert files[..i] == files;
    }
  }

  /** The first loop of `GenerateBundles` (`Body` for each url): locate and read every file. */
  method ReadEntries(o: Options, gzip: seq<byte> -> seq<byte>, fs: Files, files: seq<string>)
    returns (r: Result<seq<Entry>, BundleError>)
    ensures r == Entries(o, gzip, fs, files)
  {
    var entries: seq<Entry> := [];
    for i := 0 to |files|
      invariant Entries(o, gzip, fs, files[..i]) == Ok(entries)
    {
      var located := LocateFile(fs, o.cwd, files[i]);
      ReadAllStep(url => ReadEntry(o, gzip, fs, url), files, i);
      if located.None? {
        ReadAllPrefixError(url => ReadEntry(o, gzip, fs, url), files, i + 1);
        return Err(MissingAssembly(files[i]));
      }
      entries := entries + [MakeEntry(o, gzip, fs, located.value)];
    }
    assert files[..|files|] == files;
    return Ok(entries);
  }

  /** One more url read: it adds its result, or its failure is the error. */
  lemma ReadAllStep<T>(read: string -> Result<T, BundleError>, files: seq<string>, i: nat)
    requires i < |files| && ReadAll(read, files[..i]).Ok?
    ensures ReadAll(read, files[..i + 1])
        == if read(files[i]).Err? then Err(read(files[i]).error)
           else Ok(ReadAll(read, files[..i]).value + [read(files[i]).value])
  {
    assert files[..i + 1][..i] == files[..i];
  }

  /** The second loop: write each blob to `temp.s` and its declarations to `temp.c`, collecting `cBundleNames` and `configNames`. */
  method EmbedEntries(compress: bool, entries: seq<Entry>)
    returns (blocks: seq<Block>, lines: seq<string>, cBundleNames: seq<string>, configLines: seq<string>)
    ensures blocks == AllBlocks(entries)
    ensures lines == AllLines(compress, entries)
    ensures cBundleNames == BundleNames(entries)
    ensures configLines == ConfigRegistrations(entries)
  {
    blocks, lines, cBundleNames, configLines := [], [], [], [];
    for j := 0 to |entries|
      invariant blocks == AllBlocks(entries[..j])
      invariant lines == AllLines(compress, entries[..j])
      invariant cBundleNames == BundleNames(entries[..j])
      invariant configLines == ConfigRegistrations(entries[..j])
    {
      EmbedStep(compress, entries, j);
      blocks, lines, cBundleNames, configLines := EmbedEntry(compress, entries[j], blocks, lines, cBundleNames, configLines);
    }
    assert entries[..|entries|] == entries;
  }

  /** The body of the second loop for one entry. */
  method EmbedEntry(compress: bool, e: Entry, blocks: seq<Block>, lines: seq<string>, cBundleNames: seq<string>, configLines: seq<string>)
    returns (blocks': seq<Block>, lines': seq<string>, cBundleNames': seq<string>, configLines': seq<string>)
    ensures blocks' == blocks + EntryBlocks(e)
    ensures lines' == lines + EntryLines(compress, e)
    ensures cBundleNames' == cBundleNames + [BundleName(e)]
    ensures configLines' == configLines + if e.config.Some? then [ConfigRegistration(e)] else []
  {
    blocks' := blocks + [Block(DataSymbol(e), |e.data|, e.data, false, false)];
    lines' := lines + [ExternLine(DataSymbol(e)), DescriptorLine(compress, e)];
    cBundleNames' := cBundleNames + [BundleName(e)];
    configLines' := configLines;
    if e.config.Some? {
      Associative(lines, [ExternLine(DataSymbol(e)), DescriptorLine(compress, e)], [ExternLine(ConfigSymbol(e))]);
      Associative(blocks, [Block(DataSymbol(e), |e.data|, e.data, false, false)],
                  [Block(ConfigSymbol(e), |e.config.value|, e.config.value, false, true)]);
      lines' := lines' + [ExternLine(ConfigSymbol(e))];
      blocks' := blocks' + [Block(ConfigSymbol(e), |e.config.value|, e.config.value, false, true)];
      configLines' := configLines' + [ConfigRegistration(e)];
    }
  }

  lemma Associative<T>(a: seq<T>, b: seq<T>, c: seq<T>)
    ensures a + b + c == a + (b + c)
  {
  }

  /** One more entry embedded: each accumulation grows by what that entry contributes. */
  lemma EmbedStep(compress: bool, entries: seq<Entry>, j: nat)
    requires j < |entries|
    ensures AllBlocks(entries[..j + 1]) == AllBlocks(entries[..j]) + EntryBlocks(entries[j])
    ensures AllLines(compress, entries[..j + 1]) == AllLines(compress, entries[..j]) + EntryLines(compress, entries[j])
    ensures BundleNames(entries[..j + 1]) == BundleNames(entries[..j]) + [BundleName(entries[j])]
    ensures ConfigRegistrations(entries[..j + 1]) == ConfigRegistrations(entries[..j])
      + if entries[j].config.Some? then [ConfigRegistration(entries[j])] else []
  {
    assert entries[..j + 1][..j] == entries[..j];
  }

  /** `GenerateBundles(files)`: the two loops over `files`, the machine-wide config files, then the fixed tail. */
  method GenerateBundles(o: Options, gzip: seq<byte> -> seq<byte>, fs: Files, files: seq<string>)
    returns (r: Result<Output, BundleError>)
    ensures r == Generate(o, gzip, fs, files)
  {
    var read := ReadEntries(o, gzip, fs, files);
    if read.Err? {
      return Err(read.error);
    }
    r := WriteSources(o, fs, read.value);
  }

  /** The part of `GenerateBundles` after the reading loop. */
  method WriteSources(o: Options, fs: Files, entries: seq<Entry>) returns (r: Result<Output, BundleError>)
    ensures r == Sources(o, fs, entries)
  {
    var blocks, lines, cBundleNames, configLines := EmbedEntries(o.compress, entries);
    var system := WriteSystemConfigs(o, fs);
    if system.Err? {
      return Err(system.error);
    }
    var (systemBlocks, systemExterns) := system.value;
    var mode := ParseAotMode(o.aotMode);
    if mode.None? {
      return Err(UnsupportedAotMode(o.aotMode));
    }
    var tail := WriteTail(o, entries, mode.value, cBundleNames, configLines);
    r := Ok(Output(blocks + systemBlocks, lines + systemExterns + tail));
  }

  /** The machine-wide config files: embedded with their declarations, or the first that cannot be opened. */
  method WriteSystemConfigs(o: Options, fs: Files) returns (r: Result<(seq<Block>, seq<string>), BundleError>)
    ensures o.configFile.Some? && o.configFile.value !in fs ==> r == Err(ConfigOpenFailure(o.configFile.value))
    ensures (o.configFile.None? || o.configFile.value in fs) && o.machineConfigFile.Some? && o.machineConfigFile.value !in fs
      ==> r == Err(ConfigOpenFailure(o.machineConfigFile.value))
    ensures (o.configFile.None? || o.configFile.value in fs) && (o.machineConfigFile.None? || o.machineConfigFile.value in fs)
      ==> r == Ok((SystemBlocks(o, fs), SystemExterns(o)))
  {
    var systemBlocks: seq<Block> := [];
    var systemExterns: seq<string> := [];
    if o.configFile.Some? {
      if o.configFile.value !in fs {
        return Err(ConfigOpenFailure(o.configFile.value));
      }
      systemExterns := systemExterns + ["extern const char system_config;"];
      systemBlocks := systemBlocks + [ConfigFileBlockAsWritten("system_config", o.configFile.value, fs[o.configFile.value])];
    }
    if o.machineConfigFile.Some? {
      if o.machineConfigFile.value !in fs {
        return Err(ConfigOpenFailure(o.machineConfigFile.value));
      }
      systemExterns := systemExterns + ["extern const char machine_config;"];
      systemBlocks := systemBlocks + [ConfigFileBlockAsWritten("machine_config", o.machineConfigFile.value, fs[o.machineConfigFile.value])];
    }
    assert systemBlocks == SystemBlocks(o, fs) && systemExterns == SystemExterns(o);
    r := Ok((systemBlocks, systemExterns));
  }

  /** The lines `GenerateBundles` writes to `temp.c` after `temp.s` is closed. */
  method WriteTail(o: Options, entries: seq<Entry>, m: AotMode, cBundleNames: seq<string>, configLines: seq<string>)
    returns (tail: seq<string>)
    requires cBundleNames == BundleNames(entries) && configLines == ConfigRegistrations(entries)
    ensures tail == Tail(o, entries, m)
  {
    var descriptors := WriteDescriptors(o.compress, cBundleNames);
    var aot := WriteAotLines(o.aotNames, m);
    var install := [INSTALL_CONFIG] + configLines
      + (if o.configFile.Some? then [PARSE_SYSTEM_CONFIG] else [])
      + (if o.machineConfigFile.Some? then [REGISTER_MACHINE_CONFIG] else [])
      + [INSTALL_END];
    assert install == ConfigInstallLines(o, entries);
    tail := descriptors + aot + [ImageNameLine(entries)] + CtorLines(o) + install + [ConfigDirLine(o)];
  }

  /** The descriptor array: one `&assembly_bundle_...` per entry between the header and the NULL terminator. */
  method WriteDescriptors(compress: bool, cBundleNames: seq<string>) returns (r: seq<string>)
    ensures r == DescriptorArray(compress, cBundleNames)
  {
    var refs := WriteLines(DescriptorRef, cBundleNames);
    r := [ArrayHeader(compress)] + refs + [ARRAY_END];
  }

  /** The AOT module declarations, `install_aot_modules` and the mode it selects. */
  method WriteAotLines(aotNames: seq<string>, m: AotMode) returns (r: seq<string>)
    ensures r == AotLines(aotNames, m)
  {
    var externs := WriteLines(AotExtern, aotNames);
    var registrations := WriteLines(AotRegistration, aotNames);
    r := externs + [INSTALL_AOT] + registrations + [AotModeLine(m), AOT_END];
  }

  // ---------------------------------------------------------------------
  // Properties of the output
  // ---------------------------------------------------------------------

  /**
   * Every blob the embedding loop writes to `temp.s` declares the size of
   * the bytes that follow its label, and `temp.c` declares it by the same
   * symbol name.
   */
  lemma {:induction false} BlocksDeclared(compress: bool, es: seq<Entry>)
    ensures forall i :: 0 <= i < |AllBlocks(es)| ==> ExternLine(AllBlocks(es)[i].name) in AllLines(compress, es)
    ensures forall i :: 0 <= i < |AllBlocks(es)| ==> SizeMatches(AllBlocks(es)[i])
    decreases |es|
  {
    if es != [] {
      var init, e := es[..|es| - 1], es[|es| - 1];
      BlocksDeclared(compress, init);
      var blocks, lines := AllBlocks(init), AllLines(compress, init);
      forall i | 0 <= i < |AllBlocks(es)|
        ensures ExternLine(AllBlocks(es)[i].name) in AllLines(compress, es)
        ensures SizeMatches(AllBlocks(es)[i])
      {
        if i < |blocks| {
          assert AllBlocks(es)[i] == blocks[i];
          assert ExternLine(blocks[i].name) in lines;
        } else if i == |blocks| {
          assert AllBlocks(es)[i] == Block(DataSymbol(e), |e.data|, e.data, false, false);
          assert AllLines(compress, es)[|lines|] == ExternLine(DataSymbol(e));
        } else {
          assert AllBlocks(es)[i] == Block(ConfigSymbol(e), |e.config.value|, e.config.value, false, true);
          assert AllLines(compress, es)[|lines| + 2] == ExternLine(ConfigSymbol(e));
        }
      }
    }
  }

  /**
   * Corrected: every machine-wide config block declares its true size and
   * differs from the one written only in that size.
   */
  lemma SystemBlocksSized(o: Options, fs: Files)
    requires o.configFile.Some? ==> o.configFile.value in fs
    requires o.machineConfigFile.Some? ==> o.machineConfigFile.value in fs
    ensures forall i :: 0 <= i < |SystemBlocksCorrected(o, fs)| ==> SizeMatches(SystemBlocksCorrected(o, fs)[i])
    ensures |SystemBlocksCorrected(o, fs)| == |SystemBlocks(o, fs)| == |SystemExterns(o)|
    ensures forall i :: 0 <= i < |SystemBlocks(o, fs)| ==>
      SystemBlocksCorrected(o, fs)[i] == SystemBlocks(o, fs)[i].(size := SystemBlocksCorrected(o, fs)[i].size)
  {
  }

  /**
   * As written, the `system_config` block (and the `machine_config` block
   * after it) has the right size exactly when the file's path is one
   * character longer than the file.
   */
  lemma SystemBlocksAsWritten(o: Options, fs: Files)
    requires o.configFile.Some? ==> o.configFile.value in fs
    requires o.machineConfigFile.Some? ==> o.machineConfigFile.value in fs
    ensures var b, k := SystemBlocks(o, fs), if o.configFile.Some? then 1 else 0;
      && |b| == k + (if o.machineConfigFile.Some? then 1 else 0)
      && (o.configFile.Some? ==>
            (SizeMatches(b[0]) <==> |o.configFile.value| == |fs[o.configFile.value]| + 1))
      && (o.machineConfigFile.Some? ==>
            (SizeMatches(b[k]) <==> |o.machineConfigFile.value| == |fs[o.machineConfigFile.value]| + 1))
  {
    var c, m := o.configFile, o.machineConfigFile;
    if c.Some? {
      ConfigSizeAsWritten("system_config", c.value, fs[c.value]);
    }
    if m.Some? {
      ConfigSizeAsWritten("machine_config", m.value, fs[m.value]);
    }
  }

  /**
   * As written, a machine-wide config block declares the length of the
   * config file's path: the size is right only when that length happens to
   * be one more than the file's length. The default `/etc/mono/config`
   * path with a file of 100 bytes is such a mismatch.
   */
  lemma ConfigSizeAsWritten(name: string, path: string, content: seq<byte>)
    ensures SizeMatches(ConfigFileBlockAsWritten(name, path, content)) <==> |path| == |content| + 1
    ensures SizeMatches(ConfigFileBlock(name, path, content))
  {
  }

  lemma ConfigSizeCounterexample(content: seq<byte>)
    requires |content| == 100
    ensures !SizeMatches(ConfigFileBlockAsWritten("system_config", "/etc/mono/config", content))
  {
    ConfigSizeAsWritten("system_config", "/etc/mono/config", content);
  }

  /**
   * The descriptor array lists one reference per entry, in `files` order,
   * between its header and the NULL terminator.
   */
  lemma DescriptorOrder(compress: bool, es: seq<Entry>)
    ensures var d := DescriptorArray(compress, BundleNames(es));
      && |d| == |es| + 2
      && d[0] == ArrayHeader(compress) && d[|es| + 1] == ARRAY_END
      && forall i :: 0 <= i < |es| ==> d[i + 1] == DescriptorRef(BundleName(es[i]))
  {
    var refs := Lines(DescriptorRef, BundleNames(es));
    var d := DescriptorArray(compress, BundleNames(es));
    forall i | 0 <= i < |es|
      ensures d[i + 1] == DescriptorRef(BundleName(es[i]))
    {
      assert d[i + 1] == refs[i];
    }
  }

  /**
   * Once every file is read, the output is produced exactly when both
   * machine-wide config files exist and the AOT setting is one of the three
   * modes. It then selects that mode and starts with the assemblies'
   * blocks, each with its true size; the config blocks that follow have the
   * right size only when the path is one character longer than the file.
   */
  lemma SourcesOutcome(o: Options, fs: Files, es: seq<Entry>)
    ensures Sources(o, fs, es).Ok? <==>
      && (o.configFile.Some? ==> o.configFile.value in fs)
      && (o.machineConfigFile.Some? ==> o.machineConfigFile.value in fs)
      && ParseAotMode(o.aotMode).Some?
    ensures Sources(o, fs, es).Ok? ==>
      var b, n := Sources(o, fs, es).value.blocks, |AllBlocks(es)|;
      && |b| == n + |SystemExterns(o)|
      && (forall i :: 0 <= i < n ==> SizeMatches(b[i]))
      && (o.configFile.Some? ==> (SizeMatches(b[n]) <==> |o.configFile.value| == |fs[o.configFile.value]| + 1))
      && exists m :: AotModeName(m) == o.aotMode && AotModeLine(m) in Sources(o, fs, es).value.lines
  {
    var r := Sources(o, fs, es);
    if r.Ok? {
      var m := ParseAotMode(o.aotMode).value;
      AotModeInverse(o.aotMode, m);
      BlocksDeclared(o.compress, es);
      SystemBlocksSized(o, fs);
      SystemBlocksAsWritten(o, fs);
      var a, sys := AllBlocks(es), SystemBlocks(o, fs);
      assert r.value.blocks == a + sys;
      forall i | 0 <= i < |a|
        ensures SizeMatches(r.value.blocks[i])
      {
        assert r.value.blocks[i] == a[i];
      }
      if o.configFile.Some? {
        assert r.value.blocks[|a|] == sys[0];
      }
      TailSelectsMode(o, es, m);
    }
  }

  /** The lines after the embedding loop select the AOT mode. */
  lemma TailSelectsMode(o: Options, es: seq<Entry>, m: AotMode)
    ensures AotModeLine(m) in Tail(o, es, m)
  {
    var aot := AotLines(o.aotNames, m);
    var descriptors := DescriptorArray(o.compress, BundleNames(es));
    assert aot[|aot| - 2] == AotModeLine(m);
    assert (descriptors + aot)[|descriptors| + |aot| - 2] == AotModeLine(m);
    var tail := Tail(o, es, m);
    assert tail[|descriptors| + |aot| - 2] == AotModeLine(m);
  }

  /** An AOT setting other than the three modes fails, whatever was read. */
  lemma UnsupportedModeFails(o: Options, fs: Files, es: seq<Entry>)
    requires o.aotMode !in {"", "full", "llvmonly"}
    requires o.configFile.Some? ==> o.configFile.value in fs
    requires o.machineConfigFile.Some? ==> o.machineConfigFile.value in fs
    ensures Sources(o, fs, es) == Err(UnsupportedAotMode(o.aotMode))
  {
  }
}
