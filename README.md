# mkbundle core, modelled in Dafny

`mkbundle` packs a managed program, and every assembly it depends on, into one
self-contained executable. This project models its core. Two output modes are
covered.

- **Package mode.** The runtime binary is copied into a container file. Every
  assembly, config file and setting is then appended at 4096-byte boundaries.
  Last comes an index of `(name, offset, size)` entries, the offset where the
  index starts, and the 16-byte trailer `xmonkeysloveplay`.
- **Native bundle mode.** The tool writes an assembler file and C lines that
  embed every assembly as a `.byte` blob. The C lines also list the bundle
  descriptors in queue order, register the AOT modules and select the AOT mode.

Both modes start from the same dependency walk. Each entry assembly is queued
under its canonical name (`GetAssemblyName`). With automatic dependencies,
each reference is looked up in the link directories (`LoadAssembly`) and
queued depth first.

## Modules

| file | module | models |
|---|---|---|
| `wrappers.dfy` | `Wrappers` | `Option` and `Result` |
| `bytes.dfy` | `Bytes` | bytes; the little-endian `int` and `long` that `BinaryWriter` writes; the `(int)` cast |
| `utf8.dfy` | `Utf8` | `Encoding.UTF8.GetBytes`, plus a decoder that inverts it |
| `names.dfy` | `AssemblyNames` | `GetAssemblyName` and the path helpers it uses |
| `files.dfy` | `FileSystem` | the file system as a map from path to contents; `Path.Combine`; `LocateFile` |
| `symbols.dfy` | `Symbols` | `EncodeAotSymbol`; the `[^\w_]` escape of data symbols |
| `asm.dfy` | `Assembler` | `WriteSymbol`; `WriteBuffer`; the blocks of the assembler file |
| `container.dfy` | `Container` | class `PackageMaker` and the index format. A reader for the index is included so that round trips can be stated |
| `package.dfy` | `Package` | `GeneratePackage` and `MaybeAddFile`, driving a `PackageMaker` |
| `deps.dfy` | `Dependencies` | `LoadAssembly` probing and `QueueAssembly`, both as functions and as class `Resolver` whose methods update `files` and `LoadedAssemblies` |
| `bundles.dfy` | `Bundles` | the generated text of `GenerateBundles`: blocks, descriptor array, AOT lines, config registration |
| `shell.dfy` | `Shell` | the `|dos2unix` rewrite of a command line in `Execute` |

### Modelling choices

The file system is an input: a map from existing paths to their bytes.

For the dependency walk, the assembly loader is a map from absolute location
to image: either a list of references or a bad image. A second input, the
function `location`, gives the absolute location the loader reports as
`CodeBase` for the path it was asked to open. This matters because the link
directories start with `.`: a reference `Lib` is probed as `./Lib.dll`, and
what `QueueAssembly` queues is that file's location, not the probed string.

Gzip is a function parameter. The `-z` data are its output and are otherwise
left uninterpreted.

`Error(...)` ends the process. The model therefore turns every call of it into
an error value that ends the operation. Under `--skip-scan`, an exception
caught by `QueueAssembly` leaves `Done`. Otherwise the exception is rethrown
and reaches no handler, so the program stops; the model records this as the
failure `Unhandled`.

### Quirks of the code

- The index begins with a 4-byte entry count: `binary.Write(_locations.Count)` writes an `int`.
- In package mode, the runtime sits at offset 0 and has no index entry. Every index entry is at an aligned offset after the runtime.
- `LoadAssembly` tries one candidate per link directory: the name itself when it ends in `.dll` or `.exe`, otherwise the name with `.dll` appended.
- A satellite assembly is prefixed with its locale only when the directory it sits in itself contains a separator. A relative path such as `fr/App.resources.dll` keeps the bare name `App.resources.dll`, so `fr/` and `de/` copies collide (`AssemblyNames.AssemblyNameShape`).
- `Path.GetDirectoryName` cleans its result: runs of separators become one and a trailing separator is dropped. So `/r/a//x.resources.dll` is named `a/x.resources.dll` (`AssemblyNames.SatelliteName` with a gap of separators).
- The data-symbol escape works character by character on the canonical name. Only `EncodeAotSymbol` works on the UTF-8 bytes.
- `--style mac` is accepted, but `WriteSymbol` has cases only for `linux`, `osx` and `windows`. In the `mac` style no symbol header is written at all (`Assembler.SymbolText`). Host detection sets `osx`, a different string.
- The machine-wide config symbols declare the length of the config file's path as their size, and `config_dir:` is added to a package as if the directory were a file. Both are modelled as written; see Findings.

## Model

| member | source | states |
|---|---|---|
| Bytes.Int32Wrap | mcs/tools/mkbundle/mkbundle.cs:732-738 | the `(int) ret` cast: the result is an `int`, differs from the input by a multiple of 2^32, and equals it when it already fits |
| Bytes.LittleEndianRoundTrip | mcs/tools/mkbundle/mkbundle.cs:793-804 | an `n`-byte little-endian encoding of any value below 256^n reads back as that value |
| Bytes.Int32RoundTrip | mcs/tools/mkbundle/mkbundle.cs:793-801 | every `int` written by `BinaryWriter` reads back as itself |
| Bytes.Int64RoundTrip | mcs/tools/mkbundle/mkbundle.cs:800-804 | every `long` written by `BinaryWriter` reads back as itself |
| Utf8.EncodeChar | mcs/tools/mkbundle/mkbundle.cs:751 | one to four bytes per character; a single byte exactly for ASCII, and that byte is the character's code |
| Utf8.DecodeEncode | mcs/tools/mkbundle/mkbundle.cs:751-760 | decoding the UTF-8 bytes of any string gives the string back |
| Utf8.EncodeInjective | mcs/tools/mkbundle/mkbundle.cs:796 | different entry names have different UTF-8 bytes |
| Utf8.EncodeAscii | mcs/tools/mkbundle/mkbundle.cs:805 | an ASCII string encodes as one byte per character, equal to its code |
| AssemblyNames.LastIndexOf | mcs/tools/mkbundle/mkbundle.cs:1429 | -1, or the index of the last occurrence of the character: it is at that index and at no later one |
| AssemblyNames.GetFileName | mcs/tools/mkbundle/mkbundle.cs:1421 | the file name contains no separator |
| AssemblyNames.FileNameIsLast | mcs/tools/mkbundle/mkbundle.cs:1421 | the path is a prefix, empty or ending in a separator, followed by the file name |
| AssemblyNames.CollapseKeepsLast | mcs/tools/mkbundle/mkbundle.cs:1428 | the clean-up of `GetDirectoryName` keeps a last separator followed by a non-empty name, and that name |
| AssemblyNames.CollapseDropsTrailing | mcs/tools/mkbundle/mkbundle.cs:1428 | the clean-up drops a trailing run of separators |
| AssemblyNames.AssemblyNameShape | mcs/tools/mkbundle/mkbundle.cs:1418-1440 | the canonical name ends with the file name; it is the file name itself for a non-satellite file, or when the directory has no separator |
| AssemblyNames.SatelliteName | mcs/tools/mkbundle/mkbundle.cs:1420-1434 | `root/locale/X.resources.dll`, with a non-empty locale and any number of separators before the file, is named `locale` + `/` (or `\\` in the Windows style) + `X.resources.dll` |
| AssemblyNames.PlainName | mcs/tools/mkbundle/mkbundle.cs:1421-1426 | any other `dir/X` is named `X` |
| AssemblyNames.SatelliteNamesDiffer | mcs/tools/mkbundle/mkbundle.cs:1423-1434 | satellites of two different non-empty locales get different canonical names |
| FileSystem.Combine | mcs/tools/mkbundle/mkbundle.cs:1536 | `Path.Combine`: the name for an empty directory or a rooted name, the directory for an empty name, otherwise directory, one separator unless it already ends in one, then the name |
| FileSystem.CombineFileName | mcs/tools/mkbundle/mkbundle.cs:1536 | the file name of a directory joined with a plain name is that name |
| FileSystem.LocateFileSpec | mcs/tools/mkbundle/mkbundle.cs:1881-1890 | the copy in the working directory wins; otherwise the default path; it fails exactly when neither file exists |
| Symbols.EncodeAotSymbol | mcs/tools/mkbundle/mkbundle.cs:1651-1670 | the loop over the UTF-8 bytes computes `AotSymbol` |
| Symbols.AotSymbolShape | mcs/tools/mkbundle/mkbundle.cs:1651-1670 | one symbol character per UTF-8 byte, only `[A-Za-z0-9_]`, never shorter than the name |
| Symbols.AotSymbolAscii | mcs/tools/mkbundle/mkbundle.cs:1655-1666 | for an ASCII name, each letter or digit is kept in place and every other character becomes `_` |
| Symbols.AotSymbolIdempotent | mcs/tools/mkbundle/mkbundle.cs:1651-1670 | encoding an encoded symbol changes nothing |
| Symbols.EscapeDataSymbolSpec | mcs/tools/mkbundle/mkbundle.cs:1000-1006 | the data-symbol escape keeps the length, keeps every `[A-Za-z0-9_]` character in place and replaces the rest with `_` |
| Symbols.EscapeDataSymbolIsSymbol | mcs/tools/mkbundle/mkbundle.cs:1000-1006 | the escape yields a valid symbol, and leaves a valid symbol unchanged |
| Symbols.EscapeAgreesWithAot | mcs/tools/mkbundle/mkbundle.cs:1006 | for ASCII names, the data-symbol escape and `EncodeAotSymbol` agree |
| Assembler.DecimalRoundTrip | mcs/tools/mkbundle/mkbundle.cs:693-697 | the `Chars` table: the decimal text of a byte is all digits, has no leading zero, and parses back to the byte |
| Assembler.WriteBuffer | mcs/tools/mkbundle/mkbundle.cs:688-711 | the read loop produces `BufferText`, with the row counter restarting at every read of the buffer |
| Assembler.ReadsAreRows | mcs/tools/mkbundle/mkbundle.cs:699-708 | with a buffer whose length is a multiple of 32, the restarts are invisible: the text is rows of 32 bytes |
| Assembler.WriteBufferRows | mcs/tools/mkbundle/mkbundle.cs:688-711 | with the 8192-byte buffer of `GenerateBundles`, the output is the blob in rows of 32 bytes, then a newline |
| Assembler.SymbolText | mcs/tools/mkbundle/mkbundle.cs:650-684 | a symbol header is written exactly when the style is not `mac` |
| Assembler.SizeOnlyOnLinux | mcs/tools/mkbundle/mkbundle.cs:650-684 | only the Linux header depends on the size: different sizes give different headers there, and the same header in the other styles |
| Container.MagicIsTrailer | mcs/tools/mkbundle/mkbundle.cs:805 | the 16 trailer bytes are the UTF-8 form of `xmonkeysloveplay` |
| Container.NextBlock | mcs/tools/mkbundle/mkbundle.cs:737 | the padding moves to a 4096 boundary strictly after the position: a whole block when already aligned, at most one block in any case |
| Container.NextBlockIsLeast | mcs/tools/mkbundle/mkbundle.cs:737 | no aligned offset after the position is smaller than the one the padding reaches |
| Container.WriteAt | mcs/tools/mkbundle/mkbundle.cs:736-737 | a write past the end keeps the old bytes and puts the payload at the position |
| Container.KeyValueRoundTrip | mcs/tools/mkbundle/mkbundle.cs:757-775 | a key/value payload with a key of at most 255 bytes parses back to the key and the value |
| Container.ParseEntriesRoundTrip | mcs/tools/mkbundle/mkbundle.cs:794-802 | the entry records read back as the entries written |
| Container.IndexRoundTrip | mcs/tools/mkbundle/mkbundle.cs:788-807 | reading from the trailer back finds the index, and it gives exactly the locations map, whenever its values fit the index fields |
| Container.SortByOffset | mcs/tools/mkbundle/mkbundle.cs:794 | `orderby entry.Value.Item1`: every entry, each once, in strictly ascending offset order |
| Container.SortedOrderUnique | mcs/tools/mkbundle/mkbundle.cs:794 | distinct offsets determine that order uniquely |
| Container.IndexWriter | mcs/tools/mkbundle/mkbundle.cs:793-802 | the loop writes the count and one record per entry in the given order |
| Container.PackageMaker.constructor | mcs/tools/mkbundle/mkbundle.cs:719-726 | an empty file at position 0, with no entries |
| Container.PackageMaker.AddFile | mcs/tools/mkbundle/mkbundle.cs:728-740 | copies the content at the position, pads to the next block, records nothing, and returns the length cast to `int` |
| Container.PackageMaker.Add | mcs/tools/mkbundle/mkbundle.cs:742-747 | as `AddFile`, and records (old position, `int` size) under the entry, replacing any earlier one |
| Container.PackageMaker.AddString | mcs/tools/mkbundle/mkbundle.cs:749-755 | writes the UTF-8 text at the position, records its byte length, and pads |
| Container.PackageMaker.AddStringPair | mcs/tools/mkbundle/mkbundle.cs:757-776 | succeeds exactly when the key is at most 255 bytes. It then writes length, key, NUL, value, NUL and records key + value + 3 bytes. On failure nothing changes (the process exits) |
| Container.PackageMaker.WriteIndex | mcs/tools/mkbundle/mkbundle.cs:788-807 | appends the count, the records sorted by offset, the index start and the trailer at the position |
| Container.PackageMaker.Close | mcs/tools/mkbundle/mkbundle.cs:809-814 | the bytes written so far stay, zero-filled to the position; the index follows; and whenever the index fields can hold its values, the file's index parses back to exactly the locations |
| Package.FinalIsLast | mcs/tools/mkbundle/mkbundle.cs:746-769 | last write wins: an entry name is in the index exactly when some call used it, and it holds the last such call |
| Package.StoredWrite | mcs/tools/mkbundle/mkbundle.cs:742-776 | after a write past the end, every entry, the new one included, still holds its payload at its recorded offset |
| Package.PutFile | mcs/tools/mkbundle/mkbundle.cs:742-747 | `maker.Add` of a file's content keeps the package layout: runtime first, and each entry's last payload at its offset |
| Package.PutString | mcs/tools/mkbundle/mkbundle.cs:749-755 | `maker.AddString` keeps the package layout |
| Package.PutPair | mcs/tools/mkbundle/mkbundle.cs:757-776 | `maker.AddStringPair` keeps the layout, and fails exactly on a key longer than 255 bytes |
| Package.MaybeAddFile | mcs/tools/mkbundle/mkbundle.cs:817-832 | nothing for an absent setting, an error for a missing file, otherwise the file added under its code |
| Package.AddAssembly | mcs/tools/mkbundle/mkbundle.cs:858-870 | one queued assembly: `assembly:<name>`, then `config:<name>` when `<file>.config` exists; an error when `LocateFile` finds neither candidate |
| Package.AddAssemblies | mcs/tools/mkbundle/mkbundle.cs:858-870 | the loop over `files` adds every assembly's items in order, or stops at the first missing file |
| Package.AddEnvironment | mcs/tools/mkbundle/mkbundle.cs:884-888 | one `env:<key>` pair per variable, in order, stopping at the first key over 255 bytes |
| Package.AddLibraries | mcs/tools/mkbundle/mkbundle.cs:890-897 | one `library:<alias>` file per library, in order, stopping at the first missing file |
| Package.AddOptions | mcs/tools/mkbundle/mkbundle.cs:882-883 | the embedded options, when set, as an `options:` string |
| Package.AddFiles | mcs/tools/mkbundle/mkbundle.cs:858-874 | the assemblies, then the system and machine config files |
| Package.AddSettings | mcs/tools/mkbundle/mkbundle.cs:876-897 | the config directory added as a file (failing when no file is at that path), then options, environment and libraries, stopping at the first failure |
| Package.AddEntries | mcs/tools/mkbundle/mkbundle.cs:858-897 | every entry after the runtime, in the order `GeneratePackage` adds them, or the first failure |
| Package.RuntimeFirst | mcs/tools/mkbundle/mkbundle.cs:856 | the runtime copied by `AddFile` starts the layout, with no entry recorded |
| Package.Start | mcs/tools/mkbundle/mkbundle.cs:854-856 | a new maker holding the runtime at offset 0 |
| Package.Finish | mcs/tools/mkbundle/mkbundle.cs:899-900 | closing turns the layout into a complete package |
| Package.Closed | mcs/tools/mkbundle/mkbundle.cs:809-814 | the index appended by `Close` disturbs neither the runtime nor any entry's payload |
| Package.WritePackage | mcs/tools/mkbundle/mkbundle.cs:854-901 | the package on success, otherwise the first failure of the plan |
| Package.GeneratePackage | mcs/tools/mkbundle/mkbundle.cs:834-902 | fails with no runtime, with a missing runtime, or with a static constructor, each checked before anything is written; otherwise, the plan's first failure, or a file with the runtime at 0, each index entry at an aligned offset after it holding the last item added under its name, and an index that parses back to the locations |
| Package.PlanAssemblies | mcs/tools/mkbundle/mkbundle.cs:858-870 | in a package that can be written, every queued assembly is located and recorded as `assembly:<canonical name>`, plus `config:<canonical name>` when its config file exists |
| Package.ConfigDirAsWritten | mcs/tools/mkbundle/mkbundle.cs:876-880 | as written, a config directory (no file at that path) makes `Add` fail, while the corrected `ConfigDirItems` records it as a string |
| Package.ConfigDirRoundTrip | mcs/tools/mkbundle/mkbundle.cs:876-880 | corrected: the `config_dir:` payload decodes to the directory path |
| Dependencies.CandidateSuffix | mcs/tools/mkbundle/mkbundle.cs:1536-1540 | every probed candidate ends in `.dll` or `.exe` |
| Dependencies.ProbeNotFound | mcs/tools/mkbundle/mkbundle.cs:1531-1556 | probing reports a missing assembly exactly when no link directory's candidate has a location the loader knows |
| Dependencies.ProbeFirstHit | mcs/tools/mkbundle/mkbundle.cs:1531-1556 | otherwise the result is the location of the first directory's candidate that exists, loaded or throwing on a bad image |
| Dependencies.Queue | mcs/tools/mkbundle/mkbundle.cs:1442-1489 | queueing only appends to `files` and only adds registrations; no exception escapes it (caught, then swallowed or rethrown as a failure) |
| Dependencies.QueueReferences | mcs/tools/mkbundle/mkbundle.cs:1469-1480 | the reference loop only appends and registers |
| Dependencies.QueueAll | mcs/tools/mkbundle/mkbundle.cs:592-594 | the main loop only appends and registers, and stops at the first failure without an escaping exception |
| Dependencies.QueueConsistent | mcs/tools/mkbundle/mkbundle.cs:1442-1457 | `files` stays duplicate-free, and `LoadedAssemblies` maps each canonical name to the one queued file that has it |
| Dependencies.QueueReferencesConsistent | mcs/tools/mkbundle/mkbundle.cs:1469-1480 | the reference loop keeps the same invariant |
| Dependencies.QueueAllConsistent | mcs/tools/mkbundle/mkbundle.cs:592-594 | the main loop keeps the same invariant |
| Dependencies.QueueKeepsRegistrations | mcs/tools/mkbundle/mkbundle.cs:1449-1455 | a registered canonical name is never rebound |
| Dependencies.QueueAppendsFirst | mcs/tools/mkbundle/mkbundle.cs:1455-1457 | depth first: a new codebase is appended before anything its references bring in |
| Dependencies.QueueFailure | mcs/tools/mkbundle/mkbundle.cs:1442-1489 | each failure is justified. A duplicate is a new codebase whose name an earlier, different, queued file has; an unresolved reference is declared by a queued file and found in no directory; an unhandled exception comes from a missing or bad file without `--skip-scan` |
| Dependencies.QueueReferencesFailure | mcs/tools/mkbundle/mkbundle.cs:1469-1480 | the same for the reference loop, including exceptions in flight to the `catch` |
| Dependencies.SkipScanNeverThrows | mcs/tools/mkbundle/mkbundle.cs:1482-1486 | under `--skip-scan` the walk fails only on a duplicate name or an unresolved reference |
| Dependencies.QueueClosed | mcs/tools/mkbundle/mkbundle.cs:1442-1489 | with automatic dependencies and no `--skip-scan`, a successful walk queues the codebase, and every file it appended was loaded with each reference resolving to a queued file |
| Dependencies.ReferencedEntryQueuedOnce | mcs/tools/mkbundle/mkbundle.cs:1471-1479 | an entry whose reference resolves to the location of the next entry queues that entry once, and the main loop then skips it |
| Dependencies.AppAndLib | mcs/tools/mkbundle/mkbundle.cs:1531-1549 | `App.exe` and `Lib.dll` from `/w`, with `App` referencing `Lib` and the link directory `.`: both are queued, in order, and the walk succeeds |
| Dependencies.QueueReferencesClosed | mcs/tools/mkbundle/mkbundle.cs:1469-1480 | the reference loop, when it succeeds, leaves each reference resolved to a queued file |
| Dependencies.Resolver.constructor | mcs/tools/mkbundle/mkbundle.cs:591 | empty `files` and empty `LoadedAssemblies` |
| Dependencies.Resolver.LoadAssembly | mcs/tools/mkbundle/mkbundle.cs:1531-1556 | the probing loop computes `ProbeAll` |
| Dependencies.Resolver.QueueAssembly | mcs/tools/mkbundle/mkbundle.cs:1442-1489 | the new `files`, the new `LoadedAssemblies` and the outcome are those of `Queue` |
| Dependencies.Resolver.QueueReferencesOf | mcs/tools/mkbundle/mkbundle.cs:1469-1480 | the reference `foreach` is `QueueReferences` |
| Dependencies.Resolver.QueueAssemblies | mcs/tools/mkbundle/mkbundle.cs:591-594 | the main loop is `QueueAll` |
| Bundles.AotModeInverse | mcs/tools/mkbundle/mkbundle.cs:1137-1151 | the switch accepts a string exactly when it is the setting name of the mode it selects |
| Bundles.AotModeEnumInjective | mcs/tools/mkbundle/mkbundle.cs:1137-1151 | different modes produce different C enum names |
| Bundles.ReadAllOk | mcs/tools/mkbundle/mkbundle.cs:995-996 | a successful read gives one result per url, in order |
| Bundles.ReadAllErr | mcs/tools/mkbundle/mkbundle.cs:995-996 | a failed read reports the error of the first url that fails |
| Bundles.EntriesOk | mcs/tools/mkbundle/mkbundle.cs:965-996 | on success, each url is located and its entry is built from the file `LocateFile` picked |
| Bundles.EntriesErr | mcs/tools/mkbundle/mkbundle.cs:965-996 | on failure, the error names the first url that neither candidate path holds |
| Bundles.FirstFailureIsMissing | mcs/tools/mkbundle/mkbundle.cs:967 | the only way a read fails is a missing file |
| Bundles.ReadEntries | mcs/tools/mkbundle/mkbundle.cs:995-996 | the loop computes `Entries` |
| Bundles.BundleNames | mcs/tools/mkbundle/mkbundle.cs:1043 | one `assembly_bundle_<symbol>` per entry, in queue order |
| Bundles.Lines | mcs/tools/mkbundle/mkbundle.cs:1117-1135 | one formatted line per item, in order |
| Bundles.WriteLines | mcs/tools/mkbundle/mkbundle.cs:1117-1135 | the loop computes `Lines` |
| Bundles.EmbedEntry | mcs/tools/mkbundle/mkbundle.cs:1004-1059 | one entry appends its blocks, its C lines, its bundle name and, when it has a config, its registration |
| Bundles.EmbedEntries | mcs/tools/mkbundle/mkbundle.cs:1002-1060 | the embedding loop accumulates the blocks, lines, bundle names and config registrations of all entries |
| Bundles.WriteSystemConfigs | mcs/tools/mkbundle/mkbundle.cs:1062-1107 | a missing system or machine config file fails, system first; otherwise their blocks, with the path length as size, and `extern` lines |
| Bundles.WriteDescriptors | mcs/tools/mkbundle/mkbundle.cs:1111-1122 | the loop computes `DescriptorArray` |
| Bundles.WriteAotLines | mcs/tools/mkbundle/mkbundle.cs:1125-1155 | the loops compute `AotLines` |
| Bundles.WriteTail | mcs/tools/mkbundle/mkbundle.cs:1111-1183 | everything after the assembler file is computed by `Tail` |
| Bundles.WriteSources | mcs/tools/mkbundle/mkbundle.cs:1002-1183 | the output after reading is computed by `Sources` |
| Bundles.GenerateBundles | mcs/tools/mkbundle/mkbundle.cs:904-1183 | the whole generator is computed by `Generate` |
| Bundles.BlocksDeclared | mcs/tools/mkbundle/mkbundle.cs:1017-1054 | every assembly and config block has its `extern` line in the C output, and declares exactly the number of bytes it emits |
| Bundles.SystemBlocksSized | mcs/tools/mkbundle/mkbundle.cs:1062-1107 | corrected: each system and machine config symbol declares its bytes plus the NUL, differs from the written block only in that size, and there are as many such symbols as `extern` lines |
| Bundles.SystemBlocksAsWritten | mcs/tools/mkbundle/mkbundle.cs:1062-1107 | as written, the `system_config` and `machine_config` blocks have the right size exactly when the path is one character longer than the file |
| Bundles.ConfigSizeAsWritten | mcs/tools/mkbundle/mkbundle.cs:1078 | as written, the declared size matches the emitted bytes only when the path is one longer than the file; the corrected block always matches |
| Bundles.ConfigSizeCounterexample | mcs/tools/mkbundle/mkbundle.cs:1102 | a 100-byte `/etc/mono/config` gets a wrong `.size` for `system_config` |
| Bundles.DescriptorOrder | mcs/tools/mkbundle/mkbundle.cs:1111-1122 | the descriptor array is the header, then one `&assembly_bundle_<symbol>,` per entry in queue order, then `NULL` |
| Bundles.SourcesOutcome | mcs/tools/mkbundle/mkbundle.cs:1062-1155 | the output exists exactly when both config files exist and the AOT mode is one of the three; then every assembly block declares its true size, the `system_config` block only when the path is one longer than the file, and the mode line matches the setting |
| Bundles.TailSelectsMode | mcs/tools/mkbundle/mkbundle.cs:1137-1153 | the C lines contain the `mono_jit_set_aot_mode` call for the selected mode |
| Bundles.UnsupportedModeFails | mcs/tools/mkbundle/mkbundle.cs:1149-1150 | any other AOT mode setting fails with "Unsupported AOT mode" |
| Shell.RewriteCommand | mcs/tools/mkbundle/mkbundle.cs:1829-1846 | the `StringBuilder` loop computes `Dos2UnixLine` |
| Shell.StripRewrite | mcs/tools/mkbundle/mkbundle.cs:1829-1846 | the rewrite only inserts: removing `|dos2unix` before each closing backtick gives back the command line |
| Shell.RewriteLength | mcs/tools/mkbundle/mkbundle.cs:1833-1843 | one `|dos2unix` per closing backtick, that is per second backtick |
| Shell.RewriteKeepsBackticks | mcs/tools/mkbundle/mkbundle.cs:1831-1844 | the rewrite neither adds nor drops a backtick |
| Shell.ShellCommand | mcs/tools/mkbundle/mkbundle.cs:1818-1848 | with dos2unix: `sh -c "<line>"`, where the line is the rewritten command line and strips back to it; without it: `cmd /c "<command line>"` |

## Left out

- File and process I/O are left out. The file system is a map, and the process exit code of `Error` is an error value. Console output (progress messages, `Dump`, the `Log:` of failed probes) is not modelled.
- The output file that `PackageMaker`'s constructor creates is not modelled. The model also omits the `0x80000000` attribute it sets on Unix.
- A package that fails partway leaves a partly written file on disk. The model returns only the error.
- `new Uri(url).LocalPath` is not modelled: urls and codebases are treated as plain paths.
- IKVM's `Universe.LoadFile` is reduced to a map from path to image: a reference list or a bad image. `LoadAssemblyFile`, `LoadAssemblies` and `LoadLocalizedAssemblies` are not part of this model: the walk starts from the codebases they return.
- The gzip compression under `-z` is a function parameter with no properties.
- `Body` runs sequentially here. Its parallel form, the `lock` and the stream dictionaries are not modelled.
- Symbols.EscapeDataSymbol: reads `\w` as ASCII letters, digits and `_`. .NET's `\w` also matches non-ASCII letters, which it keeps while the model replaces them.
- The fixed C preamble, the `template.c`/`template_z.c` text and the compiler, assembler, linker and strip runs are not modelled. Neither are `AotCompile`, `PreprocessAssemblies`, the command builders and the runtime download; they fall outside this core.
- The `dos2unix` probe that decides `_useDos2Unix`, and the run of the command, are not modelled. `ShellCommand` takes the flag as an input.
- Path functions follow Unix rules (`/`). The Windows style affects only the separator of satellite names. The drive-letter and UNC cases of `Path.GetDirectoryName` are not modelled.
- Dependencies.ProbeAll: `location` is an arbitrary input. The model does not derive it from a working directory, so it promises nothing about how relative and absolute paths relate.
- Symbols.EscapeDataSymbolSpec: strings here are sequences of Unicode scalar values, while .NET strings are UTF-16 and `Regex.Replace` works per code unit. A character outside the Basic Multilingual Plane becomes `__` in the program and one `_` in the model.
- Utf8.EncodeInjective: holds for strings of Unicode scalar values. A .NET string may hold a lone surrogate, which `GetBytes` replaces by U+FFFD, so two different .NET strings can share their bytes.
- AssemblyNames.EndsWithIgnoreCase: folds ASCII case only. `StringComparison.OrdinalIgnoreCase` also folds non-ASCII letters. A name in which a non-ASCII letter upper-cases to a letter of `.RESOURCES.DLL` may count as a satellite in the program, but does not in the model.
- Dependencies.QueueClosed: states closure only with automatic dependencies and without `--skip-scan`. Without automatic dependencies nothing is scanned, and under `--skip-scan` an unloadable file is kept unscanned.

## Findings

| source | as written | input that shows it | evidently intended | confidence | as-written member | corrected member |
|---|---|---|---|---|---|---|
| mcs/tools/mkbundle/mkbundle.cs:1078, 1102 | `WriteSymbol(ts, "system_config", _configFile.Length)` declares the length of the config file's path as the size of the symbol (the same for `machine_config`) | Linux style, `--config /etc/mono/config` naming a 100-byte file: `.size system_config, 16` while 101 bytes follow the label | the number of bytes emitted: the file length plus the NUL terminator | high, not executed | Bundles.ConfigSizeCounterexample | Bundles.SystemBlocksSized |
| mcs/tools/mkbundle/mkbundle.cs:878 | `maker.Add("config_dir:", _configDir)` adds the directory as if it were a file, so `File.OpenRead` gets a directory path | `--config-dir /etc/mono` in package mode: no file exists at that path, so `Add` fails | `maker.AddString("config_dir:", _configDir)`, recording the path as the native mode's `config_dir` string does | medium, not executed | Package.ConfigDirAsWritten | Package.ConfigDirRoundTrip |
