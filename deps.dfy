/**
 * Dependency queueing: `LoadAssembly` probes the link directories for a
 * referenced assembly, `QueueAssembly` walks the reference graph depth first
 * and appends every codebase it meets to `files`, registering its canonical
 * name in `LoadedAssemblies`.
 *
 * The assembly loader is abstract: `universe` maps the absolute locations
 * of files that exist to what loading them gives (the references of an
 * assembly, in declared order, or a bad image), and `location` maps a path,
 * relative or not, to the absolute location the loader reports for it as
 * `CodeBase`. A path whose location is absent from `universe` is a missing
 * file. The entry codebases are such locations already.
 */
module Dependencies {
  import opened AssemblyNames
  import opened FileSystem

  /** What `Universe.LoadFile` gives for an existing file. */
  datatype Image = Assembly(references: seq<string>) | BadImage

  /** The settings and the file system the walk runs against. */
  datatype Config = Config(
    linkPaths: seq<string>,
    autodeps: bool,
    skipScan: bool,
    style: Style,
    location: string -> string,
    universe: map<string, Image>)

  // ---------------------------------------------------------------------
  // Probing (`LoadAssembly`)
  // ---------------------------------------------------------------------

  /** The one path tried in a link directory: `.dll` is appended unless the name already ends in `.dll` or `.exe`. */
  function Candidate(dir: string, name: string): string
  {
    var full := Combine(dir, name);
    if EndsWith(name, ".dll") || EndsWith(name, ".exe") then full else full + ".dll"
  }

  /** Outcome of probing: the first loadable candidate, nothing, or the bad image that made the loader throw. */
  datatype Probe = Found(path: string) | NotFound | Throws(path: string)

  /** The location of the candidate in `dir`: what `a.CodeBase` is when the loader opens it. */
  function Probed(location: string -> string, dir: string, name: string): string
  {
    location(Candidate(dir, name))
  }

  function ProbeFrom(universe: map<string, Image>, location: string -> string, dirs: seq<string>, name: string): Probe
  {
    if dirs == [] then NotFound
    else
      var p := Probed(location, dirs[0], name);
      if p !in universe then ProbeFrom(universe, location, dirs[1..], name)
      else Hit(universe, p)
  }

  /** What loading an existing candidate gives. */
  function Hit(universe: map<string, Image>, p: string): Probe
    requires p in universe
  {
    if universe[p].BadImage? then Throws(p) else Found(p)
  }

  function ProbeAll(c: Config, name: string): Probe
  {
    ProbeFrom(c.universe, c.location, c.linkPaths, name)
  }

  /** Every candidate found is an existing file ending in `.dll` or `.exe`. */
  lemma CandidateSuffix(dir: string, name: string)
    ensures EndsWith(Candidate(dir, name), ".dll") || EndsWith(Candidate(dir, name), ".exe")
  {
    var full := Combine(dir, name);
    if EndsWith(name, ".dll") || EndsWith(name, ".exe") {
      var s := if EndsWith(name, ".dll") then ".dll" else ".exe";
      assert full[|full| - |name|..] == name;
      assert full[|full| - 4..] == name[|name| - 4..];
    } else {
      assert (full + ".dll")[|full|..] == ".dll";
    }
  }

  /** Probing reports a missing assembly exactly when no directory has the candidate. */
  lemma {:induction false} ProbeNotFound(universe: map<string, Image>, location: string -> string, dirs: seq<string>, name: string)
    ensures ProbeFrom(universe, location, dirs, name) == NotFound
        <==> forall k :: 0 <= k < |dirs| ==> Probed(location, dirs[k], name) !in universe
  {
    if dirs != [] && Probed(location, dirs[0], name) !in universe {
      ProbeNotFound(universe, location, dirs[1..], name);
      assert forall k :: 1 <= k < |dirs| ==> dirs[k] == dirs[1..][k - 1];
    }
  }

  /**
   * The first hit wins: probing stops at the first directory whose
   * candidate exists and reports what loading that candidate gives.
   */
  lemma {:induction false} ProbeFirstHit(universe: map<string, Image>, location: string -> string, dirs: seq<string>, name: string)
    ensures ProbeFrom(universe, location, dirs, name) != NotFound ==>
      exists k :: 0 <= k < |dirs|
        && (forall j :: 0 <= j < k ==> Probed(location, dirs[j], name) !in universe)
        && Probed(location, dirs[k], name) in universe
        && ProbeFrom(universe, location, dirs, name) == Hit(universe, Probed(location, dirs[k], name))
  {
    if dirs != [] && ProbeFrom(universe, location, dirs, name) != NotFound {
      if Probed(location, dirs[0], name) !in universe {
        var rest := dirs[1..];
        ProbeFirstHit(universe, location, rest, name);
        var k :| 0 <= k < |rest|
          && (forall j :: 0 <= j < k ==> Probed(location, rest[j], name) !in universe)
          && Probed(location, rest[k], name) in universe
          && ProbeFrom(universe, location, rest, name) == Hit(universe, Probed(location, rest[k], name));
        forall j | 0 <= j < k + 1
          ensures Probed(location, dirs[j], name) !in universe
        {
          if j > 0 { assert dirs[j] == rest[j - 1]; }
        }
        assert dirs[k + 1] == rest[k];
      } else {
        assert Probed(location, dirs[0], name) in universe;
      }
    }
  }

  // ---------------------------------------------------------------------
  // Queueing (`QueueAssembly`)
  // ---------------------------------------------------------------------

  /** `files` and `LoadedAssemblies`. */
  datatype QState = QState(files: seq<string>, loaded: map<string, string>)

  /** Why the walk stops; each of these ends the program. */
  datatype Failure =
    | DuplicateName(name: string, path: string, found: string)
    | UnresolvedReference(reference: string, referrer: string)
    | Unhandled(path: string)

  /** `Threw` is an exception on its way to the nearest `catch`. */
  datatype Outcome = Done | Failed(failure: Failure) | Threw(path: string)

  datatype Step = Step(state: QState, outcome: Outcome)

  /** The existing files the walk has not yet appended: this shrinks with every recursive call. */
  function Pending(c: Config, files: seq<string>): set<string>
  {
    set p | p in c.universe && p !in files
  }

  /** `b` is `a` after further appends and registrations. */
  predicate Extends(a: QState, b: QState)
  {
    |a.files| <= |b.files| && b.files[..|a.files|] == a.files
    && forall n :: n in a.loaded ==> n in b.loaded && b.loaded[n] == a.loaded[n]
  }

  lemma {:induction false} SubsetCardinality<T>(a: set<T>, b: set<T>)
    requires a <= b
    ensures |a| <= |b|
    ensures a < b ==> |a| < |b|
    decreases |a|
  {
    if a != {} {
      var x :| x in a;
      if a < b {
        var y :| y in b && y !in a;
        assert y in b - {x} && y !in a - {x};
      }
      SubsetCardinality(a - {x}, b - {x});
    } else if a < b {
      var y :| y in b;
    }
  }

  lemma PendingShrinks(c: Config, a: seq<string>, b: seq<string>)
    requires forall p :: p in a ==> p in b
    ensures |Pending(c, b)| <= |Pending(c, a)|
  {
    SubsetCardinality(Pending(c, b), Pending(c, a));
  }

  lemma PendingAppend(c: Config, files: seq<string>, p: string)
    requires p in c.universe && p !in files
    ensures |Pending(c, files + [p])| < |Pending(c, files)|
  {
    assert p in Pending(c, files) && p !in Pending(c, files + [p]);
    SubsetCardinality(Pending(c, files + [p]), Pending(c, files));
  }

  /** What the `catch (Exception)` does: swallow under `--skip-scan`, rethrow (and end the program) otherwise. */
  function Caught(c: Config, path: string): Outcome
  {
    if c.skipScan then Done else Failed(Unhandled(path))
  }

  /** `QueueAssembly(files, codebase)`, the codebase being the assembly's path. */
  function Queue(c: Config, st: QState, codebase: string): (r: Step)
    ensures Extends(st, r.state)
    ensures !r.outcome.Threw?
    decreases |Pending(c, st.files)|, 0
  {
    if codebase in st.files then Step(st, Done)
    else
      var name := GetAssemblyName(codebase, c.style);
      if name in st.loaded then Step(st, Failed(DuplicateName(name, codebase, st.loaded[name])))
      else
        var st1 := QState(st.files + [codebase], st.loaded[name := codebase]);
        assert st1.files[..|st.files|] == st.files;
        if !c.autodeps then Step(st1, Done)
        else if codebase !in c.universe || c.universe[codebase].BadImage? then Step(st1, Caught(c, codebase))
        else
          PendingAppend(c, st.files, codebase);
          var r := QueueReferences(c, st1, codebase, c.universe[codebase].references);
          Step(r.state, if r.outcome.Threw? then Caught(c, r.outcome.path) else r.outcome)
  }

  /** The `foreach` over the references of `referrer`, from `refs` on. */
  function QueueReferences(c: Config, st: QState, referrer: string, refs: seq<string>): (r: Step)
    ensures Extends(st, r.state)
    decreases |Pending(c, st.files)|, 1, |refs|
  {
    if refs == [] then Step(st, Done)
    else
      match ProbeAll(c, refs[0])
      case NotFound => Step(st, Failed(UnresolvedReference(refs[0], referrer)))
      case Throws(p) => Step(st, Threw(p))
      case Found(p) =>
        var q := Queue(c, st, p);
        if q.outcome != Done then q
        else
          assert forall f :: f in st.files ==> f in q.state.files by {
            assert q.state.files[..|st.files|] == st.files;
            forall f | f in st.files ensures f in q.state.files {
              var i :| 0 <= i < |st.files| && st.files[i] == f;
              assert q.state.files[i] == f;
            }
          }
          PendingShrinks(c, st.files, q.state.files);
          var r := QueueReferences(c, q.state, referrer, refs[1..]);
          Step(r.state, r.outcome)
  }

  /** The main loop over the entry assemblies: stops at the first failure. */
  function QueueAll(c: Config, st: QState, codebases: seq<string>): (r: Step)
    ensures Extends(st, r.state)
    ensures !r.outcome.Threw?
    decreases |codebases|
  {
    if codebases == [] then Step(st, Done)
    else
      var q := Queue(c, st, codebases[0]);
      if q.outcome != Done then q
      else
        var r := QueueAll(c, q.state, codebases[1..]);
        Step(r.state, r.outcome)
  }

  // ---------------------------------------------------------------------
  // Properties of the walk
  // ---------------------------------------------------------------------

  predicate NoDuplicates(s: seq<string>)
  {
    forall i, j :: 0 <= i < j < |s| ==> s[i] != s[j]
  }

  /** `files` holds each codebase once and `LoadedAssemblies` maps each canonical name to the one file that has it. */
  predicate Consistent(c: Config, st: QState)
  {
    && NoDuplicates(st.files)
    && (forall p :: p in st.files ==>
          GetAssemblyName(p, c.style) in st.loaded && st.loaded[GetAssemblyName(p, c.style)] == p)
    && (forall n :: n in st.loaded ==> st.loaded[n] in st.files && GetAssemblyName(st.loaded[n], c.style) == n)
  }

  lemma ConsistentAppend(c: Config, st: QState, codebase: string)
    requires Consistent(c, st)
    requires codebase !in st.files && GetAssemblyName(codebase, c.style) !in st.loaded
    ensures var name := GetAssemblyName(codebase, c.style);
      Consistent(c, QState(st.files + [codebase], st.loaded[name := codebase]))
  {
    var name := GetAssemblyName(codebase, c.style);
    var st1 := QState(st.files + [codebase], st.loaded[name := codebase]);
    forall p | p in st1.files
      ensures GetAssemblyName(p, c.style) in st1.loaded && st1.loaded[GetAssemblyName(p, c.style)] == p
    {
      if p != codebase {
        assert p in st.files;
      }
    }
  }

  /** Queueing never adds a codebase twice and never gives two files the same canonical name. */
  lemma {:induction false} QueueConsistent(c: Config, st: QState, codebase: string)
    requires Consistent(c, st)
    ensures Consistent(c, Queue(c, st, codebase).state)
    decreases |Pending(c, st.files)|, 0
  {
    if codebase !in st.files {
      var name := GetAssemblyName(codebase, c.style);
      if name !in st.loaded {
        var st1 := QState(st.files + [codebase], st.loaded[name := codebase]);
        ConsistentAppend(c, st, codebase);
        if c.autodeps && codebase in c.universe && c.universe[codebase].Assembly? {
          PendingAppend(c, st.files, codebase);
          QueueReferencesConsistent(c, st1, codebase, c.universe[codebase].references);
        }
      }
    }
  }

  lemma {:induction false} QueueReferencesConsistent(c: Config, st: QState, referrer: string, refs: seq<string>)
    requires Consistent(c, st)
    ensures Consistent(c, QueueReferences(c, st, referrer, refs).state)
    decreases |Pending(c, st.files)|, 1, |refs|
  {
    if refs != [] && ProbeAll(c, refs[0]).Found? {
      var q := Queue(c, st, ProbeAll(c, refs[0]).path);
      QueueConsistent(c, st, ProbeAll(c, refs[0]).path);
      if q.outcome == Done {
        ExtendsKeepsFiles(st, q.state);
        PendingShrinks(c, st.files, q.state.files);
        QueueReferencesConsistent(c, q.state, referrer, refs[1..]);
      }
    }
  }

  lemma PrefixAt(a: seq<string>, b: seq<string>, i: nat)
    requires |a| <= |b| && b[..|a|] == a && i < |a|
    ensures b[i] == a[i]
  {
    assert b[..|a|][i] == b[i];
  }

  lemma ExtendsKeepsFiles(a: QState, b: QState)
    requires Extends(a, b)
    ensures forall f :: f in a.files ==> f in b.files
  {
    forall f | f in a.files ensures f in b.files {
      var i :| 0 <= i < |a.files| && a.files[i] == f;
      assert b.files[i] == f;
    }
  }

  lemma {:induction false} QueueAllConsistent(c: Config, st: QState, codebases: seq<string>)
    requires Consistent(c, st)
    ensures Consistent(c, QueueAll(c, st, codebases).state)
    decreases |codebases|
  {
    if codebases != [] {
      var q := Queue(c, st, codebases[0]);
      QueueConsistent(c, st, codebases[0]);
      if q.outcome == Done {
        QueueAllConsistent(c, q.state, codebases[1..]);
      }
    }
  }

  /** Canonical names registered in `LoadedAssemblies` are never rebound. */
  lemma QueueKeepsRegistrations(c: Config, st: QState, codebase: string)
    ensures forall n :: n in st.loaded ==> Queue(c, st, codebase).state.loaded[n] == st.loaded[n]
  {
  }

  /** Depth first: an accepted new codebase is appended before anything its references bring in. */
  lemma QueueAppendsFirst(c: Config, st: QState, codebase: string)
    requires codebase !in st.files && GetAssemblyName(codebase, c.style) !in st.loaded
    ensures var r := Queue(c, st, codebase);
      |r.state.files| > |st.files| && r.state.files[|st.files|] == codebase
  {
    var name := GetAssemblyName(codebase, c.style);
    var st1 := QState(st.files + [codebase], st.loaded[name := codebase]);
    var r := Queue(c, st, codebase);
    assert Extends(st1, r.state) by {
      if c.autodeps && codebase in c.universe && c.universe[codebase].Assembly? {
        PendingAppend(c, st.files, codebase);
        var q := QueueReferences(c, st1, codebase, c.universe[codebase].references);
        assert r.state == q.state;
      }
    }
    assert r.state.files[..|st1.files|] == st1.files;
    assert r.state.files[|st.files|] == st1.files[|st.files|];
  }

  /** What each failure says is so in the state the program ends in. */
  predicate Explains(c: Config, st: QState, o: Outcome)
  {
    match o
    case Done => true
    case Threw(p) => p in c.universe && c.universe[p].BadImage?
    case Failed(DuplicateName(name, path, found)) =>
      && name == GetAssemblyName(path, c.style) == GetAssemblyName(found, c.style)
      && path != found && found in st.files && path !in st.files
    case Failed(UnresolvedReference(reference, referrer)) =>
      && ProbeAll(c, reference) == NotFound
      && referrer in st.files && referrer in c.universe && c.universe[referrer].Assembly?
      && reference in c.universe[referrer].references
    case Failed(Unhandled(path)) =>
      !c.skipScan && (path !in c.universe || c.universe[path].BadImage?)
  }

  /**
   * A duplicate name is reported only for a codebase not yet queued whose
   * canonical name an earlier, different, queued codebase already has; an
   * unresolved reference is one no link directory holds; an exception ends
   * the program only without `--skip-scan`.
   */
  lemma {:induction false} QueueFailure(c: Config, st: QState, codebase: string)
    requires Consistent(c, st)
    ensures Explains(c, Queue(c, st, codebase).state, Queue(c, st, codebase).outcome)
    decreases |Pending(c, st.files)|, 0
  {
    var r := Queue(c, st, codebase);
    if codebase !in st.files {
      var name := GetAssemblyName(codebase, c.style);
      if name in st.loaded {
        assert r == Step(st, Failed(DuplicateName(name, codebase, st.loaded[name])));
      } else {
        var st1 := QState(st.files + [codebase], st.loaded[name := codebase]);
        if !c.autodeps {
          assert r.outcome == Done;
        } else if codebase !in c.universe || c.universe[codebase].BadImage? {
          assert r.outcome == Caught(c, codebase);
        } else {
          ConsistentAppend(c, st, codebase);
          PendingAppend(c, st.files, codebase);
          var refs := c.universe[codebase].references;
          var q := QueueReferences(c, st1, codebase, refs);
          assert r == Step(q.state, if q.outcome.Threw? then Caught(c, q.outcome.path) else q.outcome);
          QueueReferencesFailure(c, st1, codebase, refs);
        }
      }
    }
  }

  lemma {:induction false} QueueReferencesFailure(c: Config, st: QState, referrer: string, refs: seq<string>)
    requires Consistent(c, st)
    requires referrer in st.files && referrer in c.universe && c.universe[referrer].Assembly?
    requires forall x :: x in refs ==> x in c.universe[referrer].references
    ensures Explains(c, QueueReferences(c, st, referrer, refs).state, QueueReferences(c, st, referrer, refs).outcome)
    decreases |Pending(c, st.files)|, 1, |refs|
  {
    if refs != [] {
      var probe := ProbeAll(c, refs[0]);
      if probe.Throws? {
        ProbeFirstHit(c.universe, c.location, c.linkPaths, refs[0]);
      } else if probe.Found? {
        var q := Queue(c, st, probe.path);
        QueueFailure(c, st, probe.path);
        if q.outcome == Done {
          QueueConsistent(c, st, probe.path);
          ExtendsKeepsFiles(st, q.state);
          PendingShrinks(c, st.files, q.state.files);
          assert forall x :: x in refs[1..] ==> x in refs;
          QueueReferencesFailure(c, q.state, referrer, refs[1..]);
        }
      }
    }
  }

  /** Under `--skip-scan` no exception escapes: the walk only fails on a duplicate name or a missing reference. */
  lemma SkipScanNeverThrows(c: Config, st: QState, codebase: string)
    requires Consistent(c, st) && c.skipScan
    ensures var o := Queue(c, st, codebase).outcome;
      o.Failed? ==> !o.failure.Unhandled?
  {
    QueueFailure(c, st, codebase);
  }

  /** `p` was loaded and each of its references probes to a file already in `files`. */
  predicate Resolved(c: Config, files: seq<string>, p: string)
  {
    && p in c.universe && c.universe[p].Assembly?
    && forall x :: x in c.universe[p].references ==> ProbeAll(c, x).Found? && ProbeAll(c, x).path in files
  }

  /** Every file from index `from` on is resolved within `files`. */
  predicate ResolvedFrom(c: Config, files: seq<string>, from: nat)
  {
    forall i :: from <= i < |files| ==> Resolved(c, files, files[i])
  }

  /**
   * With automatic dependencies and no `--skip-scan`, a walk that succeeds
   * leaves `files` closed under references: every codebase it appended was
   * loaded and each of its references resolves to a queued file.
   */
  lemma {:induction false} QueueClosed(c: Config, st: QState, codebase: string)
    requires c.autodeps && !c.skipScan
    ensures var r := Queue(c, st, codebase);
      r.outcome == Done ==>
        && codebase in r.state.files
        && ResolvedFrom(c, r.state.files, |st.files|)
    decreases |Pending(c, st.files)|, 0
  {
    var r := Queue(c, st, codebase);
    var name := GetAssemblyName(codebase, c.style);
    if codebase in st.files {
      assert r == Step(st, Done);
    } else if name in st.loaded {
      assert r.outcome.Failed?;
    } else if codebase !in c.universe || c.universe[codebase].BadImage? {
      assert r.outcome == Caught(c, codebase);
    } else {
      var st1 := QState(st.files + [codebase], st.loaded[name := codebase]);
      PendingAppend(c, st.files, codebase);
      var refs := c.universe[codebase].references;
      var q := QueueReferences(c, st1, codebase, refs);
      assert r == Step(q.state, if q.outcome.Threw? then Caught(c, q.outcome.path) else q.outcome);
      if r.outcome == Done {
        QueueReferencesClosed(c, st1, codebase, refs);
        PrefixAt(st1.files, q.state.files, |st.files|);
        assert Resolved(c, q.state.files, codebase);
        assert ResolvedFrom(c, q.state.files, |st.files|) by {
          forall i | |st.files| <= i < |q.state.files|
            ensures Resolved(c, q.state.files, q.state.files[i])
          {
            if i > |st.files| {
              assert i >= |st1.files|;
            }
          }
        }
      }
    }
  }

  lemma {:induction false} QueueReferencesClosed(c: Config, st: QState, referrer: string, refs: seq<string>)
    requires c.autodeps && !c.skipScan
    ensures var r := QueueReferences(c, st, referrer, refs);
      r.outcome == Done ==>
        && (forall x :: x in refs ==> ProbeAll(c, x).Found? && ProbeAll(c, x).path in r.state.files)
        && ResolvedFrom(c, r.state.files, |st.files|)
    decreases |Pending(c, st.files)|, 1, |refs|
  {
    var r := QueueReferences(c, st, referrer, refs);
    if refs != [] && r.outcome == Done {
      var p := ProbeAll(c, refs[0]).path;
      var q := Queue(c, st, p);
      QueueClosed(c, st, p);
      ExtendsKeepsFiles(st, q.state);
      PendingShrinks(c, st.files, q.state.files);
      QueueReferencesClosed(c, q.state, referrer, refs[1..]);
      ExtendsKeepsFiles(q.state, r.state);
      forall i | |st.files| <= i < |r.state.files|
        ensures Resolved(c, r.state.files, r.state.files[i])
      {
        if i < |q.state.files| {
          assert r.state.files[..|q.state.files|] == q.state.files;
          assert r.state.files[i] == q.state.files[i];
        }
      }
      forall x | x in refs
        ensures ProbeAll(c, x).Found? && ProbeAll(c, x).path in r.state.files
      {
        if x != refs[0] {
          assert x in refs[1..];
        }
      }
    }
  }

  /**
   * An entry assembly whose one reference resolves to the location of the
   * next entry: the reference queues that entry, which the main loop then
   * meets again and skips, so each is queued once, in order.
   */
  lemma ReferencedEntryQueuedOnce(c: Config, app: string, lib: string, reference: string)
    requires c.autodeps && app != lib
    requires app in c.universe && c.universe[app] == Assembly([reference])
    requires lib in c.universe && c.universe[lib] == Assembly([])
    requires ProbeAll(c, reference) == Found(lib)
    requires GetAssemblyName(app, c.style) != GetAssemblyName(lib, c.style)
    ensures QueueAll(c, QState([], map[]), [app, lib])
         == Step(QState([app, lib], map[GetAssemblyName(app, c.style) := app, GetAssemblyName(lib, c.style) := lib]), Done)
  {
    var n1, n2 := GetAssemblyName(app, c.style), GetAssemblyName(lib, c.style);
    var st0 := QState([], map[]);
    var st1 := QState([app], map[n1 := app]);
    var st2 := QState([app, lib], map[n1 := app, n2 := lib]);
    assert Queue(c, st1, lib) == Step(st2, Done) by {
      assert st1.files + [lib] == st2.files;
      assert QueueReferences(c, st2, lib, []) == Step(st2, Done);
    }
    assert QueueReferences(c, st1, app, [reference]) == Step(st2, Done) by {
      assert [reference][1..] == [];
      assert QueueReferences(c, st2, app, []) == Step(st2, Done);
    }
    assert Queue(c, st0, app) == Step(st2, Done) by {
      assert st0.files + [app] == st1.files;
      assert st0.loaded[n1 := app] == st1.loaded;
    }
    assert QueueAll(c, st2, [lib]) == Step(st2, Done) by {
      assert Queue(c, st2, lib) == Step(st2, Done);
    }
    assert [app, lib][1..] == [lib];
  }

  /**
   * `App.exe` referencing `Lib`, both given on the command line from `/w`,
   * with the default link directory `.`: the reference is found as
   * `./Lib.dll`, whose location is `/w/Lib.dll`, so the walk queues each
   * file once, in that order, and succeeds.
   */
  lemma AppAndLib()
    ensures var c := Config(["."], true, false, Linux,
                            p => if p == "./Lib.dll" then "/w/Lib.dll" else p,
                            map["/w/App.exe" := Assembly(["Lib"]), "/w/Lib.dll" := Assembly([])]);
      QueueAll(c, QState([], map[]), ["/w/App.exe", "/w/Lib.dll"])
        == Step(QState(["/w/App.exe", "/w/Lib.dll"], map["App.exe" := "/w/App.exe", "Lib.dll" := "/w/Lib.dll"]), Done)
  {
    var c := Config(["."], true, false, Linux,
                    p => if p == "./Lib.dll" then "/w/Lib.dll" else p,
                    map["/w/App.exe" := Assembly(["Lib"]), "/w/Lib.dll" := Assembly([])]);
    AppAndLibNames();
    assert ProbeAll(c, "Lib") == Found("/w/Lib.dll") by {
      assert Candidate(".", "Lib") == "./Lib.dll";
    }
    ReferencedEntryQueuedOnce(c, "/w/App.exe", "/w/Lib.dll", "Lib");
  }

  lemma AppAndLibNames()
    ensures GetAssemblyName("/w/App.exe", Linux) == "App.exe"
    ensures GetAssemblyName("/w/Lib.dll", Linux) == "Lib.dll"
  {
    assert "/w" + [SEPARATOR] + "App.exe" == "/w/App.exe";
    PlainName("/w", "App.exe", Linux);
    assert "/w" + [SEPARATOR] + "Lib.dll" == "/w/Lib.dll";
    PlainName("/w", "Lib.dll", Linux);
  }

  // ---------------------------------------------------------------------
  // The walk as the program runs it
  // ---------------------------------------------------------------------

  /** The mutable state of the walk: `files` and the static `LoadedAssemblies`. */
  class Resolver {
    const config: Config
    var files: seq<string>
    var loaded: map<string, string>

    function State(): QState
      reads this
    {
      QState(files, loaded)
    }

    constructor(config: Config)
      ensures this.config == config && files == [] && loaded == map[]
    {
      this.config := config;
      files := [];
      loaded := map[];
    }

    /** `LoadAssembly(name)`: the link directories in order, the first existing candidate wins. */
    method LoadAssembly(name: string) returns (r: Probe)
      ensures r == ProbeAll(config, name)
    {
      var dirs := config.linkPaths;
      var i := 0;
      while i < |dirs|
        invariant 0 <= i <= |dirs|
        invariant ProbeFrom(config.universe, config.location, dirs[i..], name) == ProbeAll(config, name)
      {
        var p := config.location(Candidate(dirs[i], name));
        if p in config.universe {
          return Hit(config.universe, p);
        }
        assert dirs[i..][1..] == dirs[i + 1..];
        i := i + 1;
      }
      return NotFound;
    }

    /** `QueueAssembly(files, codebase)`. */
    method QueueAssembly(codebase: string) returns (outcome: Outcome)
      modifies this
      ensures Step(State(), outcome) == Queue(config, old(State()), codebase)
      decreases |Pending(config, files)|, 0
    {
      if codebase in files {
        return Done;
      }
      var name := GetAssemblyName(codebase, config.style);
      if name in loaded {
        return Failed(DuplicateName(name, codebase, loaded[name]));
      }
      ghost var files0 := files;
      loaded := loaded[name := codebase];
      files := files + [codebase];
      if !config.autodeps {
        return Done;
      }
      if codebase !in config.universe || config.universe[codebase].BadImage? {
        return Caught(config, codebase);
      }
      PendingAppend(config, files0, codebase);
      outcome := QueueReferencesOf(codebase, config.universe[codebase].references);
      if outcome.Threw? {
        outcome := Caught(config, outcome.path);
      }
    }

    /** The `foreach` over the references of `codebase`, each resolved with `LoadAssembly` and queued. */
    method QueueReferencesOf(codebase: string, refs: seq<string>) returns (outcome: Outcome)
      modifies this
      ensures Step(State(), outcome) == QueueReferences(config, old(State()), codebase, refs)
      decreases |Pending(config, files)|, 1
    {
      ghost var st1 := State();
      var i := 0;
      while i < |refs|
        invariant 0 <= i <= |refs|
        invariant Extends(st1, State())
        invariant QueueReferences(config, State(), codebase, refs[i..]) == QueueReferences(config, st1, codebase, refs)
        invariant |Pending(config, files)| <= |Pending(config, st1.files)|
      {
        var probe := LoadAssembly(refs[i]);
        match probe
        case NotFound =>
          return Failed(UnresolvedReference(refs[i], codebase));
        case Throws(p) =>
          return Threw(p);
        case Found(p) =>
          ghost var before := State();
          var o := QueueAssembly(p);
          if o != Done {
            return o;
          }
          ExtendsKeepsFiles(before, State());
          PendingShrinks(config, before.files, files);
          ExtendsKeepsFiles(st1, State());
        assert refs[i..][1..] == refs[i + 1..];
        i := i + 1;
      }
      return Done;
    }

    /** The main loop: queue each entry assembly in turn, stopping at the first failure. */
    method QueueAssemblies(codebases: seq<string>) returns (outcome: Outcome)
      modifies this
      ensures Step(State(), outcome) == QueueAll(config, old(State()), codebases)
    {
      var i := 0;
      while i < |codebases|
        invariant 0 <= i <= |codebases|
        invariant QueueAll(config, State(), codebases[i..]) == QueueAll(config, old(State()), codebases)
      {
        outcome := QueueAssembly(codebases[i]);
        if outcome != Done {
          return;
        }
        assert codebases[i..][1..] == codebases[i + 1..];
        i := i + 1;
      }
      return Done;
    }
  }
}
