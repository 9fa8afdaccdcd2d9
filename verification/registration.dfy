/** The registration half of AP_Module as values: what module_scan and init
    do to the five hook lists and which loader calls they make. The class in
    ApModule is proved to follow these functions step for step; the lemmas
    here state what registration promises. */
module Registration {
  import opened Hooks
  import opened ModuleFiles

  /** A module the dynamic loader can open: its handle and the symbols it
      exports, by name. symbols holds exactly the names that dlsym resolves
      to a non-null address; a name it resolves to null is absent. */
  datatype Library = Library(handle: nat, symbols: map<string, Symbol>)

  /** What the dynamic loader finds at each path. */
  datatype Loader = Loader(libraries: map<string, Library>)
  {
    /** dlopen: fails for a path that holds no loadable module. */
    function Open(path: string): (r: Option<Library>)
      ensures r.Some? <==> path in libraries
    {
      if path in libraries then Some(libraries[path]) else None
    }
  }

  /** The loader's foreign calls, in the order the registry makes them. */
  datatype LoaderEvent = LoadAttempt(path: string) | Unload(handle: nat)

  /** One directory entry: its name, and whether building its full path
      succeeds (the allocation inside asprintf may fail). */
  datatype DirEntry = DirEntry(name: string, pathBuilt: bool)

  /** The registry as a value: the hook lists, each head first and indexed
      as HookNames is, and the trace of loader calls made so far. */
  datatype RegState = RegState(lists: seq<seq<Symbol>>, log: seq<LoaderEvent>)
  {
    predicate Valid() { |lists| == NUM_HOOKS }
  }

  /** The registry before any module is scanned. */
  function EmptyRegistry(): (r: RegState)
    ensures r.Valid() && r.log == []
    ensures forall i :: 0 <= i < NUM_HOOKS ==> r.lists[i] == []
  {
    RegState([[], [], [], [], []], [])
  }

  /** dlsym(m, hook_names[i]). */
  function Lookup(lib: Library, i: nat): (r: Option<Symbol>)
    requires i < NUM_HOOKS
    ensures r.Some? <==> HookNames[i] in lib.symbols
  {
    if HookNames[i] in lib.symbols then Some(lib.symbols[HookNames[i]]) else None
  }

  /** Whether the module exports at least one of the five hook names. */
  predicate ExportsAny(lib: Library)
  {
    exists i :: 0 <= i < NUM_HOOKS && HookNames[i] in lib.symbols
  }

  /** List i after the module's symbol for hook i, if any, is put at its head. */
  function Prepended(list: seq<Symbol>, lib: Library, i: nat): (r: seq<Symbol>)
    requires i < NUM_HOOKS
    ensures HookNames[i] in lib.symbols ==>
              |r| == |list| + 1 && r[0] == lib.symbols[HookNames[i]] && r[1..] == list
    ensures HookNames[i] !in lib.symbols ==> r == list
  {
    match Lookup(lib, i)
    case Some(s) => [s] + list
    case None => list
  }

  /** All five lists after a loaded module is registered. */
  function Registered(lists: seq<seq<Symbol>>, lib: Library): (r: seq<seq<Symbol>>)
    requires |lists| == NUM_HOOKS
    ensures |r| == NUM_HOOKS
    ensures forall i :: 0 <= i < NUM_HOOKS && HookNames[i] in lib.symbols ==>
              |r[i]| == |lists[i]| + 1 && r[i][0] == lib.symbols[HookNames[i]] && r[i][1..] == lists[i]
    ensures forall i :: 0 <= i < NUM_HOOKS && HookNames[i] !in lib.symbols ==> r[i] == lists[i]
  {
    seq(NUM_HOOKS, i requires 0 <= i < NUM_HOOKS => Prepended(lists[i], lib, i))
  }

  /** The loader calls module_scan makes for a module that loaded. */
  function ScanEvents(path: string, lib: Library): (r: seq<LoaderEvent>)
  {
    [LoadAttempt(path)] + if ExportsAny(lib) then [] else [Unload(lib.handle)]
  }

  /** module_scan(path): a module that cannot be loaded changes no hook list
      and leaves only its load attempt in the trace. A loaded one has its
      symbols prepended, and is released exactly when it exports none of the
      five names. */
  function Scan(st: RegState, loader: Loader, path: string): (r: RegState)
    requires st.Valid()
    ensures r.Valid()
    ensures |r.log| > |st.log| && r.log[..|st.log|] == st.log && r.log[|st.log|] == LoadAttempt(path)
    ensures loader.Open(path).None? ==> r == RegState(st.lists, st.log + [LoadAttempt(path)])
    ensures loader.Open(path).Some? ==> r.lists == Registered(st.lists, loader.Open(path).value)
    ensures loader.Open(path).Some? ==>
              (Unload(loader.Open(path).value.handle) in r.log[|st.log|..] <==> !ExportsAny(loader.Open(path).value))
  {
    match loader.Open(path)
    case None => RegState(st.lists, st.log + [LoadAttempt(path)])
    case Some(lib) => RegState(Registered(st.lists, lib), st.log + ScanEvents(path, lib))
  }

  /** The path init builds for a directory entry: "%s/%s". */
  function JoinPath(modulePath: string, name: string): (r: string)
    ensures |r| == |modulePath| + 1 + |name|
    ensures r[..|modulePath|] == modulePath && r[|modulePath|] == '/' && r[|modulePath| + 1..] == name
  {
    modulePath + "/" + name
  }

  /** Whether init scans the entry: its name passes the filter and its path
      could be built. */
  predicate Accepted(e: DirEntry)
  {
    IsModuleFile(e.name) && e.pathBuilt
  }

  /** list is before with zero or more entries put in front of it. */
  predicate IsTail(list: seq<Symbol>, before: seq<Symbol>)
  {
    |list| >= |before| && list[|list| - |before|..] == before
  }

  /** Registration only ever prepends and the trace only ever grows. */
  predicate Extends(r: RegState, st: RegState)
    requires r.Valid() && st.Valid()
  {
    && (forall i :: 0 <= i < NUM_HOOKS ==> IsTail(r.lists[i], st.lists[i]))
    && |r.log| >= |st.log| && r.log[..|st.log|] == st.log
  }

  lemma ScanExtends(st: RegState, loader: Loader, path: string)
    requires st.Valid()
    ensures Extends(Scan(st, loader, path), st)
  {
    var r := Scan(st, loader, path);
    forall i | 0 <= i < NUM_HOOKS
      ensures IsTail(r.lists[i], st.lists[i])
    {
      if loader.Open(path).Some? && HookNames[i] in loader.Open(path).value.symbols {
        assert r.lists[i][1..] == st.lists[i];
      }
    }
  }

  /** The only loader calls a scan adds after its load attempt are releases
      of the module it loaded itself, and at most one of them: a module kept
      by an earlier scan is never released by a later one. */
  lemma ScanReleasesOnlyItself(st: RegState, loader: Loader, path: string)
    requires st.Valid()
    ensures |Scan(st, loader, path).log| <= |st.log| + 2
    ensures forall k :: |st.log| < k < |Scan(st, loader, path).log| ==>
              loader.Open(path).Some? && Scan(st, loader, path).log[k] == Unload(loader.Open(path).value.handle)
  {
  }

  lemma ExtendsTransitive(a: RegState, b: RegState, c: RegState)
    requires a.Valid() && b.Valid() && c.Valid()
    requires Extends(b, a) && Extends(c, b)
    ensures Extends(c, a)
  {
    forall i | 0 <= i < NUM_HOOKS
      ensures IsTail(c.lists[i], a.lists[i])
    {
      var x, y, z := a.lists[i], b.lists[i], c.lists[i];
      assert z[|z| - |x|..] == z[|z| - |y|..][|y| - |x|..];
    }
    assert c.log[..|b.log|][..|a.log|] == c.log[..|a.log|];
  }

  /** The body of init's readdir loop over the given entries, in order. It
      never removes a registration nor forgets a loader call. */
  function InitEntries(st: RegState, loader: Loader, modulePath: string, entries: seq<DirEntry>): (r: RegState)
    requires st.Valid()
    ensures r.Valid() && Extends(r, st)
    decreases |entries|
  {
    if entries == [] then st
    else
      var prev := InitEntries(st, loader, modulePath, entries[..|entries| - 1]);
      var e := entries[|entries| - 1];
      if Accepted(e) then
        var next := Scan(prev, loader, JoinPath(modulePath, e.name));
        ScanExtends(prev, loader, JoinPath(modulePath, e.name));
        ExtendsTransitive(st, prev, next);
        next
      else prev
  }

  /** init(module_path): a directory that cannot be opened is None, and
      leaves the registry unchanged. */
  function Init(st: RegState, loader: Loader, dir: Option<seq<DirEntry>>, modulePath: string): (r: RegState)
    requires st.Valid()
    ensures r.Valid() && Extends(r, st)
    ensures dir.None? ==> r == st
  {
    match dir
    case None => st
    case Some(entries) => InitEntries(st, loader, modulePath, entries)
  }

  // ---------------------------------------------------------------------
  // Scanning many modules

  /** The hook lists after the loaded modules libs are registered in order. */
  function RegisterAll(lists: seq<seq<Symbol>>, libs: seq<Library>): (r: seq<seq<Symbol>>)
    requires |lists| == NUM_HOOKS
    ensures |r| == NUM_HOOKS
    decreases |libs|
  {
    if libs == [] then lists
    else Registered(RegisterAll(lists, libs[..|libs| - 1]), libs[|libs| - 1])
  }

  /** The symbols for hook i that libs export, in registration order. */
  function ExportedSymbols(libs: seq<Library>, i: nat): (r: seq<Symbol>)
    requires i < NUM_HOOKS
    decreases |libs|
  {
    if libs == [] then []
    else
      var prev := ExportedSymbols(libs[..|libs| - 1], i);
      match Lookup(libs[|libs| - 1], i)
      case Some(s) => prev + [s]
      case None => prev
  }

  /** s with its order reversed. */
  function Reverse<T>(s: seq<T>): (r: seq<T>)
    ensures |r| == |s|
    ensures forall k :: 0 <= k < |s| ==> r[k] == s[|s| - 1 - k]
  {
    if s == [] then [] else [s[|s| - 1]] + Reverse(s[..|s| - 1])
  }

  /** LIFO across modules: after registering libs in order, list i holds the
      symbols the modules export for hook i, the most recently registered
      first, in front of what the list held before. */
  lemma {:induction false} RegisterAllIsReversed(lists: seq<seq<Symbol>>, libs: seq<Library>, i: nat)
    requires |lists| == NUM_HOOKS && i < NUM_HOOKS
    ensures RegisterAll(lists, libs)[i] == Reverse(ExportedSymbols(libs, i)) + lists[i]
    decreases |libs|
  {
    if libs != [] {
      var init, last := libs[..|libs| - 1], libs[|libs| - 1];
      RegisterAllIsReversed(lists, init, i);
      var prev := ExportedSymbols(init, i);
      match Lookup(last, i)
      case Some(s) =>
        assert (prev + [s])[..|prev|] == prev;
        assert Reverse(prev + [s]) == [s] + Reverse(prev);
      case None =>
    }
  }

  /** Two modules A then B (libs[0] then libs[1]) that both export hook i:
      B's entry comes first, then A's. */
  lemma LaterModuleFirst(lists: seq<seq<Symbol>>, libs: seq<Library>, i: nat)
    requires |lists| == NUM_HOOKS && i < NUM_HOOKS && |libs| == 2
    requires HookNames[i] in libs[0].symbols && HookNames[i] in libs[1].symbols
    ensures RegisterAll(lists, libs)[i] ==
              [libs[1].symbols[HookNames[i]], libs[0].symbols[HookNames[i]]] + lists[i]
  {
    var sa, sb := libs[0].symbols[HookNames[i]], libs[1].symbols[HookNames[i]];
    var first := libs[..1];
    assert first[..0] == [];
    assert ExportedSymbols(first, i) == [sa];
    assert libs[..1] == first;
    assert ExportedSymbols(libs, i) == [sa, sb];
    assert Reverse([sa, sb]) == [sb, sa];
    RegisterAllIsReversed(lists, libs, i);
  }

  // ---------------------------------------------------------------------
  // init

  /** The paths init hands to module_scan, in directory order. */
  function CandidatePaths(modulePath: string, entries: seq<DirEntry>): (r: seq<string>)
    decreases |entries|
  {
    if entries == [] then []
    else
      var prev := CandidatePaths(modulePath, entries[..|entries| - 1]);
      var e := entries[|entries| - 1];
      if Accepted(e) then prev + [JoinPath(modulePath, e.name)] else prev
  }

  /** The modules among paths that load, in order. */
  function Loaded(loader: Loader, paths: seq<string>): (r: seq<Library>)
    decreases |paths|
  {
    if paths == [] then []
    else
      var prev := Loaded(loader, paths[..|paths| - 1]);
      match loader.Open(paths[|paths| - 1])
      case Some(lib) => prev + [lib]
      case None => prev
  }

  /** The paths of the load attempts in a trace, in order. */
  function LoadAttempts(log: seq<LoaderEvent>): (r: seq<string>)
    decreases |log|
  {
    if log == [] then []
    else
      var prev := LoadAttempts(log[..|log| - 1]);
      match log[|log| - 1]
      case LoadAttempt(p) => prev + [p]
      case Unload(_) => prev
  }

  lemma {:induction false} LoadAttemptsAppend(a: seq<LoaderEvent>, b: seq<LoaderEvent>)
    ensures LoadAttempts(a + b) == LoadAttempts(a) + LoadAttempts(b)
    decreases |b|
  {
    if b != [] {
      var b' := b[..|b| - 1];
      assert (a + b)[..|a + b| - 1] == a + b';
      assert (a + b)[|a + b| - 1] == b[|b| - 1];
      LoadAttemptsAppend(a, b');
      match b[|b| - 1]
      case LoadAttempt(p) =>
        calc {
          LoadAttempts(a + b);
          LoadAttempts(a + b') + [p];
          LoadAttempts(a) + LoadAttempts(b') + [p];
          LoadAttempts(a) + LoadAttempts(b);
        }
      case Unload(_) =>
    } else {
      assert a + b == a;
    }
  }

  /** The loader calls of one module_scan hold exactly one load attempt. */
  lemma OneAttemptPerScan(path: string, tail: seq<LoaderEvent>)
    requires tail == [LoadAttempt(path)] || (|tail| == 2 && tail[0] == LoadAttempt(path) && tail[1].Unload?)
    ensures LoadAttempts(tail) == [path]
  {
    assert [LoadAttempt(path)][..0] == [];
    if |tail| == 2 {
      assert tail[..1] == [LoadAttempt(path)];
    }
  }

  /** One module_scan adds exactly one load attempt, for its path. */
  lemma ScanLoadAttempts(st: RegState, loader: Loader, path: string)
    requires st.Valid()
    ensures LoadAttempts(Scan(st, loader, path).log) == LoadAttempts(st.log) + [path]
  {
    var tail := match loader.Open(path)
      case None => [LoadAttempt(path)]
      case Some(lib) => ScanEvents(path, lib);
    assert Scan(st, loader, path).log == st.log + tail;
    LoadAttemptsAppend(st.log, tail);
    OneAttemptPerScan(path, tail);
  }

  /** init attempts to load exactly the accepted entries, each under
      module_path + "/" + name, once each and in directory order; an entry
      whose path cannot be built is the only one skipped for it. */
  lemma {:induction false} InitLoadAttempts(st: RegState, loader: Loader, modulePath: string, entries: seq<DirEntry>)
    requires st.Valid()
    ensures LoadAttempts(InitEntries(st, loader, modulePath, entries).log) ==
              LoadAttempts(st.log) + CandidatePaths(modulePath, entries)
    decreases |entries|
  {
    if entries != [] {
      var prev := InitEntries(st, loader, modulePath, entries[..|entries| - 1]);
      InitLoadAttempts(st, loader, modulePath, entries[..|entries| - 1]);
      var e := entries[|entries| - 1];
      if Accepted(e) {
        ScanLoadAttempts(prev, loader, JoinPath(modulePath, e.name));
      }
    }
  }

  /** The hook lists after init are those after registering, in directory
      order, every accepted module that loads. */
  lemma {:induction false} InitRegisters(st: RegState, loader: Loader, modulePath: string, entries: seq<DirEntry>)
    requires st.Valid()
    ensures InitEntries(st, loader, modulePath, entries).lists ==
              RegisterAll(st.lists, Loaded(loader, CandidatePaths(modulePath, entries)))
    decreases |entries|
  {
    if entries != [] {
      var init := entries[..|entries| - 1];
      InitRegisters(st, loader, modulePath, init);
      var e := entries[|entries| - 1];
      if Accepted(e) {
        var paths := CandidatePaths(modulePath, init);
        var path := JoinPath(modulePath, e.name);
        assert (paths + [path])[..|paths|] == paths;
        var libs := Loaded(loader, paths);
        match loader.Open(path)
        case None =>
        case Some(lib) =>
          assert (libs + [lib])[..|libs|] == libs;
      }
    }
  }

  /** After init from the empty registry, hook i's list holds the symbols of
      the loaded modules that export it, the last one scanned first. */
  lemma InitFromEmpty(loader: Loader, modulePath: string, entries: seq<DirEntry>, i: nat)
    requires i < NUM_HOOKS
    ensures InitEntries(EmptyRegistry(), loader, modulePath, entries).lists[i] ==
              Reverse(ExportedSymbols(Loaded(loader, CandidatePaths(modulePath, entries)), i))
  {
    InitRegisters(EmptyRegistry(), loader, modulePath, entries);
    RegisterAllIsReversed(EmptyRegistry().lists, Loaded(loader, CandidatePaths(modulePath, entries)), i);
  }

  /** A directory in which no entry is accepted leaves every hook list of
      the empty registry empty. */
  lemma NoModuleFilesNoHooks(loader: Loader, modulePath: string, entries: seq<DirEntry>, i: nat)
    requires i < NUM_HOOKS
    requires forall k :: 0 <= k < |entries| ==> !Accepted(entries[k])
    ensures InitEntries(EmptyRegistry(), loader, modulePath, entries).lists[i] == []
  {
    NoCandidates(modulePath, entries);
    InitFromEmpty(loader, modulePath, entries, i);
  }

  lemma {:induction false} NoCandidates(modulePath: string, entries: seq<DirEntry>)
    requires forall k :: 0 <= k < |entries| ==> !Accepted(entries[k])
    ensures CandidatePaths(modulePath, entries) == []
    decreases |entries|
  {
    if entries != [] {
      NoCandidates(modulePath, entries[..|entries| - 1]);
    }
  }

  /** A directory holding "a.so", "b.txt" and "c.SO" yields exactly one load
      attempt, for "a.so". */
  lemma InitExample(loader: Loader)
    ensures var entries := [DirEntry("a.so", true), DirEntry("b.txt", true), DirEntry("c.SO", true)];
            LoadAttempts(InitEntries(EmptyRegistry(), loader, "mods", entries).log) == ["mods/a.so"]
  {
    var a, b, c := DirEntry("a.so", true), DirEntry("b.txt", true), DirEntry("c.SO", true);
    ExampleAccepted();
    ThreeEntryCandidates("mods", a, b, c);
    ExamplePath();
    InitLoadAttempts(EmptyRegistry(), loader, "mods", [a, b, c]);
    assert LoadAttempts(EmptyRegistry().log) == [];
  }

  lemma ExampleAccepted()
    ensures Accepted(DirEntry("a.so", true))
    ensures !Accepted(DirEntry("b.txt", true)) && !Accepted(DirEntry("c.SO", true))
  {
    FilterExamples();
  }

  lemma ExamplePath()
    ensures JoinPath("mods", "a.so") == "mods/a.so"
  {
  }

  /** Of three entries, only the first accepted: one candidate path. */
  lemma ThreeEntryCandidates(modulePath: string, a: DirEntry, b: DirEntry, c: DirEntry)
    requires Accepted(a) && !Accepted(b) && !Accepted(c)
    ensures CandidatePaths(modulePath, [a, b, c]) == [JoinPath(modulePath, a.name)]
  {
    CandidatesSnoc(modulePath, [], a);
    CandidatesSnoc(modulePath, [a], b);
    CandidatesSnoc(modulePath, [a, b], c);
    assert [] + [a] == [a] && [a] + [b] == [a, b] && [a, b] + [c] == [a, b, c];
  }

  lemma CandidatesSnoc(modulePath: string, entries: seq<DirEntry>, e: DirEntry)
    ensures CandidatePaths(modulePath, entries + [e]) ==
              CandidatePaths(modulePath, entries) + if Accepted(e) then [JoinPath(modulePath, e.name)] else []
  {
    assert (entries + [e])[..|entries|] == entries;
  }
}
