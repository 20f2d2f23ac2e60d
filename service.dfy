/**
 * The compiler service itself: the single-slot compilation cache with its reuse rule, the
 * two-phase compile, the memoised per-file predicates and the searches built on them.
 */
module Service {
  import opened Common
  import opened Names
  import opened Imports
  import opened Search
  import opened CompileCache

  /** The service's loud failures. */
  datatype Failure = StillInUse | EmptySources

  datatype Result<T> = Ok(value: T) | Err(failure: Failure)

  /**
   * A memo table keyed by a file and an auxiliary key (`()` where the source passes `null` for a
   * `Void` key). It never decides staleness itself: `needs` only asks whether a value was loaded.
   */
  class Cache<K(==), V> {
    var table: map<(Path, K), V>

    constructor ()
      ensures table == map[]
    {
      table := map[];
    }

    /** `needs(file, k)` */
    method Needs(file: Path, k: K) returns (b: bool)
      ensures b <==> (file, k) !in table
    {
      b := (file, k) !in table;
    }

    /** `load(file, k, v)` */
    method Load(file: Path, k: K, v: V)
      modifies this
      ensures table == old(table)[(file, k) := v]
    {
      table := table[(file, k) := v];
    }

    /** `get(file, k)`; asking for a key never loaded is a programming error. */
    method Get(file: Path, k: K) returns (v: V)
      requires (file, k) in table
      ensures v == table[(file, k)]
    {
      v := table[(file, k)];
    }
  }

  /**
   * One compiler invocation over a fixed list of sources. `closed` is set when its consumer is
   * done with it; `borrowClosed` when the service has released the compiler it borrowed.
   * `additional` is what the compiler reports from `needsAdditionalSources`.
   */
  class CompileBatch {
    const sources: seq<Path>
    const additional: seq<Path>
    var closed: bool
    var borrowClosed: bool

    constructor (sources: seq<Path>, additional: seq<Path>)
      ensures this.sources == sources && this.additional == additional
      ensures !closed && !borrowClosed
    {
      this.sources := sources;
      this.additional := additional;
      closed := false;
      borrowClosed := false;
    }

    method NeedsAdditionalSources() returns (r: seq<Path>)
      ensures r == additional
    {
      r := additional;
    }

    /** `close()`: the consumer is done with the batch. */
    method Close()
      modifies this`closed
      ensures closed
    {
      closed := true;
    }

    /** `borrow.close()`: the compiler this batch borrowed is released. */
    method CloseBorrow()
      modifies this`borrowClosed
      ensures borrowClosed
    {
      borrowClosed := true;
    }
  }

  /** What happens to batches, in order: one is opened (borrowing the compiler) or released. */
  datatype BatchEvent = Opened(batch: CompileBatch) | Released(batch: CompileBatch)

  /** The event that releases the cached batch's borrow, when there is a cached batch. */
  ghost function Releasing(cached: CompileBatch?): seq<BatchEvent>
  {
    if cached == null then [] else [Released(cached)]
  }

  /** The test `findTypeDeclaration` applies to each file of the class's package. */
  function DeclaresType(c: Corpus, className: string): Path -> bool
  {
    f => c.containsWord(f, SimpleName(className)) && className in c.typeDeclarations(f)
  }

  /** The test `findTypeReferences` applies to each tracked file. */
  function ReferencesType(c: Corpus, className: string): Path -> bool
  {
    f => && c.containsWord(f, PackageName(className))
         && ImportCovers(c.packageOf(f), ImportsOf(c.lines(f)), className)
         && c.containsWord(f, SimpleName(className))
  }

  /** The test `findMemberReferences` applies to each tracked file. */
  function MentionsMember(c: Corpus, memberName: string): Path -> bool
  {
    f => c.containsWord(f, memberName)
  }

  /** The names `publicTopLevelTypes` derives from the tracked files. */
  function TopLevelNames(c: Corpus, files: seq<Path>): set<string>
  {
    set f | f in files && BuiltName(c, f).Some? :: BuiltName(c, f).value
  }

  /** The name `publicTopLevelTypes` builds for one tracked file, if it is a `.java` file. */
  function BuiltName(c: Corpus, f: Path): Option<string>
  {
    TopLevelTypeName(FileName(f), c.packageOf(f))
  }

  /** The names `imports()` collects from the tracked files. */
  function ImportedNames(c: Corpus, files: seq<Path>): set<string>
  {
    set f, n | f in files && n in ImportsOf(c.lines(f)) :: n
  }

  lemma ImportedNamesStep(c: Corpus, files: seq<Path>, i: nat)
    requires i < |files|
    ensures ImportedNames(c, files[..i + 1]) == ImportedNames(c, files[..i]) + Elements(ImportsOf(c.lines(files[i])))
  {
    assert files[..i + 1] == files[..i] + [files[i]];
  }

  lemma TopLevelNamesStep(c: Corpus, files: seq<Path>, i: nat)
    requires i < |files|
    ensures var n := BuiltName(c, files[i]);
      TopLevelNames(c, files[..i + 1]) == TopLevelNames(c, files[..i]) + (if n.Some? then {n.value} else {})
  {
    var n := BuiltName(c, files[i]);
    var extra: set<string> := if n.Some? then {n.value} else {};
    assert files[..i + 1] == files[..i] + [files[i]];
    forall x | x in TopLevelNames(c, files[..i + 1])
      ensures x in TopLevelNames(c, files[..i]) + extra
    {
      var f :| f in files[..i + 1] && BuiltName(c, f).Some? && x == BuiltName(c, f).value;
      if f !in files[..i] {
        assert f == files[i];
      }
    }
  }

  /** The refill of `cachedModified` in `loadCompile`: each requested source with its current timestamp. */
  method RecordTimestamps(sources: seq<Path>, lastModified: Path -> int) returns (modified: map<Path, int>)
    ensures modified == Record(sources, lastModified)
  {
    modified := map[];
    var i := 0;
    while i < |sources|
      invariant 0 <= i <= |sources|
      invariant modified == Record(sources[..i], lastModified)
    {
      RecordStep(sources, i, lastModified);
      modified := modified[sources[i] := lastModified(sources[i])];
      i := i + 1;
    }
    assert sources[..i] == sources;
  }

  /**
   * The reading loop of `loadImports`: takes the lines in order, stops at the first line containing
   * `class` before examining it, and appends the capture of a class-import match, then that of a
   * star-import match, of every line before it.
   */
  method ScanImports(lines: seq<string>) returns (list: seq<string>)
    ensures list == ImportsOf(lines)
  {
    list := [];
    var i := 0;
    while i < |lines|
      invariant 0 <= i <= |lines|
      invariant ImportsOf(lines) == list + ImportsOf(lines[i..])
    {
      var line := lines[i];
      if Contains(line, ClassWord) {
        ImportsOfStop(lines, i);
        break;
      }
      ImportsOfStep(lines, i, list);
      var matchesClass := MatchClassImport(line);
      list := list + OptionToSeq(matchesClass);
      var matchesStar := MatchStarImport(line);
      list := list + OptionToSeq(matchesStar);
      i := i + 1;
    }
  }

  /** The per-file cache keys of those `files` that mention `word`. */
  function KeysMentioning(c: Corpus, files: seq<Path>, word: string): set<(Path, ())>
  {
    set f | f in files && c.containsWord(f, word) :: (f, ())
  }

  class JavaCompilerService {
    const corpus: Corpus
    /** What `needsAdditionalSources` reports for a batch compiled over the given sources */
    const additionsFor: seq<Path> -> seq<Path>
    const classPathClasses: set<string>
    const jdkClasses: set<string>

    var cachedCompile: CompileBatch?
    var cachedModified: map<Path, int>
    /** Every batch opened and released by this service, in order */
    ghost var log: seq<BatchEvent>
    /** The batch holding the borrow of the one reusable compiler, if any */
    ghost var holder: CompileBatch?

    const wordCache: Cache<string, bool>
    const typeCache: Cache<(), seq<string>>
    const importCache: Cache<(), seq<string>>

    /**
     * The memo tables hold what their collaborators compute; the cached batch and the recorded
     * timestamps are set together; never were two batches live at once, and the only batch that
     * may be live is the cached one.
     */
    ghost predicate Valid()
      reads this, cachedCompile, wordCache, typeCache, importCache
    {
      MemoValid() && SlotValid()
    }

    /** Every memo table entry is what its collaborator computes for that key. */
    ghost predicate MemoValid()
      reads wordCache, typeCache, importCache
    {
      && typeCache != importCache
      && (forall k :: k in wordCache.table ==> wordCache.table[k] == corpus.containsWord(k.0, k.1))
      && (forall k :: k in typeCache.table ==> typeCache.table[k] == corpus.typeDeclarations(k.0))
      && (forall k :: k in importCache.table ==> importCache.table[k] == ImportsOf(corpus.lines(k.0)))
    }

    /**
     * The compilation slot: batch and timestamps are set together, only the cached batch may hold
     * the compiler, and a cached batch whose borrow is not released does hold it.
     */
    ghost predicate SlotValid()
      reads this, cachedCompile
    {
      && (cachedCompile == null <==> cachedModified == map[])
      && (holder == null || holder == cachedCompile)
      && (cachedCompile != null && !cachedCompile.borrowClosed ==> holder == cachedCompile)
    }

    constructor (corpus: Corpus, additionsFor: seq<Path> -> seq<Path>, classPathClasses: set<string>, jdkClasses: set<string>)
      ensures Valid()
      ensures this.corpus == corpus && this.additionsFor == additionsFor
      ensures this.classPathClasses == classPathClasses && this.jdkClasses == jdkClasses
      ensures cachedCompile == null && cachedModified == map[] && log == [] && holder == null
      ensures fresh(wordCache) && fresh(typeCache) && fresh(importCache)
      ensures wordCache.table == map[] && typeCache.table == map[] && importCache.table == map[]
    {
      this.corpus := corpus;
      this.additionsFor := additionsFor;
      this.classPathClasses := classPathClasses;
      this.jdkClasses := jdkClasses;
      cachedCompile := null;
      cachedModified := map[];
      log := [];
      holder := null;
      wordCache := new Cache();
      typeCache := new Cache();
      importCache := new Cache();
      new;
      assert log[..0] == [];
    }

    /** `needsCompile(sources)`: false exactly when the cached batch may be reused. */
    method NeedsCompile(sources: seq<Path>, lastModified: Path -> int) returns (b: bool)
      ensures b <==> !Reusable(cachedModified, sources, lastModified)
    {
      if |cachedModified| != |sources| {
        return true;
      }
      var i := 0;
      while i < |sources|
        invariant 0 <= i <= |sources|
        invariant forall j :: 0 <= j < i ==>
          sources[j] in cachedModified && cachedModified[sources[j]] == lastModified(sources[j])
      {
        var f := sources[i];
        if f !in cachedModified {
          return true;
        }
        if lastModified(f) != cachedModified[f] {
          return true;
        }
        i := i + 1;
      }
      return false;
    }

    /**
     * `doCompile(sources)`: fails on an empty list; otherwise compiles once and, if the compiler
     * asks for more sources, closes that first attempt, releases its borrow and compiles again
     * over the sources followed by the additions. The second batch is not checked again.
     */
    method DoCompile(sources: seq<Path>) returns (r: Result<CompileBatch>, ghost firstAttempt: CompileBatch?)
      requires holder == null
      modifies this`log, this`holder
      ensures sources == [] ==> r == Err(EmptySources) && firstAttempt == null && log == old(log) && holder == null
      ensures sources != [] ==>
        && r.Ok? && firstAttempt != null && fresh(firstAttempt) && fresh(r.value)
        && firstAttempt.sources == sources && firstAttempt.additional == additionsFor(sources)
        && r.value.sources == sources + additionsFor(sources)
        && r.value.additional == additionsFor(r.value.sources)
        && !r.value.closed && !r.value.borrowClosed
        && holder == r.value
      ensures sources != [] && additionsFor(sources) == [] ==>
        && r.value == firstAttempt
        && log == old(log) + [Opened(firstAttempt)]
      ensures sources != [] && additionsFor(sources) != [] ==>
        && r.value != firstAttempt
        && firstAttempt.closed && firstAttempt.borrowClosed
        && log == old(log) + [Opened(firstAttempt), Released(firstAttempt), Opened(r.value)]
    {
      firstAttempt := null;
      if |sources| == 0 {
        return Err(EmptySources), null;
      }
      assert holder == null;
      var first := new CompileBatch(sources, additionsFor(sources));
      firstAttempt := first;
      holder, log := first, log + [Opened(first)];
      var addFiles := first.NeedsAdditionalSources();
      if |addFiles| == 0 {
        assert sources + addFiles == sources;
        return Ok(first), first;
      }
      first.Close();
      first.CloseBorrow();
      holder, log := null, log + [Released(first)];
      var moreSources := [];
      moreSources := moreSources + sources;
      var i := 0;
      while i < |addFiles|
        invariant 0 <= i <= |addFiles|
        invariant moreSources == sources + addFiles[..i]
      {
        moreSources := moreSources + [addFiles[i]];
        i := i + 1;
      }
      assert addFiles[..i] == addFiles;
      assert holder == null;
      var second := new CompileBatch(moreSources, additionsFor(moreSources));
      holder, log := second, log + [Opened(second)];
      return Ok(second), first;
    }

    /** The release step of `loadCompile`: a closed cached batch gives the compiler back. */
    method ReleaseCached()
      requires Valid() && cachedCompile != null && cachedCompile.closed
      modifies this`holder, this`log, cachedCompile`borrowClosed
      ensures Valid()
      ensures cachedCompile.closed && cachedCompile.borrowClosed
      ensures holder == null && log == old(log) + Releasing(cachedCompile)
    {
      cachedCompile.CloseBorrow();
      holder, log := null, log + [Released(cachedCompile)];
    }

    /**
     * `loadCompile(sources)`: fails when the cached batch is still in use; otherwise releases the
     * cached batch's borrow, compiles, and records exactly the requested sources with their
     * timestamps (not the files the second phase added).
     */
    method LoadCompile(sources: seq<Path>, lastModified: Path -> int) returns (r: Result<()>)
      requires Valid()
      modifies this, cachedCompile
      ensures Valid()
      ensures old(cachedCompile) != null ==> old(cachedCompile).closed == old(cachedCompile.closed)
      ensures old(cachedCompile) != null && !old(cachedCompile.closed) ==>
        && r == Err(StillInUse)
        && cachedCompile == old(cachedCompile) && unchanged(cachedCompile)
        && cachedModified == old(cachedModified) && log == old(log) && holder == old(holder)
      ensures old(cachedCompile) == null || old(cachedCompile.closed) ==>
        && (old(cachedCompile) != null ==> old(cachedCompile).borrowClosed)
        && |log| >= |old(log)| + |Releasing(old(cachedCompile))|
        && log[..|old(log)| + |Releasing(old(cachedCompile))|] == old(log) + Releasing(old(cachedCompile))
      ensures (old(cachedCompile) == null || old(cachedCompile.closed)) && sources == [] ==>
        && r == Err(EmptySources)
        && cachedCompile == old(cachedCompile) && cachedModified == old(cachedModified)
        && holder == null && log == old(log) + Releasing(old(cachedCompile))
      ensures (old(cachedCompile) == null || old(cachedCompile.closed)) && sources != [] ==>
        && r == Ok(())
        && cachedCompile != null && fresh(cachedCompile)
        && cachedCompile.sources == sources + additionsFor(sources)
        && !cachedCompile.closed && !cachedCompile.borrowClosed
        && cachedModified == Record(sources, lastModified)
        && holder == cachedCompile
        && |log| == |old(log)| + |Releasing(old(cachedCompile))| + (if additionsFor(sources) == [] then 1 else 3)
        && log[|log| - 1] == Opened(cachedCompile)
    {
      if cachedCompile != null {
        if !cachedCompile.closed {
          return Err(StillInUse);
        }
        ReleaseCached();
      }
      var compiled, _ := DoCompile(sources);
      if compiled.Err? {
        return Err(compiled.failure);
      }
      cachedCompile := compiled.value;
      cachedModified := RecordTimestamps(sources, lastModified);
      assert sources[0] in cachedModified;
      return Ok(());
    }

    /**
     * `compileBatch(sources)`: reuses the cached batch when `needsCompile` says so, otherwise
     * loads a new one; either way returns what the slot then holds.
     */
    method CompileBatch(sources: seq<Path>, lastModified: Path -> int) returns (r: Result<CompileBatch?>)
      requires Valid()
      modifies this, cachedCompile
      ensures Valid()
      ensures old(cachedCompile) != null ==> old(cachedCompile).closed == old(cachedCompile.closed)
      ensures Reusable(old(cachedModified), sources, lastModified) ==>
        && r == Ok(old(cachedCompile))
        && cachedCompile == old(cachedCompile) && cachedModified == old(cachedModified)
        && (cachedCompile != null ==> unchanged(cachedCompile))
        && log == old(log) && holder == old(holder)
      ensures !Reusable(old(cachedModified), sources, lastModified) && old(cachedCompile) != null
              && !old(cachedCompile.closed) ==>
        && r == Err(StillInUse)
        && cachedCompile == old(cachedCompile) && unchanged(cachedCompile)
        && cachedModified == old(cachedModified) && log == old(log) && holder == old(holder)
      ensures !Reusable(old(cachedModified), sources, lastModified)
              && (old(cachedCompile) == null || old(cachedCompile.closed)) ==>
        && (old(cachedCompile) != null ==> old(cachedCompile).borrowClosed)
        && |log| >= |old(log)| + |Releasing(old(cachedCompile))|
        && log[..|old(log)| + |Releasing(old(cachedCompile))|] == old(log) + Releasing(old(cachedCompile))
      ensures !Reusable(old(cachedModified), sources, lastModified)
              && (old(cachedCompile) == null || old(cachedCompile.closed)) && sources == [] ==>
        && r == Err(EmptySources)
        && cachedCompile == old(cachedCompile) && cachedModified == old(cachedModified)
        && holder == null && log == old(log) + Releasing(old(cachedCompile))
      ensures !Reusable(old(cachedModified), sources, lastModified)
              && (old(cachedCompile) == null || old(cachedCompile.closed)) && sources != [] ==>
        && r == Ok(cachedCompile) && cachedCompile != null && fresh(cachedCompile)
        && cachedCompile.sources == sources + additionsFor(sources)
        && !cachedCompile.closed && !cachedCompile.borrowClosed
        && cachedModified == Record(sources, lastModified)
        && holder == cachedCompile
        && |log| == |old(log)| + |Releasing(old(cachedCompile))| + (if additionsFor(sources) == [] then 1 else 3)
        && log[|log| - 1] == Opened(cachedCompile)
      ensures r == Ok(null) <==> old(cachedCompile) == null && sources == []
    {
      var needs := NeedsCompile(sources, lastModified);
      if needs {
        var loaded := LoadCompile(sources, lastModified);
        if loaded.Err? {
          return Err(loaded.failure);
        }
      }
      return Ok(cachedCompile);
    }

    /**
     * Compiling the same duplicate-free sources twice with unchanged timestamps: the second request
     * is a cache hit that returns the first request's batch and opens no new batch.
     */
    method CompileTwice(sources: seq<Path>, lastModified: Path -> int)
      returns (first: Result<CompileBatch?>, second: Result<CompileBatch?>, ghost logAfterFirst: seq<BatchEvent>)
      requires Valid()
      requires Distinct(sources) && sources != []
      requires cachedCompile == null || cachedCompile.closed
      modifies this, cachedCompile
      ensures first.Ok? && first.value != null
      ensures second == first
      ensures log == logAfterFirst
    {
      first := CompileBatch(sources, lastModified);
      logAfterFirst := log;
      RecordReusableIffDistinct(sources, lastModified);
      second := CompileBatch(sources, lastModified);
    }

    /**
     * An empty request after a closed batch fails but releases that batch's borrow, and leaves it
     * cached and closed; the next request that misses releases the same borrow a second time.
     */
    method EmptyRequestThenRetry(sources: seq<Path>, lastModified: Path -> int)
      returns (first: Result<CompileBatch?>, second: Result<CompileBatch?>)
      requires Valid()
      requires cachedCompile != null && cachedCompile.closed
      requires sources != [] && !Reusable(cachedModified, sources, lastModified)
      modifies this, cachedCompile
      ensures first == Err(EmptySources)
      ensures second.Ok? && second.value != null && second.value != old(cachedCompile)
      ensures |log| >= |old(log)| + 2
      ensures log[|old(log)|..|old(log)| + 2] == [Released(old(cachedCompile)), Released(old(cachedCompile))]
    {
      ghost var before := log;
      ghost var batch := cachedCompile;
      first := CompileBatch([], lastModified);
      assert log == before + [Released(batch)];
      second := CompileBatch(sources, lastModified);
      assert log[..|before| + 2] == before + [Released(batch), Released(batch)];
    }

    /** `containsWord(file, word)`, memoised in the word cache. */
    method ContainsWord(file: Path, word: string) returns (b: bool)
      requires Valid()
      modifies wordCache
      ensures Valid()
      ensures b == corpus.containsWord(file, word)
      ensures wordCache.table == old(wordCache.table)[(file, word) := b]
    {
      var needs := wordCache.Needs(file, word);
      if needs {
        wordCache.Load(file, word, corpus.containsWord(file, word));
      }
      b := wordCache.Get(file, word);
      assert old(wordCache.table)[(file, word) := b] == wordCache.table;
    }

    /** `containsType(file, className)`: the type declarations of a file are collected once, then looked up. */
    method ContainsType(file: Path, className: string) returns (b: bool)
      requires Valid()
      modifies typeCache
      ensures Valid()
      ensures b <==> className in corpus.typeDeclarations(file)
      ensures typeCache.table == old(typeCache.table)[(file, ()) := corpus.typeDeclarations(file)]
    {
      var needs := typeCache.Needs(file, ());
      if needs {
        typeCache.Load(file, (), corpus.typeDeclarations(file));
      }
      var types := typeCache.Get(file, ());
      b := className in types;
      assert old(typeCache.table)[(file, ()) := types] == typeCache.table;
    }

    /** `readImports(file)`: the file's import list, scanned once. */
    method ReadImports(file: Path) returns (imports: seq<string>)
      requires Valid()
      modifies importCache
      ensures Valid()
      ensures imports == ImportsOf(corpus.lines(file))
      ensures importCache.table == old(importCache.table)[(file, ()) := imports]
    {
      var needs := importCache.Needs(file, ());
      if needs {
        LoadImports(file);
      }
      imports := importCache.Get(file, ());
      assert old(importCache.table)[(file, ()) := imports] == importCache.table;
    }

    /**
     * `loadImports(file)`: scans the file's lines and stores the import list it finds.
     */
    method LoadImports(file: Path)
      requires Valid()
      modifies importCache
      ensures Valid()
      ensures importCache.table == old(importCache.table)[(file, ()) := ImportsOf(corpus.lines(file))]
    {
      var list := ScanImports(corpus.lines(file));
      importCache.Load(file, (), list);
    }

    /** `imports()`: every name any tracked file imports. */
    method AllImports() returns (all: set<string>)
      requires Valid()
      modifies importCache
      ensures Valid()
      ensures all == ImportedNames(corpus, corpus.all)
      ensures importCache.table.Keys == old(importCache.table).Keys + set f | f in corpus.all :: (f, ())
    {
      all := {};
      var i := 0;
      while i < |corpus.all|
        invariant 0 <= i <= |corpus.all|
        invariant Valid()
        invariant all == ImportedNames(corpus, corpus.all[..i])
        invariant importCache.table.Keys == old(importCache.table).Keys + set f | f in corpus.all[..i] :: (f, ())
      {
        var f := corpus.all[i];
        var imports := ReadImports(f);
        ImportedNamesStep(corpus, corpus.all, i);
        all := all + Elements(imports);
        assert corpus.all[..i + 1] == corpus.all[..i] + [f];
        i := i + 1;
      }
      assert corpus.all[..i] == corpus.all;
    }

    /** `publicTopLevelTypes()`: the names built from the tracked `.java` files, then the class path's and the JDK's. */
    method PublicTopLevelTypes() returns (all: set<string>)
      ensures all == TopLevelNames(corpus, corpus.all) + classPathClasses + jdkClasses
    {
      all := {};
      var i := 0;
      while i < |corpus.all|
        invariant 0 <= i <= |corpus.all|
        invariant all == TopLevelNames(corpus, corpus.all[..i])
      {
        var file := corpus.all[i];
        TopLevelNamesStep(corpus, corpus.all, i);
        var className := BuiltName(corpus, file);
        i := i + 1;
        if className.None? {
          continue;
        }
        all := all + {className.value};
      }
      assert corpus.all[..i] == corpus.all;
      all := all + classPathClasses;
      all := all + jdkClasses;
    }

    /**
     * `containsImport(file, className)`: true when the file is in the class's package (without
     * reading its imports), otherwise when an import names the class or its package on demand.
     */
    method ContainsImport(file: Path, className: string) returns (b: bool)
      requires Valid()
      modifies importCache
      ensures Valid()
      ensures b == ImportCovers(corpus.packageOf(file), ImportsOf(corpus.lines(file)), className)
      ensures corpus.packageOf(file) == PackageName(className) ==> importCache.table == old(importCache.table)
      ensures corpus.packageOf(file) != PackageName(className) ==>
        importCache.table == old(importCache.table)[(file, ()) := ImportsOf(corpus.lines(file))]
    {
      var packageName := PackageName(className);
      if corpus.packageOf(file) == packageName {
        return true;
      }
      var imports := ReadImports(file);
      b := className in imports || packageName + ".*" in imports;
    }

    /**
     * `findSymbols(query, limit)`: walks the tracked files in order, skips a file failing the text
     * filter without parsing it, appends a parsed file's matches, and stops once the result holds
     * `limit` or more. `parsed` lists the files parsed, in order.
     */
    method FindSymbols(query: string, limit: int) returns (result: seq<SymbolInformation>, ghost parsed: seq<Path>)
      ensures result == SymbolScan(corpus, corpus.all, query, limit).matches
      ensures parsed == SymbolScan(corpus, corpus.all, query, limit).parsed
    {
      var files := corpus.all;
      result := [];
      parsed := [];
      var i := 0;
      while i < |files|
        invariant 0 <= i <= |files|
        invariant SymbolScan(corpus, files, query, limit) ==
          Trace(result + SymbolScan(corpus, files[i..], query, limit - |result|).matches,
                parsed + SymbolScan(corpus, files[i..], query, limit - |result|).parsed)
      {
        var file := files[i];
        assert files[i..][1..] == files[i + 1..];
        i := i + 1;
        if !corpus.containsWordMatching(file, query) {
          continue;
        }
        var symbols := corpus.symbolsMatching(file, query);
        parsed := parsed + [file];
        result := result + symbols;
        if |result| >= limit {
          break;
        }
      }
    }

    /**
     * The condition `findTypeDeclaration` tests on each file: it mentions the simple name and, once
     * parsed, declares the class. The file is parsed only when it mentions the simple name.
     */
    method DeclaresTypeIn(f: Path, className: string) returns (b: bool)
      requires Valid()
      modifies wordCache, typeCache
      ensures Valid()
      ensures b == DeclaresType(corpus, className)(f)
      ensures typeCache.table.Keys <= old(typeCache.table.Keys) +
        (if corpus.containsWord(f, SimpleName(className)) then {(f, ())} else {})
    {
      b := ContainsWord(f, SimpleName(className));
      if !b {
        return;
      }
      b := ContainsType(f, className);
    }

    /**
     * `findTypeDeclaration(className)`: the first file of the class's package that passes
     * `DeclaresTypeIn`; `None` stands for `NOT_FOUND`. Only files that mention the simple name are
     * parsed.
     */
    method FindTypeDeclaration(className: string) returns (r: Option<Path>)
      requires Valid()
      modifies wordCache, typeCache
      ensures Valid()
      ensures r == FirstWhere(corpus.list(PackageName(className)), DeclaresType(corpus, className))
      ensures typeCache.table.Keys <=
        old(typeCache.table.Keys) + KeysMentioning(corpus, corpus.list(PackageName(className)), SimpleName(className))
    {
      var files := corpus.list(PackageName(className));
      ghost var p := DeclaresType(corpus, className);
      ghost var allowed := KeysMentioning(corpus, files, SimpleName(className));
      var i := 0;
      while i < |files|
        invariant 0 <= i <= |files|
        invariant Valid()
        invariant forall j :: 0 <= j < i ==> !p(files[j])
        invariant typeCache.table.Keys <= old(typeCache.table.Keys) + allowed
      {
        var f := files[i];
        assert corpus.containsWord(f, SimpleName(className)) ==> (f, ()) in allowed;
        var found := DeclaresTypeIn(f, className);
        if found {
          assert FirstIndex(files, p) == i;
          return Some(f);
        }
        i := i + 1;
      }
      assert FirstIndex(files, p) == |files|;
      return None;
    }

    /**
     * The condition `findTypeReferences` tests on each file: it mentions the class's package, it
     * imports the class (or shares its package), and it mentions the simple name. The tests run in
     * that order and stop at the first that fails, so the imports are read only for a file that
     * mentions the package and lies outside it.
     */
    method ReferencesTypeIn(f: Path, className: string) returns (b: bool)
      requires Valid()
      modifies wordCache, importCache
      ensures Valid()
      ensures b == ReferencesType(corpus, className)(f)
      ensures importCache.table.Keys <= old(importCache.table.Keys) +
        (if corpus.containsWord(f, PackageName(className)) && corpus.packageOf(f) != PackageName(className)
         then {(f, ())} else {})
    {
      var packageName := PackageName(className);
      var simpleName := SimpleName(className);
      b := ContainsWord(f, packageName);
      if !b {
        return;
      }
      b := ContainsImport(f, className);
      if !b {
        return;
      }
      b := ContainsWord(f, simpleName);
    }

    /** `findTypeReferences(className)`: the tracked files, in order, that pass `ReferencesTypeIn`. */
    method FindTypeReferences(className: string) returns (candidates: seq<Path>)
      requires Valid()
      modifies wordCache, importCache
      ensures Valid()
      ensures candidates == Select(corpus.all, ReferencesType(corpus, className))
    {
      var files := corpus.all;
      ghost var keep := ReferencesType(corpus, className);
      candidates := [];
      var i := 0;
      while i < |files|
        invariant 0 <= i <= |files|
        invariant Valid()
        invariant candidates == Select(files[..i], keep)
      {
        var f := files[i];
        SelectStep(files, i, keep);
        var referenced := ReferencesTypeIn(f, className);
        if referenced {
          candidates := candidates + [f];
        }
        i := i + 1;
      }
      assert files[..i] == files;
    }

    /**
     * `findMemberReferences(className, memberName)`: the tracked files, in order, that mention the
     * member's name; the class name plays no part.
     */
    method FindMemberReferences(className: string, memberName: string) returns (candidates: seq<Path>)
      requires Valid()
      modifies wordCache
      ensures Valid()
      ensures candidates == Select(corpus.all, MentionsMember(corpus, memberName))
    {
      var files := corpus.all;
      ghost var keep := MentionsMember(corpus, memberName);
      candidates := [];
      var i := 0;
      while i < |files|
        invariant 0 <= i <= |files|
        invariant Valid()
        invariant candidates == Select(files[..i], keep)
      {
        var f := files[i];
        SelectStep(files, i, keep);
        var mentions := ContainsWord(f, memberName);
        if mentions {
          candidates := candidates + [f];
        }
        i := i + 1;
      }
      assert files[..i] == files;
    }
  }
}
