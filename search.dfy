/**
 * The file corpus the service searches, and the specifications of its searches: the filters
 * behind `findTypeReferences` and `findMemberReferences`, the first-match search behind
 * `findTypeDeclaration`, and the two-stage, early-exit scan of `findSymbols`.
 */
module Search {
  import opened Common

  /** One symbol the parser reports for a query. */
  datatype SymbolInformation = SymbolInformation(name: string, file: Path, line: nat)

  /**
   * The collaborators the service consults, as functions of the file corpus. They are fixed
   * for the lifetime of a service: a file that changes is outside this model.
   */
  datatype Corpus = Corpus(
    /** `FileStore.all()`: every tracked file, in the store's enumeration order */
    all: seq<Path>,
    /** `FileStore.list(packageName)`: the tracked files of one package */
    list: string -> seq<Path>,
    /** `FileStore.packageName(file)` */
    packageOf: Path -> string,
    /** `FileStore.lines(file)`, read to the end */
    lines: Path -> seq<string>,
    /** `StringSearch.containsWord(file, word)` */
    containsWord: (Path, string) -> bool,
    /** `StringSearch.containsWordMatching(file, query)`: the cheap text filter of the symbol search */
    containsWordMatching: (Path, string) -> bool,
    /** `Parser.parseFile(file).findSymbolsMatching(query)` */
    symbolsMatching: (Path, string) -> seq<SymbolInformation>,
    /** the names `FindTypeDeclarations` collects from the parse of `file` */
    typeDeclarations: Path -> seq<string>)

  /** The files that satisfy `keep`, in their original order. */
  function Select(files: seq<Path>, keep: Path -> bool): (r: seq<Path>)
    ensures |r| <= |files|
    ensures forall f :: f in r <==> f in files && keep(f)
  {
    if files == [] then []
    else (if keep(files[0]) then [files[0]] else []) + Select(files[1..], keep)
  }

  /** Selecting from a concatenation selects from each part, keeping the order. */
  lemma {:induction false} SelectAppend(a: seq<Path>, b: seq<Path>, keep: Path -> bool)
    ensures Select(a + b, keep) == Select(a, keep) + Select(b, keep)
  {
    if a != [] {
      assert (a + b)[1..] == a[1..] + b;
      SelectAppend(a[1..], b, keep);
    } else {
      assert a + b == b;
    }
  }

  /** Extending the scanned prefix by one file adds that file exactly when it is kept. */
  lemma SelectStep(files: seq<Path>, i: nat, keep: Path -> bool)
    requires i < |files|
    ensures Select(files[..i + 1], keep) == Select(files[..i], keep) + (if keep(files[i]) then [files[i]] else [])
  {
    assert files[..i + 1] == files[..i] + [files[i]];
    SelectAppend(files[..i], [files[i]], keep);
  }

  /** The index of the first file satisfying `p`, or `|files|` when none does. */
  function FirstIndex(files: seq<Path>, p: Path -> bool): (i: nat)
    ensures i <= |files|
    ensures i < |files| ==> p(files[i])
    ensures forall j :: 0 <= j < i ==> !p(files[j])
  {
    if files == [] then 0
    else if p(files[0]) then 0
    else 1 + FirstIndex(files[1..], p)
  }

  /** The first file satisfying `p`, if any. */
  function FirstWhere(files: seq<Path>, p: Path -> bool): (r: Option<Path>)
    ensures r.None? <==> forall f :: f in files ==> !p(f)
    ensures r.Some? ==> r.value in files && p(r.value)
  {
    var i := FirstIndex(files, p);
    if i < |files| then Some(files[i]) else None
  }

  /** What the symbol search returns, and which files it parsed to get there. */
  datatype Trace = Trace(matches: seq<SymbolInformation>, parsed: seq<Path>)

  /**
   * The symbol search over `files` that may still add results until it holds `limit` of them:
   * a file failing the text filter is skipped unparsed; a parsed file's matches are appended;
   * the scan ends right after the file whose matches bring the count to `limit` or more.
   */
  function SymbolScan(c: Corpus, files: seq<Path>, query: string, limit: int): Trace
  {
    if files == [] then Trace([], [])
    else if !c.containsWordMatching(files[0], query) then SymbolScan(c, files[1..], query, limit)
    else
      var found := c.symbolsMatching(files[0], query);
      if |found| >= limit then Trace(found, [files[0]])
      else
        var rest := SymbolScan(c, files[1..], query, limit - |found|);
        Trace(found + rest.matches, [files[0]] + rest.parsed)
  }

  /** The matches of the given files, concatenated in order. */
  function Flatten(c: Corpus, files: seq<Path>, query: string): (r: seq<SymbolInformation>)
  {
    if files == [] then [] else c.symbolsMatching(files[0], query) + Flatten(c, files[1..], query)
  }

  lemma {:induction false} FlattenAppend(c: Corpus, a: seq<Path>, b: seq<Path>, query: string)
    ensures Flatten(c, a + b, query) == Flatten(c, a, query) + Flatten(c, b, query)
  {
    if a != [] {
      assert (a + b)[1..] == a[1..] + b;
      FlattenAppend(c, a[1..], b, query);
    } else {
      assert a + b == b;
    }
  }

  /** The files that pass the text filter for `query`. */
  function PassesFilter(c: Corpus, query: string): Path -> bool
  {
    f => c.containsWordMatching(f, query)
  }

  /**
   * The symbol search parses a prefix of the files that pass the text filter, so a file failing the
   * filter is never parsed and files are taken in store order; its result is the concatenation of
   * the parsed files' matches.
   */
  lemma {:induction false} SymbolScanParsesPassingPrefix(c: Corpus, files: seq<Path>, query: string, limit: int)
    ensures SymbolScan(c, files, query, limit).parsed <= Select(files, PassesFilter(c, query))
    ensures SymbolScan(c, files, query, limit).matches == Flatten(c, SymbolScan(c, files, query, limit).parsed, query)
  {
    if files != [] {
      if !c.containsWordMatching(files[0], query) {
        SymbolScanParsesPassingPrefix(c, files[1..], query, limit);
      } else {
        var found := c.symbolsMatching(files[0], query);
        assert PassesFilter(c, query)(files[0]);
        if |found| >= limit {
          assert Flatten(c, [files[0]], query) == found;
        } else {
          var rest := SymbolScan(c, files[1..], query, limit - |found|);
          SymbolScanParsesPassingPrefix(c, files[1..], query, limit - |found|);
          FlattenAppend(c, [files[0]], rest.parsed, query);
        }
      }
    }
  }

  /**
   * The search goes on only while the result is not full: before the `j`-th parsed file, for
   * every `j` but the first, the result held fewer than `limit` matches.
   */
  lemma {:induction false} SymbolScanBelowLimitBefore(c: Corpus, files: seq<Path>, query: string, limit: int, j: nat)
    requires 0 < j < |SymbolScan(c, files, query, limit).parsed|
    ensures |Flatten(c, SymbolScan(c, files, query, limit).parsed[..j], query)| < limit
    decreases files
  {
    var t := SymbolScan(c, files, query, limit);
    if !c.containsWordMatching(files[0], query) {
      SymbolScanBelowLimitBefore(c, files[1..], query, limit, j);
    } else {
      var found := c.symbolsMatching(files[0], query);
      var rest := SymbolScan(c, files[1..], query, limit - |found|);
      assert t.parsed == [files[0]] + rest.parsed;
      assert t.parsed[..j] == [files[0]] + rest.parsed[..j - 1];
      FlattenAppend(c, [files[0]], rest.parsed[..j - 1], query);
      assert Flatten(c, [files[0]], query) == found;
      if j > 1 {
        SymbolScanBelowLimitBefore(c, files[1..], query, limit - |found|, j - 1);
      }
    }
  }

  /** A result with fewer than `limit` matches comes from parsing every file that passes the filter. */
  lemma {:induction false} SymbolScanShortIsComplete(c: Corpus, files: seq<Path>, query: string, limit: int)
    requires |SymbolScan(c, files, query, limit).matches| < limit
    ensures SymbolScan(c, files, query, limit).parsed == Select(files, PassesFilter(c, query))
  {
    if files != [] {
      if !c.containsWordMatching(files[0], query) {
        SymbolScanShortIsComplete(c, files[1..], query, limit);
      } else {
        var found := c.symbolsMatching(files[0], query);
        SymbolScanShortIsComplete(c, files[1..], query, limit - |found|);
      }
    }
  }

  /**
   * With a limit of zero or less, the search parses exactly the first file that passes the filter
   * and returns all of that file's matches; when no file passes, nothing is parsed.
   */
  lemma {:induction false} NonPositiveLimitParsesOne(c: Corpus, files: seq<Path>, query: string, limit: int)
    requires limit <= 0
    ensures var passing := Select(files, PassesFilter(c, query));
      && (passing == [] ==> SymbolScan(c, files, query, limit) == Trace([], []))
      && (passing != [] ==>
            SymbolScan(c, files, query, limit) == Trace(c.symbolsMatching(passing[0], query), [passing[0]]))
  {
    if files != [] && !c.containsWordMatching(files[0], query) {
      NonPositiveLimitParsesOne(c, files[1..], query, limit);
    }
  }

  /** The result may exceed the limit: one file with three matches and a limit of one yields all three. */
  lemma ResultMayExceedLimit()
    ensures
      var sym := SymbolInformation("Foo", "A.java", 1);
      var c := Corpus(["A.java"], _ => [], _ => "", _ => [], (_, _) => true, (_, _) => true,
                      (_, _) => [sym, sym, sym], _ => []);
      |SymbolScan(c, c.all, "Foo", 1).matches| == 3
  {
  }
}
