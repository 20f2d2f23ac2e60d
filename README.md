# Compiler service of a Java language server, in Dafny

This project models the core of `JavaCompilerService`, the class of a Java language server that
decides when a compilation can be reused, drives a two-phase compile, and searches the tracked
source files cheaply before parsing any of them. It has four parts.

- **Compilation slot.** The service holds one cached `CompileBatch` and a map from each requested
  source to its timestamp. `needsCompile` is the reuse rule. `loadCompile` refuses to start while
  the cached batch is still in use, and otherwise releases that batch's borrow of the one reusable
  compiler before compiling again. `compileBatch` chooses between the two.
- **Two-phase compile.** `doCompile` compiles once. If the compiler asks for more sources, it closes
  that first attempt, releases its borrow, and compiles once more over the sources followed by the
  additions. The second batch is never checked again.
- **Memoised per-file predicates and searches.** `containsWord`, `containsType` and
  `readImports`/`loadImports` memoise through a cache keyed by (file, auxiliary key).
  `findTypeDeclaration` returns the first match. `findTypeReferences` and `findMemberReferences`
  filter the tracked files. `findSymbols` runs a text prefilter before parsing and exits early.
- **Name helpers.** `packageName`, `simpleName`, the import-line patterns with their stop-at-`class`
  rule, `containsImport`, and the qualified names `publicTopLevelTypes` builds from file names.

Layout:
- `common.dfy`: paths, `Option`, and sequence-element helpers.
- `names.dfy`: the package and simple names, and the top-level type names.
- `imports.dfy`: import-line recognition and the import scan.
- `search.dfy`: the file corpus, and the specifications of the searches.
- `compile_cache.dfy`: the reuse rule, and what `loadCompile` records.
- `service.dfy`: the classes `Cache`, `CompileBatch` and `JavaCompilerService`, and their methods.

The collaborators the service calls are fields of the datatype `Corpus`. They are `FileStore`,
`StringSearch`, `Parser.findSymbolsMatching` and `FindTypeDeclarations`, and each is a total
function of the file it is given. File timestamps are a function passed to each compile request.
What the compiler reports from `needsAdditionalSources` is the function `additionsFor` of the
sources it compiled.

The single-live-batch discipline is modelled by the ghost field `holder`, the batch that currently
holds the borrow of the reusable compiler. A batch is only created where `holder` is provably
`null`: the creation sites in `DoCompile` assert this, and `DoCompile` requires it.
`SlotValid` says that the only batch that may hold the compiler is the cached one, and that a
cached batch whose borrow is not yet released does hold it. The ghost `log` records opening and
release events in order. So `DoCompile` can state that the first attempt is released before the
second batch is opened, and `LoadCompile` that the cached batch is released before any new batch
is opened.

Behaviours of the code that the model states as they are:
- On a fresh service, `compileBatch` with no sources returns `null` and does not fail. The empty
  timestamp map already "matches" the empty request, so `needsCompile` is false and no compile is
  attempted. Only a request that reaches `doCompile` fails with "empty sources". See the last
  ensures of `CompileBatch`.
- A request that names a file twice never hits the map recorded for that same request, because
  the recorded map has fewer entries than the request. See
  `CompileCache.RecordReusableIffDistinct`.
- The reuse test compares only the number of entries and looks up each requested file. So the
  request `[a, a]` hits the map recorded for `[a, b]` and is handed the batch compiled over both
  files. See `CompileCache.RecordReusableIff` and `CompileCache.RepeatedFileHitsPairRecord`.
- An empty request after a closed batch still releases that batch's borrow before `doCompile`
  fails. The released batch then stays cached with its timestamps, so a later request for the same
  sources returns it, and it stays closed. See the ensures of `LoadCompile`.
- After that, the next request that misses calls `borrow.close()` on the same batch a second
  time, so its borrow is released twice. See
  `Service.JavaCompilerService.EmptyRequestThenRetry`.
- The symbol search can return more than `limit` results, because a parsed file's matches are
  added in full. See `Search.ResultMayExceedLimit`.

## Model

| member | source | states |
|---|---|---|
| Service.JavaCompilerService.NeedsCompile | src/main/java/org/javacs/JavaCompilerService.java:45-58 | the answer is false exactly when the recorded map has as many entries as the request, every requested source is recorded, and every timestamp is unchanged |
| CompileCache.TimestampChangeForcesMiss | src/main/java/org/javacs/JavaCompilerService.java:45-58 | after recording a request, a changed timestamp of any requested source makes the same request a miss |
| CompileCache.ReuseMeansSameFiles | src/main/java/org/javacs/JavaCompilerService.java:45-58 | a duplicate-free request that hits the cache names exactly the files that were recorded |
| CompileCache.Record | src/main/java/org/javacs/JavaCompilerService.java:68-71 | the recorded map's keys are exactly the requested sources, each with its timestamp |
| CompileCache.RecordStep | src/main/java/org/javacs/JavaCompilerService.java:69-71 | recording one more source adds exactly that source with its timestamp |
| CompileCache.RecordReusableIffDistinct | src/main/java/org/javacs/JavaCompilerService.java:68-71 | the map recorded for a request makes that same request a hit exactly when the request has no duplicate file |
| CompileCache.RecordReusableIff | src/main/java/org/javacs/JavaCompilerService.java:45-58 | against the map recorded for a compiled list with unchanged timestamps, a request hits exactly when it names only compiled files and has as many entries as distinct files were compiled |
| CompileCache.RepeatedFileHitsPairRecord | src/main/java/org/javacs/JavaCompilerService.java:45-58 | a request naming one file twice hits the map recorded for that file and a different one |
| CompileCache.ElementsCount | src/main/java/org/javacs/JavaCompilerService.java:68-71 | a request has as many distinct files as entries exactly when it has no duplicates, and never more |
| Service.RecordTimestamps | src/main/java/org/javacs/JavaCompilerService.java:68-71 | the refilled map is the recorded map of the requested sources (the files the second phase added are not recorded) |
| Service.JavaCompilerService.DoCompile | src/main/java/org/javacs/JavaCompilerService.java:74-89 | an empty request fails with "empty sources" and opens nothing; otherwise, with no additions, the first attempt is returned; with additions, the first attempt is closed and its borrow released before a second batch over the sources followed by the additions is opened and returned; the compiler is then held by the returned batch |
| Service.JavaCompilerService.ReleaseCached | src/main/java/org/javacs/JavaCompilerService.java:61-66 | a closed cached batch gets its borrow released, the compiler becomes unheld, and the release is logged |
| Service.JavaCompilerService.LoadCompile | src/main/java/org/javacs/JavaCompilerService.java:60-72 | a cached batch that is not closed makes it fail with "Compiler is still in-use!" and change nothing, the compiler's holder included; otherwise the cached batch's borrow is released, and that release is the next event in the log, before any batch is opened; an empty request then fails and leaves the slot as it was with the compiler unheld; any other request opens one batch, or three events with a retry, ending with a fresh unclosed batch over the sources and additions that holds the compiler and is cached, with exactly the requested sources' timestamps recorded; the old cached batch keeps its `closed` flag; the slot invariant is kept |
| Service.JavaCompilerService.CompileBatch | src/main/java/org/javacs/JavaCompilerService.java:91-98 | a hit returns the cached batch and changes neither the slot, the log nor the compiler's holder; a miss behaves as `LoadCompile` and returns the new batch; the old cached batch keeps its `closed` flag; the result is `null` exactly on a fresh service with an empty request |
| Service.JavaCompilerService.CompileTwice | src/main/java/org/javacs/JavaCompilerService.java:91-98 | a second request for the same duplicate-free, unchanged sources returns the first request's batch and opens no batch |
| Service.JavaCompilerService.EmptyRequestThenRetry | src/main/java/org/javacs/JavaCompilerService.java:60-98 | an empty request after a closed batch fails with "empty sources"; a following request that misses compiles a new batch, and the log shows the old batch released twice in a row |
| Service.Cache.Needs | src/main/java/org/javacs/JavaCompilerService.java:151 | a key needs loading exactly when no value was loaded for it |
| Service.Cache.Load | src/main/java/org/javacs/JavaCompilerService.java:152 | loading stores the value under the key and changes no other entry |
| Service.Cache.Get | src/main/java/org/javacs/JavaCompilerService.java:154 | asking for a loaded key returns its value; asking for a key never loaded is excluded |
| Service.JavaCompilerService.ContainsWord | src/main/java/org/javacs/JavaCompilerService.java:150-155 | the answer is the text search's, and the table afterwards holds it under (file, word), with nothing else changed |
| Service.JavaCompilerService.ContainsType | src/main/java/org/javacs/JavaCompilerService.java:159-167 | the answer is whether the class is among the file's declared types, and the file's declared types are cached under (file, no key) |
| Service.JavaCompilerService.ReadImports | src/main/java/org/javacs/JavaCompilerService.java:171-176 | the list returned is the import list of the file's lines, and it is cached under (file, no key) |
| Service.JavaCompilerService.LoadImports | src/main/java/org/javacs/JavaCompilerService.java:178-202 | the import list of the file's lines is stored under (file, no key) and nothing else changes |
| Service.ScanImports | src/main/java/org/javacs/JavaCompilerService.java:179-197 | the reading loop produces exactly the import list of the lines |
| Imports.ImportsStopAtClass | src/main/java/org/javacs/JavaCompilerService.java:183-197 | the import list is the captures of every line before the first line containing `class`, in order, at most one per line |
| Imports.ImportsIgnoreLaterLines | src/main/java/org/javacs/JavaCompilerService.java:186 | once a line contains `class`, no later line changes the import list |
| Imports.ImportedIffCaptured | src/main/java/org/javacs/JavaCompilerService.java:183-197 | a name is in the import list exactly when some line before the first `class` line captures it |
| Imports.ImportsOfStep | src/main/java/org/javacs/JavaCompilerService.java:186-196 | a line without `class` adds its class-import capture, then its star-import capture |
| Imports.ImportsOfStop | src/main/java/org/javacs/JavaCompilerService.java:186 | a line containing `class` ends the scan, adding nothing |
| Imports.LineImports | src/main/java/org/javacs/JavaCompilerService.java:188-196 | one line contributes at most one name, and a name exactly when one of the two patterns captures it |
| Imports.ClassImportIff | src/main/java/org/javacs/JavaCompilerService.java:180-191 | a line yields a single-type import name exactly when it is `import`, one or more spaces, a name made of word characters and dots with a dot after the first character and a word character at the end, and `;` |
| Imports.StarImportIff | src/main/java/org/javacs/JavaCompilerService.java:181-196 | a line yields an on-demand import name exactly when it is `import`, one or more spaces, a name of word characters and dots followed by `.*`, and `;` |
| Imports.ClassImportRecognised | src/main/java/org/javacs/JavaCompilerService.java:180-191 | every single-type import line is recognised, with its whole name captured |
| Imports.StarImportRecognised | src/main/java/org/javacs/JavaCompilerService.java:181-196 | every on-demand import line is recognised, with its whole name captured |
| Imports.CandidateSound | src/main/java/org/javacs/JavaCompilerService.java:180-181 | a captured name always comes from a line of the form `import`, spaces, name, `;` |
| Imports.CandidateOfShape | src/main/java/org/javacs/JavaCompilerService.java:180-181 | a line of that form yields its name as the capture |
| Imports.Contains | src/main/java/org/javacs/JavaCompilerService.java:186 | a line contains a word exactly when the word occurs at some position of it |
| Service.JavaCompilerService.AllImports | src/main/java/org/javacs/JavaCompilerService.java:204-211 | the result is every name imported by any tracked file, and every tracked file's import list is now cached |
| Service.JavaCompilerService.ContainsImport | src/main/java/org/javacs/JavaCompilerService.java:236-244 | the answer is true exactly when the file is in the class's package, or it imports the class or the class's package on demand; a file of the class's package is answered without reading its imports |
| Imports.CoveredByImportLine | src/main/java/org/javacs/JavaCompilerService.java:236-244 | a file counts as importing a class exactly when it is in the class's package, or a line before its first `class` line imports the class or its package on demand |
| Imports.StarImportCoversPackage | src/main/java/org/javacs/JavaCompilerService.java:239-241 | an on-demand import of a package makes every class of that package count as imported |
| Imports.SamePackageCovers | src/main/java/org/javacs/JavaCompilerService.java:237-238 | a file of a class's own package counts as importing it, whatever it imports |
| Names.PackageName | src/main/java/org/javacs/JavaCompilerService.java:128-136 | the result is a prefix of the name; it is empty or of the form `id(.id)*` with lower-case-initial identifiers; and no longer prefix has that form |
| Names.SimpleName | src/main/java/org/javacs/JavaCompilerService.java:138-146 | the result is a suffix of the name; it is empty or a capital letter followed by word characters; and no longer suffix has that form |
| Names.ChainEnd | src/main/java/org/javacs/JavaCompilerService.java:128 | from a lower-case letter, the chain of dot-separated identifiers ends where the prefix stops being of package form for good |
| Names.PackageOfQualified | src/main/java/org/javacs/JavaCompilerService.java:128-136 | the package part of a package-qualified name whose rest starts with a capital letter is that package |
| Names.SimpleOfQualified | src/main/java/org/javacs/JavaCompilerService.java:138-146 | the simple name of any name ending in `.` and a simple name is that simple name |
| Names.NestedClassSplit | src/main/java/org/javacs/JavaCompilerService.java:128-146 | a nested class name such as `java.util.Map.Entry` splits into its package and its innermost simple name |
| Names.TopLevelTypeName | src/main/java/org/javacs/JavaCompilerService.java:217-224 | a file yields a name exactly when its file name ends in `.java` |
| Names.TopLevelNameRoundTrip | src/main/java/org/javacs/JavaCompilerService.java:217-224 | the name built for `Stem.java` in a package splits back into that package and `Stem` |
| Names.FileName | src/main/java/org/javacs/JavaCompilerService.java:217 | a file's name is the whole last segment of its path: a suffix with no separator in it, preceded by a separator unless it is the whole path |
| Service.JavaCompilerService.PublicTopLevelTypes | src/main/java/org/javacs/JavaCompilerService.java:213-229 | the result is the names built from every tracked `.java` file, together with the class path's and the JDK's classes |
| Service.TopLevelNamesStep | src/main/java/org/javacs/JavaCompilerService.java:216-224 | one more file adds its built name, if it has one, and nothing else |
| Service.ImportedNamesStep | src/main/java/org/javacs/JavaCompilerService.java:207-209 | one more file adds exactly the names it imports |
| Service.JavaCompilerService.FindSymbols | src/main/java/org/javacs/JavaCompilerService.java:100-126 | the result and the files parsed are those of the early-exit scan specification |
| Search.SymbolScanParsesPassingPrefix | src/main/java/org/javacs/JavaCompilerService.java:106-119 | the files parsed are a prefix of the files passing the text filter, in store order, and the result is their matches concatenated |
| Search.SymbolScanBelowLimitBefore | src/main/java/org/javacs/JavaCompilerService.java:119-122 | before each parsed file but the first, the result held fewer than `limit` matches |
| Search.SymbolScanShortIsComplete | src/main/java/org/javacs/JavaCompilerService.java:106-122 | a result with fewer than `limit` matches means every file passing the filter was parsed |
| Search.NonPositiveLimitParsesOne | src/main/java/org/javacs/JavaCompilerService.java:106-121 | with a limit of zero or less, exactly the first file that passes the filter is parsed and all its matches are returned; when no file passes, nothing is parsed or returned |
| Search.ResultMayExceedLimit | src/main/java/org/javacs/JavaCompilerService.java:119-121 | one file with three matches and a limit of one yields all three |
| Search.Select | src/main/java/org/javacs/JavaCompilerService.java:274-279 | a filtered list holds exactly the files that pass, and no more files than there were |
| Search.SelectAppend | src/main/java/org/javacs/JavaCompilerService.java:274-279 | filtering a concatenation filters each part, keeping the order |
| Search.SelectStep | src/main/java/org/javacs/JavaCompilerService.java:274-279 | one more file is appended exactly when it passes |
| Search.FirstWhere | src/main/java/org/javacs/JavaCompilerService.java:259-266 | the result is absent exactly when no file passes; otherwise it is a file that passes |
| Search.FirstIndex | src/main/java/org/javacs/JavaCompilerService.java:259-266 | the index found passes, and no earlier file does |
| Service.JavaCompilerService.FindTypeDeclaration | src/main/java/org/javacs/JavaCompilerService.java:255-267 | the result is the first file of the class's package that mentions the simple name and declares the class, or none; a file is parsed only when it mentions the simple name |
| Service.JavaCompilerService.DeclaresTypeIn | src/main/java/org/javacs/JavaCompilerService.java:262 | a file passes exactly when it mentions the simple name and declares the class; it is parsed only when it mentions the simple name |
| Service.JavaCompilerService.ReferencesTypeIn | src/main/java/org/javacs/JavaCompilerService.java:275 | a file passes exactly when it mentions the package, counts as importing the class, and mentions the simple name; its imports are read only when it mentions the package and lies outside it |
| Service.JavaCompilerService.FindTypeReferences | src/main/java/org/javacs/JavaCompilerService.java:269-280 | the result is the tracked files, in order, that pass the three-way test |
| Service.JavaCompilerService.FindMemberReferences | src/main/java/org/javacs/JavaCompilerService.java:282-291 | the result is the tracked files, in order, that mention the member's name; the class name plays no part |

## Left out

- Logging and the printing of the class and doc paths in the constructor are output only.
- The constructor's collaborators (`Docs`, `ScanClassPath`, `SourceFileManager`) are not modelled.
  The class-path and JDK class sets are constructor parameters.
- The internals of the collaborators are outside this model: `ReusableCompiler`, `CompileBatch`,
  `Parser`, `StringSearch`, `FileStore` and `FindTypeDeclarations`. A batch is an object with
  `closed` and `borrowClosed` flags, and the compiler's request for more sources is the function
  `additionsFor`.
- Diagnostics, the compile task and the parse roots a batch carries are not modelled.
- The `parse` and `compile` overloads only wrap other calls, so they are left out, and so are the
  `CompileTask` and `ParseTask` they build.
- `packagePrivateTopLevelTypes` is a placeholder returning a fixed set, so it is left out.
- `findAnywhere` is left out. It only calls `findTypeDeclaration` and then falls back to a
  documentation lookup, which is outside this model.
- The `IOException` that `loadImports` rethrows is left out, because file reading is an oracle that
  always returns the file's lines.
- Regular expressions in general are left out. Only the three patterns used are modelled, as
  character-class predicates. Java's `$` also matches before a final line terminator; a class name
  ending in a line terminator is not considered.
- Service.JavaCompilerService.ContainsImport: the search over the import list is stated as
  membership, not as a loop with early return; the answer is the same.
- Service.JavaCompilerService.FindTypeDeclaration: the type-cache keys the search adds are bounded
  from above by the files that mention the simple name; the exact set is not stated.
- Service.JavaCompilerService.FindTypeReferences: the import-cache keys it adds are stated per file,
  by `ReferencesTypeIn`, not for the whole search.
- The word and type caches are `static` in the source, shared by every service instance. Here
  they are fields of one service.
- The file corpus and the collaborators' answers are fixed for the lifetime of a service. A file
  that changes between two searches is not modelled, and neither is the staleness the memo caches
  then show.
- `FileStore.all()` is a sequence in the store's enumeration order, so a search's result order is
  that order.
- `imports()` and `publicTopLevelTypes()` build hash sets, modelled as mathematical sets.
- The `checked` and `parsed` counters of `findSymbols` only feed a log line. The files parsed are
  returned as a ghost sequence.
- `NOT_FOUND` is modelled as `None`.
- Concurrency is not modelled. The service is used from one worker at a time.
