/**
 * Import-line recognition: the line patterns `import +NAME.ID;` and `import +NAME.*;` that
 * approximate single-type-import and type-import-on-demand declarations (sections 7.5.1 and
 * 7.5.2 of the Java Language Specification), the scan that stops at the first line mentioning
 * `class`, and the rule by which a file counts as importing a class.
 */
module Imports {
  import opened Common
  import opened Names

  /** `word` occurs in `line` starting at position `i`. */
  predicate OccursAt(line: string, word: string, i: nat)
  {
    i + |word| <= |line| && line[i..i + |word|] == word
  }

  /** Searches for `word` in `line` from position `i` on. */
  function ContainsFrom(line: string, word: string, i: nat): (b: bool)
    ensures b <==> exists j :: i <= j && OccursAt(line, word, j)
    decreases |line| - i
  {
    if i + |word| > |line| then false
    else OccursAt(line, word, i) || ContainsFrom(line, word, i + 1)
  }

  /** `line.contains(word)` */
  function Contains(line: string, word: string): (b: bool)
    ensures b <==> exists j :: OccursAt(line, word, j)
  {
    ContainsFrom(line, word, 0)
  }

  const ImportKeyword: string := "import"

  function Spaces(k: nat): (r: string)
    ensures |r| == k && forall i :: 0 <= i < k ==> r[i] == ' '
  {
    seq(k, _ => ' ')
  }

  /** `line` is the word `import`, `k` spaces with `k >= 1`, `name` and a semicolon, and nothing else. */
  predicate IsImportShape(line: string, k: nat, name: string)
  {
    k >= 1 && line == ImportKeyword + Spaces(k) + name + ";"
  }

  /** The character class `[\w\.]` */
  predicate IsNameChar(c: char)
  {
    IsWordChar(c) || c == '.'
  }

  /**
   * `name` is matched in full by `[\w\.]+\.\w+`: word characters and dots only, with a dot after
   * the first character and a word character at the end (so the part after the last dot is a
   * non-empty run of word characters).
   */
  predicate IsClassImportName(name: string)
  {
    && |name| > 0
    && (forall i :: 0 <= i < |name| ==> IsNameChar(name[i]))
    && IsWordChar(name[|name| - 1])
    && '.' in name[1..]
  }

  /** `name` is matched in full by `[\w\.]+\.\*`: a non-empty run of word characters and dots, then `.*`. */
  predicate IsStarImportName(name: string)
  {
    && |name| >= 3
    && name[|name| - 2..] == ".*"
    && forall i :: 0 <= i < |name| - 2 ==> IsNameChar(name[i])
  }

  /** The end of the run of spaces starting at `i`. */
  function SpaceRunEnd(s: string, i: nat): (j: nat)
    requires i <= |s|
    ensures i <= j <= |s|
    ensures forall k :: i <= k < j ==> s[k] == ' '
    ensures j < |s| ==> s[j] != ' '
    decreases |s| - i
  {
    if i < |s| && s[i] == ' ' then SpaceRunEnd(s, i + 1) else i
  }

  /**
   * What a whole-line match of `import +NAME;` would capture as NAME, before NAME itself is
   * checked: the text between the spaces after `import` and the final semicolon.
   */
  function ImportCandidate(line: string): (r: Option<string>)
    ensures r.Some? ==> |r.value| < |line|
    ensures r.Some? && r.value != [] ==> r.value[0] != ' '
  {
    if |line| < 6 || line[..6] != ImportKeyword then None
    else
      var e := SpaceRunEnd(line, 6);
      if e == 6 || e == |line| || line[|line| - 1] != ';' then None
      else Some(line[e..|line| - 1])
  }

  /** A candidate is only ever taken from a line of import shape. */
  lemma CandidateSound(line: string)
    requires ImportCandidate(line).Some?
    ensures exists k :: IsImportShape(line, k, ImportCandidate(line).value)
  {
    var e := SpaceRunEnd(line, 6);
    var name := line[e..|line| - 1];
    assert line == ImportKeyword + Spaces(e - 6) + name + ";" by {
      assert line[..6] == ImportKeyword && line[6..e] == Spaces(e - 6);
      assert line == line[..6] + line[6..e] + line[e..|line| - 1] + [line[|line| - 1]];
    }
    assert IsImportShape(line, e - 6, name);
  }

  /** Every line of import shape yields its name as the candidate. */
  lemma CandidateOfShape(line: string, k: nat, name: string)
    requires IsImportShape(line, k, name)
    requires name != [] && name[0] != ' '
    ensures ImportCandidate(line) == Some(name)
  {
    assert line[..6] == ImportKeyword;
    assert line[6 + k] == name[0];
    assert forall j :: 6 <= j < 6 + k ==> line[j] == ' ';
    assert line[6 + k] != ' ';
    assert line[6 + k..|line| - 1] == name;
  }

  /** The group captured when `line` matches `import +([\w\.]+\.\w+);` in full, if it does. */
  function MatchClassImport(line: string): Option<string>
  {
    match ImportCandidate(line)
    case Some(name) => if IsClassImportName(name) then Some(name) else None
    case None => None
  }

  /** The group captured when `line` matches `import +([\w\.]+\.\*);` in full, if it does. */
  function MatchStarImport(line: string): Option<string>
  {
    match ImportCandidate(line)
    case Some(name) => if IsStarImportName(name) then Some(name) else None
    case None => None
  }

  /** A single-type import line is recognised, with its full name captured. */
  lemma {:induction false} ClassImportRecognised(k: nat, name: string)
    requires k >= 1 && IsClassImportName(name)
    ensures MatchClassImport(ImportKeyword + Spaces(k) + name + ";") == Some(name)
  {
    CandidateOfShape(ImportKeyword + Spaces(k) + name + ";", k, name);
  }

  /** An on-demand import line is recognised, with the captured name ending in `.*`. */
  lemma {:induction false} StarImportRecognised(k: nat, name: string)
    requires k >= 1 && IsStarImportName(name)
    ensures MatchStarImport(ImportKeyword + Spaces(k) + name + ";") == Some(name)
  {
    CandidateOfShape(ImportKeyword + Spaces(k) + name + ";", k, name);
  }

  /** A line yields a single-type import exactly when it is `import`, spaces, a class-import name and `;`. */
  lemma ClassImportIff(line: string, name: string)
    ensures MatchClassImport(line) == Some(name) <==>
      IsClassImportName(name) && exists k :: IsImportShape(line, k, name)
  {
    if MatchClassImport(line) == Some(name) {
      CandidateSound(line);
    }
    if IsClassImportName(name) && exists k :: IsImportShape(line, k, name) {
      var k :| IsImportShape(line, k, name);
      ClassImportRecognised(k, name);
    }
  }

  /** A line yields an on-demand import exactly when it is `import`, spaces, a star-import name and `;`. */
  lemma StarImportIff(line: string, name: string)
    ensures MatchStarImport(line) == Some(name) <==>
      IsStarImportName(name) && exists k :: IsImportShape(line, k, name)
  {
    if MatchStarImport(line) == Some(name) {
      CandidateSound(line);
    }
    if IsStarImportName(name) && exists k :: IsImportShape(line, k, name) {
      var k :| IsImportShape(line, k, name);
      StarImportRecognised(k, name);
    }
  }

  function OptionToSeq(o: Option<string>): seq<string>
  {
    if o.Some? then [o.value] else []
  }

  /**
   * The names one line contributes to the import list: the class-import capture, then the
   * star-import capture. A line matches at most one of the two patterns.
   */
  function LineImports(line: string): (r: seq<string>)
    ensures |r| <= 1
    ensures forall n :: n in r <==> MatchClassImport(line) == Some(n) || MatchStarImport(line) == Some(n)
  {
    OptionToSeq(MatchClassImport(line)) + OptionToSeq(MatchStarImport(line))
  }

  const ClassWord: string := "class"

  /** The import list `loadImports` builds from a file's lines. */
  function ImportsOf(lines: seq<string>): seq<string>
  {
    if lines == [] || Contains(lines[0], ClassWord) then []
    else LineImports(lines[0]) + ImportsOf(lines[1..])
  }

  /**
   * One step of the scan, after the names `done` already found: a line without `class`
   * contributes its class capture, then its star capture.
   */
  lemma ImportsOfStep(lines: seq<string>, i: nat, done: seq<string>)
    requires i < |lines| && !Contains(lines[i], ClassWord)
    ensures done + ImportsOf(lines[i..]) ==
      done + OptionToSeq(MatchClassImport(lines[i])) + OptionToSeq(MatchStarImport(lines[i])) + ImportsOf(lines[i + 1..])
  {
    assert lines[i..][1..] == lines[i + 1..];
    AppendParts(done, OptionToSeq(MatchClassImport(lines[i])), OptionToSeq(MatchStarImport(lines[i])), ImportsOf(lines[i + 1..]));
  }

  /** The scan ends at a line containing `class`. */
  lemma ImportsOfStop(lines: seq<string>, i: nat)
    requires i < |lines| && Contains(lines[i], ClassWord)
    ensures ImportsOf(lines[i..]) == []
  {
    assert lines[i..][0] == lines[i];
  }

  /** Where the scan stops: the first line containing `class`, or the number of lines. */
  function StopIndex(lines: seq<string>): (s: nat)
    ensures s <= |lines|
    ensures s < |lines| ==> Contains(lines[s], ClassWord)
    ensures forall i :: 0 <= i < s ==> !Contains(lines[i], ClassWord)
  {
    if lines == [] then 0
    else if Contains(lines[0], ClassWord) then 0
    else 1 + StopIndex(lines[1..])
  }

  /** The captures of every line, in order, with no stopping rule. */
  function AllLineImports(lines: seq<string>): (r: seq<string>)
    ensures |r| <= |lines|
  {
    if lines == [] then [] else LineImports(lines[0]) + AllLineImports(lines[1..])
  }

  /**
   * The scan reads lines in order, stops at the first line that contains `class` without
   * examining it, and appends the captures of every line before it.
   */
  lemma {:induction false} ImportsStopAtClass(lines: seq<string>)
    ensures ImportsOf(lines) == AllLineImports(lines[..StopIndex(lines)])
    ensures |ImportsOf(lines)| <= StopIndex(lines)
  {
    if lines != [] && !Contains(lines[0], ClassWord) {
      ImportsStopAtClass(lines[1..]);
      assert lines[..StopIndex(lines)][1..] == lines[1..][..StopIndex(lines[1..])];
    }
  }

  /** Lines after the first `class` line never contribute, whatever they hold. */
  lemma {:induction false} ImportsIgnoreLaterLines(lines: seq<string>, later: seq<string>)
    requires StopIndex(lines) < |lines|
    ensures ImportsOf(lines + later) == ImportsOf(lines)
  {
    if !Contains(lines[0], ClassWord) {
      assert (lines + later)[1..] == lines[1..] + later;
      ImportsIgnoreLaterLines(lines[1..], later);
    }
  }

  /** A name is imported exactly when some line before the first `class` line captures it. */
  lemma {:induction false} ImportedIffCaptured(lines: seq<string>, n: string)
    ensures n in ImportsOf(lines) <==>
      exists i :: 0 <= i < StopIndex(lines) && n in LineImports(lines[i])
  {
    if lines != [] && !Contains(lines[0], ClassWord) {
      ImportedIffCaptured(lines[1..], n);
      if n in ImportsOf(lines) && n !in LineImports(lines[0]) {
        var i :| 0 <= i < StopIndex(lines[1..]) && n in LineImports(lines[1..][i]);
        assert n in LineImports(lines[i + 1]);
      }
      if exists i :: 0 <= i < StopIndex(lines) && n in LineImports(lines[i]) {
        var i :| 0 <= i < StopIndex(lines) && n in LineImports(lines[i]);
        if i > 0 {
          assert lines[1..][i - 1] == lines[i];
        }
      }
    }
  }

  /**
   * `containsImport(file, className)`: the file lies in the class's package, or one of its
   * imports names the class itself or the class's package on demand.
   */
  predicate ImportCovers(filePackage: string, imports: seq<string>, className: string)
  {
    || filePackage == PackageName(className)
    || className in imports
    || PackageName(className) + ".*" in imports
  }

  /**
   * A file covers a class exactly when it lies in the class's package, or a line before its first
   * `class` line imports the class itself or its package on demand.
   */
  lemma CoveredByImportLine(filePackage: string, lines: seq<string>, className: string)
    ensures ImportCovers(filePackage, ImportsOf(lines), className) <==>
      || filePackage == PackageName(className)
      || exists i :: 0 <= i < StopIndex(lines) &&
           (className in LineImports(lines[i]) || PackageName(className) + ".*" in LineImports(lines[i]))
  {
    ImportedIffCaptured(lines, className);
    ImportedIffCaptured(lines, PackageName(className) + ".*");
  }

  /** An on-demand import of a package covers every class named by that package and a simple name. */
  lemma StarImportCoversPackage(filePackage: string, imports: seq<string>, pkg: string, stem: string)
    requires IsPackageForm(pkg) && IsSimpleForm(stem)
    requires pkg + ".*" in imports
    ensures ImportCovers(filePackage, imports, pkg + "." + stem)
  {
    PackageOfQualified(pkg, stem);
  }

  /** A file of a class's own package covers it whatever it imports. */
  lemma SamePackageCovers(imports: seq<string>, pkg: string, stem: string)
    requires IsPackageForm(pkg) && IsSimpleForm(stem)
    ensures ImportCovers(pkg, imports, pkg + "." + stem)
  {
    PackageOfQualified(pkg, stem);
  }
}
