/**
 * The name helpers of the compiler service: splitting a qualified class name into its
 * package part and its simple name, and building the qualified name of the public
 * top-level type a `.java` file declares.
 */
module Names {
  import opened Common

  predicate IsLower(c: char) { 'a' <= c <= 'z' }

  predicate IsUpper(c: char) { 'A' <= c <= 'Z' }

  /** The character class `[_a-zA-Z0-9]`, which is also what `\w` stands for in a Java pattern. */
  predicate IsWordChar(c: char)
  {
    c == '_' || IsLower(c) || IsUpper(c) || '0' <= c <= '9'
  }

  /** Position `i` of `p` can lie inside `id(.id)*`: a word character, or a dot that is followed by a lower-case letter. */
  predicate ChainOkAt(p: string, i: nat)
    requires i < |p|
  {
    IsWordChar(p[i]) || (p[i] == '.' && i + 1 < |p| && IsLower(p[i + 1]))
  }

  /**
   * `p` is matched in full by `([a-z][_a-zA-Z0-9]*\.)*[a-z][_a-zA-Z0-9]*`: dot-separated identifiers,
   * each starting with a lower-case letter.
   */
  predicate IsPackageForm(p: string)
  {
    |p| > 0 && IsLower(p[0]) && forall i :: 0 <= i < |p| ==> ChainOkAt(p, i)
  }

  /** `t` is matched in full by `[A-Z][_a-zA-Z0-9]*`. */
  predicate IsSimpleForm(t: string)
  {
    |t| > 0 && IsUpper(t[0]) && forall i :: 0 < i < |t| ==> IsWordChar(t[i])
  }

  /** The end of the run of word characters that starts at `i`. */
  function WordRunEnd(s: string, i: nat): (j: nat)
    requires i <= |s|
    ensures i <= j <= |s|
    ensures forall k :: i <= k < j ==> IsWordChar(s[k])
    ensures j < |s| ==> !IsWordChar(s[j])
    decreases |s| - i
  {
    if i < |s| && IsWordChar(s[i]) then WordRunEnd(s, i + 1) else i
  }

  /** Extending a package-form prefix by a dot and one more identifier keeps it in package form. */
  lemma ChainStep(s: string, start: nat, e: nat)
    requires 0 < start < e <= |s| && IsLower(s[start])
    requires s[start - 1] == '.' && IsPackageForm(s[..start - 1])
    requires forall k :: start <= k < e ==> IsWordChar(s[k])
    ensures IsPackageForm(s[..e])
  {
    var p, q := s[..start - 1], s[..e];
    forall i | 0 <= i < e
      ensures ChainOkAt(q, i)
    {
      if i < start - 1 {
        assert ChainOkAt(p, i);
      }
    }
  }

  /** No prefix of `s` longer than `e` is in package form when position `e` cannot continue the chain. */
  lemma ChainStops(s: string, e: nat)
    requires e <= |s|
    requires e < |s| ==> !IsWordChar(s[e])
    requires !(e + 1 < |s| && s[e] == '.' && IsLower(s[e + 1]))
    ensures forall k :: e < k <= |s| ==> !IsPackageForm(s[..k])
  {
    forall k | e < k <= |s|
      ensures !IsPackageForm(s[..k])
    {
      assert !ChainOkAt(s[..k], e);
    }
  }

  /**
   * Where the match of the package pattern ends, given that the prefix before `start`
   * (if any) is in package form and ends with a dot, and an identifier starts at `start`.
   */
  function ChainEnd(s: string, start: nat): (j: nat)
    requires start < |s| && IsLower(s[start])
    requires start == 0 || (s[start - 1] == '.' && IsPackageForm(s[..start - 1]))
    ensures start < j <= |s|
    ensures IsPackageForm(s[..j])
    ensures forall k :: j < k <= |s| ==> !IsPackageForm(s[..k])
    decreases |s| - start
  {
    var e := WordRunEnd(s, start + 1);
    if start == 0 then
      assert IsPackageForm(s[..e]) by {
        forall i | 0 <= i < e ensures ChainOkAt(s[..e], i) {}
      }
      if e + 1 < |s| && s[e] == '.' && IsLower(s[e + 1]) then ChainEnd(s, e + 1)
      else ChainStops(s, e); e
    else
      ChainStep(s, start, e);
      if e + 1 < |s| && s[e] == '.' && IsLower(s[e + 1]) then ChainEnd(s, e + 1)
      else ChainStops(s, e); e
  }

  /**
   * `packageName(className)`: the match of `^([a-z][_a-zA-Z0-9]*\.)*[a-z][_a-zA-Z0-9]*`,
   * which is the longest prefix of `className` in package form, or "" when there is none.
   */
  function PackageName(className: string): (r: string)
    ensures r <= className
    ensures r == "" || IsPackageForm(r)
    ensures forall k :: |r| < k <= |className| ==> !IsPackageForm(className[..k])
  {
    if |className| > 0 && IsLower(className[0]) then
      className[..ChainEnd(className, 0)]
    else
      assert forall k :: 0 < k <= |className| ==> className[..k][0] == className[0];
      ""
  }

  /** The start of the longest run of word characters that ends at the end of `s`, searching leftwards from `j`. */
  function TrailStart(s: string, j: nat): (t: nat)
    requires j <= |s|
    requires forall k :: j <= k < |s| ==> IsWordChar(s[k])
    ensures t <= j
    ensures forall k :: t <= k < |s| ==> IsWordChar(s[k])
    ensures t > 0 ==> !IsWordChar(s[t - 1])
  {
    if j > 0 && IsWordChar(s[j - 1]) then TrailStart(s, j - 1) else j
  }

  /** The first upper-case letter at or after `i`, or `|s|` when there is none. */
  function FirstUpper(s: string, i: nat): (p: nat)
    requires i <= |s|
    ensures i <= p <= |s|
    ensures p < |s| ==> IsUpper(s[p])
    ensures forall k :: i <= k < p ==> !IsUpper(s[k])
    decreases |s| - i
  {
    if i == |s| || IsUpper(s[i]) then i else FirstUpper(s, i + 1)
  }

  /**
   * `simpleName(className)`: the leftmost match of `[A-Z][_a-zA-Z0-9]*$`, which is the longest
   * suffix of `className` in simple form, or "" when there is none.
   */
  function SimpleName(className: string): (r: string)
    ensures |r| <= |className| && r == className[|className| - |r|..]
    ensures r == "" || IsSimpleForm(r)
    ensures forall p :: 0 <= p < |className| - |r| ==> !IsSimpleForm(className[p..])
  {
    var t := TrailStart(className, |className|);
    var p := FirstUpper(className, t);
    assert forall q :: 0 <= q < t ==> !IsSimpleForm(className[q..]) by {
      forall q | 0 <= q < t ensures !IsSimpleForm(className[q..]) {
        if q < t - 1 {
          assert className[q..][t - 1 - q] == className[t - 1];
        }
      }
    }
    if p < |className| then className[p..] else ""
  }

  /** `fileName.endsWith(".java")` */
  predicate IsJavaFileName(fileName: string)
  {
    |fileName| >= 5 && fileName[|fileName| - 5..] == ".java"
  }

  /**
   * The name `publicTopLevelTypes` records for a file: nothing for a file whose name does not end
   * in `.java`; otherwise the file name without `.java`, qualified by the file's package unless
   * that package is empty.
   */
  function TopLevelTypeName(fileName: string, packageName: string): (r: Option<string>)
    ensures r.Some? <==> IsJavaFileName(fileName)
  {
    if !IsJavaFileName(fileName) then None
    else
      var className := fileName[..|fileName| - 5];
      Some(if packageName == "" then className else packageName + "." + className)
  }

  /**
   * `packageName` recovers the package part of a qualified name built from a package and a rest
   * that starts with a capital letter: a simple name, or a simple name and its nested classes.
   */
  lemma PackageOfQualified(pkg: string, stem: string)
    requires pkg == "" || IsPackageForm(pkg)
    requires |stem| > 0 && IsUpper(stem[0])
    ensures PackageName(if pkg == "" then stem else pkg + "." + stem) == pkg
  {
    var q := if pkg == "" then stem else pkg + "." + stem;
    var r := PackageName(q);
    assert q[..|r|] == r;
    forall k | |pkg| < k <= |q|
      ensures !IsPackageForm(q[..k])
    {
      if pkg == "" {
        assert q[..k][0] == stem[0];
      } else {
        assert q[..k][|pkg|] == '.' && (|pkg| + 1 < k ==> q[..k][|pkg| + 1] == stem[0]);
        assert !ChainOkAt(q[..k], |pkg|);
      }
    }
    if pkg != "" {
      assert q[..|pkg|] == pkg;
    }
  }

  /** `simpleName` recovers the simple name of a qualified name built from a package and a simple name. */
  lemma SimpleOfQualified(pkg: string, stem: string)
    requires IsSimpleForm(stem)
    ensures SimpleName(if pkg == "" then stem else pkg + "." + stem) == stem
  {
    var q := if pkg == "" then stem else pkg + "." + stem;
    var n := SimpleName(q);
    assert q[|q| - |stem|..] == stem;
    forall p | 0 <= p < |q| - |stem|
      ensures !IsSimpleForm(q[p..])
    {
      assert q[|pkg|] == '.';
      if p < |pkg| {
        assert q[p..][|pkg| - p] == '.';
      }
    }
  }

  /**
   * The name built for `Stem.java` in package `pkg` splits back into `pkg` and `Stem`:
   * `packageName` and `simpleName` invert the construction of `publicTopLevelTypes`.
   */
  lemma {:induction false} TopLevelNameRoundTrip(pkg: string, stem: string)
    requires pkg == "" || IsPackageForm(pkg)
    requires IsSimpleForm(stem)
    ensures TopLevelTypeName(stem + ".java", pkg).Some?
    ensures PackageName(TopLevelTypeName(stem + ".java", pkg).value) == pkg
    ensures SimpleName(TopLevelTypeName(stem + ".java", pkg).value) == stem
  {
    var fileName := stem + ".java";
    assert fileName[..|fileName| - 5] == stem;
    assert fileName[|fileName| - 5..] == ".java";
    PackageOfQualified(pkg, stem);
    SimpleOfQualified(pkg, stem);
  }

  /** `file.getFileName()`: the last segment of a path. */
  function FileName(p: Path): (r: string)
    ensures |r| <= |p| && r == p[|p| - |r|..]
    ensures '/' !in r
    ensures |r| < |p| ==> p[|p| - |r| - 1] == '/'
  {
    if |p| == 0 || p[|p| - 1] == '/' then []
    else FileName(p[..|p| - 1]) + [p[|p| - 1]]
  }

  /**
   * The name of a nested class, such as `java.util.Map.Entry`, splits into the package
   * (`java.util`) and the innermost simple name (`Entry`); the outer class belongs to neither.
   */
  lemma NestedClassSplit(pkg: string, outer: string, inner: string)
    requires IsPackageForm(pkg) && IsSimpleForm(outer) && IsSimpleForm(inner)
    ensures PackageName(pkg + "." + outer + "." + inner) == pkg
    ensures SimpleName(pkg + "." + outer + "." + inner) == inner
  {
    PackageOfQualified(pkg, outer + "." + inner);
    assert pkg + "." + (outer + "." + inner) == pkg + "." + outer + "." + inner;
    SimpleOfQualified(pkg + "." + outer, inner);
  }
}
