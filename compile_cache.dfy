/**
 * The reuse rule of the compilation cache: when the batch compiled last can be handed out
 * again, in terms of the timestamps recorded when it was compiled.
 */
module CompileCache {
  import opened Common

  /**
   * The cache-hit condition over the recorded timestamps `cached`: as many entries as requested
   * sources, every requested source recorded, and every recorded timestamp still current.
   */
  predicate Reusable(cached: map<Path, int>, sources: seq<Path>, lastModified: Path -> int)
  {
    && |cached| == |sources|
    && forall i :: 0 <= i < |sources| ==>
         sources[i] in cached && cached[sources[i]] == lastModified(sources[i])
  }

  /** The timestamps recorded after compiling `sources`: each requested file with its timestamp. */
  function Record(sources: seq<Path>, lastModified: Path -> int): (m: map<Path, int>)
    ensures m.Keys == Elements(sources)
    ensures forall f :: f in m ==> m[f] == lastModified(f)
  {
    map f | f in sources :: lastModified(f)
  }

  /** Recording one more source extends the recorded map by that source's timestamp. */
  lemma RecordStep(sources: seq<Path>, i: nat, lastModified: Path -> int)
    requires i < |sources|
    ensures Record(sources[..i + 1], lastModified) == Record(sources[..i], lastModified)[sources[i] := lastModified(sources[i])]
  {
    assert sources[..i + 1] == sources[..i] + [sources[i]];
  }

  /** A sequence has as many distinct elements as entries exactly when no entry repeats. */
  lemma {:induction false} ElementsCount<T>(s: seq<T>)
    ensures |Elements(s)| <= |s|
    ensures |Elements(s)| == |s| <==> Distinct(s)
  {
    if s != [] {
      ElementsCount(s[1..]);
      assert Elements(s) == {s[0]} + Elements(s[1..]);
      if s[0] in s[1..] {
        assert Elements(s) == Elements(s[1..]);
        var j :| 0 <= j < |s[1..]| && s[1..][j] == s[0];
        assert s[0] == s[j + 1];
      } else {
        assert Distinct(s) <==> Distinct(s[1..]) by {
          if Distinct(s[1..]) {
            forall i, j | 0 <= i < j < |s| ensures s[i] != s[j] {
              if i > 0 {
                assert s[i] == s[1..][i - 1] && s[j] == s[1..][j - 1];
              } else {
                assert s[j] in s[1..];
              }
            }
          }
        }
      }
    }
  }

  /**
   * Compiling a source list and asking again with the same list and unchanged timestamps is a
   * cache hit exactly when the list has no duplicates: a list with a repeated file records fewer
   * entries than it has, so it never hits.
   */
  lemma RecordReusableIffDistinct(sources: seq<Path>, lastModified: Path -> int)
    ensures Reusable(Record(sources, lastModified), sources, lastModified) <==> Distinct(sources)
  {
    var m := Record(sources, lastModified);
    ElementsCount(sources);
    assert |m| == |m.Keys|;
  }

  /** Changing the timestamp of any compiled file forces the next request for the same list to recompile. */
  lemma TimestampChangeForcesMiss(sources: seq<Path>, lastModified: Path -> int, now: Path -> int, u: Path)
    requires u in sources && now(u) != lastModified(u)
    ensures !Reusable(Record(sources, lastModified), sources, now)
  {
    var i :| 0 <= i < |sources| && sources[i] == u;
  }

  /**
   * A hit for a duplicate-free request means it names exactly the files compiled last: adding
   * or removing a file forces a recompile whatever the timestamps.
   */
  lemma ReuseMeansSameFiles(compiled: seq<Path>, lastModified: Path -> int, sources: seq<Path>, now: Path -> int)
    requires Distinct(sources)
    requires Reusable(Record(compiled, lastModified), sources, now)
    ensures Elements(sources) == Elements(compiled)
  {
    var m := Record(compiled, lastModified);
    ElementsCount(sources);
    assert Elements(sources) <= Elements(compiled) by {
      forall f | f in Elements(sources) ensures f in m {
        var i :| 0 <= i < |sources| && sources[i] == f;
      }
    }
    assert |m| == |m.Keys|;
    SubsetSameSize(Elements(sources), Elements(compiled));
  }

  /**
   * Against the map recorded for `compiled` with unchanged timestamps, a request hits exactly
   * when every file it names was compiled and it has as many entries as distinct files were
   * compiled. Duplicates in the request are not noticed as such.
   */
  lemma RecordReusableIff(compiled: seq<Path>, sources: seq<Path>, lastModified: Path -> int)
    ensures Reusable(Record(compiled, lastModified), sources, lastModified) <==>
      Elements(sources) <= Elements(compiled) && |sources| == |Elements(compiled)|
  {
    var m := Record(compiled, lastModified);
    assert |m| == |m.Keys|;
    if Elements(sources) <= Elements(compiled) {
      forall i | 0 <= i < |sources| ensures sources[i] in m {
        assert sources[i] in Elements(sources);
      }
    }
    if Reusable(m, sources, lastModified) {
      forall f | f in Elements(sources) ensures f in Elements(compiled) {
        var i :| 0 <= i < |sources| && sources[i] == f;
      }
    }
  }

  /**
   * A request naming one file twice hits the map recorded for that file and another one, and is
   * handed a batch compiled over both.
   */
  lemma RepeatedFileHitsPairRecord(a: Path, b: Path, lastModified: Path -> int)
    requires a != b
    ensures Reusable(Record([a, b], lastModified), [a, a], lastModified)
  {
    RecordReusableIff([a, b], [a, a], lastModified);
    assert Elements([a, b]) == {a, b};
    assert Elements([a, a]) == {a};
  }

  lemma SubsetSameSize<T>(a: set<T>, b: set<T>)
    requires a <= b && |a| == |b|
    ensures a == b
  {
    assert |b - a| == |b| - |a|;
  }
}
