/** Types shared by every module of the model. */
module Common {

  /** A file identity: the path of a source file. Two file objects with the same path are the same file. */
  type Path = string

  datatype Option<T> = None | Some(value: T)

  /** The elements of a sequence, as a set. */
  function Elements<T>(s: seq<T>): set<T>
  {
    set x | x in s
  }

  /** No element occurs twice. */
  predicate Distinct<T(==)>(s: seq<T>)
  {
    forall i, j :: 0 <= i < j < |s| ==> s[i] != s[j]
  }

  /**
   * Appending a three-part sequence appends its parts one after another. Stated once, generically,
   * so that proofs over long concatenations do not have to rediscover associativity.
   */
  lemma AppendParts<T>(done: seq<T>, a: seq<T>, b: seq<T>, rest: seq<T>)
    ensures done + (a + b + rest) == done + a + b + rest
  {
  }
}
