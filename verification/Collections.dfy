/** Small facts about sequences and maps that several modules share. */
module Collections {

  ghost predicate NoDup<T>(s: seq<T>) {
    forall i, j :: 0 <= i < j < |s| ==> s[i] != s[j]
  }

  function Elems<T(==)>(s: seq<T>): set<T> {
    set x | x in s
  }

  /** A queue after its oldest member has left, if it had any. */
  function Tail<T>(q: seq<T>): seq<T> {
    if q == [] then [] else q[1..]
  }

  /** The list under a key, empty for a missing key, as indexing a Go map of slices gives it. */
  function Row<K, T>(m: map<K, seq<T>>, key: K): seq<T> {
    if key in m then m[key] else []
  }

  lemma TakeNext<T>(s: seq<T>, i: nat)
    requires i < |s|
    ensures s[..i + 1] == s[..i] + [s[i]] && s[..i + 1][..i] == s[..i]
  {
  }

  lemma Regroup<T>(a: seq<T>, b: seq<T>, c: seq<T>)
    ensures a + (b + c) == (a + b) + c
    ensures |a| == 1 ==> (a + b)[1..] == b
  {
  }
}
