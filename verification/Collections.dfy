/** Small facts about sets and sequences that several components use. */
module Collections {

  function Min(a: nat, b: nat): nat {
    if a < b then a else b
  }

  lemma SubsetSize<T>(a: set<T>, b: set<T>)
    requires a <= b
    ensures |a| <= |b|
  {
    assert b == a + (b - a);
  }

  lemma Appended<T>(a: seq<T>, b: seq<T>, c: seq<T>)
    ensures (a + b) + c == a + (b + c)
  {
  }

  function Elems<T>(s: seq<T>): set<T> {
    set x | x in s
  }

  predicate Distinct<T(==)>(s: seq<T>) {
    forall i, j :: 0 <= i < j < |s| ==> s[i] != s[j]
  }

  /** `s` lists the elements of `all`, each once. */
  predicate Covers<T(==)>(s: seq<T>, all: set<T>) {
    Distinct(s) && (forall i :: 0 <= i < |s| ==> s[i] in all) && (forall x :: x in all ==> x in s)
  }

  lemma CoversAppend<T>(s: seq<T>, done: set<T>, x: T)
    requires Covers(s, done) && x !in done
    ensures Covers(s + [x], done + {x})
  {
    forall y | y in done + {x} ensures y in s + [x] {
      if y != x {
        assert y in s;
      }
    }
  }

  lemma CoversConcat<T>(s: seq<T>, a: set<T>, t: seq<T>, b: set<T>)
    requires Covers(s, a) && Covers(t, b) && a !! b
    ensures Covers(s + t, a + b)
  {
    forall i, j | 0 <= i < j < |s + t| ensures (s + t)[i] != (s + t)[j] {
      assert i < |s| <= j ==> s[i] in a && t[j - |s|] in b;
    }
    forall x | x in a + b ensures x in s + t {
      assert x in s || x in t;
    }
  }

  /** Some order of a finite set. */
  ghost function SeqOf(s: set<string>): (r: seq<string>)
    ensures Covers(r, s) && forall x :: x in r <==> x in s
    decreases |s|
  {
    if s == {} then [] else
      var x :| x in s;
      [x] + SeqOf(s - {x})
  }
}
