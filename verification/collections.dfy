/** Facts about sets and sequences that several modules need. */
module Collections {

  lemma Associative<T>(s: seq<T>, t: seq<T>, u: seq<T>)
    ensures s + (t + u) == (s + t) + u
  {
  }

  lemma Parts<T>(whole: set<T>, a: set<T>, b: set<T>)
    requires a + b == whole && a !! b
    ensures |whole| == |a| + |b|
  {
  }

  lemma SubsetSize<T>(a: set<T>, b: set<T>)
    requires a <= b
    ensures |a| <= |b|
    ensures |a| == |b| ==> a == b
  {
    Parts(b, a, b - a);
  }

  lemma Member<T>(a: set<T>) returns (x: T)
    requires |a| > 0
    ensures x in a
  {
    x :| x in a;
  }
}
