/** Cardinalities of the finite sets that the counting results use. */
module FiniteSets {

  /** The first n natural numbers. */
  function Below(n: nat): (r: set<nat>)
    ensures forall i: nat :: i in r <==> i < n
    ensures |r| == n
  {
    if n == 0 then {} else Below(n - 1) + {n - 1}
  }

  /** A function that keeps the elements of a set apart keeps its size. */
  lemma {:induction false} InjectiveImageSize<A, B>(s: set<A>, f: A --> B, image: set<B>)
    requires forall a :: a in s ==> f.requires(a)
    requires forall a, b :: a in s && b in s && f(a) == f(b) ==> a == b
    requires image == set a | a in s :: f(a)
    ensures |image| == |s|
    decreases |s|
  {
    if s == {} {
      assert image == {};
    } else {
      var x :| x in s;
      InjectiveImageSize(s - {x}, f, image - {f(x)});
    }
  }

  /** The next element of an iteration in no particular order. */
  method Pick<T>(s: set<T>) returns (x: T)
    requires s != {}
    ensures x in s
  {
    x :| x in s;
  }

  /** A key of a value of a map. */
  lemma KeyOfValue<K, V>(m: map<K, V>, v: V) returns (k: K)
    requires v in m.Values
    ensures k in m && m[k] == v
  {
    k :| k in m && m[k] == v;
  }
}
