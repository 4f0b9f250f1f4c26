/** What several of the models share. */
module Common {

  datatype Option<T> = None | Some(value: T)

  /** No element twice. */
  predicate Unique(q: seq<nat>) { forall i, j :: 0 <= i < j < |q| ==> q[i] != q[j] }

  function Drop<T>(q: seq<T>, i: nat): (r: seq<T>)
    requires i < |q|
    ensures |r| == |q| - 1
  {
    q[..i] + q[i + 1..]
  }

  lemma Dropped(q: seq<nat>, i: nat)
    requires i < |q|
    ensures forall j :: 0 <= j < |q| - 1 ==> Drop(q, i)[j] == if j < i then q[j] else q[j + 1]
    ensures forall k :: k in q <==> k == q[i] || k in Drop(q, i)
    ensures Unique(q) ==> Unique(Drop(q, i)) && q[i] !in Drop(q, i)
    ensures Unique(q) ==> forall k :: k in Drop(q, i) <==> k in q && k != q[i]
  {
    var d := Drop(q, i);
    forall k | k in q && k != q[i] ensures k in d {
      var j :| 0 <= j < |q| && q[j] == k;
      assert d[if j < i then j else j - 1] == k;
    }
  }
}
