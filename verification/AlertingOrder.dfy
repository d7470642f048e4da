/** The order of problems: by key, as strings.Compare orders strings. */
module AlertingOrder {
  import opened Alerting
  import opened Text

  ghost predicate StrictlySorted(problems: seq<Problem>)
  {
    forall i, j :: 0 <= i < j < |problems| ==> Less(problems[i].key, problems[j].key)
  }

  lemma FirstIsLeast(a: seq<Problem>, b: seq<Problem>)
    requires StrictlySorted(a) && StrictlySorted(b) && a != []
    requires forall p :: p in a <==> p in b
    ensures b != [] && a[0] == b[0]
  {
    assert a[0] in b;
    assert b[0] in a;
    LessIsTotal(a[0].key, b[0].key);
    var i :| 0 <= i < |b| && b[i] == a[0];
    var j :| 0 <= j < |a| && a[j] == b[0];
  }

  /** There is only one way to write a set of problems in order. */
  lemma {:induction false} SortedOnce(a: seq<Problem>, b: seq<Problem>)
    requires StrictlySorted(a) && StrictlySorted(b)
    requires forall p :: p in a <==> p in b
    ensures a == b
    decreases |a|
  {
    if a == [] {
      if b != [] {
        FirstIsLeast(b, a);
      }
    } else {
      FirstIsLeast(a, b);
      forall p ensures p in a[1..] <==> p in b[1..] {
        LessIsTotal(a[0].key, a[0].key);
        assert p in a <==> p == a[0] || p in a[1..];
        assert p in b <==> p == b[0] || p in b[1..];
      }
      SortedOnce(a[1..], b[1..]);
      assert a == [a[0]] + a[1..] && b == [b[0]] + b[1..];
    }
  }
}
