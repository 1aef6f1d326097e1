/** Counting lists of small distinct numbers. */
module Pigeonhole {
  lemma {:induction false} DistinctCount(order: seq<nat>, bound: nat)
    requires forall k :: 0 <= k < |order| ==> order[k] < bound
    requires forall j, k :: 0 <= j < k < |order| ==> order[j] != order[k]
    ensures |order| <= bound
    ensures |order| == bound ==> forall i :: 0 <= i < bound ==> i in order
    decreases bound
  {
    var first := if order == [] then 0 else order[0];
    assert order == [] || first < bound;
    if bound == 0 {
    } else if bound - 1 in order {
      var k :| 0 <= k < |order| && order[k] == bound - 1;
      var rest := order[..k] + order[k + 1..];
      assert forall j :: 0 <= j < |rest| ==> rest[j] == order[if j < k then j else j + 1];
      DistinctCount(rest, bound - 1);
      if |order| == bound {
        forall i | 0 <= i < bound ensures i in order {
          if i < bound - 1 { assert i in rest; var j :| 0 <= j < |rest| && rest[j] == i; }
        }
      }
    } else {
      forall k | 0 <= k < |order| ensures order[k] < bound - 1 {
        assert order[k] in order;
      }
      DistinctCount(order, bound - 1);
    }
  }

  lemma {:induction false} AllListed(order: seq<nat>, bound: nat)
    requires forall i :: 0 <= i < bound ==> i in order
    ensures |order| >= bound
    decreases bound
  {
    if bound > 0 {
      assert bound - 1 in order;
      var k :| 0 <= k < |order| && order[k] == bound - 1;
      var rest := order[..k] + order[k + 1..];
      forall i | 0 <= i < bound - 1 ensures i in rest {
        assert i in order;
        var j :| 0 <= j < |order| && order[j] == i;
        assert rest[if j < k then j else j - 1] == i;
      }
      AllListed(rest, bound - 1);
    }
  }

  lemma OneMissing(order: seq<nat>, bound: nat, missing: nat)
    requires forall k :: 0 <= k < |order| ==> order[k] < bound
    requires forall j, k :: 0 <= j < k < |order| ==> order[j] != order[k]
    requires missing < bound && missing !in order
    ensures |order| < bound
  {
    DistinctCount(order, bound);
  }
}
