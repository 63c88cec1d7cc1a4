/** The elements of a set of numbers in ascending order: the iteration order of an ordered table. */
module Sets {
  lemma {:induction false} LeastExists(keys: set<nat>) returns (least: nat)
    requires keys != {}
    ensures least in keys && forall j :: j in keys ==> least <= j
  {
    var k :| k in keys;
    var rest := keys - {k};
    if rest == {} {
      least := k;
    } else {
      var m := LeastExists(rest);
      least := if m < k then m else k;
    }
    assert forall j :: j in keys ==> j == k || j in rest;
  }

  lemma LeastIsThere(keys: set<nat>)
    requires keys != {}
    ensures exists k :: k in keys && forall j :: j in keys ==> k <= j
  {
    var k := LeastExists(keys);
    assert k in keys && forall j :: j in keys ==> k <= j;
  }

  function Least(keys: set<nat>): (least: nat)
    requires keys != {}
    ensures least in keys && forall j :: j in keys ==> least <= j
  {
    LeastIsThere(keys);
    var least :| least in keys && forall j :: j in keys ==> least <= j;
    least
  }

  function Ascending(keys: set<nat>): seq<nat> {
    if keys == {} then [] else [Least(keys)] + Ascending(keys - {Least(keys)})
  }

  lemma {:induction false} AscendingMembers(keys: set<nat>)
    ensures forall k :: k in Ascending(keys) <==> k in keys
    ensures forall i, j :: 0 <= i < j < |Ascending(keys)| ==> Ascending(keys)[i] < Ascending(keys)[j]
  {
    if keys != {} {
      hide Least;
      var k := Least(keys);
      var rest := Ascending(keys - {k});
      AscendingMembers(keys - {k});
      var all := [k] + rest;
      assert Ascending(keys) == all;
      forall i, j | 0 <= i < j < |all|
        ensures all[i] < all[j]
      {
        assert all[j] == rest[j - 1] && rest[j - 1] in keys - {k};
        if i > 0 {
          assert all[i] == rest[i - 1];
        }
      }
    }
  }
}
