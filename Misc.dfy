/** Dictionary lookup under alternative key names (relais/dev/misc.py). */
module Misc {

  /** `get_dictval(d, keys, default)`: the value of the first key in
      `keys` that `d` has, or `default` when it has none of them. */
  function GetDictval<K, V>(d: map<K, V>, keys: seq<K>, default: V): (r: V)
    ensures (forall i :: 0 <= i < |keys| ==> keys[i] !in d) ==> r == default
    ensures forall i :: 0 <= i < |keys| && keys[i] in d && (forall j :: 0 <= j < i ==> keys[j] !in d) ==>
      r == d[keys[i]]
  {
    if keys == [] then default
    else if keys[0] in d then d[keys[0]]
    else
      var r := GetDictval(d, keys[1..], default);
      assert forall i :: 1 <= i < |keys| ==> keys[1..][i - 1] == keys[i];
      r
  }

  /** Keys after the first present one do not matter. */
  lemma {:induction false} LaterKeysIrrelevant<K, V>(d: map<K, V>, keys: seq<K>, more: seq<K>, default: V)
    requires exists i :: 0 <= i < |keys| && keys[i] in d
    ensures GetDictval(d, keys + more, default) == GetDictval(d, keys, default)
  {
    if keys[0] !in d {
      assert (keys + more)[1..] == keys[1..] + more;
      var i :| 0 <= i < |keys| && keys[i] in d;
      assert keys[1..][i - 1] == keys[i];
      LaterKeysIrrelevant(d, keys[1..], more, default);
    }
  }
}
