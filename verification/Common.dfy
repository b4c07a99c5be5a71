/** Small data types shared by every component of the model. */
module Common {

  datatype Option<+T> = None | Some(value: T)

  function Get<K, V>(m: map<K, V>, k: K): Option<V> {
    if k in m then Some(m[k]) else None
  }

  /** The elements of s whose flag in mask is set, in order. */
  function Pick<T>(s: seq<T>, mask: seq<bool>): (r: seq<T>)
    requires |s| == |mask|
    ensures |r| <= |s|
  {
    if s == [] then []
    else
      var n := |s| - 1;
      var front := Pick(s[..n], mask[..n]);
      if mask[n] then front + [s[n]] else front
  }

  lemma PickAppend<T>(s: seq<T>, mask: seq<bool>, x: T, chosen: bool)
    requires |s| == |mask|
    ensures Pick(s + [x], mask + [chosen]) == if chosen then Pick(s, mask) + [x] else Pick(s, mask)
  {
    var more, flags := s + [x], mask + [chosen];
    assert more[..|s|] == s && flags[..|s|] == mask;
  }
}
