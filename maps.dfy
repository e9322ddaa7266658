/** Facts about finite maps shared by the modules that build dictionaries entry by entry. */
module Maps {

  /** Writing a key adds one entry when the key is new and none when it is already present. */
  lemma UpdateSize<K, V>(m: map<K, V>, k: K, v: V)
    ensures |m[k := v]| == if k in m then |m| else |m| + 1
  {
    if k in m {
      assert m[k := v].Keys == m.Keys;
    } else {
      assert m[k := v].Keys == m.Keys + {k};
    }
  }
}
