/** Extensionality facts about sets and maps, stated as lemmas with the
    element-wise steps written out. */
module Collections {

  lemma SetExt<T>(s: set<T>, t: set<T>)
    requires forall x :: x in s <==> x in t
    ensures s == t
  {
    forall x | x in s ensures x in t { }
    forall x | x in t ensures x in s { }
    assert s <= t && t <= s;
  }

  lemma MapExt<K, V>(m: map<K, V>, n: map<K, V>)
    requires forall k :: k in m <==> k in n
    requires forall k | k in m :: m[k] == n[k]
    ensures m == n
  {
    SetExt(m.Keys, n.Keys);
    forall k | k in m ensures k in n && m[k] == n[k] { }
    forall k | k in n ensures k in m && m[k] == n[k] { }
    assert m == map k | k in n :: n[k];
  }

  lemma MinusNothing<K, V>(m: map<K, V>)
    ensures m - {} == m
  {
    MapExt(m - {}, m);
  }

  /** Some element of a non-empty set. */
  lemma Pick<T>(s: set<T>) returns (x: T)
    requires s != {}
    ensures x in s
  {
    if forall y :: y !in s {
      SetExt(s, {});
      assert false;
    }
    x :| x in s;
  }

  /** Some key of a non-empty map. */
  lemma PickKey<K, V>(m: map<K, V>) returns (k: K)
    requires m != map[]
    ensures k in m
  {
    if forall j :: j !in m {
      MapExt(m, map[]);
      assert false;
    }
    k :| k in m;
  }

  /** A set whose elements are all equal has at most one element. */
  lemma AllEqualAtMostOne<T>(s: set<T>)
    requires forall x, y | x in s && y in s :: x == y
    ensures |s| <= 1
  {
    if s != {} {
      var x := Pick(s);
      SetExt(s, {x});
    }
  }
}
