/** Small result types shared by the modules. */
module Common {

  datatype Option<+T> = None | Some(value: T)

  /** A Python call that either returns a value or raises an error code. */
  datatype Result<+T, +E> = Ok(value: T) | Err(error: E)

  /** A position counted from `n` further back. */
  function Shift(r: Option<nat>, n: nat): Option<nat> {
    match r case None => None case Some(j) => Some(j + n)
  }

  lemma {:induction false} SubsetSize<T>(a: set<T>, b: set<T>)
    requires a <= b
    ensures |a| <= |b|
    ensures |a| == |b| ==> a == b
  {
    if a != {} {
      var x :| x in a;
      SubsetSize(a - {x}, b - {x});
    }
  }

  /** An injective map has as many values as keys. */
  lemma {:induction false} InjectiveMapSize<K, V>(m: map<K, V>)
    requires forall a, b | a in m && b in m && m[a] == m[b] :: a == b
    ensures |m.Values| == |m|
  {
    if m == map[] {
      assert m.Values == {};
    } else {
      var k :| k in m;
      var rest := m - {k};
      InjectiveMapSize(rest);
      assert m.Values == rest.Values + {m[k]} by {
        forall v | v in m.Values
          ensures v in rest.Values + {m[k]}
        {
          var a :| a in m && m[a] == v;
          if a != k {
            assert a in rest && rest[a] == v;
          }
        }
      }
      assert |m| == |rest| + 1 by {
        assert m.Keys == rest.Keys + {k};
      }
      assert m[k] !in rest.Values;
    }
  }
}
