/** Types and small facts shared by the models. */
module Basics {

  datatype Option<+T> = None | Some(value: T)

  /** A `HashMap<_, usize>` entry read with `.copied().unwrap_or(0)`. */
  function Get<K>(m: map<K, nat>, k: K): nat {
    if k in m then m[k] else 0
  }

  /** Largest value SQLite stores for a byte counter. */
  const I64_MAX: nat := 0x7fff_ffff_ffff_ffff

  /** Sets that agree away from `x` differ in size by the membership of `x`. */
  lemma SwapCard<T>(a: set<T>, b: set<T>, x: T)
    requires a - {x} == b - {x}
    ensures |b| + (if x in a then 1 else 0) == |a| + (if x in b then 1 else 0)
  {
    if x in a {
      assert a == (a - {x}) + {x};
    } else {
      assert a == a - {x};
    }
    if x in b {
      assert b == (b - {x}) + {x};
    } else {
      assert b == b - {x};
    }
  }

  lemma Overwritten<K, V>(m: map<K, V>, k: K, v: V, v': V)
    ensures m[k := v][k := v'] == m[k := v']
  {
  }

  lemma HeadTail<T>(s: seq<T>)
    requires s != []
    ensures [s[0]] + s[1..] == s
  {
  }

  lemma SubsetCard<T>(a: set<T>, b: set<T>)
    requires a <= b
    ensures |a| <= |b|
    ensures |a| == |b| ==> a == b
  {
    assert b == a + (b - a);
    assert |b| == |a| + |b - a|;
  }
}
