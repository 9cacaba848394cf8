/** Option and Result, the two failure-carrying shapes used across the model. */
module Wrappers {

  datatype Option<+T> = None | Some(value: T) {
    function GetOr(default: T): T {
      match this
      case Some(v) => v
      case None => default
    }
  }

  datatype Result<+R, +E> = Ok(value: R) | Err(error: E)
}

/** Regrouping facts about sequence concatenation, stated once for any element type. */
module Seqs {
  lemma AppendAssoc<T>(a: seq<T>, b: seq<T>, c: seq<T>)
    ensures a + b + c == a + (b + c)
  {
  }

  /** A sequence is its prefix, a middle slice and the rest. */
  lemma SplitThree<T>(s: seq<T>, k: nat, m: nat)
    requires k <= |s| && m <= |s| - k
    ensures s == s[..k] + s[k..][..m] + s[k..][m..]
  {
    assert s[k..] == s[k..][..m] + s[k..][m..];
    assert s == s[..k] + s[k..];
  }

  lemma Pair<T>(x: T, y: T)
    ensures [] + [x] + [y] == [x, y]
  {
  }

  lemma PrefixOfAppend<T>(a: seq<T>, x: T, y: T)
    ensures |a + [x] + [y]| == |a| + 2 && (a + [x] + [y])[..|a|] == a
    ensures (a + [x] + [y])[|a|] == x && (a + [x] + [y])[|a| + 1] == y
  {
    assert (a + [x] + [y])[..|a|] == a;
  }
}
