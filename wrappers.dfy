/**
 * Optional values, used where the source has a "not found" or "not present"
 * case, and a fact about sequences the proofs share.
 */
module Wrappers {
  datatype Option<T> = None | Some(value: T)
  {
    function GetOr(default: T): T
    {
      match this
      case None => default
      case Some(v) => v
    }
  }

  /** Concatenation is associative; stated once so that proofs can regroup appended chunks cheaply. */
  lemma AppendAssoc<T>(a: seq<T>, b: seq<T>, c: seq<T>)
    ensures a + b + c == a + (b + c)
  {
  }

  /** A prefix one element longer is the shorter prefix and that element. */
  lemma PrefixSnoc<T>(s: seq<T>, k: nat)
    requires k < |s|
    ensures s[..k + 1] == s[..k] + [s[k]]
  {
  }

  /** A concatenation splits back into its two parts. */
  lemma AppendSplit<T>(w: seq<T>, x: seq<T>)
    ensures |w + x| == |w| + |x| && (w + x)[..|w|] == w && (w + x)[|w|..] == x
  {
  }
}
