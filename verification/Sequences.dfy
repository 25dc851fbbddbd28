/** Sequences of distinct nodes, as the links of a chain represent them. */
module Sequences {

  ghost predicate Distinct<T>(s: seq<T>)
  {
    forall i, j :: 0 <= i < j < |s| ==> s[i] != s[j]
  }

  ghost function Without<T>(s: seq<T>, k: nat): (r: seq<T>)
    requires k < |s|
    ensures |r| == |s| - 1 && forall i :: 0 <= i < |r| ==> r[i] == s[if i < k then i else i + 1]
  {
    s[..k] + s[k + 1..]
  }

  lemma WithoutDistinct<T>(s: seq<T>, k: nat)
    requires k < |s| && Distinct(s)
    ensures Distinct(Without(s, k))
  {
  }

  /** Exactly the removed element is no longer a member. */
  lemma WithoutMembers<T>(s: seq<T>, k: nat)
    requires k < |s| && Distinct(s)
    ensures forall n :: n in Without(s, k) <==> n in s && n != s[k]
  {
    forall n | n in s && n != s[k] ensures n in Without(s, k) {
      var i :| 0 <= i < |s| && s[i] == n;
      assert Without(s, k)[if i < k then i else i - 1] == n;
    }
    forall n | n in Without(s, k) ensures n in s && n != s[k] {
      var i :| 0 <= i < |s| - 1 && Without(s, k)[i] == n;
    }
  }
}
