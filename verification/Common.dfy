/** Small shared vocabulary: optional values, machine integer widths and a
    few sequence helpers. */
module Common {

  datatype Option<+T> = None | Some(value: T)

  type u32 = n: int | 0 <= n < 0x1_0000_0000
  type u64 = n: int | 0 <= n < 0x1_0000_0000_0000_0000

  function Min(a: nat, b: nat): nat {
    if a <= b then a else b
  }

  /** Rust's `saturating_sub` on unsigned integers. */
  function SaturatingSub(a: nat, b: nat): nat {
    if a >= b then a - b else 0
  }

  function Reverse<T>(s: seq<T>): (r: seq<T>)
    ensures |r| == |s|
  {
    if s == [] then [] else [s[|s| - 1]] + Reverse(s[..|s| - 1])
  }

  lemma ReversePush<T>(s: seq<T>, x: T)
    ensures Reverse(s + [x]) == [x] + Reverse(s)
  {
    assert (s + [x])[..|s|] == s;
  }

  /** Distinct elements that all occur in b are no more than b has places. */
  lemma {:induction false} DistinctFits<T>(a: seq<T>, b: seq<T>)
    requires forall i, j :: 0 <= i < j < |a| ==> a[i] != a[j]
    requires forall i :: 0 <= i < |a| ==> a[i] in b
    ensures |a| <= |b|
  {
    if a != [] {
      var front, last := a[..|a| - 1], a[|a| - 1];
      var k :| 0 <= k < |b| && b[k] == last;
      var rest := b[..k] + b[k + 1..];
      forall i | 0 <= i < |front| ensures front[i] in rest {
        assert a[i] in b && a[i] != last;
        var j :| 0 <= j < |b| && b[j] == a[i];
        assert rest[if j < k then j else j - 1] == a[i];
      }
      DistinctFits(front, rest);
    }
  }
}
