/** LINQ `Where`, `First`, `FirstOrDefault` and `SelectMany` over in-memory snapshots. */
module Seqs {
  import opened Wrappers

  /** `s.Where(p)`: the elements of `s` that satisfy `p`, in their original order. */
  function Filter<T>(s: seq<T>, p: T -> bool): (r: seq<T>)
    ensures |r| <= |s|
    ensures forall i :: 0 <= i < |r| ==> r[i] in s && p(r[i])
    ensures forall i :: 0 <= i < |s| && p(s[i]) ==> s[i] in r
  {
    if s == [] then [] else (if p(s[0]) then [s[0]] else []) + Filter(s[1..], p)
  }

  /** `s.Where(p).First()` is the first element of `s` that satisfies `p`:
      it stands at some index `k` and no element before `k` satisfies `p`. */
  lemma {:induction false} FilterHead<T>(s: seq<T>, p: T -> bool)
    requires Filter(s, p) != []
    ensures exists k :: 0 <= k < |s| && s[k] == Filter(s, p)[0] && p(s[k]) &&
                        forall j :: 0 <= j < k ==> !p(s[j])
  {
    if p(s[0]) {
      assert s[0] == Filter(s, p)[0];
    } else {
      assert Filter(s, p) == Filter(s[1..], p);
      FilterHead(s[1..], p);
      var k :| 0 <= k < |s[1..]| && s[1..][k] == Filter(s[1..], p)[0] && p(s[1..][k]) &&
               forall j :: 0 <= j < k ==> !p(s[1..][j]);
      assert s[k + 1] == Filter(s, p)[0];
      forall j | 0 <= j < k + 1 ensures !p(s[j]) {
        if j > 0 { assert s[j] == s[1..][j - 1]; }
      }
    }
  }

  /** `s.Where(p).Any()` is false exactly when no element of `s` satisfies `p`. */
  lemma {:induction false} FilterEmpty<T>(s: seq<T>, p: T -> bool)
    ensures Filter(s, p) == [] <==> forall i :: 0 <= i < |s| ==> !p(s[i])
  {
    if s != [] {
      FilterEmpty(s[1..], p);
      if Filter(s, p) == [] {
        forall i | 0 <= i < |s| ensures !p(s[i]) {
          if i > 0 { assert s[i] == s[1..][i - 1]; }
        }
      }
    }
  }

  /** `s.FirstOrDefault(p)`: the first element that satisfies `p`, or null. */
  function Find<T>(s: seq<T>, p: T -> bool): (r: Option<T>)
    ensures r.None? <==> forall i :: 0 <= i < |s| ==> !p(s[i])
    ensures r.Some? ==> exists k :: 0 <= k < |s| && s[k] == r.value && p(s[k]) &&
                                    forall j :: 0 <= j < k ==> !p(s[j])
  {
    if s == [] then None
    else if p(s[0]) then Some(s[0])
    else
      var r := Find(s[1..], p);
      assert forall i :: 0 < i < |s| ==> s[i] == s[1..][i - 1];
      r
  }

  /** `SelectMany`: the inner sequences one after another. */
  function Flatten<T>(xss: seq<seq<T>>): seq<T> {
    if xss == [] then [] else xss[0] + Flatten(xss[1..])
  }

  /** Every element of the flattening comes from one of the inner sequences. */
  lemma {:induction false} FlattenSound<T>(xss: seq<seq<T>>)
    ensures forall n :: 0 <= n < |Flatten(xss)| ==> exists i :: 0 <= i < |xss| && Flatten(xss)[n] in xss[i]
  {
    if xss != [] {
      FlattenSound(xss[1..]);
      var rest := Flatten(xss[1..]);
      assert Flatten(xss) == xss[0] + rest;
      forall n | 0 <= n < |Flatten(xss)| ensures exists i :: 0 <= i < |xss| && Flatten(xss)[n] in xss[i] {
        if n < |xss[0]| {
          assert Flatten(xss)[n] == xss[0][n];
        } else {
          assert Flatten(xss)[n] == rest[n - |xss[0]|];
          var i :| 0 <= i < |xss[1..]| && rest[n - |xss[0]|] in xss[1..][i];
          assert xss[1..][i] == xss[i + 1];
        }
      }
    } else {
      assert Flatten(xss) == [];
    }
  }

  /** Every element of every inner sequence is in the flattening. */
  lemma {:induction false} FlattenComplete<T>(xss: seq<seq<T>>)
    ensures forall i, y :: 0 <= i < |xss| && y in xss[i] ==> y in Flatten(xss)
  {
    if xss != [] {
      FlattenComplete(xss[1..]);
      forall i, y | 0 <= i < |xss| && y in xss[i] ensures y in Flatten(xss) {
        if i > 0 {
          assert xss[1..][i - 1] == xss[i];
        }
      }
    }
  }
}
