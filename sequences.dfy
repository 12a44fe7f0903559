/** Order-preserving selection and concatenation over sequences: the shape of
    every `for item in ...: if ...: xs.append(...)` loop in the core, and of
    every `s += piece` loop of the report renderer. */
module Sequences {
  import opened Wrappers

  /** The values `pick` selects from `s`, in order, duplicates kept. */
  function Collect<A, T>(s: seq<A>, pick: A -> Option<T>): (r: seq<T>)
    ensures |r| <= |s|
  {
    if s == [] then []
    else (match pick(s[0]) case Some(x) => [x] case None => []) + Collect(s[1..], pick)
  }

  /** Selection commutes with concatenation: it never reorders across a split. */
  lemma {:induction false} CollectAppend<A, T>(a: seq<A>, b: seq<A>, pick: A -> Option<T>)
    ensures Collect(a + b, pick) == Collect(a, pick) + Collect(b, pick)
  {
    if a == [] {
      assert a + b == b;
    } else {
      assert (a + b)[0] == a[0];
      assert (a + b)[1..] == a[1..] + b;
      CollectAppend(a[1..], b, pick);
    }
  }

  /** The one-element step a loop takes. */
  lemma CollectSnoc<A, T>(s: seq<A>, a: A, pick: A -> Option<T>)
    ensures Collect(s + [a], pick) ==
            Collect(s, pick) + (match pick(a) case Some(x) => [x] case None => [])
  {
    CollectAppend(s, [a], pick);
    assert [a][1..] == [];
  }

  /** A value is selected exactly when some element of `s` yields it. */
  lemma {:induction false} CollectMembership<A, T>(s: seq<A>, pick: A -> Option<T>, x: T)
    ensures x in Collect(s, pick) <==> exists k :: 0 <= k < |s| && pick(s[k]) == Some(x)
  {
    if s != [] {
      CollectMembership(s[1..], pick, x);
      if x in Collect(s, pick) && pick(s[0]) != Some(x) {
        assert x in Collect(s[1..], pick);
        var k :| 0 <= k < |s[1..]| && pick(s[1..][k]) == Some(x);
        assert pick(s[k + 1]) == Some(x);
      }
      if exists k :: 0 <= k < |s| && pick(s[k]) == Some(x) {
        var k :| 0 <= k < |s| && pick(s[k]) == Some(x);
        if k > 0 {
          assert pick(s[1..][k - 1]) == Some(x);
        }
      }
    }
  }

  /** Nothing is dropped exactly when every element is selected. */
  lemma {:induction false} CollectKeepsAll<A, T>(s: seq<A>, pick: A -> Option<T>)
    ensures |Collect(s, pick)| == |s| <==> forall k :: 0 <= k < |s| ==> pick(s[k]).Some?
  {
    if s != [] {
      CollectKeepsAll(s[1..], pick);
      if forall k :: 0 <= k < |s| ==> pick(s[k]).Some? {
        forall k | 0 <= k < |s[1..]| ensures pick(s[1..][k]).Some? {
          assert s[1..][k] == s[k + 1];
        }
      }
      if pick(s[0]).Some? && |Collect(s[1..], pick)| == |s[1..]| {
        forall k | 0 <= k < |s| ensures pick(s[k]).Some? {
          if k > 0 { assert s[k] == s[1..][k - 1]; }
        }
      }
    }
  }

  /** Concatenation of all the pieces, in order. */
  function Concat<T>(parts: seq<seq<T>>): seq<T>
  {
    if parts == [] then [] else parts[0] + Concat(parts[1..])
  }

  lemma {:induction false} ConcatAppend<T>(a: seq<seq<T>>, b: seq<seq<T>>)
    ensures Concat(a + b) == Concat(a) + Concat(b)
  {
    if a == [] {
      assert a + b == b;
    } else {
      assert (a + b)[0] == a[0];
      assert (a + b)[1..] == a[1..] + b;
      ConcatAppend(a[1..], b);
    }
  }

  /** Piece `i` sits, whole, between the pieces before it and the pieces after it. */
  lemma {:induction false} ConcatAt<T>(parts: seq<seq<T>>, i: nat)
    requires i < |parts|
    ensures Concat(parts) == Concat(parts[..i]) + parts[i] + Concat(parts[i + 1..])
  {
    ConcatSnoc(parts, i);
    assert parts == parts[..i + 1] + parts[i + 1..];
    ConcatAppend(parts[..i + 1], parts[i + 1..]);
  }

  /** The step a `+=` loop takes. */
  lemma {:induction false} ConcatSnoc<T>(parts: seq<seq<T>>, i: nat)
    requires i < |parts|
    ensures Concat(parts[..i + 1]) == Concat(parts[..i]) + parts[i]
  {
    assert parts[..i + 1] == parts[..i] + [parts[i]];
    ConcatAppend(parts[..i], [parts[i]]);
    assert Concat([parts[i]]) == parts[i] + Concat([parts[i]][1..]);
    assert [parts[i]][1..] == [];
  }
}
