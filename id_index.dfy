/** Dense indices for string ids: Python's `sorted(set(ids))` (code-point order) and
    the `{id: idx for idx, id in enumerate(...)}` dictionaries built from it, as in
    `preprocess_id_mapping` and the three recommenders' training. */
module IdIndex {

  /** Python's `<` on strings: lexicographic by code point, a proper prefix first. */
  predicate StrLt(a: string, b: string)
    decreases |a|
  {
    if |a| == 0 then |b| > 0
    else if |b| == 0 then false
    else if a[0] == b[0] then StrLt(a[1..], b[1..])
    else a[0] < b[0]
  }

  lemma {:induction false} StrLtIrreflexive(a: string)
    ensures !StrLt(a, a)
    decreases |a|
  {
    if |a| > 0 {
      StrLtIrreflexive(a[1..]);
    }
  }

  lemma {:induction false} StrLtTransitive(a: string, b: string, c: string)
    requires StrLt(a, b) && StrLt(b, c)
    ensures StrLt(a, c)
    decreases |a|
  {
    if |a| > 0 && a[0] == b[0] && b[0] == c[0] {
      StrLtTransitive(a[1..], b[1..], c[1..]);
    }
  }

  lemma {:induction false} StrLtTotal(a: string, b: string)
    requires a != b
    ensures StrLt(a, b) || StrLt(b, a)
    decreases |a|
  {
    if |a| > 0 && |b| > 0 && a[0] == b[0] {
      assert a == [a[0]] + a[1..] && b == [b[0]] + b[1..];
      StrLtTotal(a[1..], b[1..]);
    }
  }

  lemma {:induction false} StrLtAsymmetric(a: string, b: string)
    requires StrLt(a, b)
    ensures !StrLt(b, a)
  {
    if StrLt(b, a) {
      StrLtTransitive(a, b, a);
      StrLtIrreflexive(a);
    }
  }

  function Elems(s: seq<string>): set<string>
  {
    set x | x in s
  }

  /** Strictly increasing: sorted and without repeats. */
  predicate StrictlySorted(s: seq<string>)
  {
    forall i, j :: 0 <= i < j < |s| ==> StrLt(s[i], s[j])
  }

  /** `x` put in its place in a strictly sorted list, unless already there. */
  function Insert(x: string, s: seq<string>): (r: seq<string>)
    requires StrictlySorted(s)
    ensures StrictlySorted(r)
    ensures Elems(r) == Elems(s) + {x}
  {
    if |s| == 0 then [x]
    else if x == s[0] then s
    else if StrLt(x, s[0]) then
      InsertFront(x, s);
      [x] + s
    else
      var t := Insert(x, s[1..]);
      InsertAfter(x, s, t);
      [s[0]] + t
  }

  lemma InsertFront(x: string, s: seq<string>)
    requires StrictlySorted(s) && |s| > 0 && StrLt(x, s[0])
    ensures StrictlySorted([x] + s)
    ensures Elems([x] + s) == Elems(s) + {x}
  {
    var r := [x] + s;
    forall i, j | 0 <= i < j < |r|
      ensures StrLt(r[i], r[j])
    {
      if i == 0 && j > 1 {
        StrLtTransitive(x, s[0], s[j - 1]);
      }
    }
  }

  lemma InsertAfter(x: string, s: seq<string>, t: seq<string>)
    requires StrictlySorted(s) && |s| > 0 && x != s[0] && !StrLt(x, s[0])
    requires StrictlySorted(t) && Elems(t) == Elems(s[1..]) + {x}
    ensures StrictlySorted([s[0]] + t)
    ensures Elems([s[0]] + t) == Elems(s) + {x}
  {
    StrLtTotal(x, s[0]);
    var r := [s[0]] + t;
    assert Elems(r) == {s[0]} + Elems(t);
    assert s == [s[0]] + s[1..];
    assert Elems(s) == {s[0]} + Elems(s[1..]);
    forall i, j | 0 <= i < j < |r|
      ensures StrLt(r[i], r[j])
    {
      if i == 0 {
        assert r[j] in Elems(t);
        if r[j] != x {
          var k :| 0 <= k < |s[1..]| && s[1..][k] == r[j];
          assert s[k + 1] == r[j];
        }
      }
    }
  }

  /** `sorted(set(ids))`. */
  function SortedIds(ids: seq<string>): (r: seq<string>)
    ensures StrictlySorted(r)
    ensures Elems(r) == Elems(ids)
  {
    if |ids| == 0 then []
    else
      assert ids == [ids[0]] + ids[1..];
      Insert(ids[0], SortedIds(ids[1..]))
  }

  /** Two strictly sorted lists with the same elements are the same list. */
  lemma {:induction false} StrictlySortedUnique(a: seq<string>, b: seq<string>)
    requires StrictlySorted(a) && StrictlySorted(b) && Elems(a) == Elems(b)
    ensures a == b
    decreases |a|
  {
    if |a| > 0 {
      HeadsEqual(a, b);
      TailElems(a);
      TailElems(b);
      StrictlySortedUnique(a[1..], b[1..]);
      assert a == [a[0]] + a[1..] && b == [b[0]] + b[1..];
    } else if |b| > 0 {
      HeadsEqual(b, a);
    }
  }

  lemma HeadsEqual(a: seq<string>, b: seq<string>)
    requires StrictlySorted(a) && StrictlySorted(b) && Elems(a) == Elems(b) && |a| > 0
    ensures |b| > 0 && a[0] == b[0]
  {
    assert a[0] in Elems(b);
    var j :| 0 <= j < |b| && b[j] == a[0];
    assert b[0] in Elems(a);
    var i :| 0 <= i < |a| && a[i] == b[0];
    if i != 0 && j != 0 {
      StrLtAsymmetric(a[0], b[0]);
    }
  }

  lemma TailElems(a: seq<string>)
    requires StrictlySorted(a) && |a| > 0
    ensures Elems(a[1..]) == Elems(a) - {a[0]}
  {
    forall x | x in Elems(a[1..])
      ensures x != a[0]
    {
      var k :| 0 <= k < |a[1..]| && a[1..][k] == x;
      assert StrLt(a[0], a[k + 1]);
      StrLtIrreflexive(a[0]);
    }
    assert a == [a[0]] + a[1..];
  }

  /** The mapping depends only on the set of ids: row order and repeats do not matter. */
  lemma SortedIdsOrderIndependent(a: seq<string>, b: seq<string>)
    requires Elems(a) == Elems(b)
    ensures SortedIds(a) == SortedIds(b)
  {
    StrictlySortedUnique(SortedIds(a), SortedIds(b));
  }

  lemma StrictlySortedDistinct(s: seq<string>, i: int, j: int)
    requires StrictlySorted(s) && 0 <= i < |s| && 0 <= j < |s| && i != j
    ensures s[i] != s[j]
  {
    if i < j { StrLtIrreflexive(s[i]); } else { StrLtIrreflexive(s[j]); }
  }

  /** `{id: idx for idx, id in enumerate(s)}` for a list without repeats. */
  function ToIndex(s: seq<string>): (m: map<string, nat>)
    requires StrictlySorted(s)
    ensures m.Keys == Elems(s)
    ensures forall i :: 0 <= i < |s| ==> s[i] in m && m[s[i]] == i
  {
    forall i, j | 0 <= i < |s| && 0 <= j < |s| && i != j
      ensures s[i] != s[j]
    {
      StrictlySortedDistinct(s, i, j);
    }
    var m := map i | 0 <= i < |s| :: s[i] := i as nat;
    forall i | 0 <= i < |s|
      ensures s[i] in m && m[s[i]] == i
    {
      forall j | 0 <= j < |s| && j != i
        ensures s[j] != s[i]
      {
        StrictlySortedDistinct(s, i, j);
      }
    }
    m
  }

  /** `{idx: id for id, idx in to_index.items()}`. */
  function FromIndex(s: seq<string>): (m: map<nat, string>)
    ensures forall i: nat :: i in m <==> i < |s|
    ensures forall i :: 0 <= i < |s| ==> m[i] == s[i]
  {
    map i: nat | i < |s| :: s[i]
  }

  /** The two maps are inverse bijections between the ids and 0..n-1. */
  lemma IndexBijection(s: seq<string>)
    requires StrictlySorted(s)
    ensures forall id :: id in ToIndex(s) ==> ToIndex(s)[id] < |s| && FromIndex(s)[ToIndex(s)[id]] == id
    ensures forall i: nat :: i < |s| ==> FromIndex(s)[i] in ToIndex(s) && ToIndex(s)[FromIndex(s)[i]] == i
  {
    var to: map<string, nat> := ToIndex(s);
    forall id | id in to
      ensures to[id] < |s| && FromIndex(s)[to[id]] == id
    {
      var k :| 0 <= k < |s| && s[k] == id;
      assert to[s[k]] == k;
    }
  }
}
