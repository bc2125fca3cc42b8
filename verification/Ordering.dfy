// Python's order on strings, and the sorted sequence of a finite set of identifiers.

module Ordering {

  /** Lexicographic order by code point. */
  predicate Less(a: string, b: string)
  {
    b != [] && (a == [] || a[0] < b[0] || (a[0] == b[0] && Less(a[1..], b[1..])))
  }

  /** The two strings agree up to position k, where b has the larger character. */
  predicate LargerAt(a: string, b: string, k: nat)
  {
    k < |a| && k < |b| && a[..k] == b[..k] && a[k] < b[k]
  }

  /** a comes before b exactly if b extends a, or b has the larger character at the first difference. */
  lemma {:induction false} LessMeaning(a: string, b: string)
    ensures Less(a, b) <==> a < b || exists k: nat :: LargerAt(a, b, k)
  {
    if a != [] && b != [] && a[0] == b[0] {
      LessMeaning(a[1..], b[1..]);
      assert a == [a[0]] + a[1..] && b == [b[0]] + b[1..];
      assert a < b <==> a[1..] < b[1..];
      forall k: nat | LargerAt(a[1..], b[1..], k) ensures LargerAt(a, b, k + 1) { ShiftedByOne(a, b, k); }
      forall k: nat | LargerAt(a, b, k) ensures k > 0 && LargerAt(a[1..], b[1..], k - 1) { ShiftedByOne(a, b, k - 1); }
    } else if a != [] && b != [] && a[0] < b[0] {
      assert LargerAt(a, b, 0);
    }
  }

  lemma ShiftedByOne(a: string, b: string, k: nat)
    requires a != [] && b != [] && a[0] == b[0]
    ensures LargerAt(a, b, k + 1) <==> LargerAt(a[1..], b[1..], k)
  {
    if k + 1 < |a| && k + 1 < |b| {
      assert a[..k + 1] == [a[0]] + a[1..][..k] && b[..k + 1] == [b[0]] + b[1..][..k];
    }
  }

  lemma {:induction false} LessIrreflexive(a: string)
    ensures !Less(a, a)
  {
    if a != [] {
      LessIrreflexive(a[1..]);
    }
  }

  lemma {:induction false} LessTransitive(a: string, b: string, c: string)
    requires Less(a, b) && Less(b, c)
    ensures Less(a, c)
  {
    if a != [] && a[0] == b[0] && b[0] == c[0] {
      LessTransitive(a[1..], b[1..], c[1..]);
    }
  }

  lemma {:induction false} LessTotal(a: string, b: string)
    ensures Less(a, b) || Less(b, a) || a == b
  {
    if a != [] && b != [] && a[0] == b[0] {
      LessTotal(a[1..], b[1..]);
      if a[1..] == b[1..] {
        assert a == [a[0]] + a[1..] && b == [b[0]] + b[1..];
      }
    }
  }

  predicate IsLeast(m: string, ids: set<string>)
  {
    m in ids && forall x :: x in ids && x != m ==> Less(m, x)
  }

  lemma {:induction false} LeastExists(ids: set<string>)
    requires ids != {}
    ensures exists m :: m in ids && IsLeast(m, ids)
    decreases |ids|
  {
    var x :| x in ids;
    var rest := ids - {x};
    if rest == {} {
      assert ids == {x};
      assert IsLeast(x, ids);
    } else {
      LeastExists(rest);
      var m :| m in rest && IsLeast(m, rest);
      assert ids == rest + {x};
      LessTotal(x, m);
      if Less(x, m) {
        forall y | y in ids && y != x ensures Less(x, y) {
          if y != m { LessTransitive(x, m, y); }
        }
        assert IsLeast(x, ids);
      } else {
        assert IsLeast(m, ids);
      }
    }
  }

  ghost predicate Ascending(s: seq<string>)
  {
    forall i, j :: 0 <= i < j < |s| ==> Less(s[i], s[j])
  }

  /** `sorted(ids)`: the one ascending sequence that holds exactly the given identifiers. */
  ghost function Sorted(ids: set<string>): (r: seq<string>)
    ensures Ascending(r)
    ensures forall x :: x in r <==> x in ids
    ensures |r| == |ids|
    decreases |ids|
  {
    if ids == {} then []
    else
      LeastExists(ids);
      var m :| m in ids && IsLeast(m, ids);
      var rest := Sorted(ids - {m});
      assert forall i :: 0 <= i < |rest| ==> rest[i] in rest;
      [m] + rest
  }

  lemma TailMembers(s: seq<string>)
    requires Ascending(s) && s != []
    ensures forall x :: x in s[1..] <==> x in s && x != s[0]
  {
    LessIrreflexive(s[0]);
    assert s == [s[0]] + s[1..];
    assert forall i :: 0 < i < |s| ==> Less(s[0], s[i]);
  }

  /** Two ascending sequences with the same members are equal, so any way of sorting gives `Sorted`. */
  lemma {:induction false} AscendingUnique(s: seq<string>, t: seq<string>)
    requires Ascending(s) && Ascending(t)
    requires forall x :: x in s <==> x in t
    ensures s == t
  {
    if s != [] { assert s[0] in t; }
    if t != [] { assert t[0] in s; }
    if s == [] {
      return;
    }
    assert s[0] in t && t[0] in s;
    if s[0] != t[0] {
      var i :| 0 <= i < |t| && t[i] == s[0];
      var j :| 0 <= j < |s| && s[j] == t[0];
      LessTransitive(s[0], t[0], s[0]);
      LessIrreflexive(s[0]);
    }
    TailMembers(s);
    TailMembers(t);
    AscendingUnique(s[1..], t[1..]);
  }

  lemma SortedStep(ids: set<string>, m: string)
    requires IsLeast(m, ids)
    ensures Sorted(ids) == [m] + Sorted(ids - {m})
  {
    var tail := Sorted(ids - {m});
    assert forall i :: 0 <= i < |tail| ==> tail[i] in tail;
    AscendingUnique(Sorted(ids), [m] + tail);
  }

  /** The values of a table in the order of their keys, as the store's list operations return them. */
  ghost function Listed<V>(table: map<string, V>): seq<V>
  {
    var ids := Sorted(table.Keys);
    assert forall i :: 0 <= i < |ids| ==> ids[i] in ids;
    seq(|ids|, i requires 0 <= i < |ids| => table[ids[i]])
  }

  lemma ListedAt<V>(table: map<string, V>)
    ensures |Listed(table)| == |table| == |Sorted(table.Keys)|
    ensures forall i :: 0 <= i < |Sorted(table.Keys)| ==>
      Sorted(table.Keys)[i] in table && Listed(table)[i] == table[Sorted(table.Keys)[i]]
  {
    var ids := Sorted(table.Keys);
    assert |ids| == |table.Keys|;
    assert forall i :: 0 <= i < |ids| ==> ids[i] in ids;
  }

  lemma ListedMembers<V>(table: map<string, V>)
    ensures forall k :: k in table ==> table[k] in Listed(table)
    ensures forall v :: v in Listed(table) ==> exists k :: k in table && table[k] == v
  {
    ListedAt(table);
    var ids := Sorted(table.Keys);
    forall k | k in table ensures table[k] in Listed(table) {
      assert k in ids;
      var i :| 0 <= i < |ids| && ids[i] == k;
      assert Listed(table)[i] == table[k];
    }
  }

  lemma SortedDistinct(ids: set<string>, i: nat, j: nat)
    requires i < j < |Sorted(ids)|
    ensures Sorted(ids)[i] != Sorted(ids)[j]
  {
    LessIrreflexive(Sorted(ids)[i]);
  }

  lemma SortedFresh(ids: set<string>, i: nat)
    requires i < |Sorted(ids)|
    ensures Sorted(ids)[i] !in Sorted(ids)[..i]
  {
    forall j | 0 <= j < i ensures Sorted(ids)[j] != Sorted(ids)[i] { SortedDistinct(ids, j, i); }
  }

  /** Python's `sorted` over the keys of a table. */
  method SortKeys(ids: set<string>) returns (sorted: seq<string>)
    ensures sorted == Sorted(ids)
  {
    hide Sorted, IsLeast;
    sorted := [];
    var rest := ids;
    while rest != {}
      invariant sorted + Sorted(rest) == Sorted(ids)
      decreases |rest|
    {
      LeastExists(rest);
      var m :| m in rest && IsLeast(m, rest);
      SortedStep(rest, m);
      assert (sorted + [m]) + Sorted(rest - {m}) == sorted + ([m] + Sorted(rest - {m}));
      sorted := sorted + [m];
      rest := rest - {m};
    }
    assert |Sorted({})| == 0;
  }

  method ListTable<V>(table: map<string, V>) returns (values: seq<V>)
    ensures values == Listed(table)
  {
    var ids := SortKeys(table.Keys);
    values := [];
    for i := 0 to |ids|
      invariant |values| == i
      invariant forall j :: 0 <= j < i ==> ids[j] in table && values[j] == table[ids[j]]
    {
      assert ids[i] in ids;
      values := values + [table[ids[i]]];
    }
    assert |ids| == |table.Keys|;
  }
}
