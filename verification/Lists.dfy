/** Facts about lists without repetitions, used for peer lists and connection candidates. */
module Lists {
  import opened Common

  lemma DistinctConcat<T>(a: seq<T>, b: seq<T>)
    requires NoDuplicates(a) && NoDuplicates(b) && forall x :: x in a ==> x !in b
    ensures NoDuplicates(a + b)
  {
    forall i, j | 0 <= i < j < |a + b| ensures (a + b)[i] != (a + b)[j] {
      if i < |a| <= j {
        assert a[i] in a && b[j - |a|] in b;
      }
    }
  }

  /** Position of the first occurrence of `k`, or `|ks|`. */
  function IndexOf<T(==)>(ks: seq<T>, k: T): (i: nat)
    ensures i <= |ks| && k !in ks[..i] && (i < |ks| ==> ks[i] == k)
  {
    if ks == [] || ks[0] == k then 0
    else
      assert ks[..1 + IndexOf(ks[1..], k)] == [ks[0]] + ks[1..][..IndexOf(ks[1..], k)];
      1 + IndexOf(ks[1..], k)
  }

  function RemoveAt<T>(s: seq<T>, i: nat): seq<T> {
    if i < |s| then s[..i] + s[i + 1..] else s
  }

  /** The elements of `ks` that are not in `drop`, in order. */
  function Except<T(==, !new)>(ks: seq<T>, drop: seq<T>): (r: seq<T>)
    ensures forall x :: x in r <==> x in ks && x !in drop
  {
    if ks == [] then []
    else
      var rest := Except(ks[1..], drop);
      assert ks == [ks[0]] + ks[1..];
      if ks[0] in drop then rest else [ks[0]] + rest
  }

  /** The distinct elements of `ks`, the most recent first. */
  function MostRecentFirst<T(==, !new)>(ks: seq<T>): (r: seq<T>)
    ensures forall x :: x in r <==> x in ks
  {
    if ks == [] then []
    else
      var n := |ks| - 1;
      assert ks == ks[..n] + [ks[n]];
      [ks[n]] + Except(MostRecentFirst(ks[..n]), [ks[n]])
  }

  lemma {:induction false} ExceptKeepsDistinct<T(!new)>(ks: seq<T>, drop: seq<T>)
    requires NoDuplicates(ks)
    ensures NoDuplicates(Except(ks, drop))
    decreases |ks|
  {
    if ks != [] {
      assert NoDuplicates(ks[1..]) && ks[0] !in ks[1..];
      ExceptKeepsDistinct(ks[1..], drop);
    }
  }

  lemma {:induction false} MostRecentIsDistinct<T(!new)>(ks: seq<T>)
    ensures NoDuplicates(MostRecentFirst(ks))
    decreases |ks|
  {
    if ks != [] {
      var n := |ks| - 1;
      MostRecentIsDistinct(ks[..n]);
      ExceptKeepsDistinct(MostRecentFirst(ks[..n]), [ks[n]]);
      DistinctConcat([ks[n]], Except(MostRecentFirst(ks[..n]), [ks[n]]));
    }
  }

  lemma {:induction false} ExceptNothing<T(!new)>(ks: seq<T>, k: T)
    requires k !in ks
    ensures Except(ks, [k]) == ks
    decreases |ks|
  {
    if ks != [] {
      assert ks == [ks[0]] + ks[1..];
      ExceptNothing(ks[1..], k);
    }
  }

  lemma {:induction false} ExceptConcat<T(!new)>(a: seq<T>, b: seq<T>, drop: seq<T>)
    ensures Except(a + b, drop) == Except(a, drop) + Except(b, drop)
    decreases |a|
  {
    if a == [] {
      assert a + b == b;
    } else {
      assert (a + b)[1..] == a[1..] + b;
      ExceptConcat(a[1..], b, drop);
    }
  }

  lemma ExceptAround<T(!new)>(a: seq<T>, k: T, b: seq<T>)
    requires k !in a && k !in b
    ensures Except(a + ([k] + b), [k]) == a + b
  {
    ExceptConcat(a, [k] + b, [k]);
    ExceptNothing(a, k);
    ExceptNothing(b, k);
    assert ([k] + b)[1..] == b;
  }

  lemma NotLater<T>(ks: seq<T>, i: nat)
    requires NoDuplicates(ks) && i < |ks|
    ensures ks[i] !in ks[i + 1..]
  {
    var rest := ks[i + 1..];
    assert forall j :: 0 <= j < |rest| ==> rest[j] != ks[i];
  }

  lemma SplitAt<T>(ks: seq<T>, i: nat)
    requires i < |ks|
    ensures ks == ks[..i] + ([ks[i]] + ks[i + 1..])
  {
  }

  /** In a list without repetitions, removing the first occurrence removes the element. */
  lemma RemoveIsExcept<T(!new)>(ks: seq<T>, k: T)
    requires NoDuplicates(ks)
    ensures RemoveAt(ks, IndexOf(ks, k)) == Except(ks, [k])
  {
    var i := IndexOf(ks, k);
    if i < |ks| {
      NotLater(ks, i);
      ExceptAround(ks[..i], k, ks[i + 1..]);
      SplitAt(ks, i);
    } else {
      ExceptNothing(ks, k);
    }
  }

  lemma {:induction false} ExceptTwice<T(!new)>(ks: seq<T>, drop: seq<T>, k: T)
    ensures Except(Except(ks, drop), [k]) == Except(ks, drop + [k])
    decreases |ks|
  {
    if ks != [] {
      ExceptTwice(ks[1..], drop, k);
      var rest := Except(ks[1..], drop);
      assert ([ks[0]] + rest)[1..] == rest;
    }
  }

  lemma {:induction false} ExceptEmpty<T(!new)>(ks: seq<T>)
    ensures Except(ks, []) == ks
    decreases |ks|
  {
    if ks != [] {
      assert ks == [ks[0]] + ks[1..];
      ExceptEmpty(ks[1..]);
    }
  }

  lemma OrderIsDistinct<T(!new)>(heard: seq<T>, stored: seq<T>)
    requires NoDuplicates(stored)
    ensures NoDuplicates(MostRecentFirst(heard) + Except(stored, heard))
  {
    MostRecentIsDistinct(heard);
    ExceptKeepsDistinct(stored, heard);
    DistinctConcat(MostRecentFirst(heard), Except(stored, heard));
  }

  lemma {:induction false} DistinctCountsOnce<T>(s: seq<T>, x: T)
    requires NoDuplicates(s)
    ensures multiset(s)[x] <= 1
    decreases |s|
  {
    if s != [] {
      var n := |s| - 1;
      DistinctCountsOnce(s[..n], x);
      assert s == s[..n] + [s[n]];
      assert s[n] !in s[..n];
    }
  }

  lemma RepeatCountsTwice<T>(s: seq<T>, i: nat, j: nat)
    requires i < j < |s| && s[i] == s[j]
    ensures multiset(s)[s[i]] >= 2
  {
    assert s == s[..j] + [s[j]] + s[j + 1..];
    assert s[..j][i] in s[..j];
  }

  lemma MoreIsNotDistinct<T>(a: seq<T>, b: seq<T>)
    requires multiset(a) <= multiset(b) && NoDuplicates(b)
    ensures NoDuplicates(a)
  {
    forall i, j | 0 <= i < j < |a| ensures a[i] != a[j] {
      DistinctCountsOnce(b, a[i]);
      if a[i] == a[j] {
        RepeatCountsTwice(a, i, j);
        assert false;
      }
    }
  }

  lemma RemoveAtCounts<T>(s: seq<T>, i: nat)
    requires i < |s|
    ensures multiset([s[i]] + RemoveAt(s, i)) == multiset(s)
  {
    assert s == s[..i] + [s[i]] + s[i + 1..];
  }

  /** `d` followed by the elements of `s` that are new, each at its first occurrence. */
  function Extend<T(==)>(d: seq<T>, s: seq<T>): (r: seq<T>)
    ensures d <= r
    decreases |s|
  {
    if s == [] then d else Extend(if s[0] in d then d else d + [s[0]], s[1..])
  }

  lemma AddNew<T>(d: seq<T>, x: T) returns (more: seq<T>)
    requires NoDuplicates(d)
    ensures more == (if x in d then d else d + [x]) && NoDuplicates(more)
    ensures forall y :: y in more <==> y in d || y == x
  {
    more := if x in d then d else d + [x];
  }

  lemma {:induction false} ExtendIsDistinct<T>(d: seq<T>, s: seq<T>)
    requires NoDuplicates(d)
    ensures NoDuplicates(Extend(d, s))
    ensures forall x :: x in Extend(d, s) <==> x in d || x in s
    decreases |s|
  {
    if s != [] {
      var x, rest := s[0], s[1..];
      var more := AddNew(d, x);
      ExtendIsDistinct(more, rest);
      assert s == [x] + rest;
    }
  }

  lemma {:induction false} ExtendConcat<T>(d: seq<T>, a: seq<T>, b: seq<T>)
    ensures Extend(d, a + b) == Extend(Extend(d, a), b)
    decreases |a|
  {
    if a == [] {
      assert a + b == b;
    } else {
      assert (a + b)[1..] == a[1..] + b;
      ExtendConcat(if a[0] in d then d else d + [a[0]], a[1..], b);
    }
  }

  lemma {:induction false} ExtendByNothing<T>(d: seq<T>, s: seq<T>)
    requires forall x :: x in s ==> x in d
    ensures Extend(d, s) == d
    decreases |s|
  {
    if s != [] {
      assert s[0] in s;
      ExtendByNothing(d, s[1..]);
    }
  }

  lemma InRemoveAt<T>(s: seq<T>, i: nat, x: T) returns (j: nat)
    requires i < |s| && x in RemoveAt(s, i)
    ensures j < |s| && j != i && s[j] == x
  {
    var k :| 0 <= k < |s| - 1 && RemoveAt(s, i)[k] == x;
    j := if k < i then k else k + 1;
  }

  lemma PrefixSnoc<T>(s: seq<T>, n: nat)
    requires n < |s|
    ensures s[..n + 1] == s[..n] + [s[n]]
  {
  }

  lemma IndexOfIsUnique<T>(ks: seq<T>, k: T, i: nat)
    requires i <= |ks| && k !in ks[..i] && (i < |ks| ==> ks[i] == k)
    ensures i == IndexOf(ks, k)
  {
    assert IndexOf(ks, k) <= i;
  }

  /** An element elsewhere stays. */
  lemma RemoveAtKeeps<T>(s: seq<T>, i: nat, j: nat) returns (k: nat)
    requires i < |s| && j <= |s| && i != j
    ensures k < |RemoveAt(s, j)| && RemoveAt(s, j)[k] == s[i]
  {
    k := if i < j then i else i - 1;
  }
}
