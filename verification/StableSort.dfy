/**
 * The stable sort that `Array.prototype.sort` performs, for any comparator that
 * is a total preorder. The definition is an insertion sort; `StableSortIsUnique`
 * shows that every stable sorting algorithm returns the same sequence, so nothing
 * below depends on which one the JavaScript engine uses.
 */
module StableSort {

  ghost predicate TotalPreorder<T(!new)>(le: (T, T) -> bool) {
    && (forall x, y :: le(x, y) || le(y, x))
    && (forall x, y, z :: le(x, y) && le(y, z) ==> le(x, z))
  }

  ghost predicate Sorted<T>(le: (T, T) -> bool, s: seq<T>) {
    forall i, j | 0 <= i < j < |s| :: le(s[i], s[j])
  }

  /** Puts `x` before the first element that does not have to precede it. */
  function Insert<T>(le: (T, T) -> bool, x: T, s: seq<T>): seq<T> {
    if s == [] then [x]
    else if le(x, s[0]) then [x] + s
    else [s[0]] + Insert(le, x, s[1..])
  }

  function Sort<T>(le: (T, T) -> bool, s: seq<T>): seq<T> {
    if s == [] then [] else Insert(le, s[0], Sort(le, s[1..]))
  }

  /** The elements of `s` that the comparator cannot tell from `x`, in order. */
  function Class<T>(le: (T, T) -> bool, x: T, s: seq<T>): seq<T> {
    if s == [] then []
    else (if le(x, s[0]) && le(s[0], x) then [s[0]] else []) + Class(le, x, s[1..])
  }

  lemma {:induction false} InsertIsPermutation<T>(le: (T, T) -> bool, x: T, s: seq<T>)
    ensures multiset(Insert(le, x, s)) == multiset(s) + multiset{x}
  {
    if s != [] {
      assert s == [s[0]] + s[1..];
      if !le(x, s[0]) {
        InsertIsPermutation(le, x, s[1..]);
      }
    }
  }

  lemma {:induction false} SortIsPermutation<T>(le: (T, T) -> bool, s: seq<T>)
    ensures multiset(Sort(le, s)) == multiset(s)
    ensures |Sort(le, s)| == |s|
  {
    if s != [] {
      SortIsPermutation(le, s[1..]);
      InsertIsPermutation(le, s[0], Sort(le, s[1..]));
      assert s == [s[0]] + s[1..];
    }
    assert |multiset(Sort(le, s))| == |Sort(le, s)|;
    assert |multiset(s)| == |s|;
  }

  lemma {:induction false} InsertIsSorted<T(!new)>(le: (T, T) -> bool, x: T, s: seq<T>)
    requires TotalPreorder(le) && Sorted(le, s)
    ensures Sorted(le, Insert(le, x, s))
  {
    if s != [] && !le(x, s[0]) {
      var rest := Insert(le, x, s[1..]);
      InsertIsSorted(le, x, s[1..]);
      InsertIsPermutation(le, x, s[1..]);
      forall y | y in rest
        ensures le(s[0], y)
      {
        assert y in multiset(rest);
        assert y == x || y in multiset(s[1..]);
      }
    }
  }

  lemma {:induction false} SortIsSorted<T(!new)>(le: (T, T) -> bool, s: seq<T>)
    requires TotalPreorder(le)
    ensures Sorted(le, Sort(le, s))
  {
    if s != [] {
      SortIsSorted(le, s[1..]);
      InsertIsSorted(le, s[0], Sort(le, s[1..]));
    }
  }

  lemma {:induction false} InsertIsStable<T(!new)>(le: (T, T) -> bool, x: T, s: seq<T>, y: T)
    requires TotalPreorder(le)
    ensures Class(le, y, Insert(le, x, s)) == Class(le, y, [x] + s)
  {
    assert ([x] + s)[1..] == s;
    if s != [] && !le(x, s[0]) {
      InsertIsStable(le, x, s[1..], y);
      assert ([x] + s[1..])[1..] == s[1..];
      assert Insert(le, x, s)[1..] == Insert(le, x, s[1..]);
      // x and s[0] differ in rank, so at most one of them belongs to the class of y
      assert !(le(x, y) && le(y, s[0]));
    }
  }

  /** Equal elements keep their input order. */
  lemma {:induction false} SortIsStable<T(!new)>(le: (T, T) -> bool, s: seq<T>, y: T)
    requires TotalPreorder(le)
    ensures Class(le, y, Sort(le, s)) == Class(le, y, s)
  {
    if s != [] {
      SortIsStable(le, s[1..], y);
      InsertIsStable(le, s[0], Sort(le, s[1..]), y);
      var t := [s[0]] + Sort(le, s[1..]);
      assert t[1..] == Sort(le, s[1..]);
    }
  }

  lemma {:induction false} ClassMembers<T>(le: (T, T) -> bool, x: T, s: seq<T>)
    ensures forall y :: y in Class(le, x, s) <==> y in s && le(x, y) && le(y, x)
  {
    if s != [] {
      ClassMembers(le, x, s[1..]);
      assert s == [s[0]] + s[1..];
    }
  }

  lemma {:induction false} SortedWithEqualClasses<T(!new)>(le: (T, T) -> bool, s: seq<T>, t: seq<T>)
    requires TotalPreorder(le) && Sorted(le, s) && Sorted(le, t)
    requires forall x :: Class(le, x, s) == Class(le, x, t)
    ensures s == t
  {
    if t != [] {
      ClassMembers(le, t[0], t);
      assert t[0] in Class(le, t[0], t);
      assert Class(le, t[0], t) == Class(le, t[0], s);
    }
    if s != [] {
      ClassMembers(le, s[0], s);
      ClassMembers(le, s[0], t);
      assert s[0] in Class(le, s[0], s);
      assert s[0] in t;
      ClassMembers(le, t[0], s);
      ClassMembers(le, t[0], t);
      assert t[0] in Class(le, t[0], t);
      assert t[0] in s;
      assert le(s[0], t[0]) && le(t[0], s[0]);
      assert Class(le, s[0], s)[0] == s[0] && Class(le, s[0], t)[0] == t[0];
      assert s[0] == t[0];
      forall x
        ensures Class(le, x, s[1..]) == Class(le, x, t[1..])
      {
        assert Class(le, x, s) == Class(le, x, t);
        if le(x, s[0]) && le(s[0], x) {
          assert Class(le, x, s)[1..] == Class(le, x, s[1..]);
          assert Class(le, x, t)[1..] == Class(le, x, t[1..]);
        } else {
          assert Class(le, x, s) == Class(le, x, s[1..]);
          assert Class(le, x, t) == Class(le, x, t[1..]);
        }
      }
      SortedWithEqualClasses(le, s[1..], t[1..]);
    }
  }

  /** Any sorted rearrangement that keeps equal elements in order is `Sort(le, s)`. */
  lemma {:induction false} StableSortIsUnique<T(!new)>(le: (T, T) -> bool, s: seq<T>, t: seq<T>)
    requires TotalPreorder(le) && Sorted(le, t)
    requires forall x :: Class(le, x, t) == Class(le, x, s)
    ensures t == Sort(le, s)
  {
    SortIsSorted(le, s);
    forall x
      ensures Class(le, x, Sort(le, s)) == Class(le, x, t)
    {
      SortIsStable(le, s, x);
    }
    SortedWithEqualClasses(le, Sort(le, s), t);
  }

  /** Two sorted rearrangements of the same elements agree when no two elements tie. */
  lemma {:induction false} SortedIsUnique<T(!new)>(le: (T, T) -> bool, s: seq<T>, t: seq<T>)
    requires TotalPreorder(le) && Sorted(le, s) && Sorted(le, t)
    requires multiset(s) == multiset(t)
    requires forall x, y | x in s && y in s && le(x, y) && le(y, x) :: x == y
    ensures s == t
  {
    assert |s| == |multiset(s)| == |multiset(t)| == |t|;
    if s != [] {
      HeadsAgree(le, s, t);
      TailsAgree(s, t);
      SortedIsUnique(le, s[1..], t[1..]);
    }
  }

  lemma TailsAgree<T>(s: seq<T>, t: seq<T>)
    requires s != [] && t != [] && s[0] == t[0] && multiset(s) == multiset(t)
    ensures multiset(s[1..]) == multiset(t[1..])
  {
    assert s == [s[0]] + s[1..] && t == [t[0]] + t[1..];
    assert multiset(s[1..]) == multiset(s) - multiset{s[0]};
    assert multiset(t[1..]) == multiset(t) - multiset{t[0]};
  }

  lemma HeadsAgree<T(!new)>(le: (T, T) -> bool, s: seq<T>, t: seq<T>)
    requires TotalPreorder(le) && Sorted(le, s) && Sorted(le, t) && s != [] && t != []
    requires multiset(s) == multiset(t)
    requires forall x, y | x in s && y in s && le(x, y) && le(y, x) :: x == y
    ensures s[0] == t[0]
  {
    assert s[0] in multiset(t) && t[0] in multiset(s);
    assert le(s[0], t[0]) && le(t[0], s[0]);
  }

}
