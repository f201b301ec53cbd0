/** Filtering and counting on lists, as the graph loops use them. */
module Lists {
  import opened Factors
  import opened Order

  function Filter<T(!new)>(p: T -> bool, s: seq<T>): (r: seq<T>)
    ensures forall x :: x in r <==> x in s && p(x)
  {
    if s == [] then []
    else
      assert forall x :: x in s <==> x == s[0] || x in s[1..];
      (if p(s[0]) then [s[0]] else []) + Filter(p, s[1..])
  }

  /** `vs` without `v`, in order. */
  function Except(vs: seq<string>, v: string): (r: seq<string>)
    ensures forall u :: u in r <==> u in vs && u != v
    ensures NoDup(vs) ==> NoDup(r)
  {
    if vs == [] then []
    else
      var rest := Except(vs[1..], v);
      assert NoDup(vs) ==> NoDup(vs[1..]) && vs[0] !in vs[1..] by { if NoDup(vs) { NoDupTail(vs); } }
      if vs[0] == v then rest else [vs[0]] + rest
  }

  lemma Cancel<T>(r: multiset<T>, s: multiset<T>, t: multiset<T>, u: multiset<T>)
    requires r + s == t + u && s == u
    ensures r == t
  {
    assert r == (r + s) - s && t == (t + u) - u;
  }

  /** One step of a loop that collects what passes the filter. */
  lemma FilterStep<T(!new)>(p: T -> bool, done: seq<T>, rest: seq<T>)
    requires rest != []
    ensures done + Filter(p, rest) == (if p(rest[0]) then done + [rest[0]] else done) + Filter(p, rest[1..])
  {
    Associate(done, [rest[0]], Filter(p, rest[1..]));
    assert [] + Filter(p, rest[1..]) == Filter(p, rest[1..]);
  }

  lemma {:induction false} FilterCount<T(!new)>(p: T -> bool, s: seq<T>, x: T)
    ensures multiset(Filter(p, s))[x] == if p(x) then multiset(s)[x] else 0
  {
    if s != [] {
      FilterCount(p, s[1..], x);
      assert s == [s[0]] + s[1..];
    }
  }

  lemma FilterPermuted<T(!new)>(p: T -> bool, s: seq<T>, t: seq<T>)
    requires multiset(s) == multiset(t)
    ensures multiset(Filter(p, s)) == multiset(Filter(p, t))
  {
    forall x ensures multiset(Filter(p, s))[x] == multiset(Filter(p, t))[x] {
      FilterCount(p, s, x);
      FilterCount(p, t, x);
    }
  }

  lemma {:induction false} FilterFilter<T(!new)>(p: T -> bool, q: T -> bool, s: seq<T>)
    requires forall x :: p(x) ==> q(x)
    ensures Filter(p, Filter(q, s)) == Filter(p, s)
  {
    if s != [] {
      FilterFilter(p, q, s[1..]);
      FilterAppend(p, if q(s[0]) then [s[0]] else [], Filter(q, s[1..]));
      assert Filter(p, [s[0]]) == (if p(s[0]) then [s[0]] else []) + Filter(p, []);
    }
  }

  lemma {:induction false} FilterAppend<T(!new)>(p: T -> bool, s: seq<T>, t: seq<T>)
    ensures Filter(p, s + t) == Filter(p, s) + Filter(p, t)
  {
    if s == [] {
      assert s + t == t;
    } else {
      assert (s + t)[1..] == s[1..] + t;
      FilterAppend(p, s[1..], t);
      Associate(if p(s[0]) then [s[0]] else [], Filter(p, s[1..]), Filter(p, t));
    }
  }

  lemma FilterCons<T(!new)>(p: T -> bool, x: T, s: seq<T>)
    ensures Filter(p, [x] + s) == if p(x) then [x] + Filter(p, s) else Filter(p, s)
  {
    assert ([x] + s)[1..] == s;
  }

  lemma {:induction false} InsertStable<T(!new)>(less: (T, T) -> bool, p: T -> bool, x: T, s: seq<T>)
    requires forall y :: y in s && p(x) && p(y) ==> !less(y, x)
    ensures Filter(p, Order.Insert(less, x, s)) == Filter(p, [x] + s)
  {
    if s != [] && less(s[0], x) {
      var rest := s[1..];
      assert s == [s[0]] + rest && s[0] in s;
      InsertStable(less, p, x, rest);
      FilterCons(p, s[0], Order.Insert(less, x, rest));
      FilterCons(p, x, rest);
      FilterCons(p, s[0], rest);
      FilterCons(p, x, s);
    }
  }

  /** Sorting keeps the order of elements that tie. */
  lemma {:induction false} SortStable<T(!new)>(less: (T, T) -> bool, p: T -> bool, s: seq<T>)
    requires forall x, y :: p(x) && p(y) ==> !less(x, y)
    ensures Filter(p, Sort(less, s)) == Filter(p, s)
  {
    if s != [] {
      SortStable(less, p, s[1..]);
      InsertStable(less, p, s[0], Sort(less, s[1..]));
      FilterCons(p, s[0], Sort(less, s[1..]));
    }
  }

  /** A filter and its complement share out the list. */
  lemma FilterSplit<T(!new)>(p: T -> bool, q: T -> bool, s: seq<T>)
    requires forall x :: x in s ==> (p(x) <==> !q(x))
    ensures multiset(Filter(p, s)) + multiset(Filter(q, s)) == multiset(s)
  {
    forall x ensures (multiset(Filter(p, s)) + multiset(Filter(q, s)))[x] == multiset(s)[x] {
      FilterCount(p, s, x);
      FilterCount(q, s, x);
      assert x in s <==> x in multiset(s);
    }
  }

  function Image<T, U>(f: T -> U, s: seq<T>): (r: seq<U>)
    ensures |r| == |s| && forall i :: 0 <= i < |s| ==> r[i] == f(s[i])
  {
    seq(|s|, i requires 0 <= i < |s| => f(s[i]))
  }

  lemma ImageCons<T, U>(f: T -> U, x: T, s: seq<T>)
    ensures Image(f, [x] + s) == [f(x)] + Image(f, s)
  {
  }

  lemma {:induction false} InsertImage<T(!new)>(less: (T, T) -> bool, f: T -> T, x: T, s: seq<T>)
    requires forall y, z :: less(f(y), f(z)) == less(y, z)
    ensures Order.Insert(less, f(x), Image(f, s)) == Image(f, Order.Insert(less, x, s))
  {
    if s == [] || !less(s[0], x) {
      ImageCons(f, x, s);
    } else {
      InsertImage(less, f, x, s[1..]);
      assert Image(f, s)[1..] == Image(f, s[1..]);
      ImageCons(f, s[0], Order.Insert(less, x, s[1..]));
    }
  }

  /** Sorting commutes with a map that keeps the order. */
  lemma {:induction false} SortImage<T(!new)>(less: (T, T) -> bool, f: T -> T, s: seq<T>)
    requires forall y, z :: less(f(y), f(z)) == less(y, z)
    ensures Sort(less, Image(f, s)) == Image(f, Sort(less, s))
  {
    if s != [] {
      SortImage(less, f, s[1..]);
      assert Image(f, s)[1..] == Image(f, s[1..]);
      InsertImage(less, f, s[0], Sort(less, s[1..]));
    }
  }

  /** Sorting a sorted list changes nothing. */
  lemma {:induction false} SortFixed<T(!new)>(less: (T, T) -> bool, s: seq<T>)
    requires Sorted(less, s)
    ensures Sort(less, s) == s
  {
    if s != [] {
      SortFixed(less, s[1..]);
      assert s == [s[0]] + s[1..];
    }
  }

  lemma ImageSnoc<T, U>(f: T -> U, s: seq<T>, i: nat)
    requires i < |s|
    ensures Image(f, s[..i + 1]) == Image(f, s[..i]) + [f(s[i])]
  {
  }

  lemma {:induction false} NoDupMultiset<T>(s: seq<T>)
    requires NoDup(s)
    ensures multiset(s) == multiset(Elems(s))
  {
    if s != [] {
      NoDupTail(s);
      NoDupMultiset(s[1..]);
      assert s == [s[0]] + s[1..];
      assert Elems(s) == {s[0]} + Elems(s[1..]);
    }
  }

  lemma SameListing<T>(s: seq<T>, t: seq<T>)
    requires NoDup(s) && NoDup(t) && Elems(s) == Elems(t)
    ensures multiset(s) == multiset(t)
  {
    NoDupMultiset(s);
    NoDupMultiset(t);
  }

  lemma NoDupPermuted<T>(s: seq<T>, t: seq<T>)
    requires NoDup(s) && multiset(s) == multiset(t)
    ensures NoDup(t)
  {
    NoDupMultiset(s);
    forall i, j | 0 <= i < j < |t| ensures t[i] != t[j] {
      if t[i] == t[j] {
        TwicePresent(t, i, j);
      }
    }
  }

  lemma CountNoDup<T>(s: seq<T>)
    requires |Elems(s)| == |s|
    ensures NoDup(s)
  {
    forall i, j | 0 <= i < j < |s| ensures s[i] != s[j] {
      if s[i] == s[j] {
        var t := s[..i] + s[i + 1..];
        assert Elems(t) == Elems(s) by {
          assert t[j - 1] == s[j];
          assert forall x :: x in s <==> x in t || x == s[i];
        }
        ElemsAtMost(t);
      }
    }
  }

  lemma {:induction false} ElemsAtMost<T>(s: seq<T>)
    ensures |Elems(s)| <= |s|
  {
    if s != [] {
      ElemsAtMost(s[1..]);
      assert Elems(s) == Elems(s[1..]) + {s[0]};
    }
  }

  /** Sorting distinct names depends on the set of names only. */
  lemma SortStringsOfSet(s: seq<string>, t: seq<string>)
    requires NoDup(s) && NoDup(t) && Elems(s) == Elems(t)
    ensures SortStrings(s) == SortStrings(t)
  {
    SameListing(s, t);
    SortStringsCanonical(s, t);
  }

  lemma NoDupSorted(s: seq<string>)
    requires NoDup(s)
    ensures NoDup(SortStrings(s)) && Elems(SortStrings(s)) == Elems(s)
    ensures Sorted(Less, SortStrings(s))
  {
    var r := SortStrings(s);
    SortStringsCanonical(s, s);
    NoDupPermuted(s, r);
    forall x ensures x in r <==> x in s {
      InSame(r, s, x);
    }
  }

  lemma TwicePresent<T>(s: seq<T>, i: nat, j: nat)
    requires i < j < |s| && s[i] == s[j]
    ensures multiset(s)[s[i]] >= 2
  {
    assert s == s[..j] + [s[j]] + s[j + 1..];
    assert s[i] in s[..j];
    assert multiset(s) == multiset(s[..j]) + multiset{s[j]} + multiset(s[j + 1..]);
  }

  /** Some listing of a set. */
  ghost function Listing<T(!new)>(s: set<T>): (vs: seq<T>)
    ensures NoDup(vs) && Elems(vs) == s
  {
    if s == {} then []
    else
      var x :| x in s;
      var rest := Listing(s - {x});
      assert forall v :: v in [x] + rest <==> v == x || v in Elems(rest);
      [x] + rest
  }

  /** The elements of a set, sorted. */
  ghost function Sorting(s: set<string>): (vs: seq<string>)
    ensures NoDup(vs) && Elems(vs) == s
  {
    NoDupSorted(Listing(s));
    SortStrings(Listing(s))
  }

  lemma {:induction false} ElemsCount<T>(s: seq<T>)
    requires NoDup(s)
    ensures |Elems(s)| == |s|
  {
    if s != [] {
      NoDupTail(s);
      ElemsCount(s[1..]);
      assert Elems(s) == Elems(s[1..]) + {s[0]};
    }
  }

  lemma ElemsSnoc<T>(s: seq<T>, x: T)
    ensures Elems(s + [x]) == Elems(s) + {x}
  {
  }

  lemma {:induction false} SubsetCount<T>(a: set<T>, b: set<T>)
    requires a <= b
    ensures |a| <= |b|
    ensures |a| == |b| ==> a == b
  {
    if a != {} {
      var x :| x in a;
      SubsetCount(a - {x}, b - {x});
      assert a == (a - {x}) + {x} && b == (b - {x}) + {x};
    } else if b != {} {
      var y :| y in b;
      assert b == (b - {y}) + {y};
    }
  }

  lemma {:induction false} ImagePermuted<T, U>(f: T -> U, s: seq<T>, t: seq<T>)
    requires multiset(s) == multiset(t)
    ensures multiset(Image(f, s)) == multiset(Image(f, t))
    decreases |s|
  {
    if s == [] {
      assert |multiset(t)| == 0;
    } else {
      var n := |s| - 1;
      var i := MatchLast(s, t);
      ImagePermuted(f, s[..n], RemoveAt(t, i));
      assert Image(f, s) == Image(f, s[..n]) + [f(s[n])];
      var image := Image(f, t);
      assert Image(f, RemoveAt(t, i)) == image[..i] + image[i + 1..];
      assert image == image[..i] + [image[i]] + image[i + 1..];
    }
  }

  lemma {:induction false} ConcatMember<T>(ss: seq<seq<T>>, x: T)
    ensures x in Concat(ss) <==> exists i :: 0 <= i < |ss| && x in ss[i]
  {
    if ss != [] {
      ConcatMember(ss[1..], x);
      if x in Concat(ss[1..]) {
        var i :| 0 <= i < |ss[1..]| && x in ss[1..][i];
        assert x in ss[i + 1];
      }
      forall i | 0 <= i < |ss| && x in ss[i] ensures x in Concat(ss) {
        if i > 0 {
          assert x in ss[1..][i - 1];
        }
      }
    }
  }

  // ----- listing a set -----

  method KeysOf(names: set<string>) returns (ids: seq<string>)
    ensures NoDup(ids) && Elems(ids) == names
  {
    ids := [];
    var left := names;
    while left != {}
      invariant NoDup(ids) && left <= names && Elems(ids) == names - left
    {
      var x :| x in left;
      assert x !in Elems(ids);
      ElemsSnoc(ids, x);
      ids := ids + [x];
      left := left - {x};
    }
  }

  method SortedKeys(names: set<string>) returns (ids: seq<string>)
    ensures ids == Sorting(names)
  {
    var keys := KeysOf(names);
    SortStringsOfSet(keys, Listing(names));
    ids := SortStrings(keys);
  }
}
