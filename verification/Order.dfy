/** Lexicographic string order and stable sorting: what `sorted`,
`sort.Strings` and `sort.Slice` promise.  A sort by a strict total order is a
function of the multiset of its input, which is where the determinism claims
of the source come from. */
module Order {

  predicate Less(s: string, t: string) {
    t != [] && (s == [] || s[0] < t[0] || (s[0] == t[0] && Less(s[1..], t[1..])))
  }

  lemma {:induction false} LessTransitive(s: string, t: string, u: string)
    requires Less(s, t) && Less(t, u)
    ensures Less(s, u)
  {
    if s != [] && s[0] == t[0] && t[0] == u[0] {
      LessTransitive(s[1..], t[1..], u[1..]);
    }
  }

  lemma {:induction false} LessIrreflexive(s: string)
    ensures !Less(s, s)
  {
    if s != [] {
      LessIrreflexive(s[1..]);
    }
  }

  lemma {:induction false} LessTotal(s: string, t: string)
    ensures s == t || Less(s, t) || Less(t, s)
  {
    if s != [] && t != [] && s[0] == t[0] {
      LessTotal(s[1..], t[1..]);
      assert s == [s[0]] + s[1..] && t == [t[0]] + t[1..];
    }
  }

  // ----- stable sorting -----

  /** A strict order that is total between the elements of `s`. */
  ghost predicate StrictOn<T(!new)>(less: (T, T) -> bool, s: multiset<T>) {
    && (forall x :: !less(x, x))
    && (forall x, y, z :: less(x, y) && less(y, z) ==> less(x, z))
    && (forall x, y :: x in s && y in s && x != y ==> less(x, y) || less(y, x))
  }

  /** A strict order whose incomparability is transitive. */
  ghost predicate StrictWeak<T(!new)>(less: (T, T) -> bool) {
    && (forall x :: !less(x, x))
    && (forall x, y, z :: less(x, y) && less(y, z) ==> less(x, z))
    && (forall x, y, z :: less(x, z) ==> less(x, y) || less(y, z))
  }

  function Insert<T>(less: (T, T) -> bool, x: T, s: seq<T>): (r: seq<T>)
    ensures multiset(r) == multiset([x]) + multiset(s)
    ensures |r| == |s| + 1
  {
    if s == [] || !less(s[0], x) then [x] + s
    else
      assert s == [s[0]] + s[1..];
      [s[0]] + Insert(less, x, s[1..])
  }

  function Sort<T>(less: (T, T) -> bool, s: seq<T>): (r: seq<T>)
    ensures multiset(r) == multiset(s)
    ensures |r| == |s|
  {
    if s == [] then []
    else
      assert s == [s[0]] + s[1..];
      Insert(less, s[0], Sort(less, s[1..]))
  }

  ghost predicate Sorted<T>(less: (T, T) -> bool, s: seq<T>) {
    forall i, j :: 0 <= i < j < |s| ==> !less(s[j], s[i])
  }

  lemma InSame<T>(s: seq<T>, t: seq<T>, x: T)
    requires multiset(s) == multiset(t)
    ensures x in s <==> x in t
  {
    assert x in s <==> x in multiset(s);
    assert x in t <==> x in multiset(t);
  }

  function RemoveAt<T>(s: seq<T>, i: nat): seq<T>
    requires i < |s|
  {
    s[..i] + s[i + 1..]
  }

  /** The last element of `s` occurs in any permutation of `s`. */
  lemma MatchLast<T>(s: seq<T>, t: seq<T>) returns (i: nat)
    requires multiset(s) == multiset(t) && s != []
    ensures i < |t| && t[i] == s[|s| - 1]
    ensures multiset(s[..|s| - 1]) == multiset(RemoveAt(t, i))
  {
    var n := |s| - 1;
    InSame(s, t, s[n]);
    i :| 0 <= i < |t| && t[i] == s[n];
    assert s == s[..n] + [s[n]];
    assert t == t[..i] + [t[i]] + t[i + 1..];
    assert multiset(s[..n]) == multiset(s) - multiset{s[n]};
    assert multiset(RemoveAt(t, i)) == multiset(t) - multiset{t[i]};
  }

  lemma {:induction false} SortSorted<T(!new)>(less: (T, T) -> bool, s: seq<T>)
    requires StrictWeak(less)
    ensures Sorted(less, Sort(less, s))
  {
    if s != [] {
      SortSorted(less, s[1..]);
      InsertSorted(less, s[0], Sort(less, s[1..]));
    }
  }

  lemma {:induction false} InsertSorted<T(!new)>(less: (T, T) -> bool, x: T, s: seq<T>)
    requires StrictWeak(less) && Sorted(less, s)
    ensures Sorted(less, Insert(less, x, s))
  {
    if s != [] && less(s[0], x) {
      InsertSorted(less, x, s[1..]);
      var rest := Insert(less, x, s[1..]);
      forall j | 0 <= j < |rest| ensures !less(rest[j], s[0]) {
        assert rest[j] in multiset(rest);
        assert rest[j] == x || rest[j] in s[1..];
      }
    } else {
      forall j | 0 <= j < |s| ensures !less(s[j], x) {
      }
    }
  }

  lemma SortedHead<T(!new)>(less: (T, T) -> bool, s: seq<T>, t: seq<T>)
    requires StrictOn(less, multiset(s)) && multiset(s) == multiset(t) && s != []
    requires Sorted(less, s) && Sorted(less, t)
    ensures t != [] && s[0] == t[0]
  {
    assert |multiset(s)| == |multiset(t)|;
    assert s[0] in multiset(s) && t[0] in multiset(s);
    InSame(s, t, s[0]);
    InSame(s, t, t[0]);
  }

  lemma Tail<T(!new)>(less: (T, T) -> bool, s: seq<T>)
    requires s != [] && StrictOn(less, multiset(s)) && Sorted(less, s)
    ensures StrictOn(less, multiset(s[1..])) && Sorted(less, s[1..])
  {
    assert s == [s[0]] + s[1..];
  }

  lemma TailsSame<T>(s: seq<T>, t: seq<T>)
    requires multiset(s) == multiset(t) && s != [] && t != [] && s[0] == t[0]
    ensures multiset(s[1..]) == multiset(t[1..])
  {
    assert s == [s[0]] + s[1..] && t == [t[0]] + t[1..];
    assert multiset(s[1..]) == multiset(s) - multiset{s[0]};
    assert multiset(t[1..]) == multiset(t) - multiset{t[0]};
  }

  lemma ConsSame<T>(s: seq<T>, t: seq<T>)
    requires s != [] && t != [] && s[0] == t[0] && s[1..] == t[1..]
    ensures s == t
  {
    assert s == [s[0]] + s[1..] && t == [t[0]] + t[1..];
  }

  /** Two sorted listings of the same elements are equal. */
  lemma {:induction false} SortedUnique<T(!new)>(less: (T, T) -> bool, s: seq<T>, t: seq<T>)
    requires StrictOn(less, multiset(s)) && multiset(s) == multiset(t)
    requires Sorted(less, s) && Sorted(less, t)
    ensures s == t
  {
    if s == [] {
      assert |multiset(t)| == 0;
    } else {
      SortedHead(less, s, t);
      TailsSame(s, t);
      Tail(less, s);
      Tail(less, t);
      SortedUnique(less, s[1..], t[1..]);
      ConsSame(s, t);
    }
  }

  /** Sorting by a total order forgets the input order. */
  lemma SortCanonical<T(!new)>(less: (T, T) -> bool, s: seq<T>, t: seq<T>)
    requires StrictWeak(less) && StrictOn(less, multiset(s)) && multiset(s) == multiset(t)
    ensures Sort(less, s) == Sort(less, t)
  {
    SortSorted(less, s);
    SortSorted(less, t);
    SortedUnique(less, Sort(less, s), Sort(less, t));
  }

  // ----- concatenation -----

  function Concat<T>(ss: seq<seq<T>>): seq<T> {
    if ss == [] then [] else ss[0] + Concat(ss[1..])
  }

  lemma {:induction false} ConcatAppend<T>(ss: seq<seq<T>>, tt: seq<seq<T>>)
    ensures Concat(ss + tt) == Concat(ss) + Concat(tt)
  {
    if ss == [] {
      assert ss + tt == tt;
    } else {
      ConcatAppend(ss[1..], tt);
      assert (ss + tt)[1..] == ss[1..] + tt;
    }
  }

  lemma ConcatSnoc<T>(ss: seq<seq<T>>, s: seq<T>)
    ensures Concat(ss + [s]) == Concat(ss) + s
  {
    ConcatAppend(ss, [s]);
    assert Concat([s]) == s + Concat([]);
  }

  // ----- orders on string keys -----

  lemma LessOrder(names: multiset<string>)
    ensures StrictWeak(Less) && StrictOn(Less, names)
  {
    forall s ensures !Less(s, s) { LessIrreflexive(s); }
    forall s, t, u | Less(s, t) && Less(t, u) ensures Less(s, u) { LessTransitive(s, t, u); }
    forall s, t ensures s == t || Less(s, t) || Less(t, s) { LessTotal(s, t); }
    forall s, t, u | Less(s, u) ensures Less(s, t) || Less(t, u) {
      LessTotal(s, t);
      LessTotal(t, u);
    }
  }

  function SortStrings(s: seq<string>): (r: seq<string>)
    ensures multiset(r) == multiset(s)
  {
    Sort(Less, s)
  }

  lemma SortStringsCanonical(s: seq<string>, t: seq<string>)
    requires multiset(s) == multiset(t)
    ensures SortStrings(s) == SortStrings(t)
    ensures Sorted(Less, SortStrings(s))
  {
    LessOrder(multiset(s));
    SortCanonical(Less, s, t);
    SortSorted(Less, s);
  }
}
