/** Definitions shared by the other modules: options, the string order that Go's `<` uses,
    and sorting by a comparison.  The sort is an insertion sort, but `SortedPermutationIsUnique`
    shows that for a separating comparison every sorting algorithm gives the same result. */
module Common {

  datatype Option<+T> = None | Some(value: T)

  /** Lexicographic order on character codes. */
  predicate StringLess(a: string, b: string) {
    if b == "" then false
    else if a == "" then true
    else if a[0] != b[0] then a[0] < b[0]
    else StringLess(a[1..], b[1..])
  }

  lemma {:induction false} StringLessTransitive(a: string, b: string, c: string)
    requires StringLess(a, b) && StringLess(b, c)
    ensures StringLess(a, c)
  {
    if a != "" && b != "" && c != "" && a[0] == b[0] == c[0] {
      StringLessTransitive(a[1..], b[1..], c[1..]);
    }
  }

  lemma {:induction false} StringLessTotal(a: string, b: string)
    ensures StringLess(a, b) || a == b || StringLess(b, a)
    ensures !(StringLess(a, b) && StringLess(b, a))
    ensures !StringLess(a, a)
  {
    if a != "" && b != "" {
      assert a == [a[0]] + a[1..] && b == [b[0]] + b[1..];
      StringLessTotal(a[1..], b[1..]);
    }
    if a != "" { StringLessIrreflexive(a); }
  }

  lemma {:induction false} StringLessIrreflexive(a: string)
    ensures !StringLess(a, a)
  {
    if a != "" { StringLessIrreflexive(a[1..]); }
  }

  /** A strict weak order: what Go requires of a `less` function. */
  ghost predicate StrictWeakOrder<T(!new)>(less: (T, T) -> bool) {
    && (forall a, b :: less(a, b) ==> !less(b, a))
    && (forall a, b, c :: less(a, b) && !less(c, b) ==> less(a, c))
  }

  ghost predicate Sorted<T>(less: (T, T) -> bool, s: seq<T>) {
    forall i, j :: 0 <= i < j < |s| ==> !less(s[j], s[i])
  }

  /** Elements of `s` that the comparison cannot tell apart are equal. */
  ghost predicate Separates<T>(less: (T, T) -> bool, s: seq<T>) {
    forall x, y :: x in s && y in s && !less(x, y) && !less(y, x) ==> x == y
  }

  function Insert<T>(less: (T, T) -> bool, x: T, s: seq<T>): (r: seq<T>)
    ensures multiset(r) == multiset(s) + multiset{x}
    ensures |r| == |s| + 1
  {
    if s == [] then [x]
    else if less(s[0], x) then
      assert s == [s[0]] + s[1..];
      [s[0]] + Insert(less, x, s[1..])
    else [x] + s
  }

  function Sort<T>(less: (T, T) -> bool, s: seq<T>): (r: seq<T>)
    ensures multiset(r) == multiset(s)
    ensures |r| == |s|
  {
    if s == [] then []
    else
      assert s == [s[0]] + s[1..];
      Insert(less, s[0], Sort(less, s[1..]))
  }

  lemma SameElements<T>(s: seq<T>, t: seq<T>)
    requires multiset(s) == multiset(t)
    ensures |s| == |t|
    ensures forall x :: x in s <==> x in t
  {
    assert |s| == |multiset(s)| && |t| == |multiset(t)|;
    forall x ensures x in s <==> x in t {
      assert x in s <==> x in multiset(s);
      assert x in t <==> x in multiset(t);
    }
  }

  lemma {:induction false} InsertKeepsSorted<T(!new)>(less: (T, T) -> bool, x: T, s: seq<T>)
    requires StrictWeakOrder(less) && Sorted(less, s)
    ensures Sorted(less, Insert(less, x, s))
  {
    if s == [] {
    } else if less(s[0], x) {
      var tail := Insert(less, x, s[1..]);
      InsertKeepsSorted(less, x, s[1..]);
      forall j | 0 <= j < |tail| ensures !less(tail[j], s[0]) {
        assert tail[j] in multiset(tail);
        assert tail[j] == x || tail[j] in s[1..];
      }
    } else {
      forall j | 0 <= j < |s| ensures !less(s[j], x) {
        if j > 0 { assert !less(s[j], s[0]); }
      }
    }
  }

  lemma {:induction false} SortSorts<T(!new)>(less: (T, T) -> bool, s: seq<T>)
    requires StrictWeakOrder(less)
    ensures Sorted(less, Sort(less, s))
  {
    if s != [] {
      SortSorts(less, s[1..]);
      InsertKeepsSorted(less, s[0], Sort(less, s[1..]));
    }
  }

  lemma DropHead<T>(s: seq<T>)
    requires s != []
    ensures multiset(s[1..]) == multiset(s) - multiset{s[0]}
  {
    assert s == [s[0]] + s[1..];
  }

  lemma SortedHeadsAgree<T(!new)>(less: (T, T) -> bool, s: seq<T>, t: seq<T>)
    requires Sorted(less, s) && Sorted(less, t) && Separates(less, s)
    requires multiset(s) == multiset(t) && s != []
    ensures t != [] && s[0] == t[0]
    ensures multiset(s[1..]) == multiset(t[1..])
  {
    SameElements(s, t);
    assert s[0] in t && t[0] in s;
    var i :| 0 <= i < |t| && t[i] == s[0];
    var j :| 0 <= j < |s| && s[j] == t[0];
    assert i > 0 ==> !less(t[i], t[0]);
    assert j > 0 ==> !less(s[j], s[0]);
    assert s[0] == t[0];
    DropHead(s);
    DropHead(t);
  }

  /** Two sorted arrangements of the same elements are the same sequence, so the sorting
      algorithm does not matter when the comparison separates the elements. */
  lemma {:induction false} SortedPermutationIsUnique<T(!new)>(less: (T, T) -> bool, s: seq<T>, t: seq<T>)
    requires Sorted(less, s) && Sorted(less, t) && Separates(less, s)
    requires multiset(s) == multiset(t)
    ensures s == t
  {
    if s == [] {
      SameElements(s, t);
    } else {
      SortedHeadsAgree(less, s, t);
      SortedPermutationIsUnique(less, s[1..], t[1..]);
      assert s == [s[0]] + s[1..] && t == [t[0]] + t[1..];
    }
  }

  /** Reordering the input does not change the sorted output. */
  lemma SortIgnoresOrder<T(!new)>(less: (T, T) -> bool, s: seq<T>, t: seq<T>)
    requires StrictWeakOrder(less) && Separates(less, s) && multiset(s) == multiset(t)
    ensures Sort(less, s) == Sort(less, t)
  {
    SortSorts(less, s);
    SortSorts(less, t);
    SameElements(s, Sort(less, s));
    SortedPermutationIsUnique(less, Sort(less, s), Sort(less, t));
  }

  function Map<A, B>(f: A -> B, s: seq<A>): (r: seq<B>)
    ensures |r| == |s| && forall i :: 0 <= i < |s| ==> r[i] == f(s[i])
  {
    if s == [] then [] else [f(s[0])] + Map(f, s[1..])
  }

  /** Sorting commutes with any change that the comparison does not look at. */
  lemma {:induction false} SortCommutesWithMap<A(!new), B(!new)>(
    lessA: (A, A) -> bool, lessB: (B, B) -> bool, f: A -> B, s: seq<A>)
    requires forall x, y :: lessB(f(x), f(y)) == lessA(x, y)
    ensures Sort(lessB, Map(f, s)) == Map(f, Sort(lessA, s))
  {
    if s != [] {
      SortCommutesWithMap(lessA, lessB, f, s[1..]);
      InsertCommutesWithMap(lessA, lessB, f, s[0], Sort(lessA, s[1..]));
      assert Map(f, s)[1..] == Map(f, s[1..]);
    }
  }

  lemma {:induction false} InsertCommutesWithMap<A(!new), B(!new)>(
    lessA: (A, A) -> bool, lessB: (B, B) -> bool, f: A -> B, x: A, s: seq<A>)
    requires forall x, y :: lessB(f(x), f(y)) == lessA(x, y)
    ensures Insert(lessB, f(x), Map(f, s)) == Map(f, Insert(lessA, x, s))
  {
    if s == [] {
      assert Map(f, [x]) == [f(x)];
    } else if lessA(s[0], x) {
      InsertCommutesWithMap(lessA, lessB, f, x, s[1..]);
      assert Map(f, s)[1..] == Map(f, s[1..]);
      var t := Insert(lessA, x, s[1..]);
      assert ([s[0]] + t)[1..] == t;
    } else {
      assert ([x] + s)[1..] == s;
    }
  }

  /** When the input order shows in the sorted output */

  lemma {:induction false} MapConcat<A, B>(f: A -> B, s: seq<A>, t: seq<A>)
    ensures Map(f, s + t) == Map(f, s) + Map(f, t)
  {
  }

  /** Where the head of `s` is in another arrangement of it. */
  lemma HeadIn<T>(s: seq<T>, t: seq<T>) returns (j: nat)
    requires multiset(s) == multiset(t) && s != []
    ensures j < |t| && t[j] == s[0] && t == t[..j] + ([s[0]] + t[j + 1..])
    ensures multiset(s[1..]) == multiset(t[..j] + t[j + 1..])
  {
    SameElements(s, t);
    assert s[0] in t;
    j :| 0 <= j < |t| && t[j] == s[0];
    assert t == t[..j] + ([s[0]] + t[j + 1..]);
    assert multiset(t) == multiset(t[..j]) + multiset{s[0]} + multiset(t[j + 1..]);
    assert multiset(t[..j] + t[j + 1..]) == multiset(t) - multiset{s[0]};
    DropHead(s);
  }

  lemma {:induction false} MapKeepsElements<A, B>(f: A -> B, s: seq<A>, t: seq<A>)
    requires multiset(s) == multiset(t)
    ensures multiset(Map(f, s)) == multiset(Map(f, t))
    decreases |s|
  {
    if s == [] {
      SameElements(s, t);
    } else {
      var j := HeadIn(s, t);
      var rest := t[..j] + t[j + 1..];
      assert s == [s[0]] + s[1..];
      MapKeepsElements(f, s[1..], rest);
      MapConcat(f, t[..j], t[j + 1..]);
      MapConcat(f, t[..j], [s[0]] + t[j + 1..]);
      MapConcat(f, [s[0]], t[j + 1..]);
      MapConcat(f, [s[0]], s[1..]);
    }
  }

  /** How many elements come before `x`. */
  function CountBelow<T>(less: (T, T) -> bool, s: seq<T>, x: T): nat {
    if s == [] then 0 else (if less(s[0], x) then 1 else 0) + CountBelow(less, s[1..], x)
  }

  lemma {:induction false} CountBelowConcat<T>(less: (T, T) -> bool, s: seq<T>, t: seq<T>, x: T)
    ensures CountBelow(less, s + t, x) == CountBelow(less, s, x) + CountBelow(less, t, x)
  {
    if s == [] {
      assert s + t == t;
    } else {
      assert (s + t)[0] == s[0] && (s + t)[1..] == s[1..] + t;
      CountBelowConcat(less, s[1..], t, x);
    }
  }

  lemma {:induction false} CountBelowIgnoresOrder<T>(less: (T, T) -> bool, s: seq<T>, t: seq<T>, x: T)
    requires multiset(s) == multiset(t)
    ensures CountBelow(less, s, x) == CountBelow(less, t, x)
    decreases |s|
  {
    if s == [] {
      SameElements(s, t);
    } else {
      var j := HeadIn(s, t);
      var rest := t[..j] + t[j + 1..];
      assert s == [s[0]] + s[1..];
      CountBelowIgnoresOrder(less, s[1..], rest, x);
      CountBelowConcat(less, t[..j], t[j + 1..], x);
      CountBelowConcat(less, t[..j], [s[0]] + t[j + 1..], x);
      CountBelowConcat(less, [s[0]], t[j + 1..], x);
      CountBelowConcat(less, [s[0]], s[1..], x);
    }
  }

  lemma {:induction false} NoneBelow<T>(less: (T, T) -> bool, s: seq<T>, x: T)
    requires forall i :: 0 <= i < |s| ==> !less(s[i], x)
    ensures CountBelow(less, s, x) == 0
  {
    if s != [] { NoneBelow(less, s[1..], x); }
  }

  /** Sorting puts the first element of the input before everything it ties with. */
  lemma {:induction false} InsertPlace<T(!new)>(less: (T, T) -> bool, x: T, s: seq<T>)
    requires StrictWeakOrder(less) && Sorted(less, s)
    ensures CountBelow(less, s, x) <= |s| && Insert(less, x, s)[CountBelow(less, s, x)] == x
  {
    if s != [] {
      if less(s[0], x) {
        InsertPlace(less, x, s[1..]);
      } else {
        forall j | 0 <= j < |s| ensures !less(s[j], x) {
          if j > 0 { assert !less(s[j], s[0]); }
        }
        NoneBelow(less, s, x);
      }
    }
  }

  /** Some arrangement of `s` sorts `x` before everything it ties with. */
  lemma FrontOfTies<T(!new)>(less: (T, T) -> bool, s: seq<T>, x: T) returns (t: seq<T>)
    requires StrictWeakOrder(less) && x in s
    ensures multiset(t) == multiset(s)
    ensures CountBelow(less, s, x) < |Sort(less, t)| && Sort(less, t)[CountBelow(less, s, x)] == x
  {
    var j :| 0 <= j < |s| && s[j] == x;
    var rest := s[..j] + s[j + 1..];
    t := [x] + rest;
    assert s == s[..j] + [x] + s[j + 1..];
    assert t[1..] == rest;
    SortSorts(less, rest);
    InsertPlace(less, x, Sort(less, rest));
    CountBelowIgnoresOrder(less, Sort(less, rest), rest, x);
    CountBelowConcat(less, [x], rest, x);
    CountBelowIgnoresOrder(less, t, s, x);
    assert CountBelow(less, [x], x) == 0 by { assert !less(x, x); assert [x][1..] == []; }
  }

  lemma {:induction false} TiesCountAlike<T(!new)>(less: (T, T) -> bool, s: seq<T>, x: T, y: T)
    requires StrictWeakOrder(less) && !less(x, y) && !less(y, x)
    ensures CountBelow(less, s, x) == CountBelow(less, s, y)
  {
    if s != [] { TiesCountAlike(less, s[1..], x, y); }
  }

  /** Elements that tie look alike through `f`. */
  ghost predicate TiesAgree<A(!new), B>(less: (A, A) -> bool, f: A -> B, s: seq<A>) {
    forall x, y :: x in s && y in s && !less(x, y) && !less(y, x) ==> f(x) == f(y)
  }

  /** No reordering of the input shows in the sorted output seen through `f`. */
  ghost predicate HidesOrder<A(!new), B>(less: (A, A) -> bool, f: A -> B, s: seq<A>) {
    forall t: seq<A> :: multiset(t) == multiset(s) ==> Map(f, Sort(less, t)) == Map(f, Sort(less, s))
  }

  lemma TiesAgreeHides<A(!new), B(!new)>(lessA: (A, A) -> bool, lessB: (B, B) -> bool, f: A -> B, s: seq<A>, t: seq<A>)
    requires StrictWeakOrder(lessB) && (forall x, y :: lessB(f(x), f(y)) == lessA(x, y))
    requires TiesAgree(lessA, f, s) && multiset(t) == multiset(s)
    ensures Map(f, Sort(lessA, t)) == Map(f, Sort(lessA, s))
  {
    hide Sort, Map;
    SortCommutesWithMap(lessA, lessB, f, s);
    SortCommutesWithMap(lessA, lessB, f, t);
    MapKeepsElements(f, s, t);
    MapSeparates(lessA, lessB, f, s);
    SortIgnoresOrder(lessB, Map(f, s), Map(f, t));
  }

  lemma MapSeparates<A(!new), B(!new)>(lessA: (A, A) -> bool, lessB: (B, B) -> bool, f: A -> B, s: seq<A>)
    requires (forall x, y :: lessB(f(x), f(y)) == lessA(x, y)) && TiesAgree(lessA, f, s)
    ensures Separates(lessB, Map(f, s))
  {
    hide Map;
    var m := Map(f, s);
    forall x, y | x in m && y in m && !lessB(x, y) && !lessB(y, x) ensures x == y {
      var a := MapWitness(f, s, x);
      var b := MapWitness(f, s, y);
      assert lessB(f(a), f(b)) == lessA(a, b) && lessB(f(b), f(a)) == lessA(b, a);
    }
  }

  lemma MapWitness<A, B>(f: A -> B, s: seq<A>, y: B) returns (x: A)
    requires y in Map(f, s)
    ensures x in s && f(x) == y
  {
    var i :| 0 <= i < |s| && Map(f, s)[i] == y;
    x := s[i];
  }

  /** The order of the input is invisible if and only if elements that tie look alike. */
  lemma HidesOrderIff<A(!new), B(!new)>(lessA: (A, A) -> bool, lessB: (B, B) -> bool, f: A -> B, s: seq<A>)
    requires StrictWeakOrder(lessA) && StrictWeakOrder(lessB) && forall x, y :: lessB(f(x), f(y)) == lessA(x, y)
    ensures HidesOrder(lessA, f, s) <==> TiesAgree(lessA, f, s)
  {
    if TiesAgree(lessA, f, s) {
      forall t: seq<A> | multiset(t) == multiset(s) ensures Map(f, Sort(lessA, t)) == Map(f, Sort(lessA, s)) {
        TiesAgreeHides(lessA, lessB, f, s, t);
      }
    }
    if HidesOrder(lessA, f, s) {
      forall x, y | x in s && y in s && !lessA(x, y) && !lessA(y, x) ensures f(x) == f(y) {
        var t := FrontOfTies(lessA, s, x);
        var u := FrontOfTies(lessA, s, y);
        TiesCountAlike(lessA, s, x, y);
        var k := CountBelow(lessA, s, x);
        assert Map(f, Sort(lessA, t))[k] == f(x) && Map(f, Sort(lessA, u))[k] == f(y);
      }
    }
  }
}
