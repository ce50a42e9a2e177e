/**
 * A JavaScript `Set` as the sequence of its elements in insertion order,
 * which is the order `[...set]` lists them in.
 */
module OrderedSet {

  /** No element occurs twice. */
  predicate Distinct<T(==)>(s: seq<T>) {
    forall i, j :: 0 <= i < j < |s| ==> s[i] != s[j]
  }

  function Elements<T(==)>(s: seq<T>): set<T> {
    set x | x in s
  }

  lemma ElementsConcat<T>(a: seq<T>, b: seq<T>)
    ensures Elements(a + b) == Elements(a) + Elements(b)
  {
    assert forall x :: x in a + b <==> x in a || x in b;
  }

  /** `set.add(x)`: a new element goes last; an element already there stays where it is. */
  function Add<T(==)>(s: seq<T>, x: T): (r: seq<T>)
    ensures Elements(r) == Elements(s) + {x}
    ensures x in s ==> r == s
    ensures x !in s ==> r == s + [x]
    ensures Distinct(s) ==> Distinct(r)
  {
    if x in s then s else s + [x]
  }

  /** `set.delete(x)`: the other elements keep their order. */
  function Delete<T(==)>(s: seq<T>, x: T): (r: seq<T>)
    ensures Elements(r) == Elements(s) - {x}
    ensures x !in s ==> r == s
    ensures Distinct(s) ==> Distinct(r)
  {
    if s == [] then []
    else
      var rest := Delete(s[1..], x);
      assert s == [s[0]] + s[1..];
      assert Elements(s) == {s[0]} + Elements(s[1..]);
      assert Distinct(s) ==> Distinct(s[1..]) && s[0] !in Elements(rest);
      var head := if s[0] == x then [] else [s[0]];
      ElementsConcat(head, rest);
      head + rest
  }

  /**
   * In a set, `delete` takes out the one occurrence of the element and leaves
   * the elements before and after it in their order.
   */
  lemma {:induction false} DeleteAt<T>(s: seq<T>, i: nat)
    requires Distinct(s) && i < |s|
    ensures Delete(s, s[i]) == s[..i] + s[i + 1..]
  {
    var x, rest := s[i], s[1..];
    assert Distinct(rest);
    if i == 0 {
      assert x !in rest;
      assert Delete(s, x) == Delete(rest, x);
    } else {
      assert s[0] != x;
      assert rest[i - 1] == x;
      DeleteAt(rest, i - 1);
      assert Delete(s, x) == [s[0]] + Delete(rest, x);
      assert [s[0]] + rest[..i - 1] == s[..i];
      assert rest[i..] == s[i + 1..];
    }
  }

  /** `new Set(list)`: the first occurrence of each element, in list order. */
  function FromList<T(==)>(list: seq<T>): (r: seq<T>)
    ensures Distinct(r)
    ensures Elements(r) == Elements(list)
  {
    if list == [] then []
    else
      var n := |list| - 1;
      assert list == list[..n] + [list[n]];
      Add(FromList(list[..n]), list[n])
  }

  /** Listing a set and building a set from the list gives back the same set, in the same order. */
  lemma {:induction false} FromListOfDistinct<T>(s: seq<T>)
    requires Distinct(s)
    ensures FromList(s) == s
  {
    if s != [] {
      var n := |s| - 1;
      assert Distinct(s[..n]);
      FromListOfDistinct(s[..n]);
      assert s[n] !in s[..n];
      assert s[..n] + [s[n]] == s;
    }
  }

  /** Deleting the element just added last undoes the addition. */
  lemma {:induction false} DeleteLast<T>(s: seq<T>, x: T)
    requires x !in s
    ensures Delete(s + [x], x) == s
  {
    if s != [] {
      assert (s + [x])[1..] == s[1..] + [x];
      DeleteLast(s[1..], x);
      assert [s[0]] + s[1..] == s;
    }
  }
}
