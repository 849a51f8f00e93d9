/** The JavaScript array operations the core uses: `indexOf`, `splice(i, 1)`,
    `push`, and `filter((_, i) => i !== index)`. */
module Lists {

  predicate NoDuplicates<T(==)>(s: seq<T>)
  {
    forall i, j :: 0 <= i < j < |s| ==> s[i] != s[j]
  }

  /** `s.indexOf(x)`: the first position holding `x`, or -1 when there is none. */
  function IndexOf<T(==)>(s: seq<T>, x: T): (i: int)
    ensures -1 <= i < |s|
    ensures i == -1 <==> x !in s
    ensures i >= 0 ==> s[i] == x && forall j :: 0 <= j < i ==> s[j] != x
  {
    if s == [] then -1
    else if s[0] == x then 0
    else
      var k := IndexOf(s[1..], x);
      if k == -1 then -1 else k + 1
  }

  /** `s.splice(i, 1)`: `s` without its element at `i`, the rest in their order. */
  function Splice<T>(s: seq<T>, i: nat): (r: seq<T>)
    requires i < |s|
    ensures |r| == |s| - 1
    ensures forall j :: 0 <= j < i ==> r[j] == s[j]
    ensures forall j :: i <= j < |r| ==> r[j] == s[j + 1]
  {
    s[..i] + s[i + 1..]
  }

  /** Removing one element takes exactly one copy of it out of the multiset of elements. */
  lemma SpliceMultiset<T>(s: seq<T>, i: nat)
    requires i < |s|
    ensures multiset(Splice(s, i)) == multiset(s) - multiset{s[i]}
  {
    assert s == s[..i] + [s[i]] + s[i + 1..];
  }

  /** Splicing out the sole copy of a value from a duplicate-free list removes that value,
      keeps every other value, and leaves the list duplicate-free. */
  lemma SpliceNoDuplicates<T>(s: seq<T>, i: nat)
    requires i < |s| && NoDuplicates(s)
    ensures NoDuplicates(Splice(s, i))
    ensures s[i] !in Splice(s, i)
    ensures forall y :: y != s[i] ==> (y in Splice(s, i) <==> y in s)
  {
    var r := Splice(s, i);
    SpliceMultiset(s, i);
    forall y | y != s[i]
      ensures y in r <==> y in s
    {
      assert y in r <==> y in multiset(r);
      assert y in s <==> y in multiset(s);
    }
  }

  /** `s.push(x)` on a duplicate-free list that lacks `x` keeps it duplicate-free. */
  lemma PushNoDuplicates<T>(s: seq<T>, x: T)
    requires NoDuplicates(s) && x !in s
    ensures NoDuplicates(s + [x])
  {
  }

  /** `s.filter((_, i) => i !== index)`: the elements whose position is not `index`. */
  function Without<T>(s: seq<T>, index: int): (r: seq<T>)
    ensures |r| <= |s|
  {
    if s == [] then []
    else (if index == 0 then [] else [s[0]]) + Without(s[1..], index - 1)
  }

  /** Filtering out a position inside the list removes exactly that element and keeps
      the order of the rest; filtering out any other position changes nothing. */
  lemma {:induction false} WithoutIsRemoval<T>(s: seq<T>, index: int)
    ensures 0 <= index < |s| ==> Without(s, index) == s[..index] + s[index + 1..]
    ensures !(0 <= index < |s|) ==> Without(s, index) == s
  {
    if s != [] {
      WithoutIsRemoval(s[1..], index - 1);
      if index == 0 {
        assert s[..0] + s[1..] == s[1..];
      } else if 0 < index < |s| {
        assert s[..index] + s[index + 1..] == [s[0]] + (s[1..][..index - 1] + s[1..][index..]);
      } else {
        assert [s[0]] + s[1..] == s;
      }
    }
  }

  /** Deleting at a valid position shortens the list by one and shifts the tail down. */
  lemma WithoutAt<T>(s: seq<T>, index: nat)
    requires index < |s|
    ensures |Without(s, index)| == |s| - 1
    ensures forall j :: 0 <= j < index ==> Without(s, index)[j] == s[j]
    ensures forall j :: index <= j < |s| - 1 ==> Without(s, index)[j] == s[j + 1]
  {
    WithoutIsRemoval(s, index);
  }
}
