/// Facts about sequences of object references that hold no duplicates.
module Seqs {

  /** No element occurs twice in `s`. */
  ghost predicate NoDup<T>(s: seq<T>) {
    forall x :: x in s ==> multiset(s)[x] == 1
  }

  /** An element that occurs at two positions is counted at least twice. */
  lemma CountAtTwo<T>(s: seq<T>, i: int, j: int)
    requires 0 <= i < j < |s|
    ensures multiset(s)[s[i]] >= if s[i] == s[j] then 2 else 1
  {
    assert s == s[..j] + [s[j]] + s[j + 1..];
    assert s[..j][i] == s[i];
    assert multiset(s[..j])[s[i]] >= 1;
  }

  /** Two different positions of a duplicate-free sequence hold different elements. */
  lemma NoDupAt<T>(s: seq<T>, i: int, j: int)
    requires NoDup(s)
    requires 0 <= i < |s| && 0 <= j < |s| && i != j
    ensures s[i] != s[j]
  {
    if i < j {
      CountAtTwo(s, i, j);
    } else {
      CountAtTwo(s, j, i);
    }
  }

  /** Writing `x` at position `i` and keeping the first i + 1 elements extends
      the first i elements by `x`. */
  lemma WriteTake<T>(s: seq<T>, i: int, x: T)
    requires 0 <= i < |s|
    ensures s[i := x][..i + 1] == s[..i] + [x]
  {
  }

  /** `s` back to front. */
  function Reverse<T>(s: seq<T>): (r: seq<T>)
    ensures |r| == |s|
    decreases |s|
  {
    if s == [] then [] else Reverse(s[1..]) + [s[0]]
  }

  /** Reversing a sequence mirrors its positions. */
  lemma {:induction false} ReverseAt<T>(s: seq<T>, i: int)
    requires 0 <= i < |s|
    ensures Reverse(s)[i] == s[|s| - 1 - i]
    decreases |s|
  {
    if i < |s| - 1 {
      ReverseAt(s[1..], i);
    }
  }

  /** In a duplicate-free sequence no element occurs before its own position. */
  lemma NoDupFirst<T>(s: seq<T>, i: int)
    requires NoDup(s) && 0 <= i < |s|
    ensures s[i] !in s[..i]
  {
    if s[i] in s[..i] {
      var j :| 0 <= j < i && s[..i][j] == s[i];
      NoDupAt(s, j, i);
    }
  }

  /** The two halves of a duplicate-free concatenation share no element. */
  lemma NoDupApart<T>(a: seq<T>, b: seq<T>)
    requires NoDup(a + b)
    ensures NoDup(a) && NoDup(b)
    ensures forall x :: x in a ==> x !in b
  {
    assert multiset(a + b) == multiset(a) + multiset(b);
    forall x | x in a
      ensures multiset(a)[x] == 1 && x !in b
    {
      assert x in a + b;
    }
    forall x | x in b
      ensures multiset(b)[x] == 1
    {
      assert x in a + b;
    }
  }

  /** A sequence whose elements all come from a duplicate-free one has no duplicates. */
  lemma NoDupSub<T>(a: seq<T>, b: seq<T>)
    requires multiset(a) <= multiset(b)
    requires NoDup(b)
    ensures NoDup(a)
  {
  }

  /** Appending an element not yet present keeps a sequence duplicate-free. */
  lemma NoDupAppend<T>(a: seq<T>, x: T)
    requires NoDup(a)
    requires x !in a
    ensures NoDup(a + [x])
  {
  }
}
