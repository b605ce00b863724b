/** Datatypes and sequence facts shared by every component of the model. */
module Collections {
  datatype Option<+T> = None | Some(value: T)

  /** No element occurs at two positions. */
  ghost predicate NoDuplicates<T>(s: seq<T>) {
    forall i, j :: 0 <= i < j < |s| ==> s[i] != s[j]
  }

  ghost function ToSet<T>(s: seq<T>): set<T> {
    set x | x in s
  }

  /** `Vec::remove`: the order of the other elements is kept. */
  function RemoveAt<T>(s: seq<T>, i: nat): (r: seq<T>)
    requires i < |s|
    ensures |r| == |s| - 1
  {
    s[..i] + s[i + 1..]
  }

  /** `Vec::swap_remove`: the last element takes the place of the removed one. */
  function SwapRemove<T>(s: seq<T>, i: nat): (r: seq<T>)
    requires i < |s|
    ensures |r| == |s| - 1
    ensures r[..i] == s[..i]
  {
    if i == |s| - 1 then s[..i] else s[..i] + [s[|s| - 1]] + s[i + 1..|s| - 1]
  }

  function Min(a: int, b: int): int {
    if a <= b then a else b
  }

  lemma SliceOfSlice<T>(s: seq<T>, a: nat, b: nat, c: nat, d: nat)
    requires a <= b <= |s| && c <= d <= b - a
    ensures s[a..b][c..d] == s[a + c..a + d]
  {
    forall i | 0 <= i < d - c
      ensures s[a..b][c..d][i] == s[a + c..a + d][i]
    {
    }
  }

  lemma Middle<T>(a: seq<T>, b: seq<T>, c: seq<T>)
    ensures (a + b + c)[|a|..|a| + |b|] == b
    ensures (a + b + c)[|a| + |b|..] == c
  {
  }

  function Flatten<T>(parts: seq<seq<T>>): seq<T> {
    if parts == [] then [] else parts[0] + Flatten(parts[1..])
  }

  lemma FlattenOne<T>(part: seq<T>)
    ensures Flatten([part]) == part
  {
    assert [part][1..] == [];
    assert Flatten([part]) == part + Flatten([part][1..]);
  }

  lemma ConcatAssociates<T>(a: seq<T>, b: seq<T>, c: seq<T>)
    ensures a + (b + c) == (a + b) + c
  {
  }

  lemma {:induction false} FlattenAppend<T>(a: seq<seq<T>>, b: seq<seq<T>>)
    ensures Flatten(a + b) == Flatten(a) + Flatten(b)
  {
    if a == [] {
      assert a + b == b;
    } else {
      FlattenAppend(a[1..], b);
      assert (a + b)[1..] == a[1..] + b && (a + b)[0] == a[0];
      ConcatAssociates(a[0], Flatten(a[1..]), Flatten(b));
    }
  }

  lemma RemoveAtFacts<T>(s: seq<T>, i: nat)
    requires i < |s|
    ensures multiset(s) == multiset(RemoveAt(s, i)) + multiset{s[i]}
    ensures forall x :: x in RemoveAt(s, i) ==> x in s
    ensures forall x :: x in s ==> x == s[i] || x in RemoveAt(s, i)
    ensures NoDuplicates(s) ==> NoDuplicates(RemoveAt(s, i)) && s[i] !in RemoveAt(s, i)
  {
    var r := RemoveAt(s, i);
    assert s == s[..i] + [s[i]] + s[i + 1..];
    forall x | x in s
      ensures x == s[i] || x in r
    {
      var k :| 0 <= k < |s| && s[k] == x;
      assert k < i ==> r[k] == x;
      assert k > i ==> r[k - 1] == x;
    }
  }

  lemma RemoveAtIndex<T>(s: seq<T>, i: nat)
    requires i < |s|
    ensures forall k :: 0 <= k < |s| - 1 ==> RemoveAt(s, i)[k] == s[if k < i then k else k + 1]
  {
  }

  lemma CancelOne<U>(a: multiset<U>, b: multiset<U>, x: U)
    requires a + multiset{x} == b + multiset{x}
    ensures a == b
  {
    assert a == (a + multiset{x}) - multiset{x};
    assert b == (b + multiset{x}) - multiset{x};
  }

  lemma SwapRemoveFacts<T>(s: seq<T>, i: nat)
    requires i < |s|
    ensures multiset(s) == multiset(SwapRemove(s, i)) + multiset{s[i]}
  {
    if i == |s| - 1 {
      assert s == s[..i] + [s[i]];
    } else {
      assert s == s[..i] + [s[i]] + s[i + 1..|s| - 1] + [s[|s| - 1]];
    }
  }

  lemma LastIsNew<T>(s: seq<T>)
    requires s != [] && NoDuplicates(s)
    ensures var init, last := s[..|s| - 1], s[|s| - 1];
            NoDuplicates(init) && last !in ToSet(init) && ToSet(s) == ToSet(init) + {last}
  {
    var init, last := s[..|s| - 1], s[|s| - 1];
    forall i | 0 <= i < |init|
      ensures init[i] != last
    {
      assert s[i] != s[|s| - 1];
    }
    assert s == init + [last];
  }

  /** A duplicate-free sequence is as long as its set of elements is large. */
  lemma {:induction false} NoDuplicatesCardinality<T>(s: seq<T>)
    requires NoDuplicates(s)
    ensures |ToSet(s)| == |s|
  {
    if s != [] {
      var init := s[..|s| - 1];
      NoDuplicatesCardinality(init);
      LastIsNew(s);
      hide ToSet, NoDuplicates;
      assert |ToSet(init) + {s[|s| - 1]}| == |ToSet(init)| + 1;
    }
  }

  /** Two balanced accounts in a row balance: what came in is what is left plus what went out. */
  lemma Balance<T>(a: multiset<T>, b: multiset<T>, c: multiset<T>,
                   in1: multiset<T>, out1: multiset<T>, in2: multiset<T>, out2: multiset<T>)
    requires a + in1 == b + out1 && b + in2 == c + out2
    ensures a + (in1 + in2) == c + (out1 + out2)
  {
    forall x
      ensures (a + (in1 + in2))[x] == (c + (out1 + out2))[x]
    {
      assert (a + in1)[x] == (b + out1)[x];
      assert (b + in2)[x] == (c + out2)[x];
    }
  }

  /** The sum of an account over a sequence. */
  ghost function Sum<T, U>(s: seq<T>, f: T -> multiset<U>): multiset<U> {
    if s == [] then multiset{} else f(s[0]) + Sum(s[1..], f)
  }

  lemma {:induction false} SumAppend<T, U>(a: seq<T>, b: seq<T>, f: T -> multiset<U>)
    ensures Sum(a + b, f) == Sum(a, f) + Sum(b, f)
  {
    if a == [] {
      assert a + b == b;
    } else {
      SumAppend(a[1..], b, f);
      assert (a + b)[1..] == a[1..] + b && (a + b)[0] == a[0];
      UnionAssociates(f(a[0]), Sum(a[1..], f), Sum(b, f));
    }
  }

  lemma SumOne<T, U>(x: T, f: T -> multiset<U>)
    ensures Sum([x], f) == f(x)
  {
    assert [x][1..] == [];
  }

  lemma UnionAssociates<U>(a: multiset<U>, b: multiset<U>, c: multiset<U>)
    ensures a + (b + c) == (a + b) + c
  {
  }

  lemma {:induction false} SumRemoveAt<T, U>(s: seq<T>, i: nat, f: T -> multiset<U>)
    requires i < |s|
    ensures Sum(s, f) == Sum(RemoveAt(s, i), f) + f(s[i])
    decreases i
  {
    var r := RemoveAt(s, i);
    if i == 0 {
      assert r == s[1..];
    } else {
      SumRemoveAt(s[1..], i - 1, f);
      assert r[0] == s[0] && r[1..] == RemoveAt(s[1..], i - 1) && s[1..][i - 1] == s[i];
      UnionAssociates(f(s[0]), Sum(r[1..], f), f(s[i]));
    }
  }

  /** The order does not matter to a sum. */
  lemma {:induction false} SumPermutes<T, U>(a: seq<T>, b: seq<T>, f: T -> multiset<U>)
    requires multiset(a) == multiset(b)
    ensures Sum(a, f) == Sum(b, f)
    decreases |a|
  {
    if a == [] {
      assert |multiset(b)| == 0;
    } else {
      assert a[0] in multiset(b);
      var j :| 0 <= j < |b| && b[j] == a[0];
      var rest := RemoveAt(b, j);
      SameRest(a, b, j);
      hide Sum;
      SumPermutes(a[1..], rest, f);
      SumRemoveAt(b, j, f);
      SumFirst(a, f);
    }
  }

  lemma SumFirst<T, U>(a: seq<T>, f: T -> multiset<U>)
    requires a != []
    ensures Sum(a, f) == Sum(a[1..], f) + f(a[0])
  {
  }

  lemma SameRest<T>(a: seq<T>, b: seq<T>, j: nat)
    requires multiset(a) == multiset(b) && a != [] && j < |b| && b[j] == a[0]
    ensures multiset(a[1..]) == multiset(RemoveAt(b, j))
  {
    RemoveAtFacts(b, j);
    assert a == [a[0]] + a[1..];
    hide RemoveAt;
    CancelOne(multiset(a[1..]), multiset(RemoveAt(b, j)), a[0]);
  }

  lemma SumSwapRemove<T, U>(s: seq<T>, i: nat, f: T -> multiset<U>)
    requires i < |s|
    ensures Sum(s, f) == Sum(SwapRemove(s, i), f) + f(s[i])
  {
    hide Sum, RemoveAt, SwapRemove;
    RemoveAtFacts(s, i);
    SwapRemoveFacts(s, i);
    SumRemoveAt(s, i, f);
    CancelOne(multiset(RemoveAt(s, i)), multiset(SwapRemove(s, i)), s[i]);
    SumPermutes(RemoveAt(s, i), SwapRemove(s, i), f);
  }

  lemma {:induction false} SumZero<T, U>(s: seq<T>, f: T -> multiset<U>, x: U)
    requires forall y :: y in s ==> f(y)[x] == 0
    ensures Sum(s, f)[x] == 0
  {
    if s != [] {
      SumZero(s[1..], f, x);
    }
  }

  lemma SumMember<T, U>(s: seq<T>, f: T -> multiset<U>, i: nat)
    requires i < |s|
    ensures f(s[i]) <= Sum(s, f)
  {
    SumRemoveAt(s, i, f);
  }

  lemma SumPair<T, U>(s: seq<T>, f: T -> multiset<U>, i: nat, j: nat)
    requires i < j < |s|
    ensures f(s[i]) + f(s[j]) <= Sum(s, f)
  {
    SumRemoveAt(s, i, f);
    SumMember(RemoveAt(s, i), f, j - 1);
  }
}
