/** Order-preserving selection on sequences: the shape of array_filter followed by array_values. */
module Sequences {
  /** `sub` is obtained from `s` by deleting elements, keeping the order of the rest. */
  predicate Subsequence<T(==)>(sub: seq<T>, s: seq<T>)
    decreases |s|
  {
    if |sub| == 0 then true
    else if |s| == 0 then false
    else if sub[0] == s[0] then Subsequence(sub[1..], s[1..])
    else Subsequence(sub, s[1..])
  }

  function Filter<T>(s: seq<T>, keep: T -> bool): seq<T> {
    if |s| == 0 then []
    else if keep(s[0]) then [s[0]] + Filter(s[1..], keep)
    else Filter(s[1..], keep)
  }

  /** The filtered sequence is a subsequence holding exactly the kept elements. */
  lemma {:induction false} FilterSubsequence<T>(s: seq<T>, keep: T -> bool)
    ensures Subsequence(Filter(s, keep), s)
    ensures forall x :: x in Filter(s, keep) ==> x in s && keep(x)
    ensures forall x :: x in s && keep(x) ==> x in Filter(s, keep)
    ensures |Filter(s, keep)| <= |s|
  {
    if |s| > 0 {
      FilterSubsequence(s[1..], keep);
      if keep(s[0]) {
        assert Filter(s, keep)[0] == s[0];
        assert Filter(s, keep)[1..] == Filter(s[1..], keep);
      }
    }
  }

  /** Filtering with a predicate every element satisfies changes nothing. */
  lemma {:induction false} FilterAll<T>(s: seq<T>, keep: T -> bool)
    requires forall i :: 0 <= i < |s| ==> keep(s[i])
    ensures Filter(s, keep) == s
  {
    if |s| > 0 {
      FilterAll(s[1..], keep);
    }
  }

  /** Filtering twice with the same predicate equals filtering once. */
  lemma {:induction false} FilterIdempotent<T>(s: seq<T>, keep: T -> bool)
    ensures Filter(Filter(s, keep), keep) == Filter(s, keep)
  {
    var f := Filter(s, keep);
    forall i | 0 <= i < |f| ensures keep(f[i]) {
      FilterSubsequence(s, keep);
      assert f[i] in Filter(s, keep);
    }
    FilterAll(f, keep);
  }

  /** Filtering with a predicate no element satisfies empties the sequence. */
  lemma {:induction false} FilterNone<T>(s: seq<T>, keep: T -> bool)
    requires forall i :: 0 <= i < |s| ==> !keep(s[i])
    ensures Filter(s, keep) == []
  {
    if |s| > 0 {
      FilterNone(s[1..], keep);
    }
  }

  /** A loop that appends kept elements one at a time computes Filter. */
  lemma {:induction false} FilterSnoc<T>(s: seq<T>, x: T, keep: T -> bool)
    ensures Filter(s + [x], keep) == Filter(s, keep) + (if keep(x) then [x] else [])
  {
    if |s| == 0 {
      assert [x][1..] == [];
    } else {
      assert (s + [x])[0] == s[0] && (s + [x])[1..] == s[1..] + [x];
      FilterSnoc(s[1..], x, keep);
    }
  }

  /** A subsequence of the tail is a subsequence of the whole. */
  lemma {:induction false} SubsequenceOfTail<T>(sub: seq<T>, s: seq<T>)
    requires |s| > 0 && Subsequence(sub, s[1..])
    ensures Subsequence(sub, s)
    decreases |s|, 0
  {
    if |sub| > 0 && sub[0] == s[0] {
      SubsequenceDropHead(sub, s[1..]);
    }
  }

  /** Dropping the head of a subsequence leaves a subsequence. */
  lemma {:induction false} SubsequenceDropHead<T>(sub: seq<T>, s: seq<T>)
    requires |sub| > 0 && Subsequence(sub, s)
    ensures Subsequence(sub[1..], s)
    decreases |s|, 1
  {
    if sub[0] == s[0] {
      SubsequenceOfTail(sub[1..], s);
    } else {
      SubsequenceDropHead(sub, s[1..]);
      SubsequenceOfTail(sub[1..], s);
    }
  }

  /** A subsequence of a subsequence is a subsequence. */
  lemma {:induction false} SubsequenceTrans<T>(a: seq<T>, b: seq<T>, c: seq<T>)
    requires Subsequence(a, b) && Subsequence(b, c)
    ensures Subsequence(a, c)
    decreases |c|
  {
    if |a| > 0 {
      if b[0] == c[0] && a[0] == b[0] {
        SubsequenceTrans(a[1..], b[1..], c[1..]);
      } else if b[0] == c[0] {
        SubsequenceTrans(a, b[1..], c[1..]);
        SubsequenceOfTail(a, c);
      } else {
        SubsequenceTrans(a, b, c[1..]);
        SubsequenceOfTail(a, c);
      }
    }
  }

  /** The kept and the dropped elements together are the whole sequence. */
  lemma {:induction false} FilterPartition<T>(s: seq<T>, keep: T -> bool, drop: T -> bool)
    requires forall x :: drop(x) == !keep(x)
    ensures multiset(Filter(s, keep)) + multiset(Filter(s, drop)) == multiset(s)
  {
    if |s| > 0 {
      var x, rest := s[0], s[1..];
      FilterPartition(rest, keep, drop);
      assert s == [x] + rest;
      assert multiset(s) == multiset{x} + multiset(rest);
      if keep(x) {
        assert Filter(s, keep) == [x] + Filter(rest, keep);
        assert Filter(s, drop) == Filter(rest, drop);
      } else {
        assert Filter(s, keep) == Filter(rest, keep);
        assert Filter(s, drop) == [x] + Filter(rest, drop);
      }
    }
  }

  lemma {:induction false} SubsequenceMembers<T>(sub: seq<T>, s: seq<T>)
    requires Subsequence(sub, s)
    ensures forall x :: x in sub ==> x in s
    ensures |sub| <= |s|
  {
    if |sub| > 0 && |s| > 0 {
      if sub[0] == s[0] {
        SubsequenceMembers(sub[1..], s[1..]);
        assert sub == [sub[0]] + sub[1..];
      } else {
        SubsequenceMembers(sub, s[1..]);
      }
    }
  }

  lemma {:induction false} SubsequenceReflexive<T>(s: seq<T>)
    ensures Subsequence(s, s)
  {
    if |s| > 0 {
      SubsequenceReflexive(s[1..]);
    }
  }

  /** A one-element subsequence is any single element. */
  lemma {:induction false} SingletonSubsequence<T>(s: seq<T>, i: nat)
    requires i < |s|
    ensures Subsequence([s[i]], s)
  {
    if i > 0 {
      SingletonSubsequence(s[1..], i - 1);
      assert s[1..][i - 1] == s[i];
    }
  }

  /** A loop that appends to both sides, or only to the source side, keeps the selection
      a subsequence. */
  lemma {:induction false} SubsequenceSnoc<T>(sub: seq<T>, s: seq<T>, x: T)
    requires Subsequence(sub, s)
    ensures Subsequence(sub, s + [x]) && Subsequence(sub + [x], s + [x])
    decreases |s|
  {
    var sx := s + [x];
    if |s| == 0 {
      assert sub == [];
      assert [x][1..] == [];
    } else {
      assert sx[0] == s[0] && sx[1..] == s[1..] + [x];
      if |sub| == 0 {
        SubsequenceSnoc(sub, s[1..], x);
        assert sub + [x] == [x] && [x][1..] == [];
      } else if sub[0] == s[0] {
        SubsequenceSnoc(sub[1..], s[1..], x);
        assert (sub + [x])[0] == sub[0] && (sub + [x])[1..] == sub[1..] + [x];
      } else {
        SubsequenceSnoc(sub, s[1..], x);
        assert (sub + [x])[0] == sub[0];
      }
    }
  }

  /** Deleting elements from a sequence without repeats leaves one without repeats. */
  lemma {:induction false} SubsequenceDistinct<T>(sub: seq<T>, s: seq<T>)
    requires Subsequence(sub, s) && Distinct(s)
    ensures Distinct(sub)
    decreases |s|
  {
    if |sub| > 0 && |s| > 0 {
      assert Distinct(s[1..]) by {
        forall a, b | 0 <= a < b < |s[1..]| ensures s[1..][a] != s[1..][b] {
          assert s[1..][a] == s[a + 1] && s[1..][b] == s[b + 1];
        }
      }
      if sub[0] == s[0] {
        SubsequenceDistinct(sub[1..], s[1..]);
        SubsequenceMembers(sub[1..], s[1..]);
        forall a, b | 0 <= a < b < |sub| ensures sub[a] != sub[b] {
          if a == 0 {
            assert sub[b] == sub[1..][b - 1];
            assert sub[b] in s[1..];
            var m :| 0 <= m < |s[1..]| && s[1..][m] == sub[b];
            assert s[m + 1] == sub[b];
          } else {
            assert sub[a] == sub[1..][a - 1] && sub[b] == sub[1..][b - 1];
          }
        }
      } else {
        SubsequenceDistinct(sub, s[1..]);
      }
    }
  }

  /** unset($a[$j]) followed by array_values: drop one position, keep the order of the rest. */
  function RemoveAt<T>(s: seq<T>, j: nat): (r: seq<T>)
    requires j < |s|
    ensures |r| == |s| - 1
    ensures forall i :: 0 <= i < j ==> r[i] == s[i]
    ensures forall i :: j <= i < |r| ==> r[i] == s[i + 1]
  {
    s[..j] + s[j + 1..]
  }

  /** Concatenation of the inner sequences (a generator that yields from each in turn). */
  function Flatten<T>(ss: seq<seq<T>>): seq<T> {
    if |ss| == 0 then [] else ss[0] + Flatten(ss[1..])
  }

  lemma {:induction false} FlattenConcat<T>(a: seq<seq<T>>, b: seq<seq<T>>)
    ensures Flatten(a + b) == Flatten(a) + Flatten(b)
  {
    if |a| == 0 {
      assert a + b == b;
    } else {
      var ab := a + b;
      assert ab[0] == a[0] && ab[1..] == a[1..] + b;
      FlattenConcat(a[1..], b);
      calc {
        Flatten(ab);
        ab[0] + Flatten(ab[1..]);
        a[0] + (Flatten(a[1..]) + Flatten(b));
        (a[0] + Flatten(a[1..])) + Flatten(b);
      }
    }
  }

  /** An element of the flattened lists lies in one of them. */
  lemma {:induction false} FlattenMember<T>(ls: seq<seq<T>>, x: T)
    requires x in Flatten(ls)
    ensures exists k :: 0 <= k < |ls| && x in ls[k]
  {
    if x !in ls[0] {
      FlattenMember(ls[1..], x);
      var k :| 0 <= k < |ls[1..]| && x in ls[1..][k];
      assert x in ls[k + 1];
    }
  }

  /** An element of one of the lists is an element of the flattened lists. */
  lemma {:induction false} FlattenHas<T>(ls: seq<seq<T>>, k: nat, x: T)
    requires k < |ls| && x in ls[k]
    ensures x in Flatten(ls)
  {
    FlattenSplit(ls, k);
  }

  /** Lists each of which is one of `ls` flatten to no element that `ls` lacks. */
  lemma {:induction false} FlattenCovered<T>(ls: seq<seq<T>>, ms: seq<seq<T>>)
    requires forall k :: 0 <= k < |ms| ==> ms[k] in ls
    ensures forall x :: x in Flatten(ms) ==> x in Flatten(ls)
  {
    forall x | x in Flatten(ms) ensures x in Flatten(ls) {
      FlattenMember(ms, x);
      var k :| 0 <= k < |ms| && x in ms[k];
      var m :| 0 <= m < |ls| && ls[m] == ms[k];
      FlattenHas(ls, m, x);
    }
  }

  lemma {:induction false} FlattenSingle<T>(x: seq<T>)
    ensures Flatten([x]) == x
  {
    assert [x][1..] == [];
  }

  /** The flattened lists are what comes before list k, list k, and what comes after it. */
  lemma {:induction false} FlattenSplit<T>(ls: seq<seq<T>>, k: nat)
    requires k < |ls|
    ensures Flatten(ls) == Flatten(ls[..k]) + ls[k] + Flatten(ls[k + 1..])
  {
    if k == 0 {
      assert ls[..0] == [];
    } else {
      var tail := ls[1..];
      FlattenSplit(tail, k - 1);
      assert tail[..k - 1] == ls[..k][1..] && tail[k - 1] == ls[k] && tail[k..] == ls[k + 1..];
      var front, back := Flatten(tail[..k - 1]), Flatten(ls[k + 1..]);
      calc {
        Flatten(ls);
        ls[0] + Flatten(tail);
        ls[0] + (front + ls[k] + back);
        (ls[0] + front) + ls[k] + back;
        Flatten(ls[..k]) + ls[k] + back;
      }
    }
  }

  /** Appending list j to list i and dropping list j loses no element and adds none. */
  lemma {:induction false} MergeIntoKeepsAll<T>(ss: seq<seq<T>>, i: nat, j: nat)
    requires i < |ss| && j < |ss| && i != j
    ensures multiset(Flatten(RemoveAt(ss[i := ss[i] + ss[j]], j))) == multiset(Flatten(ss))
  {
    var x, y := ss[i], ss[j];
    var u := ss[i := x + y];
    FlattenRemoveAt(u, j);
    FlattenUpdate(ss, i, x + y);
    assert u[j] == y;
    var m, f := multiset(Flatten(RemoveAt(u, j))), multiset(Flatten(ss));
    assert m + multiset(y) + multiset(x) == f + (multiset(x) + multiset(y));
    MultisetCancel(m, multiset(x) + multiset(y), f);
  }

  /** Multiset addition cancels. */
  lemma {:induction false} MultisetCancel<T>(m: multiset<T>, a: multiset<T>, f: multiset<T>)
    requires m + a == f + a
    ensures m == f
  {
    forall y: T
      ensures m[y] == f[y]
    {
      assert (m + a)[y] == (f + a)[y];
    }
  }

  /** If a holds r and one x, and m + a == f + r, then f is m with x added. */
  lemma {:induction false} MultisetCancelOne<T>(m: multiset<T>, a: multiset<T>, f: multiset<T>, r: multiset<T>, x: T)
    requires m + a == f + r && r + multiset{x} == a
    ensures m + multiset{x} == f
  {
    MultisetCancel(m + multiset{x}, r, f);
  }

  /** A bag with one more element added contains the bag. */
  lemma {:induction false} MultisetPlusOne<T>(m: multiset<T>, f: multiset<T>, x: T)
    requires m + multiset{x} == f
    ensures m <= f
  {
  }

  /** A bag whose elements come from u and occur at most twice each holds at most 2|u| elements. */
  lemma {:induction false} MultisetBound<T>(m: multiset<T>, u: set<T>)
    requires forall x :: x in m ==> x in u
    requires forall x :: m[x] <= 2
    ensures |m| <= 2 * |u|
    decreases |u|
  {
    if |u| == 0 {
      assert u == {};
      assert m == multiset{};
    } else {
      var y :| y in u;
      var rest := m[y := 0];
      var copies: multiset<T> := if m[y] == 0 then multiset{} else if m[y] == 1 then multiset{y} else multiset{y, y};
      assert m == rest + copies;
      MultisetBound(rest, u - {y});
    }
  }

  /** Marking one more element of u as seen shrinks the unseen part of u. */
  lemma {:induction false} SetDiffSmaller<T>(u: set<T>, a: set<T>, b: set<T>, c: T)
    requires a <= b && c in u && c !in a && c in b
    ensures |u - b| < |u - a|
  {
    assert c in u - a;
    var rest := (u - a) - {c};
    assert u - b <= rest;
    assert rest == (u - b) + (rest - (u - b));
  }

  /** Marking more elements of u as seen never grows the unseen part of u. */
  lemma {:induction false} SetDiffNoLarger<T>(u: set<T>, a: set<T>, b: set<T>)
    requires a <= b
    ensures |u - b| <= |u - a|
  {
    assert u - a == (u - b) + ((u - a) - (u - b));
  }

  /** No element occurs twice. */
  ghost predicate Distinct<T>(s: seq<T>) {
    forall i, j :: 0 <= i < j < |s| ==> s[i] != s[j]
  }

  /** No element occurs twice, stated element by element: none occurs before itself. */
  ghost predicate Unique<T>(s: seq<T>) {
    forall i :: 0 <= i < |s| ==> s[i] !in s[..i]
  }

  lemma {:induction false} UniqueIsDistinct<T>(s: seq<T>)
    ensures Unique(s) <==> Distinct(s)
  {
    if Unique(s) {
      forall i, j | 0 <= i < j < |s| ensures s[i] != s[j] {
        assert s[..j][i] == s[i];
      }
    }
  }

  lemma {:induction false} DistinctAt<T>(s: seq<T>, a: nat, b: nat)
    requires Distinct(s) && a < |s| && b < |s| && a != b
    ensures s[a] != s[b]
  {
    if b < a {
      assert s[b] != s[a];
    }
  }

  lemma {:induction false} DistinctCount<T>(s: seq<T>, x: T)
    requires Distinct(s)
    ensures multiset(s)[x] <= 1
  {
    if |s| > 0 {
      assert s == [s[0]] + s[1..];
      assert Distinct(s[1..]) by {
        forall i, j | 0 <= i < j < |s[1..]| ensures s[1..][i] != s[1..][j] {
          assert s[1..][i] == s[i + 1] && s[1..][j] == s[j + 1];
        }
      }
      DistinctCount(s[1..], x);
      if x == s[0] {
        assert x !in s[1..] by {
          forall k | 0 <= k < |s[1..]| ensures s[1..][k] != x {
            assert s[1..][k] == s[k + 1];
          }
        }
      }
    }
  }

  /** A reordering of a sequence without repeats has no repeats either. */
  lemma {:induction false} PermutationDistinct<T>(a: seq<T>, b: seq<T>)
    requires multiset(a) == multiset(b) && Distinct(a)
    ensures Distinct(b)
  {
    forall i, j | 0 <= i < j < |b| ensures b[i] != b[j] {
      if b[i] == b[j] {
        var x := b[i];
        assert b == b[..i] + [b[i]] + b[i + 1..j] + [b[j]] + b[j + 1..];
        assert multiset(b)[x] >= 2;
        DistinctCount(a, x);
        assert false;
      }
    }
  }

  /** Dropping a position keeps a sequence free of repeats. */
  lemma {:induction false} DistinctRemoveAt<T>(s: seq<T>, j: nat)
    requires j < |s| && Distinct(s)
    ensures Distinct(RemoveAt(s, j))
  {
    var r := RemoveAt(s, j);
    forall a, b | 0 <= a < b < |r| ensures r[a] != r[b] {
      var a', b' := if a < j then a else a + 1, if b < j then b else b + 1;
      assert r[a] == s[a'] && r[b] == s[b'];
    }
  }

  /** Updating position i and dropping position j commute, with i shifted when j < i. */
  lemma {:induction false} RemoveAtUpdate<T>(s: seq<T>, i: nat, j: nat, x: T)
    requires i < |s| && j < |s| && i != j
    ensures (if j < i then i - 1 else i) < |s| - 1
    ensures RemoveAt(s, j)[(if j < i then i - 1 else i) := x] == RemoveAt(s[i := x], j)
  {
  }

  /** Replacing list k changes the flattened elements by exactly the two lists involved. */
  lemma {:induction false} FlattenUpdate<T>(ls: seq<seq<T>>, k: nat, x: seq<T>)
    requires k < |ls|
    ensures multiset(Flatten(ls[k := x])) + multiset(ls[k]) == multiset(Flatten(ls)) + multiset(x)
  {
    var u := ls[k := x];
    FlattenSplit(ls, k);
    FlattenSplit(u, k);
    assert u[..k] == ls[..k] && u[k + 1..] == ls[k + 1..];
  }

  /** Dropping list k removes exactly its elements from the flattened lists. */
  lemma {:induction false} FlattenRemoveAt<T>(ls: seq<seq<T>>, k: nat)
    requires k < |ls|
    ensures multiset(Flatten(RemoveAt(ls, k))) + multiset(ls[k]) == multiset(Flatten(ls))
  {
    FlattenSplit(ls, k);
    FlattenConcat(ls[..k], ls[k + 1..]);
  }

  /** A sequence in which nothing is counted twice has no repeats. */
  lemma {:induction false} CountDistinct<T>(s: seq<T>)
    requires forall x :: multiset(s)[x] <= 1
    ensures Distinct(s)
  {
    forall i, j | 0 <= i < j < |s| ensures s[i] != s[j] {
      assert s == s[..i] + [s[i]] + s[i + 1..j] + [s[j]] + s[j + 1..];
      assert multiset(s)[s[i]] >= 1 + multiset([s[j]])[s[i]];
    }
  }

  /** No element occurs twice, stated one element at a time from the end: each element is
      absent from what precedes it. */
  ghost predicate NoRepeats<T>(s: seq<T>)
    decreases |s|
  {
    |s| == 0 || (s[|s| - 1] !in s[..|s| - 1] && NoRepeats(s[..|s| - 1]))
  }

  lemma {:induction false} NoRepeatsIsDistinct<T>(s: seq<T>)
    ensures NoRepeats(s) <==> Distinct(s)
    decreases |s|
  {
    if |s| > 0 {
      var p := s[..|s| - 1];
      NoRepeatsIsDistinct(p);
      if Distinct(s) {
        assert Distinct(p) by {
          forall i, j | 0 <= i < j < |p| ensures p[i] != p[j] {
            assert p[i] == s[i] && p[j] == s[j];
          }
        }
        assert s[|s| - 1] !in p by {
          forall i | 0 <= i < |p| ensures p[i] != s[|s| - 1] {
            assert p[i] == s[i];
          }
        }
      }
      if NoRepeats(s) {
        forall i, j | 0 <= i < j < |s| ensures s[i] != s[j] {
          assert s[i] == p[i];
          if j < |s| - 1 {
            assert s[j] == p[j];
          }
        }
      }
    }
  }

  /** Taking elements out of a sequence without repeats, or reordering it, leaves one
      without repeats. */
  lemma {:induction false} NoRepeatsSub<T>(a: seq<T>, b: seq<T>)
    requires NoRepeats(a) && multiset(b) <= multiset(a)
    ensures NoRepeats(b)
  {
    NoRepeatsIsDistinct(a);
    DistinctSub(a, b);
    NoRepeatsIsDistinct(b);
  }

  /** Adding an element that a sequence without repeats lacks leaves one without repeats. */
  lemma {:induction false} NoRepeatsAddOne<T>(a: seq<T>, b: seq<T>, x: T)
    requires NoRepeats(a) && x !in a && multiset(b) == multiset(a) + multiset{x}
    ensures NoRepeats(b)
  {
    NoRepeatsIsDistinct(a);
    DistinctAddOne(a, b, x);
    NoRepeatsIsDistinct(b);
  }

  /** Taking elements out of a sequence without repeats leaves one without repeats. */
  lemma {:induction false} DistinctSub<T>(a: seq<T>, b: seq<T>)
    requires Distinct(a) && multiset(b) <= multiset(a)
    ensures Distinct(b)
  {
    forall x ensures multiset(b)[x] <= 1 {
      DistinctCount(a, x);
    }
    CountDistinct(b);
  }

  /** Adding an element a sequence without repeats lacks leaves one without repeats. */
  lemma {:induction false} DistinctAddOne<T>(a: seq<T>, b: seq<T>, x: T)
    requires Distinct(a) && x !in a && multiset(b) == multiset(a) + multiset{x}
    ensures Distinct(b)
  {
    forall y ensures multiset(b)[y] <= 1 {
      DistinctCount(a, y);
    }
    CountDistinct(b);
  }

  lemma {:induction false} MultisetRemoveAt<T>(s: seq<T>, j: nat)
    requires j < |s|
    ensures multiset(RemoveAt(s, j)) + multiset{s[j]} == multiset(s)
  {
    assert s == s[..j] + [s[j]] + s[j + 1..];
  }

  /** The image of a sequence under a map. */
  function Image<T, U>(s: seq<T>, m: map<T, U>): (r: seq<U>)
    requires forall i :: 0 <= i < |s| ==> s[i] in m
    ensures |r| == |s| && forall i :: 0 <= i < |s| ==> r[i] == m[s[i]]
  {
    seq(|s|, i requires 0 <= i < |s| => m[s[i]])
  }

  /** Reordering a sequence reorders its image. */
  lemma {:induction false} ImagePermutation<T, U>(a: seq<T>, b: seq<T>, m: map<T, U>)
    requires multiset(a) == multiset(b) && forall i :: 0 <= i < |a| ==> a[i] in m
    requires forall i :: 0 <= i < |b| ==> b[i] in m
    ensures multiset(Image(a, m)) == multiset(Image(b, m))
    decreases |a|
  {
    if |a| == 0 {
      assert |b| == |multiset(b)| == 0;
    } else {
      var x := a[0];
      assert x in multiset(b);
      var i :| 0 <= i < |b| && b[i] == x;
      var b' := RemoveAt(b, i);
      MultisetRemoveAt(b, i);
      assert a == [x] + a[1..];
      MultisetCancel(multiset(a[1..]), multiset{x}, multiset(b'));
      ImagePermutation(a[1..], b', m);
      ImageSplit(a, b, i, m);
      MultisetRemoveAt(Image(b, m), i);
    }
  }

  lemma {:induction false} ImageSplit<T, U>(a: seq<T>, b: seq<T>, i: nat, m: map<T, U>)
    requires 0 < |a| && i < |b| && a[0] == b[i]
    requires forall k :: 0 <= k < |a| ==> a[k] in m
    requires forall k :: 0 <= k < |b| ==> b[k] in m
    ensures Image(a, m) == [m[a[0]]] + Image(a[1..], m)
    ensures Image(RemoveAt(b, i), m) == RemoveAt(Image(b, m), i)
  {
  }

  /** Reordering the lists keeps the flattened elements. */
  lemma {:induction false} FlattenPermutation<T>(ls: seq<seq<T>>, ms: seq<seq<T>>)
    requires multiset(ls) == multiset(ms)
    ensures multiset(Flatten(ls)) == multiset(Flatten(ms))
    decreases |ls|
  {
    if |ls| == 0 {
      assert |ms| == |multiset(ms)| == 0;
    } else {
      var x := ls[0];
      assert x in multiset(ms);
      var i :| 0 <= i < |ms| && ms[i] == x;
      MultisetRemoveAt(ms, i);
      assert ls == [x] + ls[1..];
      MultisetCancel(multiset(ls[1..]), multiset{x}, multiset(RemoveAt(ms, i)));
      FlattenPermutation(ls[1..], RemoveAt(ms, i));
      FlattenRemoveAt(ms, i);
    }
  }

  /** In flattened lists without repeats, two positions of the lists hold different elements. */
  lemma {:induction false} DistinctFlattenAt<T>(ls: seq<seq<T>>, a: nat, b: nat, c: nat, d: nat)
    requires Distinct(Flatten(ls))
    requires a < |ls| && b < |ls[a]| && c < |ls| && d < |ls[c]| && (a != c || b != d)
    ensures ls[a][b] != ls[c][d]
  {
    if a == c {
      FlattenSplit(ls, a);
      var p := |Flatten(ls[..a])|;
      DistinctAt(Flatten(ls), p + b, p + d);
    } else if a < c {
      DistinctFlattenBefore(ls, a, b, c, d);
    } else {
      DistinctFlattenBefore(ls, c, d, a, b);
    }
  }

  lemma {:induction false} DistinctFlattenBefore<T>(ls: seq<seq<T>>, a: nat, b: nat, c: nat, d: nat)
    requires Distinct(Flatten(ls))
    requires a < c < |ls| && b < |ls[a]| && d < |ls[c]|
    ensures ls[a][b] != ls[c][d]
  {
    var front := ls[..c];
    FlattenSplit(ls, c);
    FlattenSplit(front, a);
    assert front[a] == ls[a];
    var p, q := |Flatten(front[..a])|, |Flatten(front)|;
    assert Flatten(ls)[p + b] == ls[a][b];
    assert Flatten(ls)[q + d] == ls[c][d];
    DistinctAt(Flatten(ls), p + b, q + d);
  }

  lemma {:induction false} SwapAdjacent<T>(s: seq<T>, j: nat)
    requires 0 < j < |s|
    ensures multiset(s[j - 1 := s[j]][j := s[j - 1]]) == multiset(s)
  {
    var t := s[j - 1 := s[j]][j := s[j - 1]];
    assert s == s[..j - 1] + [s[j - 1], s[j]] + s[j + 1..];
    assert t == s[..j - 1] + [s[j], s[j - 1]] + s[j + 1..];
  }

  /** Sorting by an integer key, as usort does with a comparator that compares keys. The
      keys are computed once and travel with their elements. */
  method SortByKey<T>(s: seq<T>, key: T -> int) returns (r: seq<T>)
    ensures multiset(r) == multiset(s)
    ensures forall a, b :: 0 <= a < b < |r| ==> key(r[a]) <= key(r[b])
  {
    r := s;
    var ks := seq(|s|, k requires 0 <= k < |s| => key(s[k]));
    var i := 0;
    while i < |r|
      invariant 0 <= i <= |r| == |ks|
      invariant multiset(r) == multiset(s)
      invariant forall a :: 0 <= a < |r| ==> ks[a] == key(r[a])
      invariant forall a, b :: 0 <= a < b < i ==> ks[a] <= ks[b]
    {
      r, ks := InsertAt(r, ks, i, key);
      i := i + 1;
    }
  }

  /** One pass of the insertion sort: moves entry i left past every larger key. */
  method InsertAt<T>(ps: seq<T>, ks: seq<int>, i: nat, key: T -> int) returns (qs: seq<T>, qks: seq<int>)
    requires i < |ks| == |ps|
    requires forall a :: 0 <= a < |ps| ==> ks[a] == key(ps[a])
    requires forall a, b :: 0 <= a < b < i ==> ks[a] <= ks[b]
    ensures |qks| == |ks| == |qs|
    ensures multiset(qs) == multiset(ps)
    ensures forall a :: 0 <= a < |qs| ==> qks[a] == key(qs[a])
    ensures forall a, b :: 0 <= a < b <= i ==> qks[a] <= qks[b]
  {
    qs, qks := ps, ks;
    var j := i;
    while j > 0 && qks[j - 1] > qks[j]
      invariant 0 <= j <= i && |qks| == |ks| == |qs|
      invariant multiset(qs) == multiset(ps)
      invariant forall a :: 0 <= a < |qs| ==> qks[a] == key(qs[a])
      invariant forall a, b :: 0 <= a < b <= i && a != j && b != j ==> qks[a] <= qks[b]
      invariant forall b :: j < b <= i ==> qks[j] < qks[b]
    {
      SwapAdjacent(qs, j);
      qs := qs[j - 1 := qs[j]][j := qs[j - 1]];
      qks := qks[j - 1 := qks[j]][j := qks[j - 1]];
      j := j - 1;
    }
  }
}
