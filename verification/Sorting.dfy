// The stable descending sort behind every ranking in the daemon. `Array.prototype.sort` is stable,
// so the result is the unique sequence that is ordered by key and keeps equal keys in input order.
module Sorting {
  import opened Sequences

  function Insert<T>(x: T, s: seq<T>, key: T -> real): (r: seq<T>)
    ensures |r| == |s| + 1
  {
    if s == [] || key(s[0]) <= key(x) then [x] + s
    else [s[0]] + Insert(x, s[1..], key)
  }

  function SortDesc<T>(s: seq<T>, key: T -> real): (r: seq<T>)
    ensures |r| == |s|
  {
    if s == [] then [] else Insert(s[0], SortDesc(s[1..], key), key)
  }

  // The elements of `s` whose key is `v`, in order.
  function Ties<T>(s: seq<T>, key: T -> real, v: real): (r: seq<T>) {
    if s == [] then []
    else if key(s[0]) == v then [s[0]] + Ties(s[1..], key, v)
    else Ties(s[1..], key, v)
  }

  ghost predicate Descending<T>(s: seq<T>, key: T -> real) {
    forall i, j :: 0 <= i < j < |s| ==> key(s[i]) >= key(s[j])
  }

  // `r` is what a stable sort of `s` must return.
  ghost predicate StableSortOf<T>(r: seq<T>, s: seq<T>, key: T -> real) {
    && Descending(r, key)
    && multiset(r) == multiset(s)
    && forall v: real :: Ties(r, key, v) == Ties(s, key, v)
  }

  lemma {:induction false} InsertMultiset<T>(x: T, s: seq<T>, key: T -> real)
    ensures multiset(Insert(x, s, key)) == multiset(s) + multiset{x}
  {
    if s == [] || key(s[0]) <= key(x) {
      assert multiset([x] + s) == multiset{x} + multiset(s);
    } else {
      InsertMultiset(x, s[1..], key);
      assert s == [s[0]] + s[1..];
    }
  }

  // Inserting puts x at the first index whose key does not exceed x's.
  lemma {:induction false} InsertAt<T>(x: T, s: seq<T>, key: T -> real) returns (q: nat)
    ensures q <= |s| && Insert(x, s, key) == s[..q] + [x] + s[q..]
    ensures forall i :: 0 <= i < q ==> key(s[i]) > key(x)
    ensures q < |s| ==> key(s[q]) <= key(x)
  {
    if s == [] || key(s[0]) <= key(x) {
      q := 0;
    } else {
      var q' := InsertAt(x, s[1..], key);
      q := q' + 1;
      assert s[..q] == [s[0]] + s[1..][..q'];
      assert s[q..] == s[1..][q'..];
      forall i | 0 <= i < q ensures key(s[i]) > key(x) {
        if i > 0 { assert s[i] == s[1..][i - 1]; }
      }
    }
  }

  lemma InsertDescending<T>(x: T, s: seq<T>, key: T -> real)
    requires Descending(s, key)
    ensures Descending(Insert(x, s, key), key)
  {
    var q := InsertAt(x, s, key);
  }

  lemma {:induction false} TiesAppend<T>(s: seq<T>, t: seq<T>, key: T -> real, v: real)
    ensures Ties(s + t, key, v) == Ties(s, key, v) + Ties(t, key, v)
  {
    if s == [] {
      assert s + t == t;
    } else {
      TiesAppend(s[1..], t, key, v);
      assert (s + t)[1..] == s[1..] + t;
    }
  }

  lemma InsertKeepsTies<T>(x: T, s: seq<T>, key: T -> real, v: real)
    ensures Ties(Insert(x, s, key), key, v) == Ties([x] + s, key, v)
  {
  }

  lemma {:induction false} SortMultiset<T>(s: seq<T>, key: T -> real)
    ensures multiset(SortDesc(s, key)) == multiset(s)
  {
    hide Insert;
    if s != [] {
      SortMultiset(s[1..], key);
      InsertMultiset(s[0], SortDesc(s[1..], key), key);
      assert s == [s[0]] + s[1..];
    }
  }

  lemma {:induction false} SortDescending<T>(s: seq<T>, key: T -> real)
    ensures Descending(SortDesc(s, key), key)
  {
    if s != [] {
      SortDescending(s[1..], key);
      InsertDescending(s[0], SortDesc(s[1..], key), key);
    }
  }

  lemma {:induction false} SortKeepsTies<T>(s: seq<T>, key: T -> real, v: real)
    ensures Ties(SortDesc(s, key), key, v) == Ties(s, key, v)
  {
    if s != [] {
      SortKeepsTies(s[1..], key, v);
      InsertKeepsTies(s[0], SortDesc(s[1..], key), key, v);
      TiesAppend([s[0]], SortDesc(s[1..], key), key, v);
      assert s == [s[0]] + s[1..];
      TiesAppend([s[0]], s[1..], key, v);
    }
  }

  lemma SortMembers<T(!new)>(s: seq<T>, key: T -> real)
    ensures forall x :: x in SortDesc(s, key) <==> x in s
  {
    SortMultiset(s, key);
    forall x ensures x in SortDesc(s, key) <==> x in s {
      assert x in SortDesc(s, key) <==> x in multiset(SortDesc(s, key));
      assert x in s <==> x in multiset(s);
    }
  }

  lemma {:induction false} SortNoDup<T(!new)>(s: seq<T>, key: T -> real)
    requires NoDup(s)
    ensures NoDup(SortDesc(s, key))
  {
    hide Insert, NoDup;
    if s != [] {
      TailNoDup(s);
      SortNoDup(s[1..], key);
      SortMembers(s[1..], key);
      InsertNoDup(s[0], SortDesc(s[1..], key), key);
    }
  }

  lemma TailNoDup<T>(s: seq<T>)
    requires NoDup(s) && s != []
    ensures NoDup(s[1..]) && s[0] !in s[1..]
  {
  }

  lemma InsertNoDup<T>(x: T, s: seq<T>, key: T -> real)
    requires NoDup(s) && x !in s
    ensures NoDup(Insert(x, s, key))
  {
    var q := InsertAt(x, s, key);
  }

  // The function is a stable sort...
  lemma SortIsStable<T>(s: seq<T>, key: T -> real)
    ensures StableSortOf(SortDesc(s, key), s, key)
  {
    SortMultiset(s, key);
    SortDescending(s, key);
    forall v: real ensures Ties(SortDesc(s, key), key, v) == Ties(s, key, v) {
      SortKeepsTies(s, key, v);
    }
  }

  // ...and every stable sort returns the same sequence, so nothing here depends on the algorithm.
  lemma {:induction false} StableSortIsUnique<T>(a: seq<T>, b: seq<T>, key: T -> real)
    requires Descending(a, key) && Descending(b, key)
    requires multiset(a) == multiset(b)
    requires forall v: real :: Ties(a, key, v) == Ties(b, key, v)
    ensures a == b
  {
    hide Ties;
    assert |multiset(a)| == |a| && |multiset(b)| == |b|;
    if a != [] {
      SameHead(a, b, key);
      SameTail(a, b);
      forall v: real ensures Ties(a[1..], key, v) == Ties(b[1..], key, v) {
        TiesTail(a, b, key, v);
      }
      StableSortIsUnique(a[1..], b[1..], key);
    }
  }

  lemma SameTail<T>(a: seq<T>, b: seq<T>)
    requires a != [] && b != [] && a[0] == b[0] && multiset(a) == multiset(b)
    ensures multiset(a[1..]) == multiset(b[1..])
  {
    assert a == [a[0]] + a[1..] && b == [b[0]] + b[1..];
    assert multiset(a[1..]) == multiset(a) - multiset{a[0]};
    assert multiset(b[1..]) == multiset(b) - multiset{b[0]};
  }

  lemma TiesTail<T>(a: seq<T>, b: seq<T>, key: T -> real, v: real)
    requires a != [] && b != [] && a[0] == b[0]
    requires Ties(a, key, v) == Ties(b, key, v)
    ensures Ties(a[1..], key, v) == Ties(b[1..], key, v)
  {
    if key(a[0]) == v {
      assert Ties(a[1..], key, v) == Ties(a, key, v)[1..];
      assert Ties(b[1..], key, v) == Ties(b, key, v)[1..];
    }
  }

  lemma SameHead<T>(a: seq<T>, b: seq<T>, key: T -> real)
    requires a != [] && b != []
    requires Descending(a, key) && Descending(b, key)
    requires multiset(a) == multiset(b)
    requires forall v: real :: Ties(a, key, v) == Ties(b, key, v)
    ensures a[0] == b[0]
  {
    assert a[0] in multiset(b) && b[0] in multiset(a);
    var i :| 0 <= i < |b| && b[i] == a[0];
    var j :| 0 <= j < |a| && a[j] == b[0];
    assert key(a[0]) == key(b[0]);
    assert Ties(a, key, key(a[0]))[0] == a[0];
    assert Ties(b, key, key(a[0]))[0] == b[0];
  }

  function Take<T>(s: seq<T>, k: nat): seq<T> {
    if k <= |s| then s[..k] else s
  }

  // The first k of the sorted elements are the k best.
  lemma TakeIsBest<T(!new)>(s: seq<T>, key: T -> real, k: nat)
    ensures var top := Take(SortDesc(s, key), k);
      && |top| == (if k < |s| then k else |s|)
      && Descending(top, key)
      && (forall x <- top :: x in s)
      && (forall x <- s :: x in top || (|top| == k && forall b <- top :: key(b) >= key(x)))
  {
    hide SortDesc;
    var sorted := SortDesc(s, key);
    SortDescending(s, key);
    SortMembers(s, key);
    assert forall x <- Take(sorted, k) :: x in sorted;
    forall x | x in s && x !in Take(sorted, k) ensures |Take(sorted, k)| == k && forall b <- Take(sorted, k) :: key(b) >= key(x) {
      var i :| 0 <= i < |sorted| && sorted[i] == x;
      assert i >= |Take(sorted, k)|;
    }
  }

  function CountAtLeast<T>(s: seq<T>, key: T -> real, v: real): nat {
    if s == [] then 0
    else (if key(s[0]) >= v then 1 else 0) + CountAtLeast(s[1..], key, v)
  }

  lemma {:induction false} CountAppend<T>(s: seq<T>, t: seq<T>, key: T -> real, v: real)
    ensures CountAtLeast(s + t, key, v) == CountAtLeast(s, key, v) + CountAtLeast(t, key, v)
  {
    if s == [] {
      assert s + t == t;
    } else {
      CountAppend(s[1..], t, key, v);
      assert (s + t)[1..] == s[1..] + t;
    }
  }

  lemma {:induction false} CountAll<T>(s: seq<T>, key: T -> real, v: real)
    requires forall i :: 0 <= i < |s| ==> key(s[i]) >= v
    ensures CountAtLeast(s, key, v) == |s|
  {
    if s != [] {
      CountAll(s[1..], key, v);
    }
  }

  // Whether insertion of x stops within a.
  predicate Stops<T>(x: T, a: seq<T>, key: T -> real) {
    a != [] && (key(a[0]) <= key(x) || Stops(x, a[1..], key))
  }

  lemma {:induction false} InsertInto<T>(x: T, a: seq<T>, b: seq<T>, key: T -> real)
    ensures Insert(x, a + b, key) == if Stops(x, a, key) then Insert(x, a, key) + b else a + Insert(x, b, key)
  {
    hide Insert;
    if a == [] {
      assert a + b == b;
    } else {
      InsertStep(x, a, key);
      InsertStep(x, a + b, key);
      assert (a + b)[0] == a[0] && (a + b)[1..] == a[1..] + b;
      if key(a[0]) <= key(x) {
        Regroup([x], a, b);
      } else {
        InsertInto(x, a[1..], b, key);
        Regroup([a[0]], Insert(x, a[1..], key), b);
        Regroup([a[0]], a[1..], Insert(x, b, key));
        assert [a[0]] + a[1..] == a;
      }
    }
  }

  lemma InsertStep<T>(x: T, s: seq<T>, key: T -> real)
    requires s != []
    ensures Insert(x, s, key) == if key(s[0]) <= key(x) then [x] + s else [s[0]] + Insert(x, s[1..], key)
  {
  }

  lemma SortHead<T>(a: seq<T>, b: seq<T>, key: T -> real)
    requires a != []
    ensures SortDesc(a + b, key) == Insert(a[0], SortDesc(a[1..] + b, key), key)
  {
    assert (a + b)[1..] == a[1..] + b;
  }

  lemma ExtraFront<T>(x: T, b: seq<T>, key: T -> real) returns (l: seq<T>, r: seq<T>)
    ensures SortDesc(b, key) == l + r && SortDesc([x] + b, key) == l + [x] + r
  {
    assert ([x] + b)[1..] == b;
    var p := InsertAt(x, SortDesc(b, key), key);
    l, r := SortDesc(b, key)[..p], SortDesc(b, key)[p..];
  }

  // Adding one element to a list slides it into the sorted list, no earlier than after every
  // element before it that scores at least as high.
  lemma {:induction false} SortWithExtra<T>(a: seq<T>, x: T, b: seq<T>, key: T -> real) returns (l: seq<T>, r: seq<T>)
    ensures SortDesc(a + b, key) == l + r
    ensures SortDesc(a + ([x] + b), key) == l + [x] + r
    ensures CountAtLeast(a, key, key(x)) <= |l|
  {
    if a == [] {
      assert a + ([x] + b) == [x] + b && a + b == b;
      l, r := ExtraFront(x, b, key);
    } else {
      hide SortDesc, Insert, Descending;
      var l', r' := SortWithExtra(a[1..], x, b, key);
      SortHead(a, [x] + b, key);
      SortHead(a, b, key);
      SortDescending(a[1..] + ([x] + b), key);
      l, r := SlideExtra(a[0], l', x, r', key);
    }
  }

  lemma SlideExtra<T>(y: T, l: seq<T>, x: T, r: seq<T>, key: T -> real) returns (l': seq<T>, r': seq<T>)
    requires Descending(l + [x] + r, key)
    ensures Insert(y, l + r, key) == l' + r'
    ensures Insert(y, l + [x] + r, key) == l' + [x] + r'
    ensures |l'| >= |l| && (key(y) >= key(x) ==> |l'| > |l|)
  {
    hide Insert, Stops;
    InsertInto(y, l, r, key);
    InsertInto(y, l, [x] + r, key);
    InsertStep(y, [x] + r, key);
    assert ([x] + r)[1..] == r;
    assert l + [x] + r == l + ([x] + r);
    if Stops(y, l, key) {
      l', r' := Insert(y, l, key), r;
      assert l' + [x] + r' == l' + ([x] + r');
    } else if key(x) <= key(y) {
      InsertFirst(y, l, x, r, key);
      l', r' := l + [y], r;
      assert l + ([y] + r) == l' + r';
      assert l + ([y] + ([x] + r)) == l' + [x] + r';
    } else {
      l', r' := l, Insert(y, r, key);
      assert l + ([x] + r') == l' + [x] + r';
    }
  }

  // What scores at least as high as the head of a descending list goes before its tail.
  lemma InsertFirst<T>(y: T, l: seq<T>, x: T, r: seq<T>, key: T -> real)
    requires Descending(l + [x] + r, key) && key(x) <= key(y)
    ensures Insert(y, r, key) == [y] + r
  {
    if r != [] {
      assert (l + [x] + r)[|l|] == x && (l + [x] + r)[|l| + 1] == r[0];
    }
  }

  // Dropping the tail of one descending run beyond its first m >= k elements does not change the
  // k best of the whole.
  lemma {:induction false} TruncateRun<T>(pre: seq<T>, run: seq<T>, post: seq<T>, key: T -> real, m: nat, k: nat)
    requires Descending(run, key) && k <= m
    ensures Take(SortDesc(pre + run + post, key), k) == Take(SortDesc(pre + Take(run, m) + post, key), k)
    decreases |run|
  {
    if |run| > m {
      var n := |run| - 1;
      TruncateRun(pre, run[..n], post, key, m, k);
      assert Take(run[..n], m) == Take(run, m);
      assert run == run[..n] + [run[n]];
      DropLast(pre, run[..n], run[n], post, key, k);
    } else {
      assert Take(run, m) == run;
    }
  }

  lemma DropLast<T>(pre: seq<T>, run: seq<T>, x: T, post: seq<T>, key: T -> real, k: nat)
    requires k <= |run| && forall i :: 0 <= i < |run| ==> key(run[i]) >= key(x)
    ensures Take(SortDesc(pre + (run + [x]) + post, key), k) == Take(SortDesc(pre + run + post, key), k)
  {
    var l, r := SortWithExtra(pre + run, x, post, key);
    CountAppend(pre, run, key, key(x));
    CountAll(run, key, key(x));
    assert pre + (run + [x]) + post == (pre + run) + ([x] + post);
    assert (l + [x] + r)[..k] == l[..k] == (l + r)[..k];
  }
}
