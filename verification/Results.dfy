/**
 Merging the replies of several gateways. A result is a map from gateway to reply; Go visits it in an
 arbitrary order, which here is the parameter `order`, any list of its keys. Topics and customers inside
 one reply are visited in whatever order `:|` picks.
 */
module Results {
  import opened Collections

  /** `order` lists the keys of the map, each once. */
  ghost predicate Lists<G, R>(order: seq<G>, data: map<G, R>) {
    NoDup(order) && Elems(order) == data.Keys
  }

  /** The replies in the order they are visited. */
  ghost function Visited<G, R>(data: map<G, R>, order: seq<G>): (rs: seq<R>)
    requires forall g :: g in order ==> g in data
    ensures |rs| == |order|
  {
    seq(|order|, i requires 0 <= i < |order| => data[order[i]])
  }

  // ---------------------------------------------------------------- deduplication

  /** The first occurrences of `s`, in order. */
  function Dedup<T(==)>(s: seq<T>): seq<T> {
    if s == [] then []
    else
      var r := Dedup(s[..|s| - 1]);
      var x := s[|s| - 1];
      if x in r then r else r + [x]
  }

  lemma {:induction false} DedupNoDup<T>(s: seq<T>)
    ensures NoDup(Dedup(s)) && forall x :: x in Dedup(s) <==> x in s
    decreases |s|
  {
    if s != [] {
      var n := |s| - 1;
      DedupNoDup(s[..n]);
      assert s == s[..n] + [s[n]];
    }
  }

  lemma {:induction false} DedupOfNoDup<T>(s: seq<T>)
    requires NoDup(s)
    ensures Dedup(s) == s
    decreases |s|
  {
    if s != [] {
      DedupOfNoDup(s[..|s| - 1]);
      assert s == s[..|s| - 1] + [s[|s| - 1]];
    }
  }

  /** `at` lists, in increasing order, where the elements of `d` occur in `s`, each for the first time. */
  ghost predicate FirstPlaces<T>(s: seq<T>, at: seq<nat>, d: seq<T>) {
    && |at| == |d|
    && (forall i :: 0 <= i < |at| ==> at[i] < |s| && s[at[i]] == d[i])
    && (forall i, p :: 0 <= i < |at| && 0 <= p < at[i] ==> s[p] != d[i])
    && (forall i, j :: 0 <= i < j < |at| ==> at[i] < at[j])
  }

  /** What is kept are the first occurrences, in their order, of all elements. */
  lemma {:induction false} DedupIsFirstPlaces<T>(s: seq<T>) returns (at: seq<nat>)
    ensures FirstPlaces(s, at, Dedup(s)) && forall x :: x in s ==> x in Dedup(s)
    decreases |s|
  {
    DedupNoDup(s);
    if s == [] {
      at := [];
    } else {
      var n := |s| - 1;
      at := DedupIsFirstPlaces(s[..n]);
      DedupNoDup(s[..n]);
      if s[n] !in s[..n] {
        at := at + [n];
      }
    }
  }

  lemma DedupNext<T>(s: seq<T>, x: T)
    ensures Dedup(s + [x]) == if x in s then Dedup(s) else Dedup(s) + [x]
  {
    assert (s + [x])[..|s|] == s;
    DedupNoDup(s);
  }

  /** `s` without the elements of `seen`. */
  function Without<T(==)>(s: seq<T>, seen: set<T>): seq<T> {
    if s == [] then []
    else
      var x := s[|s| - 1];
      Without(s[..|s| - 1], seen) + (if x in seen then [] else [x])
  }

  lemma WithoutNext<T>(s: seq<T>, x: T, seen: set<T>)
    ensures Without(s + [x], seen) == Without(s, seen) + (if x in seen then [] else [x])
  {
    assert (s + [x])[..|s|] == s;
  }

  lemma {:induction false} WithoutHas<T>(s: seq<T>, seen: set<T>, x: T)
    ensures x in Without(s, seen) <==> x in s && x !in seen
    decreases |s|
  {
    if s != [] {
      WithoutHas(s[..|s| - 1], seen, x);
      assert s == s[..|s| - 1] + [s[|s| - 1]];
    }
  }

  lemma AppendNext<T>(s: seq<T>, x: T, seen: set<T>)
    ensures Without(Dedup(s + [x]), seen)
            == if x in seen || x in s then Without(Dedup(s), seen) else Without(Dedup(s), seen) + [x]
  {
    DedupNext(s, x);
    if x !in s {
      WithoutNext(Dedup(s), x, seen);
    }
  }

  /** A list is deduplicated by deduplicating its parts and dropping from the second what is in the first. */
  lemma {:induction false} DedupConcat<T>(a: seq<T>, b: seq<T>)
    ensures Dedup(a + b) == Dedup(a) + Without(Dedup(b), Elems(a))
    decreases |b|
  {
    if b == [] {
      assert a + b == a;
    } else {
      var front, x := b[..|b| - 1], b[|b| - 1];
      DedupConcat(a, front);
      assert a + b == (a + front) + [x] && b == front + [x];
      DedupConcatNext(Elems(a), front, x, a + front, Dedup(a), Without(Dedup(front), Elems(a)));
    }
  }

  lemma DedupConcatNext<T>(seen: set<T>, front: seq<T>, x: T, s: seq<T>, d: seq<T>, w: seq<T>)
    requires x in s <==> x in seen || x in front
    requires Dedup(s) == d + w && w == Without(Dedup(front), seen)
    ensures Dedup(s + [x]) == d + Without(Dedup(front + [x]), seen)
  {
    DedupNext(s, x);
    AppendNext(front, x, seen);
    Regroup(d, w, [x]);
  }

  /** Deduplicating a part first changes nothing. */
  lemma DedupComposes<T>(a: seq<T>, b: seq<T>)
    ensures Dedup(Dedup(a) + b) == Dedup(a + b)
  {
    DedupNoDup(a);
    DedupOfNoDup(Dedup(a));
    DedupConcat(Dedup(a), b);
    DedupConcat(a, b);
    assert Elems(Dedup(a)) == Elems(a);
  }

  lemma {:induction false} NoDupSize<T>(s: seq<T>)
    requires NoDup(s)
    ensures |Elems(s)| == |s|
    decreases |s|
  {
    if s != [] {
      var front, x := s[..|s| - 1], s[|s| - 1];
      NoDupSize(front);
      assert Elems(s) == Elems(front) + {x};
      assert x !in Elems(front);
    }
  }

  lemma AppendTurn<T>(dst: seq<T>, seen: set<T>, s: seq<T>, x: T, r: seq<T>)
    requires r == dst + Without(Dedup(s), seen)
    ensures dst + Without(Dedup(s + [x]), seen) == if x in seen || x in s then r else r + [x]
    ensures Elems(s + [x]) == Elems(s) + {x}
  {
    AppendNext(s, x, seen);
    Regroup(dst, Without(Dedup(s), seen), [x]);
  }

  /** dedupAppend, for any `dst` and `seen`: the items of `src` not yet seen are appended, each once and at
      its first occurrence, and recorded in `seen`. */
  method DedupAppend<T(==)>(dst: seq<T>, seen: set<T>, src: seq<T>) returns (r: seq<T>, seen': set<T>)
    ensures r == dst + Without(Dedup(src), seen)
    ensures seen' == seen + Elems(src)
  {
    r, seen' := dst, seen;
    var i := 0;
    while i < |src|
      invariant i <= |src|
      invariant r == dst + Without(Dedup(src[..i]), seen)
      invariant seen' == seen + Elems(src[..i])
    {
      var item := src[i];
      TakeNext(src, i);
      AppendTurn(dst, seen, src[..i], item, r);
      if item !in seen' {
        seen' := seen' + {item};
        r := r + [item];
      }
      i := i + 1;
    }
    assert src[..i] == src;
  }

  lemma DedupElems<T>(a: seq<T>, b: seq<T>)
    ensures NoDup(Dedup(a + b)) && Elems(Dedup(a + b)) == Elems(a) + Elems(b)
  {
    DedupNoDup(a + b);
    assert Elems(a + b) == Elems(a) + Elems(b);
    assert Elems(Dedup(a + b)) == Elems(a + b);
  }

  /** If `seen` is the set of elements of a duplicate-free `dst`, that stays true, and the result is the
      first-occurrence deduplication of `dst` followed by `src`. */
  lemma AppendKeepsSeen<T>(dst: seq<T>, src: seq<T>)
    requires NoDup(dst)
    ensures var r := dst + Without(Dedup(src), Elems(dst));
            NoDup(r) && Elems(r) == Elems(dst) + Elems(src) && r == Dedup(dst + src)
  {
    DedupConcat(dst, src);
    DedupOfNoDup(dst);
    DedupElems(dst, src);
  }

  // ---------------------------------------------------------------- one list per gateway

  /** The lists one after the other. */
  function Concat<T>(rs: seq<seq<T>>): seq<T> {
    if rs == [] then [] else Concat(rs[..|rs| - 1]) + rs[|rs| - 1]
  }

  /** An element of one of the lists comes after all the lists before it. */
  lemma {:induction false} ConcatAt<T>(rs: seq<seq<T>>, i: nat, k: nat)
    requires i < |rs| && k < |rs[i]|
    ensures |Concat(rs[..i])| + k < |Concat(rs)| && Concat(rs)[|Concat(rs[..i])| + k] == rs[i][k]
    decreases |rs|
  {
    var n := |rs| - 1;
    if i < n {
      ConcatAt(rs[..n], i, k);
      assert rs[..n][..i] == rs[..i];
    }
  }

  lemma ConcatNext<T>(rs: seq<seq<T>>, i: nat)
    requires i < |rs|
    ensures Concat(rs[..i + 1]) == Concat(rs[..i]) + rs[i]
  {
    TakeNext(rs, i);
  }

  lemma {:induction false} ConcatHas<T>(rs: seq<seq<T>>, x: T)
    ensures x in Concat(rs) <==> exists r :: r in rs && x in r
    decreases |rs|
  {
    if rs != [] {
      var n := |rs| - 1;
      ConcatHas(rs[..n], x);
      assert rs == rs[..n] + [rs[n]];
    }
  }

  lemma ConcatLast<T>(front: seq<seq<T>>, r: seq<T>)
    ensures Concat(front + [r]) == Concat(front) + r
    ensures multiset(Concat(front + [r])) == multiset(Concat(front)) + multiset(r)
  {
    assert (front + [r])[..|front|] == front;
  }

  lemma {:induction false} ConcatWithout<T>(rs: seq<seq<T>>, i: nat)
    requires i < |rs|
    ensures multiset(Concat(rs)) == multiset(Concat(rs[..i] + rs[i + 1..])) + multiset(rs[i])
    decreases |rs|
  {
    var front, last := rs[..|rs| - 1], rs[|rs| - 1];
    assert rs == front + [last];
    ConcatLast(front, last);
    if i == |front| {
      assert rs[..i] + rs[i + 1..] == front;
    } else {
      ConcatWithout(front, i);
      var rest := front[..i] + front[i + 1..];
      assert rs[..i] + rs[i + 1..] == rest + [last];
      ConcatLast(rest, last);
    }
  }

  lemma ListsWithout<G, R>(data: map<G, R>, order: seq<G>, i: nat)
    requires Lists(order, data) && i < |order|
    ensures Lists(order[..i] + order[i + 1..], data - {order[i]})
  {
    var rest := order[..i] + order[i + 1..];
    assert order == order[..i] + [order[i]] + order[i + 1..];
    assert Elems(order) == Elems(rest) + {order[i]};
  }

  lemma VisitedWithout<G, R>(data: map<G, R>, order: seq<G>, i: nat)
    requires Lists(order, data) && i < |order|
    ensures var rest, smaller := order[..i] + order[i + 1..], data - {order[i]};
            var rs := Visited(data, order);
            Lists(rest, smaller) && Visited(smaller, rest) == rs[..i] + rs[i + 1..]
  {
    ListsWithout(data, order, i);
    var rest, smaller := order[..i] + order[i + 1..], data - {order[i]};
    var rs := Visited(data, order);
    forall j | 0 <= j < |rest| ensures Visited(smaller, rest)[j] == (rs[..i] + rs[i + 1..])[j] {
      assert rest[j] in Elems(rest);
    }
  }

  lemma LeaveOut<G, T>(data: map<G, seq<T>>, order: seq<G>, g: G) returns (rest: seq<G>)
    requires Lists(order, data) && g in data
    ensures |rest| == |order| - 1 && Lists(rest, data - {g})
    ensures multiset(Concat(Visited(data, order))) == multiset(Concat(Visited(data - {g}, rest))) + multiset(data[g])
  {
    assert g in Elems(order);
    var i :| 0 <= i < |order| && order[i] == g;
    rest := order[..i] + order[i + 1..];
    VisitedWithout(data, order, i);
    ConcatWithout(Visited(data, order), i);
  }

  /** The order in which the gateways are visited only permutes the merged list. */
  lemma {:induction false} AnyOrderPermutes<G, T>(data: map<G, seq<T>>, order: seq<G>, order': seq<G>)
    requires Lists(order, data) && Lists(order', data)
    ensures multiset(Concat(Visited(data, order))) == multiset(Concat(Visited(data, order')))
    decreases |order|
  {
    if order == [] {
      NoDupSize(order);
      NoDupSize(order');
    } else {
      assert order[0] in Elems(order);
      var rest := LeaveOut(data, order, order[0]);
      var rest' := LeaveOut(data, order', order[0]);
      AnyOrderPermutes(data - {order[0]}, rest, rest');
    }
  }

  // ---------------------------------------------------------------- CustomerIdListRet, CheckOnlineRet

  method CustomerIds<G(==), T(==)>(data: map<G, seq<T>>, order: seq<G>) returns (ret: seq<T>)
    requires Lists(order, data)
    ensures ret == Dedup(Concat(Visited(data, order)))
  {
    ghost var rs := Visited(data, order);
    var seen: set<T> := {};
    ret := [];
    var i := 0;
    while i < |order|
      invariant i <= |order|
      invariant ret == Dedup(Concat(rs[..i])) && seen == Elems(Concat(rs[..i]))
    {
      assert order[i] in Elems(order);
      ConcatNext(rs, i);
      DedupConcat(Concat(rs[..i]), rs[i]);
      ret, seen := DedupAppend(ret, seen, data[order[i]]);
      i := i + 1;
    }
    assert rs[..i] == rs;
  }

  method HasId<G(==), T(==)>(data: map<G, seq<T>>, order: seq<G>, id: T) returns (r: bool)
    requires Lists(order, data)
    ensures r <==> exists g :: g in data && id in data[g]
  {
    var i := 0;
    while i < |order|
      invariant i <= |order| && forall j :: 0 <= j < i ==> order[j] in data && id !in data[order[j]]
    {
      assert order[i] in Elems(order);
      if id in data[order[i]] {
        return true;
      }
      i := i + 1;
    }
    forall g | g in data ensures id !in data[g] {
      assert g in Elems(order);
    }
    return false;
  }

  /** The inner loop of Len. */
  method AddAll<T(==)>(before: set<T>, ids: seq<T>) returns (seen: set<T>)
    ensures seen == before + Elems(ids)
  {
    seen := before;
    var j := 0;
    while j < |ids|
      invariant j <= |ids| && seen == before + Elems(ids[..j])
    {
      TakeNext(ids, j);
      seen := seen + {ids[j]};
      j := j + 1;
    }
    assert ids[..j] == ids;
  }

  method CustomerCount<G(==), T(==)>(data: map<G, seq<T>>, order: seq<G>) returns (n: nat)
    requires Lists(order, data)
    ensures n == |Elems(Concat(Visited(data, order)))|
  {
    ghost var rs := Visited(data, order);
    var seen: set<T> := {};
    var i := 0;
    while i < |order|
      invariant i <= |order| && seen == Elems(Concat(rs[..i]))
    {
      assert order[i] in Elems(order);
      ConcatNext(rs, i);
      seen := AddAll(seen, data[order[i]]);
      i := i + 1;
    }
    assert rs[..i] == rs;
    n := |seen|;
  }

  lemma Listed<G, T>(data: map<G, seq<T>>, order: seq<G>, x: T)
    requires Lists(order, data)
    ensures x in Concat(Visited(data, order)) <==> exists g :: g in data && x in data[g]
  {
    var rs := Visited(data, order);
    ConcatHas(rs, x);
    if r :| r in rs && x in r {
      var i :| 0 <= i < |rs| && rs[i] == r;
      assert order[i] in data;
    }
    if g :| g in data && x in data[g] {
      assert g in Elems(order);
      var i :| 0 <= i < |order| && order[i] == g;
      assert rs[i] == data[g];
    }
  }

  /** Three views of one union: the merged list has no duplicates, has as many entries as are counted in any
      order, contains exactly what some gateway lists, and has the same elements for every order of visit. */
  lemma ThreeViews<G, T>(data: map<G, seq<T>>, order: seq<G>, order': seq<G>, x: T)
    requires Lists(order, data) && Lists(order', data)
    ensures var ids := Dedup(Concat(Visited(data, order)));
            && NoDup(ids)
            && |ids| == |Elems(Concat(Visited(data, order')))|
            && (x in ids <==> exists g :: g in data && x in data[g])
            && Elems(ids) == Elems(Dedup(Concat(Visited(data, order'))))
  {
    var a, b := Concat(Visited(data, order)), Concat(Visited(data, order'));
    DedupNoDup(a);
    DedupNoDup(b);
    NoDupSize(Dedup(a));
    Listed(data, order, x);
    AnyOrderPermutes(data, order, order');
    SameElems(a, b);
    assert Elems(Dedup(a)) == Elems(a) && Elems(Dedup(b)) == Elems(b);
  }

  lemma SameElems<T>(a: seq<T>, b: seq<T>)
    requires multiset(a) == multiset(b)
    ensures Elems(a) == Elems(b)
  {
    forall x ensures x in a <==> x in b {
      assert x in multiset(a) <==> x in a;
      assert x in multiset(b) <==> x in b;
    }
  }

  /** UniqIds of the online connections. */
  method OnlineIds<G(==), T>(data: map<G, seq<T>>, order: seq<G>) returns (ret: seq<T>)
    requires Lists(order, data)
    ensures ret == Concat(Visited(data, order))
  {
    ghost var rs := Visited(data, order);
    ret := [];
    var i := 0;
    while i < |order|
      invariant i <= |order| && ret == Concat(rs[..i])
    {
      assert order[i] in Elems(order);
      ConcatNext(rs, i);
      ret := ret + data[order[i]];
      i := i + 1;
    }
    assert rs[..i] == rs;
  }

  /** Len of the online connections: the length of the merged list, whatever the order of either visit. */
  method OnlineCount<G(==), T>(data: map<G, seq<T>>, order: seq<G>) returns (size: nat)
    requires Lists(order, data)
    ensures forall order' :: Lists(order', data) ==> size == |Concat(Visited(data, order'))|
  {
    ghost var rs := Visited(data, order);
    size := 0;
    var i := 0;
    while i < |order|
      invariant i <= |order| && size == |Concat(rs[..i])|
    {
      assert order[i] in Elems(order);
      ConcatNext(rs, i);
      size := size + |data[order[i]]|;
      i := i + 1;
    }
    assert rs[..i] == rs;
    forall order' | Lists(order', data) ensures size == |Concat(Visited(data, order'))| {
      AnyOrderPermutes(data, order, order');
      assert |multiset(Concat(Visited(data, order')))| == |Concat(Visited(data, order'))|;
    }
  }

  /** No list has duplicates and no two share an element. */
  ghost predicate Separate<T>(rs: seq<seq<T>>) {
    && (forall i :: 0 <= i < |rs| ==> NoDup(rs[i]))
    && (forall i, j, x :: 0 <= i < j < |rs| && x in rs[i] ==> x !in rs[j])
  }

  lemma NoDupPair<T>(a: seq<T>, b: seq<T>)
    ensures NoDup(a + b) <==> NoDup(a) && NoDup(b) && forall x :: x in a ==> x !in b
  {
    var s := a + b;
    assert forall i :: 0 <= i < |a| ==> s[i] == a[i];
    assert forall j :: 0 <= j < |b| ==> s[|a| + j] == b[j];
    if NoDup(s) {
      forall i, j | 0 <= i < j < |b| ensures b[i] != b[j] {
        assert s[|a| + i] != s[|a| + j];
      }
      forall i, j | 0 <= i < |a| && 0 <= j < |b| ensures a[i] != b[j] {
        assert s[i] != s[|a| + j];
      }
    }
    if NoDup(a) && NoDup(b) && forall x :: x in a ==> x !in b {
      forall i, j | 0 <= i < j < |s| ensures s[i] != s[j] {
        if i < |a| <= j {
          assert a[i] in a && b[j - |a|] in b;
        }
      }
    }
  }

  lemma SeparateNext<T>(rs: seq<seq<T>>, r: seq<T>)
    ensures Separate(rs + [r]) <==> Separate(rs) && NoDup(r) && forall x :: x in Concat(rs) ==> x !in r
  {
    var all := rs + [r];
    assert all[|rs|] == r && forall i :: 0 <= i < |rs| ==> all[i] == rs[i];
    if Separate(all) {
      forall x | x in Concat(rs) ensures x !in r {
        ConcatHas(rs, x);
        var l :| l in rs && x in l;
        var i :| 0 <= i < |rs| && all[i] == l;
        assert x !in all[|rs|];
      }
    }
    if Separate(rs) && NoDup(r) && forall x :: x in Concat(rs) ==> x !in r {
      forall i, j, x | 0 <= i < j < |all| && x in all[i] ensures x !in all[j] {
        if j == |rs| {
          ConcatHas(rs, x);
          assert rs[i] in rs;
        }
      }
    }
  }

  /** The merge that does not deduplicate has no duplicates exactly when no gateway lists an id twice and no
      two list the same id. */
  lemma {:induction false} PlainMergeNoDup<T>(rs: seq<seq<T>>)
    ensures NoDup(Concat(rs)) <==> Separate(rs)
    decreases |rs|
  {
    if rs != [] {
      var front, r := rs[..|rs| - 1], rs[|rs| - 1];
      PlainMergeNoDup(front);
      SeparateNext(front, r);
      NoDupPair(Concat(front), r);
      assert rs == front + [r];
    }
  }
}
