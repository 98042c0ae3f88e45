/**
 Bulk unicast: every item carries uniqIds and data, and the gateway sends the data of the item, in order,
 to each of its ids. With several gateways the items are split into one item per id.
 */
module Unicast {
  import opened Collections
  import opened Routing

  datatype Item<D> = Item(uniqIds: seq<string>, data: seq<D>)

  // ---------------------------------------------------------------- splitting

  /** One item per id. */
  function Singles<D>(ids: seq<string>, data: seq<D>): (items: seq<Item<D>>)
    ensures |items| == |ids|
  {
    if ids == [] then [] else Singles(ids[..|ids| - 1], data) + [Item([ids[|ids| - 1]], data)]
  }

  /** What the gateway under `key` is sent of the list. */
  function SplitFor<D>(items: seq<Item<D>>, key: string): seq<Item<D>> {
    if items == [] then []
    else
      var last := items[|items| - 1];
      SplitFor(items[..|items| - 1], key) + Singles(WithKey(last.uniqIds, key), last.data)
  }

  ghost predicate Tidy<D>(bulks: map<string, seq<Item<D>>>) {
    forall k :: k in bulks ==> bulks[k] != []
  }

  lemma SinglesNext<D>(ids: seq<string>, u: string, data: seq<D>)
    ensures Singles(ids + [u], data) == Singles(ids, data) + [Item([u], data)]
  {
    assert (ids + [u])[..|ids|] == ids;
  }

  /** The first `j` ids of an item have been put into their bulks. */
  ghost predicate Spreading<D>(before: map<string, seq<Item<D>>>, item: Item<D>, j: nat,
                               bulks: map<string, seq<Item<D>>>)
    requires j <= |item.uniqIds|
  {
    forall k :: Row(bulks, k) == Row(before, k) + Singles(WithKey(item.uniqIds[..j], k), item.data)
  }

  lemma SpreadNext<D>(before: map<string, seq<Item<D>>>, item: Item<D>, j: nat, was: map<string, seq<Item<D>>>,
                      bulks: map<string, seq<Item<D>>>)
    requires j < |item.uniqIds| && Spreading(before, item, j, was)
    requires var u := item.uniqIds[j]; bulks == was[Key(u) := Row(was, Key(u)) + [Item([u], item.data)]]
    ensures Spreading(before, item, j + 1, bulks)
  {
    var u := item.uniqIds[j];
    forall k ensures Row(bulks, k) == Row(before, k) + Singles(WithKey(item.uniqIds[..j + 1], k), item.data) {
      WithKeyNext(item.uniqIds, j, k);
      if k == Key(u) {
        var done := WithKey(item.uniqIds[..j], k);
        SinglesNext(done, u, item.data);
        Regroup(Row(before, k), Singles(done, item.data), [Item([u], item.data)]);
      } else {
        assert Row(bulks, k) == Row(was, k);
      }
    }
  }

  /** The inner loop: one item is spread over the bulks of its ids' gateways. */
  method Spread<D>(before: map<string, seq<Item<D>>>, item: Item<D>) returns (bulks: map<string, seq<Item<D>>>)
    requires Tidy(before)
    ensures Tidy(bulks) && Spreading(before, item, |item.uniqIds|, bulks)
  {
    bulks := before;
    var j := 0;
    SpreadStart(before, item);
    while j < |item.uniqIds|
      invariant j <= |item.uniqIds| && Tidy(bulks) && Spreading(before, item, j, bulks)
    {
      var u := item.uniqIds[j];
      ghost var was := bulks;
      bulks := bulks[Key(u) := Row(bulks, Key(u)) + [Item([u], item.data)]];
      SpreadNext(before, item, j, was, bulks);
      j := j + 1;
    }
  }

  lemma SpreadStart<D>(before: map<string, seq<Item<D>>>, item: Item<D>)
    ensures Spreading(before, item, 0, before)
  {
  }

  /** The bulks hold what every gateway is to be sent of the list. */
  ghost predicate SplitInto<D>(items: seq<Item<D>>, bulks: map<string, seq<Item<D>>>) {
    Tidy(bulks) && forall k :: Row(bulks, k) == SplitFor(items, k)
  }

  lemma SplitNext<D>(items: seq<Item<D>>, i: nat, before: map<string, seq<Item<D>>>, bulks: map<string, seq<Item<D>>>)
    requires i < |items| && SplitInto(items[..i], before)
    requires Tidy(bulks) && Spreading(before, items[i], |items[i].uniqIds|, bulks)
    ensures SplitInto(items[..i + 1], bulks)
  {
    TakeNext(items, i);
    var ids := items[i].uniqIds;
    assert ids[..|ids|] == ids;
    forall k ensures Row(bulks, k) == SplitFor(items[..i + 1], k) {
      assert Row(before, k) == SplitFor(items[..i], k);
    }
  }

  /** The bulks of the multi-gateway path. */
  method Split<D>(items: seq<Item<D>>) returns (bulks: map<string, seq<Item<D>>>)
    ensures SplitInto(items, bulks)
  {
    bulks := map[];
    var i := 0;
    while i < |items|
      invariant i <= |items| && SplitInto(items[..i], bulks)
    {
      ghost var before := bulks;
      bulks := Spread(bulks, items[i]);
      SplitNext(items, i, before, bulks);
      i := i + 1;
    }
    assert items[..i] == items;
  }

  /** What a gateway is sent: the whole list when it is the only one, else its bulk. */
  function Bulk<D>(items: seq<Item<D>>, registered: set<string>, key: string): seq<Item<D>> {
    if |registered| == 1 then items else SplitFor(items, key)
  }

  /** SingleCastBulk: at most one message to each gateway, for every order in which the bulks are visited. */
  method SingleCastBulk<D>(items: seq<Item<D>>, registered: set<string>) returns (sent: map<string, seq<Item<D>>>)
    ensures sent.Keys <= registered
    ensures forall k :: k in registered ==> Row(sent, k) == Bulk(items, registered, k)
    ensures Tidy(sent)
    ensures |registered| == 1 && items != [] ==> sent == map k | k in registered :: items
  {
    if |items| == 0 {
      assert forall k :: SplitFor(items, k) == [];
      return map[];
    }
    if |registered| == 1 {
      return map k | k in registered :: items;
    }
    var bulks := Split(items);
    sent := map[];
    var todo := bulks.Keys;
    while todo != {}
      invariant todo <= bulks.Keys && sent.Keys == (bulks.Keys - todo) * registered
      invariant forall k :: k in sent ==> sent[k] == bulks[k]
      decreases todo
    {
      var key :| key in todo;
      todo := todo - {key};
      if key in registered {
        sent := sent[key := bulks[key]];
      }
    }
    forall k | k in registered ensures Row(sent, k) == SplitFor(items, k) {
      assert Row(sent, k) == Row(bulks, k);
    }
  }

  // ---------------------------------------------------------------- what a connection receives

  function Count(u: string, ids: seq<string>): nat {
    multiset(ids)[u]
  }

  function Times<D>(d: D, m: nat): (r: seq<D>)
    ensures |r| == m && forall i :: 0 <= i < m ==> r[i] == d
  {
    if m == 0 then [] else Times(d, m - 1) + [d]
  }

  /** Each datum `m` times: the gateway goes through the data and, for each, through the ids. */
  function Interleaved<D>(data: seq<D>, m: nat): seq<D> {
    if data == [] then [] else Interleaved(data[..|data| - 1], m) + Times(data[|data| - 1], m)
  }

  /** All the data `m` times: the gateway goes through the ids and, for each, through the data. */
  function Repeated<D>(data: seq<D>, m: nat): seq<D> {
    if m == 0 then [] else Repeated(data, m - 1) + data
  }

  /** What a connection is sent that `m` times occurs in an item. */
  function Given<D>(data: seq<D>, m: nat, dataFirst: bool): seq<D> {
    if dataFirst then Interleaved(data, m) else Repeated(data, m)
  }

  /** What the connection `u` receives from a gateway that is sent these items. */
  function Delivered<D>(u: string, items: seq<Item<D>>, dataFirst: bool): seq<D> {
    if items == [] then []
    else
      var last := items[|items| - 1];
      Delivered(u, items[..|items| - 1], dataFirst) + Given(last.data, Count(u, last.uniqIds), dataFirst)
  }

  lemma DeliveredNext<D>(u: string, items: seq<Item<D>>, next: Item<D>, dataFirst: bool)
    ensures Delivered(u, items + [next], dataFirst)
            == Delivered(u, items, dataFirst) + Given(next.data, Count(u, next.uniqIds), dataFirst)
  {
    assert (items + [next])[..|items|] == items;
  }

  lemma DeliveredConcatNext<D>(u: string, a: seq<Item<D>>, front: seq<Item<D>>, last: Item<D>, dataFirst: bool)
    requires Delivered(u, a + front, dataFirst) == Delivered(u, a, dataFirst) + Delivered(u, front, dataFirst)
    ensures Delivered(u, (a + front) + [last], dataFirst)
            == Delivered(u, a, dataFirst) + Delivered(u, front + [last], dataFirst)
  {
    DeliveredNext(u, a + front, last, dataFirst);
    DeliveredNext(u, front, last, dataFirst);
    Regroup(Delivered(u, a, dataFirst), Delivered(u, front, dataFirst),
            Given(last.data, Count(u, last.uniqIds), dataFirst));
  }

  lemma {:induction false} DeliveredConcat<D>(u: string, a: seq<Item<D>>, b: seq<Item<D>>, dataFirst: bool)
    ensures Delivered(u, a + b, dataFirst) == Delivered(u, a, dataFirst) + Delivered(u, b, dataFirst)
    decreases |b|
  {
    if b == [] {
      assert a + b == a;
    } else {
      var front, last := b[..|b| - 1], b[|b| - 1];
      assert a + b == (a + front) + [last] && b == front + [last];
      DeliveredConcat(u, a, front, dataFirst);
      DeliveredConcatNext(u, a, front, last, dataFirst);
    }
  }

  lemma {:induction false} GivenOnce<D>(data: seq<D>, dataFirst: bool)
    ensures Given(data, 1, dataFirst) == data && Given(data, 0, dataFirst) == []
    decreases |data|
  {
    assert Repeated(data, 1) == Repeated(data, 0) + data == data;
    if data != [] {
      GivenOnce(data[..|data| - 1], true);
      var d := data[|data| - 1];
      assert data == data[..|data| - 1] + [d];
      assert Times(d, 1) == [d] && Times(d, 0) == [];
    }
  }

  /** From the items of one id each, it receives all the data as often as it occurs. */
  lemma {:induction false} SinglesDeliver<D>(u: string, ids: seq<string>, data: seq<D>, dataFirst: bool)
    ensures Delivered(u, Singles(ids, data), dataFirst) == Repeated(data, Count(u, ids))
    decreases |ids|
  {
    if ids != [] {
      var front, v := ids[..|ids| - 1], ids[|ids| - 1];
      SinglesDeliver(u, front, data, dataFirst);
      assert ids == front + [v];
      OneMore(u, front, v, data, dataFirst);
    }
  }

  lemma OneMore<D>(u: string, front: seq<string>, v: string, data: seq<D>, dataFirst: bool)
    requires Delivered(u, Singles(front, data), dataFirst) == Repeated(data, Count(u, front))
    ensures Delivered(u, Singles(front + [v], data), dataFirst) == Repeated(data, Count(u, front + [v]))
  {
    var item := Item([v], data);
    SinglesNext(front, v, data);
    DeliveredNext(u, Singles(front, data), item, dataFirst);
    CountNext(u, front, v);
    GivenOnce(data, dataFirst);
    if v != u {
      assert Given(data, Count(u, [v]), dataFirst) == [];
    } else {
      assert Given(data, Count(u, [v]), dataFirst) == data;
    }
  }

  lemma CountNext(u: string, ids: seq<string>, v: string)
    ensures Count(u, [v]) == if v == u then 1 else 0
    ensures Count(u, ids + [v]) == Count(u, ids) + Count(u, [v])
  {
  }

  /** From its own gateway's bulk it receives, item by item, all the data as often as it occurs there; from
      another gateway's bulk it would receive nothing. */
  lemma {:induction false} SplitDelivers<D>(u: string, items: seq<Item<D>>, key: string, dataFirst: bool)
    ensures Delivered(u, SplitFor(items, key), dataFirst) == if key == Key(u) then Delivered(u, items, false) else []
    decreases |items|
  {
    if items != [] {
      var front, last := items[..|items| - 1], items[|items| - 1];
      SplitDelivers(u, front, key, dataFirst);
      var singles := Singles(WithKey(last.uniqIds, key), last.data);
      DeliveredConcat(u, SplitFor(front, key), singles, dataFirst);
      SinglesDeliver(u, WithKey(last.uniqIds, key), last.data, dataFirst);
      GroupsPartition(last.uniqIds, u, key);
    }
  }

  // ---------------------------------------------------------------- when splitting changes nothing

  ghost predicate Constant<D>(data: seq<D>) {
    forall i :: 0 < i < |data| ==> data[i] == data[0]
  }

  /** No item lists `u` twice, unless all its data are equal. */
  ghost predicate Plain<D>(u: string, items: seq<Item<D>>) {
    forall i :: 0 <= i < |items| ==> Count(u, items[i].uniqIds) <= 1 || Constant(items[i].data)
  }

  lemma {:induction false} InterleavedSize<D>(data: seq<D>, m: nat)
    ensures |Interleaved(data, m)| == |data| * m
    decreases |data|
  {
    if data != [] {
      var n := |data| - 1;
      InterleavedSize(data[..n], m);
      assert (n + 1) * m == n * m + m;
    }
  }

  lemma {:induction false} RepeatedSize<D>(data: seq<D>, m: nat)
    ensures |Repeated(data, m)| == |data| * m
    decreases m
  {
    if m != 0 {
      RepeatedSize(data, m - 1);
      assert |data| * (m - 1) + |data| == |data| * m;
    }
  }

  lemma AtLeastTwice(n: nat, m: nat)
    requires m >= 2
    ensures n * m >= 2 * n
  {
  }

  /** With two or more copies each, the datum at position t > 0 has come from an earlier place in the data. */
  lemma {:induction false} InterleavedLags<D>(data: seq<D>, m: nat, t: nat)
    requires m >= 2 && 0 < t < |Interleaved(data, m)|
    ensures exists j :: 0 <= j < |data| && j < t && Interleaved(data, m)[t] == data[j]
    decreases |data|
  {
    var front, n := data[..|data| - 1], |data| - 1;
    InterleavedSize(front, m);
    if t < |Interleaved(front, m)| {
      InterleavedLags(front, m, t);
    } else {
      assert Interleaved(data, m)[t] == Times(data[n], m)[t - |Interleaved(front, m)|] == data[n];
      AtLeastTwice(n, m);
    }
  }

  lemma {:induction false} RepeatedStarts<D>(data: seq<D>, m: nat, t: nat)
    requires m >= 1 && t < |data|
    ensures t < |Repeated(data, m)| && Repeated(data, m)[t] == data[t]
    decreases m
  {
    if m > 1 {
      RepeatedStarts(data, m - 1, t);
    }
  }

  lemma {:induction false} EqualMeansConstant<D>(data: seq<D>, m: nat, t: nat)
    requires m >= 2 && Interleaved(data, m) == Repeated(data, m) && t < |data|
    ensures data[t] == data[0]
    decreases t
  {
    if t > 0 {
      RepeatedStarts(data, m, t);
      InterleavedLags(data, m, t);
      var j :| 0 <= j < |data| && j < t && Interleaved(data, m)[t] == data[j];
      EqualMeansConstant(data, m, j);
    }
  }

  lemma {:induction false} ConstantInterleaved<D>(data: seq<D>, d: D, m: nat)
    requires forall i :: 0 <= i < |data| ==> data[i] == d
    ensures Interleaved(data, m) == Times(d, |data| * m)
    decreases |data|
  {
    InterleavedSize(data, m);
    if data != [] {
      ConstantInterleaved(data[..|data| - 1], d, m);
    }
  }

  lemma {:induction false} ConstantRepeated<D>(data: seq<D>, d: D, m: nat)
    requires forall i :: 0 <= i < |data| ==> data[i] == d
    ensures Repeated(data, m) == Times(d, |data| * m)
    decreases m
  {
    RepeatedSize(data, m);
    if m != 0 {
      ConstantRepeated(data, d, m - 1);
    }
  }

  lemma GivenEqual<D>(data: seq<D>, m: nat)
    ensures Interleaved(data, m) == Repeated(data, m) <==> m <= 1 || Constant(data)
  {
    if m <= 1 {
      GivenOnce(data, true);
      GivenOnce(data, false);
    } else if data == [] {
      RepeatedSize(data, m);
    } else if Constant(data) {
      ConstantInterleaved(data, data[0], m);
      ConstantRepeated(data, data[0], m);
    } else if Interleaved(data, m) == Repeated(data, m) {
      forall i | 0 < i < |data| ensures data[i] == data[0] {
        EqualMeansConstant(data, m, i);
      }
    }
  }

  lemma SplitEqual<D>(a: seq<D>, b: seq<D>, c: seq<D>, d: seq<D>)
    requires |b| == |d|
    ensures a + b == c + d <==> a == c && b == d
  {
    if a + b == c + d {
      assert |a| == |c|;
      assert a == (a + b)[..|a|] == (c + d)[..|c|] == c;
      assert b == (a + b)[|a|..] == (c + d)[|c|..] == d;
    }
  }

  lemma OrdersEqualNext<D>(u: string, items: seq<Item<D>>, last: Item<D>)
    requires Delivered(u, items, true) == Delivered(u, items, false) <==> Plain(u, items)
    ensures Delivered(u, items + [last], true) == Delivered(u, items + [last], false)
            <==> Plain(u, items) && (Count(u, last.uniqIds) <= 1 || Constant(last.data))
  {
    var m := Count(u, last.uniqIds);
    DeliveredNext(u, items, last, true);
    DeliveredNext(u, items, last, false);
    InterleavedSize(last.data, m);
    RepeatedSize(last.data, m);
    GivenEqual(last.data, m);
    SplitEqual(Delivered(u, items, true), Interleaved(last.data, m),
               Delivered(u, items, false), Repeated(last.data, m));
  }

  lemma PlainNext<D>(u: string, items: seq<Item<D>>, last: Item<D>)
    ensures Plain(u, items + [last])
            <==> Plain(u, items) && (Count(u, last.uniqIds) <= 1 || Constant(last.data))
  {
    var all := items + [last];
    assert all[|items|] == last && forall i :: 0 <= i < |items| ==> all[i] == items[i];
  }

  lemma {:induction false} OrdersEqual<D>(u: string, items: seq<Item<D>>)
    ensures Delivered(u, items, true) == Delivered(u, items, false) <==> Plain(u, items)
    decreases |items|
  {
    if items != [] {
      var front, last := items[..|items| - 1], items[|items| - 1];
      assert items == front + [last];
      OrdersEqual(u, front);
      OrdersEqualNext(u, front, last);
      PlainNext(u, front, last);
    }
  }

  /** Splitting preserves what a connection receives, for every connection of a registered gateway, exactly
      when the gateway goes through the ids first or no item lists the connection twice with different data. */
  lemma SplittingPreserves<D>(items: seq<Item<D>>, registered: set<string>, sent: map<string, seq<Item<D>>>, u: string,
                              dataFirst: bool)
    requires forall k :: k in registered ==> Row(sent, k) == Bulk(items, registered, k)
    requires Key(u) in registered
    ensures Delivered(u, Row(sent, Key(u)), dataFirst) == Delivered(u, items, dataFirst)
            <==> |registered| == 1 || !dataFirst || Plain(u, items)
  {
    SplitDelivers(u, items, Key(u), dataFirst);
    OrdersEqual(u, items);
  }

  /** An item that lists a connection twice with different data: the gateway that goes through the data first
      delivers them in another order when the request has been split. */
  lemma SplittingReorders(u: string)
    ensures var items := [Item([u, u], [1, 2])];
            && Delivered(u, items, true) == [1, 1, 2, 2]
            && Delivered(u, SplitFor(items, Key(u)), true) == [1, 2, 1, 2]
  {
    var items := [Item([u, u], [1, 2])];
    assert items[..0] == [] && Count(u, [u, u]) == 2;
    assert Times(1, 2) == [1, 1] && Times(2, 2) == [2, 2];
    assert [1, 2][..1] == [1] && [1][..0] == [];
    assert Interleaved([1, 2], 2) == Interleaved([1], 2) + [2, 2];
    assert Interleaved([1], 2) == Interleaved([], 2) + [1, 1];
    SplitDelivers(u, items, Key(u), true);
    assert Repeated([1, 2], 2) == Repeated([1, 2], 1) + [1, 2] == (Repeated([1, 2], 0) + [1, 2]) + [1, 2];
  }
}
