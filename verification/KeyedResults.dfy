/**
 Merging replies that list something per topic, customer or connection: the merge of all keys against the
 form that looks up one key. `order` is the order in which the gateways are visited, as in Results; the
 keys inside one reply are visited in whatever order `:|` picks.
 */
module KeyedResults {
  import opened Options
  import opened Collections
  import opened Results

  /** What the gateways list under `key`, one after the other. */
  function Under<K, T>(rs: seq<map<K, seq<T>>>, key: K): seq<T> {
    if rs == [] then [] else Under(rs[..|rs| - 1], key) + Row(rs[|rs| - 1], key)
  }

  /** The list of one key is the concatenation of its lists at the gateways, empty where it is missing. */
  lemma {:induction false} UnderIsConcat<K, T>(rs: seq<map<K, seq<T>>>, key: K)
    ensures Under(rs, key) == Concat(seq(|rs|, i requires 0 <= i < |rs| => Row(rs[i], key)))
    decreases |rs|
  {
    if rs != [] {
      var n := |rs| - 1;
      UnderIsConcat(rs[..n], key);
      var rows := seq(|rs|, i requires 0 <= i < |rs| => Row(rs[i], key));
      assert rows[..n] == seq(n, i requires 0 <= i < n => Row(rs[..n][i], key));
    }
  }

  lemma UnderNext<K, T>(rs: seq<map<K, seq<T>>>, i: nat, key: K)
    requires i < |rs|
    ensures Under(rs[..i + 1], key) == Under(rs[..i], key) + Row(rs[i], key)
    ensures key !in rs[i] ==> Under(rs[..i + 1], key) == Under(rs[..i], key)
  {
    TakeNext(rs, i);
  }

  ghost predicate SomeLists<K, R>(rs: seq<map<K, R>>, key: K) {
    exists i :: 0 <= i < |rs| && key in rs[i]
  }

  lemma SomeListsNext<K, R>(rs: seq<map<K, R>>, i: nat, key: K)
    requires i < |rs|
    ensures SomeLists(rs[..i + 1], key) <==> SomeLists(rs[..i], key) || key in rs[i]
  {
    TakeNext(rs, i);
    if SomeLists(rs[..i], key) {
      var j :| 0 <= j < i && key in rs[..i][j];
      assert rs[..i + 1][j] == rs[..i][j];
    }
    assert rs[..i + 1][i] == rs[i];
  }

  /** TopicUniqIds, and Get of the connections of one customer. */
  method GetUnder<G(==), K(==), T>(data: map<G, map<K, seq<T>>>, order: seq<G>, key: K) returns (ret: seq<T>)
    requires Lists(order, data)
    ensures ret == Under(Visited(data, order), key)
  {
    ghost var rs := Visited(data, order);
    ret := [];
    var i := 0;
    while i < |order|
      invariant i <= |order| && ret == Under(rs[..i], key)
    {
      assert order[i] in Elems(order);
      UnderNext(rs, i, key);
      var m := data[order[i]];
      if key in m {
        ret := ret + m[key];
      }
      i := i + 1;
    }
    assert rs[..i] == rs;
  }

  /** Appends one gateway's lists, its keys visited in any order. */
  method MergeOne<K(==), T>(before: map<K, seq<T>>, m: map<K, seq<T>>) returns (ret: map<K, seq<T>>)
    ensures ret.Keys == before.Keys + m.Keys
    ensures forall key :: key in ret ==> ret[key] == Row(before, key) + Row(m, key)
  {
    ret := before;
    var todo := m.Keys;
    while todo != {}
      invariant todo <= m.Keys && ret.Keys == before.Keys + (m.Keys - todo)
      invariant forall key :: key in ret ==>
        ret[key] == if key in todo then Row(before, key) else Row(before, key) + Row(m, key)
      decreases todo
    {
      var key :| key in todo;
      ret := ret[key := Row(ret, key) + m[key]];
      todo := todo - {key};
    }
  }

  /** What the merge of the replies comes to: under every listed key what the single-key form returns. */
  ghost predicate Merged<K(!new), T>(ret: map<K, seq<T>>, rs: seq<map<K, seq<T>>>) {
    forall key :: if SomeLists(rs, key) then key in ret && ret[key] == Under(rs, key)
                  else key !in ret && Under(rs, key) == []
  }

  lemma MergedNext<K(!new), T>(before: map<K, seq<T>>, rs: seq<map<K, seq<T>>>, i: nat, ret: map<K, seq<T>>)
    requires i < |rs| && Merged(before, rs[..i])
    requires ret.Keys == before.Keys + rs[i].Keys
    requires forall key :: key in ret ==> ret[key] == Row(before, key) + Row(rs[i], key)
    ensures Merged(ret, rs[..i + 1])
  {
    forall key
      ensures if SomeLists(rs[..i + 1], key) then key in ret && ret[key] == Under(rs[..i + 1], key)
              else key !in ret && Under(rs[..i + 1], key) == []
    {
      UnderNext(rs, i, key);
      SomeListsNext(rs, i, key);
    }
  }

  /** UniqIds by topic, and ToMap of the connections by customer. */
  method MergeKeyed<G(==), K(!new, ==), T>(data: map<G, map<K, seq<T>>>, order: seq<G>) returns (ret: map<K, seq<T>>)
    requires Lists(order, data)
    ensures Merged(ret, Visited(data, order))
  {
    ghost var rs := Visited(data, order);
    ret := map[];
    var i := 0;
    while i < |order|
      invariant i <= |order| && Merged(ret, rs[..i])
    {
      assert order[i] in Elems(order);
      ghost var before := ret;
      ret := MergeOne(ret, data[order[i]]);
      MergedNext(before, rs, i, ret);
      i := i + 1;
    }
    assert rs[..i] == rs;
  }

  // ---------------------------------------------------------------- the same with deduplication

  /** TopicCustomerIds. */
  method TopicCustomerIds<G(==), K(==), T(==)>(data: map<G, map<K, seq<T>>>, order: seq<G>, topic: K)
    returns (ret: seq<T>)
    requires Lists(order, data)
    ensures ret == Dedup(Under(Visited(data, order), topic))
  {
    ghost var rs := Visited(data, order);
    var seen: set<T> := {};
    ret := [];
    var i := 0;
    while i < |order|
      invariant i <= |order|
      invariant ret == Dedup(Under(rs[..i], topic)) && seen == Elems(Under(rs[..i], topic))
    {
      assert order[i] in Elems(order);
      UnderNext(rs, i, topic);
      var m := data[order[i]];
      if topic in m {
        DedupConcat(Under(rs[..i], topic), m[topic]);
        ret, seen := DedupAppend(ret, seen, m[topic]);
      }
      i := i + 1;
    }
    assert rs[..i] == rs;
  }

  function SeenAt<K, T>(seen: map<K, set<T>>, topic: K): set<T> {
    if topic in seen then seen[topic] else {}
  }

  /** One call of dedupAppend, on a topic's list and its seen set. */
  predicate Turn<T(==)>(list: seq<T>, seen: set<T>, ids: seq<T>, list': seq<T>, seen': set<T>) {
    list' == list + Without(Dedup(ids), seen) && seen' == seen + Elems(ids)
  }

  /** What has become of topic `t` when the topics in `todo` of one gateway are still to come. */
  ghost predicate Turned<K, T>(before: map<K, seq<T>>, seen0: map<K, set<T>>, m: map<K, seq<T>>, todo: set<K>,
                               ret: map<K, seq<T>>, seen: map<K, set<T>>, t: K)
  {
    if t in m && t !in todo then Turn(Row(before, t), SeenAt(seen0, t), m[t], Row(ret, t), SeenAt(seen, t))
    else Row(ret, t) == Row(before, t) && SeenAt(seen, t) == SeenAt(seen0, t)
  }

  /** Appends one gateway's lists, each against the seen set of its own topic. */
  method DedupOne<K(!new, ==), T(==)>(before: map<K, seq<T>>, seen0: map<K, set<T>>, m: map<K, seq<T>>)
    returns (ret: map<K, seq<T>>, seen: map<K, set<T>>)
    ensures ret.Keys == before.Keys + m.Keys
    ensures forall t :: Turned(before, seen0, m, {}, ret, seen, t)
  {
    ret, seen := before, seen0;
    var todo := m.Keys;
    while todo != {}
      invariant todo <= m.Keys && ret.Keys == before.Keys + (m.Keys - todo)
      invariant forall t :: Turned(before, seen0, m, todo, ret, seen, t)
      decreases todo
    {
      var topic :| topic in todo;
      assert Turned(before, seen0, m, todo, ret, seen, topic);
      ghost var ret0, seen1, todo0 := ret, seen, todo;
      var list, s := DedupAppend(Row(ret, topic), SeenAt(seen, topic), m[topic]);
      ret, seen := ret[topic := list], seen[topic := s];
      todo := todo - {topic};
      forall t ensures Turned(before, seen0, m, todo, ret, seen, t) {
        assert Turned(before, seen0, m, todo0, ret0, seen1, t);
      }
    }
  }

  ghost predicate DedupMerged<K(!new), T>(ret: map<K, seq<T>>, seen: map<K, set<T>>, rs: seq<map<K, seq<T>>>) {
    && (forall t :: t in ret <==> SomeLists(rs, t))
    && (forall t :: Row(ret, t) == Dedup(Under(rs, t)))
    && (forall t :: SeenAt(seen, t) == Elems(Under(rs, t)))
  }

  lemma DedupMergedNext<K(!new), T>(before: map<K, seq<T>>, seen0: map<K, set<T>>, rs: seq<map<K, seq<T>>>, i: nat,
                                    ret: map<K, seq<T>>, seen: map<K, set<T>>)
    requires i < |rs| && DedupMerged(before, seen0, rs[..i])
    requires ret.Keys == before.Keys + rs[i].Keys
    requires forall t :: Turned(before, seen0, rs[i], {}, ret, seen, t)
    ensures DedupMerged(ret, seen, rs[..i + 1])
  {
    forall t
      ensures t in ret <==> SomeLists(rs[..i + 1], t)
      ensures Row(ret, t) == Dedup(Under(rs[..i + 1], t))
      ensures SeenAt(seen, t) == Elems(Under(rs[..i + 1], t))
    {
      SomeListsNext(rs, i, t);
      UnderNext(rs, i, t);
      assert Turned(before, seen0, rs[i], {}, ret, seen, t);
      if t in rs[i] {
        TurnDedups(Under(rs[..i], t), rs[i][t], Row(ret, t), SeenAt(seen, t));
      }
    }
  }

  lemma TurnDedups<T>(all: seq<T>, ids: seq<T>, list: seq<T>, seen: set<T>)
    requires Turn(Dedup(all), Elems(all), ids, list, seen)
    ensures list == Dedup(all + ids) && seen == Elems(all + ids)
  {
    DedupConcat(all, ids);
  }

  /** CustomerIds by topic: a topic is present exactly when some gateway lists it, and then with the very list
      that TopicCustomerIds returns for it in the same gateway order. */
  method CustomerIdsByTopic<G(==), K(!new, ==), T(==)>(data: map<G, map<K, seq<T>>>, order: seq<G>)
    returns (ret: map<K, seq<T>>)
    requires Lists(order, data)
    ensures forall t :: t in ret <==> SomeLists(Visited(data, order), t)
    ensures forall t :: t in ret ==> ret[t] == Dedup(Under(Visited(data, order), t))
  {
    ghost var rs := Visited(data, order);
    var seen: map<K, set<T>> := map[];
    ret := map[];
    var i := 0;
    while i < |order|
      invariant i <= |order| && DedupMerged(ret, seen, rs[..i])
    {
      assert order[i] in Elems(order);
      ghost var before, seen0 := ret, seen;
      ret, seen := DedupOne(ret, seen, data[order[i]]);
      DedupMergedNext(before, seen0, rs, i, ret, seen);
      i := i + 1;
    }
    assert rs[..i] == rs;
    forall t | t in ret ensures ret[t] == Dedup(Under(rs, t)) {
      assert Row(ret, t) == ret[t];
    }
  }

  // ---------------------------------------------------------------- ConnInfoRet

  function At<K, V>(m: map<K, V>, key: K): Option<V> {
    if key in m then Some(m[key]) else None
  }

  function FirstHit<K, V>(rs: seq<map<K, V>>, key: K): Option<V> {
    if rs == [] then None else if key in rs[0] then At(rs[0], key) else FirstHit(rs[1..], key)
  }

  function LastHit<K, V>(rs: seq<map<K, V>>, key: K): Option<V> {
    if rs == [] then None
    else if key in rs[|rs| - 1] then At(rs[|rs| - 1], key) else LastHit(rs[..|rs| - 1], key)
  }

  /** Get: the first gateway that lists the connection. */
  method Get<G(==), K(==), V>(data: map<G, map<K, V>>, order: seq<G>, uniqId: K) returns (r: Option<V>)
    requires Lists(order, data)
    ensures r == FirstHit(Visited(data, order), uniqId)
  {
    ghost var rs := Visited(data, order);
    var i := 0;
    while i < |order|
      invariant i <= |order| && FirstHit(rs, uniqId) == FirstHit(rs[i..], uniqId)
    {
      assert order[i] in Elems(order);
      assert rs[i..][0] == rs[i] && rs[i..][1..] == rs[i + 1..];
      var m := data[order[i]];
      if uniqId in m {
        return Some(m[uniqId]);
      }
      i := i + 1;
    }
    return None;
  }

  /** Overwrites with one gateway's entries, visited in any order. */
  method Overwrite<K(==), V>(before: map<K, V>, m: map<K, V>) returns (ret: map<K, V>)
    ensures ret == before + m
  {
    ret := before;
    var todo := m.Keys;
    while todo != {}
      invariant todo <= m.Keys && ret.Keys == before.Keys + (m.Keys - todo)
      invariant forall key :: key in ret ==> ret[key] == if key in m && key !in todo then m[key] else before[key]
      decreases todo
    {
      var key :| key in todo;
      ret := ret[key := m[key]];
      todo := todo - {key};
    }
  }

  /** ToMap: the last gateway that lists the connection. */
  method ToMap<G(==), K(!new, ==), V>(data: map<G, map<K, V>>, order: seq<G>) returns (ret: map<K, V>)
    requires Lists(order, data)
    ensures forall key :: At(ret, key) == LastHit(Visited(data, order), key)
  {
    ghost var rs := Visited(data, order);
    ret := map[];
    var i := 0;
    while i < |order|
      invariant i <= |order| && forall key :: At(ret, key) == LastHit(rs[..i], key)
    {
      assert order[i] in Elems(order);
      TakeNext(rs, i);
      ret := Overwrite(ret, data[order[i]]);
      i := i + 1;
    }
    assert rs[..i] == rs;
  }

  lemma {:induction false} FirstHitIsListed<K, V>(rs: seq<map<K, V>>, key: K)
    ensures FirstHit(rs, key).Some? <==> SomeLists(rs, key)
    ensures FirstHit(rs, key).Some? ==> exists i :: 0 <= i < |rs| && At(rs[i], key) == FirstHit(rs, key)
    decreases |rs|
  {
    if rs != [] && key !in rs[0] {
      FirstHitIsListed(rs[1..], key);
      forall i | 1 <= i < |rs| ensures rs[i] == rs[1..][i - 1] {
      }
    }
  }

  lemma {:induction false} LastHitIsListed<K, V>(rs: seq<map<K, V>>, key: K)
    ensures LastHit(rs, key).Some? <==> SomeLists(rs, key)
    ensures LastHit(rs, key).Some? ==> exists i :: 0 <= i < |rs| && At(rs[i], key) == LastHit(rs, key)
    decreases |rs|
  {
    if rs != [] {
      var n := |rs| - 1;
      TakeNext(rs, n);
      SomeListsNext(rs, n, key);
      assert rs[..n + 1] == rs;
      if key !in rs[n] {
        LastHitIsListed(rs[..n], key);
      }
    }
  }

  /** All gateways that list the connection list the same item for it. */
  ghost predicate OneItem<G, K, V>(data: map<G, map<K, V>>, uniqId: K) {
    forall g, h :: g in data && h in data && uniqId in data[g] && uniqId in data[h] ==>
      data[g][uniqId] == data[h][uniqId]
  }

  ghost predicate Agree<G(!new), K, V>(data: map<G, map<K, V>>, uniqId: K) {
    forall o, o' :: Lists(o, data) && Lists(o', data) ==>
      FirstHit(Visited(data, o), uniqId) == LastHit(Visited(data, o'), uniqId)
  }

  lemma {:induction false} SomeOrder<G(!new)>(keys: set<G>) returns (order: seq<G>)
    ensures NoDup(order) && Elems(order) == keys
    decreases keys
  {
    if keys == {} {
      order := [];
    } else {
      var g :| g in keys;
      order := SomeOrder(keys - {g});
      assert Elems(order + [g]) == Elems(order) + {g};
      order := order + [g];
    }
  }

  lemma OrderFrom<G(!new), R>(data: map<G, R>, g: G) returns (order: seq<G>)
    requires g in data
    ensures Lists(order, data) && order[0] == g
  {
    var rest := SomeOrder(data.Keys - {g});
    order := [g] + rest;
    assert Elems(order) == {g} + Elems(rest);
    assert g !in rest;
  }

  lemma ListedInSome<G, K, V>(data: map<G, map<K, V>>, order: seq<G>, uniqId: K)
    requires Lists(order, data)
    ensures SomeLists(Visited(data, order), uniqId) <==> exists g :: g in data && uniqId in data[g]
  {
    var rs := Visited(data, order);
    if i :| 0 <= i < |rs| && uniqId in rs[i] {
      assert order[i] in Elems(order) && rs[i] == data[order[i]];
    }
    if g :| g in data && uniqId in data[g] {
      assert g in Elems(order);
      var i :| 0 <= i < |order| && order[i] == g;
      assert rs[i] == data[g];
    }
  }

  /** Get and ToMap agree on a connection for all pairs of gateway orders exactly when no two gateways list it
      with different items. */
  lemma AgreeExactly<G(!new), K, V>(data: map<G, map<K, V>>, uniqId: K)
    ensures Agree(data, uniqId) <==> OneItem(data, uniqId)
  {
    if OneItem(data, uniqId) {
      forall o, o' | Lists(o, data) && Lists(o', data)
        ensures FirstHit(Visited(data, o), uniqId) == LastHit(Visited(data, o'), uniqId)
      {
        HitsAgree(data, o, o', uniqId);
      }
    }
    if Agree(data, uniqId) {
      forall g, h | g in data && h in data && uniqId in data[g] && uniqId in data[h]
        ensures data[g][uniqId] == data[h][uniqId]
      {
        var o := OrderFrom(data, g);
        var o' := OrderFrom(data, h);
        assert Visited(data, o)[0] == data[g] && Visited(data, o')[0] == data[h];
        assert FirstHit(Visited(data, o), uniqId) == LastHit(Visited(data, o), uniqId);
        assert FirstHit(Visited(data, o'), uniqId) == LastHit(Visited(data, o), uniqId);
      }
    }
  }

  lemma HitsAgree<G, K, V>(data: map<G, map<K, V>>, o: seq<G>, o': seq<G>, uniqId: K)
    requires Lists(o, data) && Lists(o', data) && OneItem(data, uniqId)
    ensures FirstHit(Visited(data, o), uniqId) == LastHit(Visited(data, o'), uniqId)
  {
    var rs, rs' := Visited(data, o), Visited(data, o');
    FirstHitIsListed(rs, uniqId);
    LastHitIsListed(rs', uniqId);
    ListedInSome(data, o, uniqId);
    ListedInSome(data, o', uniqId);
    if SomeLists(rs, uniqId) {
      var i :| 0 <= i < |rs| && At(rs[i], uniqId) == FirstHit(rs, uniqId);
      var j :| 0 <= j < |rs'| && At(rs'[j], uniqId) == LastHit(rs', uniqId);
      assert o[i] in Elems(o) && o'[j] in Elems(o');
      assert rs[i] == data[o[i]] && rs'[j] == data[o'[j]];
    }
  }

  /** Two gateways with different items for one connection: Get and ToMap differ although they visit the
      gateways in the same order. */
  lemma GetDiffersFromToMap()
    ensures var data := map["a" := map["u" := 1], "b" := map["u" := 2]];
            && Lists(["a", "b"], data) && !OneItem(data, "u")
            && FirstHit(Visited(data, ["a", "b"]), "u") == Some(1)
            && LastHit(Visited(data, ["a", "b"]), "u") == Some(2)
  {
    var data := map["a" := map["u" := 1], "b" := map["u" := 2]];
    assert Elems(["a", "b"]) == {"a", "b"};
    assert data["a"]["u"] != data["b"]["u"];
    assert Visited(data, ["a", "b"]) == [data["a"], data["b"]];
  }
}
