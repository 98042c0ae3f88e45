/**
 Queries about some connections: with one gateway the whole request goes to it, with several every gateway
 is asked for its own group, and the replies are filed under the gateways' addresses.
 */
module FanOut {
  import opened Options
  import opened Collections
  import opened KeyedResults
  import opened Routing

  /** The registered gateways by key, with their addresses; `answer` is what one exchange with a gateway
      about some ids brings back: None when no connection was lent, Receive returned nil or the reply could
      not be decoded. */
  datatype Net<R> = Net(gateways: map<string, string>, answer: (string, seq<string>) -> Option<R>)
  {
    /** A gateway's key is computed from its address, so different gateways have different addresses. */
    ghost predicate Valid() {
      forall k, l :: k in gateways && l in gateways && gateways[k] == gateways[l] ==> k == l
    }
  }

  /** The ids a gateway is asked about: with a single gateway all of them, if the first one is its own. */
  function Asked<R>(net: Net<R>, ids: seq<string>, key: string): seq<string> {
    if |net.gateways| != 1 then WithKey(ids, key)
    else if ids == [] || Key(ids[0]) != key then [] else ids
  }

  /** The reply of every gateway that was asked and answered, under its address, and nothing else. */
  ghost predicate Replied<R>(net: Net<R>, ids: seq<string>, res: map<string, R>) {
    && (forall a :: a in res ==> exists k :: k in net.gateways && net.gateways[k] == a)
    && forall k :: k in net.gateways ==>
         At(res, net.gateways[k]) == if Asked(net, ids, k) == [] then None else net.answer(k, Asked(net, ids, k))
  }

  /** The groups visited so far have been asked and their replies filed. */
  ghost predicate Filing<R>(net: Net<R>, groups: map<string, seq<string>>, todo: set<string>, res: map<string, R>) {
    && (forall a :: a in res ==> exists k :: k in net.gateways && net.gateways[k] == a)
    && forall k :: k in net.gateways ==>
         At(res, net.gateways[k]) == if k in groups && k !in todo then net.answer(k, groups[k]) else None
  }

  lemma FilingNext<R>(net: Net<R>, groups: map<string, seq<string>>, todo: set<string>, key: string,
                      before: map<string, R>, res: map<string, R>)
    requires net.Valid() && Filing(net, groups, todo, before) && key in todo && key in groups
    requires key !in net.gateways ==> res == before
    requires key in net.gateways ==>
               match net.answer(key, groups[key])
               case None => res == before
               case Some(reply) => res == before[net.gateways[key] := reply]
    ensures Filing(net, groups, todo - {key}, res)
  {
  }

  /** CheckOnline and ConnInfo, for every order in which the groups are visited. */
  method Query<R>(net: Net<R>, ids: seq<string>) returns (res: map<string, R>)
    requires net.Valid()
    ensures Replied(net, ids, res)
    ensures |net.gateways| == 1 && ids != [] ==> forall k :: k in net.gateways ==>
              At(res, net.gateways[k]) == if Key(ids[0]) == k then net.answer(k, ids) else None
  {
    res := map[];
    if |ids| == 0 {
      return;
    }
    if |net.gateways| == 1 {
      var key := Key(ids[0]);
      if key in net.gateways {
        var reply := net.answer(key, ids);
        if reply.Some? {
          res := res[net.gateways[key] := reply.value];
        }
      }
      return;
    }
    var groups := GroupByAddr(ids);
    var todo := groups.Keys;
    while todo != {}
      invariant todo <= groups.Keys && Filing(net, groups, todo, res)
      decreases todo
    {
      var key :| key in todo;
      ghost var before, left := res, todo;
      todo := todo - {key};
      if key in net.gateways {
        var reply := net.answer(key, groups[key]);
        if reply.Some? {
          res := res[net.gateways[key] := reply.value];
        }
      }
      FilingNext(net, groups, left, key, before, res);
    }
  }

  // ---------------------------------------------------------------- CheckOnline

  /** Each gateway knows which of the ids it has assigned are online; `up` are the gateways with which the
      exchange succeeds. */
  datatype Presence = Presence(online: map<string, set<string>>, up: set<string>)
  {
    ghost predicate Valid() {
      forall k, u :: k in online && u in online[k] ==> Key(u) == k
    }

    predicate Online(u: string) {
      Key(u) in online && u in online[Key(u)]
    }
  }

  /** A gateway answers with exactly the ids it is asked about that are online there. */
  ghost predicate Honest(net: Net<seq<string>>, p: Presence) {
    && p.online.Keys == net.gateways.Keys
    && forall k, ids :: k in net.gateways ==>
         var reply := net.answer(k, ids);
         if k in p.up then reply.Some? && Elems(reply.value) == Elems(ids) * p.online[k] else reply.None?
  }

  ghost predicate Has(res: map<string, seq<string>>, u: string) {
    exists a :: a in res && u in res[a]
  }

  lemma HasAt(net: Net<seq<string>>, p: Presence, ids: seq<string>, res: map<string, seq<string>>, u: string)
    requires net.Valid() && p.Valid() && Honest(net, p) && Replied(net, ids, res)
    ensures Has(res, u) <==> Key(u) in net.gateways && Key(u) in p.up && p.Online(u) && u in Asked(net, ids, Key(u))
  {
    if Has(res, u) {
      var a :| a in res && u in res[a];
      var k :| k in net.gateways && net.gateways[k] == a;
      assert At(res, a) == net.answer(k, Asked(net, ids, k));
      assert u in Elems(res[a]);
    }
    if Key(u) in net.gateways && Key(u) in p.up && p.Online(u) && u in Asked(net, ids, Key(u)) {
      var a := net.gateways[Key(u)];
      assert At(res, a) == net.answer(Key(u), Asked(net, ids, Key(u)));
      assert u in Elems(Asked(net, ids, Key(u)));
      assert u in Elems(res[a]);
    }
  }

  /** With several gateways an id is reported exactly when it was asked for and is online at its own gateway,
      and that gateway is registered and answered: the split request refines the whole one. */
  lemma FanOutRefinesWhole(net: Net<seq<string>>, p: Presence, ids: seq<string>, res: map<string, seq<string>>,
                           u: string)
    requires net.Valid() && p.Valid() && Honest(net, p) && Replied(net, ids, res)
    requires |net.gateways| != 1
    ensures Has(res, u) <==> u in ids && Key(u) in net.gateways && Key(u) in p.up && p.Online(u)
  {
    HasAt(net, p, ids, res, u);
    WithKeyHas(ids, Key(u), u);
  }

  /** With one gateway the same holds of all ids exactly when the first id is its own, or none of the ids
      would have been reported anyway: the connection is looked up by the first id alone. */
  lemma SinglePointExactly(net: Net<seq<string>>, p: Presence, ids: seq<string>, res: map<string, seq<string>>,
                           only: string)
    requires net.Valid() && p.Valid() && Honest(net, p) && Replied(net, ids, res)
    requires net.gateways.Keys == {only} && ids != []
    ensures (forall u :: Has(res, u) <==> u in ids && Key(u) in net.gateways && Key(u) in p.up && p.Online(u))
            <==> Key(ids[0]) == only || only !in p.up || Elems(ids) !! p.online[only]
  {
    assert |net.gateways| == |net.gateways.Keys| == 1;
    forall u ensures Has(res, u) <==> only in p.up && u in p.online[only] && u in ids && Key(ids[0]) == only {
      HasAt(net, p, ids, res, u);
    }
    forall u ensures p.Online(u) <==> u in p.online[only] {
    }
    if !(Elems(ids) !! p.online[only]) {
      var u :| u in Elems(ids) && u in p.online[only];
      assert p.Online(u);
    }
  }

  /** One gateway, which is reachable and has the connection `u` and no other. */
  function HomeOf(u: string): Net<seq<string>> {
    Net(map[Key(u) := "gateway"], (k, ids) => Some(if u in ids then [u] else []))
  }

  /** A connection that is online at the only gateway, and asked for, is not reported when the first id of the
      request is of no gateway. */
  lemma FirstIdDecides(res: map<string, seq<string>>)
    requires Replied(HomeOf(HOME_ID), ["", HOME_ID], res)
    ensures var p := Presence(map[Key(HOME_ID) := {HOME_ID}], {Key(HOME_ID)});
            && HomeOf(HOME_ID).Valid() && p.Valid() && Honest(HomeOf(HOME_ID), p)
            && p.Online(HOME_ID) && Key(HOME_ID) in p.up && !Has(res, HOME_ID)
  {
    var u, net := HOME_ID, HomeOf(HOME_ID);
    var p := Presence(map[Key(u) := {u}], {Key(u)});
    forall k, ids | k in net.gateways
      ensures net.answer(k, ids).Some? && Elems(net.answer(k, ids).value) == Elems(ids) * p.online[k]
    {
    }
    assert net.gateways.Keys == {Key(u)} && p.online.Keys == {Key(u)};
    assert ["", u][0] == "" && Key("") != Key(u);
    HasAt(net, p, ["", u], res, u);
  }

  const HOME_ID := "7f0000011771" + "0000000000000000"

  // ---------------------------------------------------------------- ConnInfo

  /** A gateway answers only about connections it has, which carry its prefix. */
  ghost predicate AboutItsOwn<V>(net: Net<map<string, V>>) {
    forall k, ids, u :: k in net.gateways && net.answer(k, ids).Some? && u in net.answer(k, ids).value ==> Key(u) == k
  }

  /** No two replies are about the same connection, so Get and ToMap return the same item for it, whatever
      the two orders in which they visit the gateways. */
  lemma RepliesAreDisjoint<V>(net: Net<map<string, V>>, ids: seq<string>, res: map<string, map<string, V>>, u: string)
    requires net.Valid() && AboutItsOwn(net) && Replied(net, ids, res)
    ensures forall a, b :: a in res && b in res && u in res[a] && u in res[b] ==> a == b
    ensures Agree(res, u)
  {
    forall a | a in res && u in res[a] ensures Key(u) in net.gateways && net.gateways[Key(u)] == a {
      var k :| k in net.gateways && net.gateways[k] == a;
      assert At(res, a) == net.answer(k, Asked(net, ids, k));
    }
    AgreeExactly(res, u);
  }
}
