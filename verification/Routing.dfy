/** Requests are split by the gateway that assigned each uniqId. */
module Routing {
  import opened Address
  import opened Collections

  function Key(uniqId: string): string {
    UniqIdConvertToAddrAsHex(uniqId)
  }

  // ---------------------------------------------------------------- grouping

  /** The ids of one gateway, in their order. */
  function WithKey(ids: seq<string>, key: string): seq<string> {
    if ids == [] then []
    else
      var n := |ids| - 1;
      if Key(ids[n]) == key then WithKey(ids[..n], key) + [ids[n]] else WithKey(ids[..n], key)
  }

  lemma WithKeyNext(ids: seq<string>, i: nat, key: string)
    requires i < |ids|
    ensures WithKey(ids[..i + 1], key)
            == if Key(ids[i]) == key then WithKey(ids[..i], key) + [ids[i]] else WithKey(ids[..i], key)
  {
    TakeNext(ids, i);
  }

  lemma {:induction false} WithKeyHas(ids: seq<string>, key: string, u: string)
    ensures u in WithKey(ids, key) <==> u in ids && Key(u) == key
    decreases |ids|
  {
    if ids != [] {
      var n := |ids| - 1;
      WithKeyHas(ids[..n], key, u);
      assert ids == ids[..n] + [ids[n]];
    }
  }

  /** getUniqIdsGroupByAddrAsHex. */
  method GroupByAddr(ids: seq<string>) returns (res: map<string, seq<string>>)
    ensures forall k :: k in res <==> WithKey(ids, k) != []
    ensures forall k :: k in res ==> res[k] == WithKey(ids, k)
  {
    res := map[];
    var i := 0;
    while i < |ids|
      invariant i <= |ids|
      invariant forall k :: k in res <==> WithKey(ids[..i], k) != []
      invariant forall k :: k in res ==> res[k] == WithKey(ids[..i], k)
    {
      var key := Key(ids[i]);
      forall k
        ensures WithKey(ids[..i + 1], k)
                == if key == k then WithKey(ids[..i], k) + [ids[i]] else WithKey(ids[..i], k)
      {
        WithKeyNext(ids, i, k);
      }
      res := res[key := (if key in res then res[key] else []) + [ids[i]]];
      i := i + 1;
    }
    assert ids[..i] == ids;
  }

  /** Each id sits in the group of its own gateway as often as in the input, and in no other group. */
  lemma {:induction false} GroupsPartition(ids: seq<string>, u: string, key: string)
    ensures multiset(WithKey(ids, key))[u] == if key == Key(u) then multiset(ids)[u] else 0
    decreases |ids|
  {
    if ids != [] {
      var n := |ids| - 1;
      GroupsPartition(ids[..n], u, key);
      assert ids == ids[..n] + [ids[n]];
    }
  }

  /** `at` lists, in increasing order, all the positions of ids with this prefix, and `group` what is there. */
  ghost predicate Positions(ids: seq<string>, key: string, at: seq<nat>, group: seq<string>) {
    && |at| == |group|
    && (forall i :: 0 <= i < |at| ==> at[i] < |ids| && ids[at[i]] == group[i])
    && (forall i, j :: 0 <= i < j < |at| ==> at[i] < at[j])
    && (forall p: nat :: p < |ids| ==> (Key(ids[p]) == key <==> p in at))
  }

  lemma PositionsNext(ids: seq<string>, key: string, at: seq<nat>, group: seq<string>, u: string)
    requires Positions(ids, key, at, group)
    ensures Key(u) == key ==> Positions(ids + [u], key, at + [|ids|], group + [u])
    ensures Key(u) != key ==> Positions(ids + [u], key, at, group)
  {
    forall p: nat | p < |ids| + 1 && Key(u) == key ensures Key((ids + [u])[p]) == key <==> p in at + [|ids|] {
      assert (at + [|ids|])[|at|] == |ids|;
      if p < |ids| {
        assert Key(ids[p]) == key <==> p in at;
      }
    }
  }

  /** Each group is the subsequence of the input at exactly the positions with its prefix. */
  lemma {:induction false} GroupIsSubsequence(ids: seq<string>, key: string) returns (at: seq<nat>)
    ensures Positions(ids, key, at, WithKey(ids, key))
    decreases |ids|
  {
    if ids == [] {
      at := [];
    } else {
      var front, u := ids[..|ids| - 1], ids[|ids| - 1];
      at := GroupIsSubsequence(front, key);
      PositionsNext(front, key, at, WithKey(front, key), u);
      assert ids == front + [u];
      if Key(u) == key {
        at := at + [|front|];
      }
    }
  }

  /** When all ids share one gateway there is one group, the whole request. */
  lemma {:induction false} OneGroup(ids: seq<string>, key: string, other: string)
    requires forall u :: u in ids ==> Key(u) == key
    ensures WithKey(ids, other) == if other == key then ids else []
    decreases |ids|
  {
    if ids != [] {
      var n := |ids| - 1;
      OneGroup(ids[..n], key, other);
      assert ids == ids[..n] + [ids[n]];
    }
  }

  /** What a gateway is sent of a request: everything when it is the only one, else its group. */
  function Share(ids: seq<string>, registered: set<string>, key: string): seq<string> {
    if |registered| == 1 then ids else WithKey(ids, key)
  }

  /** `sent` holds the share of every registered gateway that has one, and nothing else. */
  ghost predicate Shared(ids: seq<string>, registered: set<string>, sent: map<string, seq<string>>) {
    && sent.Keys <= registered
    && (forall k :: k in registered ==> (k in sent <==> Share(ids, registered, k) != []))
    && (forall k :: k in sent ==> sent[k] == Share(ids, registered, k))
  }

  /** ForceOffline: the ids each registered gateway is told to close. */
  method ForceOffline(ids: seq<string>, registered: set<string>) returns (sent: map<string, seq<string>>)
    ensures Shared(ids, registered, sent)
    ensures |registered| == 1 && ids != [] ==> sent == map k | k in registered :: ids
  {
    if |ids| == 0 {
      return map[];
    }
    if |registered| == 1 {
      return map k | k in registered :: ids;
    }
    var groups := GroupByAddr(ids);
    sent := map[];
    var todo := groups.Keys;
    while todo != {}
      invariant todo <= groups.Keys && sent.Keys == (groups.Keys - todo) * registered
      invariant forall k :: k in sent ==> sent[k] == groups[k]
      decreases todo
    {
      var key :| key in todo;
      todo := todo - {key};
      if key in registered {
        sent := sent[key := groups[key]];
      }
    }
  }

  /** Whichever way it goes, an id reaches its own gateway exactly when that gateway is registered and the id
      is in the request. */
  lemma ReachesHome(ids: seq<string>, registered: set<string>, sent: map<string, seq<string>>, u: string)
    requires Shared(ids, registered, sent)
    ensures Key(u) in sent && u in sent[Key(u)] <==> u in ids && Key(u) in registered
  {
    WithKeyHas(ids, Key(u), u);
  }

  /** When all ids share one registered gateway both paths send it the whole request and nobody else anything. */
  lemma SplitDegenerates(ids: seq<string>, registered: set<string>, sent: map<string, seq<string>>, home: string)
    requires Shared(ids, registered, sent) && ids != [] && home in registered
    requires forall u :: u in ids ==> Key(u) == home
    ensures sent == map[home := ids]
  {
    forall k ensures WithKey(ids, k) == if k == home then ids else [] {
      OneGroup(ids, home, k);
    }
    if |registered| == 1 {
      assert registered - {home} == {} by {
        assert |registered - {home}| == 0;
      }
    }
    assert sent.Keys == {home};
  }
}
