/**
 Playlists out of a possibly damaged database: the order of a playlist's entities by their
 nextEntityId chain, and a playlist's full name by its parents, as engine_import_probe.cpp's
 `recordStick` reads them.
 */
module PlaylistOrder {
  import opened FieldText
  import opened Sequences

  datatype Entity = Entity(track: int, next: int)

  type Members = map<int, Entity>

  /** An entity in the order written out, and whether it is marked as off the chain. */
  datatype Listed = Listed(id: int, offChain: bool)

  // ----- the walk

  predicate Ascending(ids: seq<int>) {
    forall i, j :: 0 <= i < j < |ids| ==> ids[i] < ids[j]
  }

  /** The order a std::map is walked in. */
  ghost predicate IsWalkOf(ids: seq<int>, keys: set<int>) {
    Ascending(ids) && forall id :: id in ids <==> id in keys
  }

  predicate PointedAt(members: Members, id: int) {
    exists k :: k in members && members[k].next == id
  }

  /** Following the chain from an entity until it ends, leaves the playlist or meets what was visited. */
  function Follow(members: Members, at: int, visited: set<int>): (ids: seq<int>)
    decreases members.Keys - visited
  {
    if at == 0 || at !in members || at in visited then []
    else
      assert at in members.Keys - visited;
      [at] + Follow(members, members[at].next, visited + {at})
  }

  function Elements(ids: seq<int>): set<int> {
    set id | id in ids
  }

  /** The chains from each entity of a list that nothing points at. */
  function Chains(members: Members, ids: seq<int>, visited: set<int>): seq<int>
    decreases |ids|
  {
    if ids == [] then []
    else if PointedAt(members, ids[0]) then Chains(members, ids[1..], visited)
    else
      var chain := Follow(members, ids[0], visited);
      chain + Chains(members, ids[1..], visited + Elements(chain))
  }

  function OffChain(ids: seq<int>, visited: set<int>): seq<int> {
    if ids == [] then []
    else (if ids[0] in visited then [] else [ids[0]]) + OffChain(ids[1..], visited)
  }

  function Mark(ids: seq<int>, offChain: bool): (out: seq<Listed>)
    ensures |out| == |ids| && forall i :: 0 <= i < |ids| ==> out[i] == Listed(ids[i], offChain)
  {
    seq(|ids|, i requires 0 <= i < |ids| => Listed(ids[i], offChain))
  }

  function Linear(members: Members, ids: seq<int>): seq<Listed> {
    var chains := Chains(members, ids, {});
    Mark(chains, false) + Mark(OffChain(ids, Elements(chains)), true)
  }

  /** ids is the order the map of members is walked in. */
  method Linearise(members: Members, ids: seq<int>) returns (ordered: seq<Listed>)
    requires IsWalkOf(ids, members.Keys)
    ensures ordered == Linear(members, ids)
  {
    var pointedAt := CollectPointedAt(members, ids);
    var chained, visited := FollowAll(members, ids, pointedAt);
    var off := CollectOffChain(ids, visited);
    ordered := Mark(chained, false) + Mark(off, true);
  }

  method CollectPointedAt(members: Members, ids: seq<int>) returns (pointedAt: set<int>)
    requires IsWalkOf(ids, members.Keys)
    ensures forall id :: id in pointedAt <==> PointedAt(members, id)
  {
    pointedAt := {};
    assert forall i :: 0 <= i < |ids| ==> ids[i] in ids;
    for i := 0 to |ids|
      invariant forall id :: id in pointedAt <==> exists j :: 0 <= j < i && members[ids[j]].next == id
    {
      pointedAt := pointedAt + {members[ids[i]].next};
    }
    forall id | PointedAt(members, id)
      ensures id in pointedAt
    {
      var k :| k in members && members[k].next == id;
      assert k in ids;
      var j :| 0 <= j < |ids| && ids[j] == k;
      assert members[ids[j]].next == id;
    }
  }

  method FollowAll(members: Members, ids: seq<int>, pointedAt: set<int>) returns (chained: seq<int>, visited: set<int>)
    requires forall id :: id in pointedAt <==> PointedAt(members, id)
    ensures chained == Chains(members, ids, {}) && visited == Elements(chained)
  {
    chained, visited := [], {};
    assert ids[0..] == ids;
    for i := 0 to |ids|
      invariant chained + Chains(members, ids[i..], visited) == Chains(members, ids, {})
      invariant visited == Elements(chained)
    {
      ChainsNext(members, ids[i..], visited, chained);
      assert ids[i..][1..] == ids[i + 1..];
      if ids[i] !in pointedAt {
        var chain := FollowChain(members, ids[i], visited);
        ElementsAppend(chained, chain);
        chained, visited := chained + chain, visited + Elements(chain);
      }
    }
    assert ids[|ids|..] == [];
  }

  lemma ElementsAppend(a: seq<int>, b: seq<int>)
    ensures Elements(a + b) == Elements(a) + Elements(b)
  {
  }

  lemma ChainsNext(members: Members, ids: seq<int>, visited: set<int>, chained: seq<int>)
    requires ids != []
    ensures chained + Chains(members, ids, visited) ==
            if PointedAt(members, ids[0]) then chained + Chains(members, ids[1..], visited)
            else
              var chain := Follow(members, ids[0], visited);
              chained + chain + Chains(members, ids[1..], visited + Elements(chain))
  {
    if !PointedAt(members, ids[0]) {
      var chain := Follow(members, ids[0], visited);
      Associate(chained, chain, Chains(members, ids[1..], visited + Elements(chain)));
    }
  }

  method CollectOffChain(ids: seq<int>, visited: set<int>) returns (off: seq<int>)
    ensures off == OffChain(ids, visited)
  {
    off := [];
    assert ids[0..] == ids;
    for i := 0 to |ids|
      invariant off + OffChain(ids[i..], visited) == OffChain(ids, visited)
    {
      assert ids[i..][1..] == ids[i + 1..];
      if ids[i] !in visited {
        off := off + [ids[i]];
      }
    }
    assert ids[|ids|..] == [];
  }

  /** The inner loop: it ends whatever the links are, for it never visits an entity twice. */
  method FollowChain(members: Members, start: int, already: set<int>) returns (chain: seq<int>)
    ensures chain == Follow(members, start, already)
  {
    chain := [];
    var at, visited := start, already;
    while at != 0 && at in members && at !in visited
      invariant visited == already + Elements(chain)
      invariant chain + Follow(members, at, visited) == Follow(members, start, already)
      decreases members.Keys - visited
    {
      assert Elements(chain + [at]) == Elements(chain) + {at};
      chain, visited := chain + [at], visited + {at};
      at := members[at].next;
    }
  }

  // ----- every entity once

  predicate Distinct(ids: seq<int>) {
    forall i, j :: 0 <= i < j < |ids| ==> ids[i] != ids[j]
  }

  lemma {:induction false} FollowVisits(members: Members, at: int, visited: set<int>)
    ensures var ids := Follow(members, at, visited);
            Distinct(ids) && forall id :: id in ids ==> id in members && id !in visited && id != 0
    decreases members.Keys - visited
  {
    if at != 0 && at in members && at !in visited {
      assert at in members.Keys - visited;
      FollowVisits(members, members[at].next, visited + {at});
    }
  }

  lemma DistinctAppend(a: seq<int>, b: seq<int>)
    requires Distinct(a) && Distinct(b) && forall id :: id in b ==> id !in a
    ensures Distinct(a + b)
  {
    forall i, j | 0 <= i < j < |a + b|
      ensures (a + b)[i] != (a + b)[j]
    {
      if i < |a| <= j {
        assert (a + b)[i] in a && (a + b)[j] in b;
      }
    }
  }

  lemma {:induction false} ChainsVisit(members: Members, ids: seq<int>, visited: set<int>)
    ensures var out := Chains(members, ids, visited);
            Distinct(out) && forall id :: id in out ==> id in members && id !in visited && id != 0
    decreases |ids|
  {
    if ids != [] {
      if PointedAt(members, ids[0]) {
        ChainsVisit(members, ids[1..], visited);
      } else {
        var chain := Follow(members, ids[0], visited);
        FollowVisits(members, ids[0], visited);
        ChainsVisit(members, ids[1..], visited + Elements(chain));
        assert forall id :: id in chain ==> id in Elements(chain);
        DistinctAppend(chain, Chains(members, ids[1..], visited + Elements(chain)));
      }
    }
  }

  lemma {:induction false} OffChainKeeps(ids: seq<int>, visited: set<int>)
    ensures forall id :: id in OffChain(ids, visited) <==> id in ids && id !in visited
  {
    if ids != [] {
      OffChainKeeps(ids[1..], visited);
      assert ids == [ids[0]] + ids[1..];
    }
  }

  lemma {:induction false} OffChainVisits(ids: seq<int>, visited: set<int>)
    requires Ascending(ids)
    ensures var off := OffChain(ids, visited);
            Ascending(off) && forall id :: id in off <==> id in ids && id !in visited
  {
    OffChainKeeps(ids, visited);
    if ids != [] {
      OffChainVisits(ids[1..], visited);
      AscendingCons(ids[0], OffChain(ids[1..], visited));
      assert [] + OffChain(ids[1..], visited) == OffChain(ids[1..], visited);
    }
  }

  lemma AscendingCons(x: int, rest: seq<int>)
    requires Ascending(rest) && forall y :: y in rest ==> x < y
    ensures Ascending([x] + rest)
  {
    assert forall i :: 0 <= i < |rest| ==> rest[i] in rest;
  }

  ghost predicate HasListed(out: seq<Listed>, id: int) {
    exists i :: 0 <= i < |out| && out[i].id == id
  }

  /** Whatever the links, cycles and merging chains included, every entity is listed, and once. */
  lemma ListsEveryEntityOnce(members: Members, ids: seq<int>)
    requires IsWalkOf(ids, members.Keys)
    ensures var out := Linear(members, ids);
            && (forall id :: id in members <==> HasListed(out, id))
            && (forall i, j :: 0 <= i < j < |out| ==> out[i].id != out[j].id)
  {
    var chains := Chains(members, ids, {});
    var off := OffChain(ids, Elements(chains));
    ChainsVisit(members, ids, {});
    OffChainVisits(ids, Elements(chains));
    var out := Linear(members, ids);
    forall id | id in members
      ensures HasListed(out, id)
    {
      if id in chains {
        var i :| 0 <= i < |chains| && chains[i] == id;
        assert out[i].id == id;
      } else {
        var i :| 0 <= i < |off| && off[i] == id;
        assert out[|chains| + i].id == id;
      }
    }
    forall i | 0 <= i < |out|
      ensures out[i].id in members
    {
      assert if i < |chains| then out[i].id in chains else out[i].id in off;
    }
  }

  // ----- which entities are off the chain

  /** A way from an entity nothing points at, link by link. */
  ghost predicate IsChain(members: Members, path: seq<int>) {
    && path != []
    && !PointedAt(members, path[0])
    && (forall i :: 0 <= i < |path| ==> path[i] != 0 && path[i] in members)
    && (forall i :: 0 < i < |path| ==> members[path[i - 1]].next == path[i])
  }

  ghost predicate OnChain(members: Members, id: int) {
    exists path :: IsChain(members, path) && path[|path| - 1] == id
  }

  lemma {:induction false} FollowStaysOnChain(members: Members, path: seq<int>, at: int, visited: set<int>)
    requires path == [] ==> !PointedAt(members, at)
    requires path != [] ==> IsChain(members, path) && members[path[|path| - 1]].next == at
    ensures forall id :: id in Follow(members, at, visited) ==> OnChain(members, id)
    decreases members.Keys - visited
  {
    if at != 0 && at in members && at !in visited {
      assert at in members.Keys - visited;
      var longer := path + [at];
      assert IsChain(members, longer) && longer[|longer| - 1] == at;
      FollowStaysOnChain(members, longer, members[at].next, visited + {at});
    }
  }

  lemma {:induction false} ChainsStayOnChain(members: Members, ids: seq<int>, visited: set<int>)
    ensures forall id :: id in Chains(members, ids, visited) ==> OnChain(members, id)
    decreases |ids|
  {
    if ids != [] {
      if PointedAt(members, ids[0]) {
        ChainsStayOnChain(members, ids[1..], visited);
      } else {
        FollowStaysOnChain(members, [], ids[0], visited);
        ChainsStayOnChain(members, ids[1..], visited + Elements(Follow(members, ids[0], visited)));
      }
    }
  }

  /** What an entity points at, where that is an entity of the playlist. */
  ghost predicate LinksInto(members: Members, id: int, ids: set<int>)
    requires id in members
  {
    var next := members[id].next;
    next == 0 || next !in members || next in ids
  }

  lemma {:induction false} FollowIsClosed(members: Members, at: int, visited: set<int>)
    ensures var ids := Follow(members, at, visited);
            && (forall id :: id in ids ==> id in members && LinksInto(members, id, visited + Elements(ids)))
            && (at != 0 && at in members ==> at in visited + Elements(ids))
    decreases members.Keys - visited
  {
    if at != 0 && at in members && at !in visited {
      assert at in members.Keys - visited;
      FollowIsClosed(members, members[at].next, visited + {at});
      var ids := Follow(members, at, visited);
      assert at in ids;
      assert visited + Elements(ids) == visited + {at} + Elements(Follow(members, members[at].next, visited + {at}));
    }
  }

  lemma {:induction false} ChainsAreClosed(members: Members, ids: seq<int>, visited: set<int>)
    ensures var out := Chains(members, ids, visited);
            && (forall id :: id in out ==> id in members && LinksInto(members, id, visited + Elements(out)))
            && (forall id :: id in ids && id in members && id != 0 && !PointedAt(members, id) ==>
                  id in visited + Elements(out))
    decreases |ids|
  {
    if ids != [] {
      assert ids == [ids[0]] + ids[1..];
      if PointedAt(members, ids[0]) {
        ChainsAreClosed(members, ids[1..], visited);
      } else {
        var chain := Follow(members, ids[0], visited);
        var rest := Chains(members, ids[1..], visited + Elements(chain));
        FollowIsClosed(members, ids[0], visited);
        ChainsAreClosed(members, ids[1..], visited + Elements(chain));
        assert Elements(chain + rest) == Elements(chain) + Elements(rest);
      }
    }
  }

  lemma {:induction false} OnChainIsVisited(members: Members, path: seq<int>, ids: seq<int>)
    requires IsWalkOf(ids, members.Keys) && IsChain(members, path)
    ensures path[|path| - 1] in Chains(members, ids, {})
    decreases |path|
  {
    ChainsAreClosed(members, ids, {});
    if |path| > 1 {
      var front := path[..|path| - 1];
      assert IsChain(members, front);
      OnChainIsVisited(members, front, ids);
      assert LinksInto(members, front[|front| - 1], {} + Elements(Chains(members, ids, {})));
    }
  }

  /** An entity is marked off the chain exactly when no chain of links from an unpointed one reaches it. */
  lemma MarksTheUnreached(members: Members, ids: seq<int>, i: nat)
    requires IsWalkOf(ids, members.Keys) && i < |Linear(members, ids)|
    ensures Linear(members, ids)[i].offChain <==> !OnChain(members, Linear(members, ids)[i].id)
  {
    var chains := Chains(members, ids, {});
    var off := OffChain(ids, Elements(chains));
    var id := Linear(members, ids)[i].id;
    ChainsStayOnChain(members, ids, {});
    OffChainVisits(ids, Elements(chains));
    if i < |chains| {
      assert id in chains;
    } else {
      assert id in off;
      if OnChain(members, id) {
        var path :| IsChain(members, path) && path[|path| - 1] == id;
        OnChainIsVisited(members, path, ids);
      }
    }
  }

  // ----- in what order

  /** Each begins a chain, or is what the one before it points at. */
  ghost predicate Linked(members: Members, ids: seq<int>) {
    && (forall i :: 0 <= i < |ids| ==> ids[i] in members)
    && (forall i :: 0 <= i < |ids| && PointedAt(members, ids[i]) ==> i > 0 && members[ids[i - 1]].next == ids[i])
  }

  /** A chain goes on to what its last points at, unless that was visited before, or is not there. */
  ghost predicate GoesOn(members: Members, ids: seq<int>, i: int, visited: set<int>)
    requires 0 <= i < |ids| && ids[i] in members
  {
    var next := members[ids[i]].next;
    next == 0 || next !in members || next in visited || next in ids[..i + 1] || (i + 1 < |ids| && ids[i + 1] == next)
  }

  ghost predicate AllGoOn(members: Members, ids: seq<int>, visited: set<int>)
    requires forall i :: 0 <= i < |ids| ==> ids[i] in members
  {
    forall i :: 0 <= i < |ids| ==> GoesOn(members, ids, i, visited)
  }

  /** The entities that begin chains come in rising order. */
  ghost predicate StartsRise(members: Members, ids: seq<int>) {
    forall i, j :: 0 <= i < j < |ids| && !PointedAt(members, ids[i]) && !PointedAt(members, ids[j]) ==> ids[i] < ids[j]
  }

  lemma {:induction false} FollowLinks(members: Members, at: int, visited: set<int>)
    ensures var ids := Follow(members, at, visited);
            && (forall i :: 0 <= i < |ids| ==> ids[i] in members)
            && (ids != [] ==> ids[0] == at)
            && (forall i :: 0 < i < |ids| ==> members[ids[i - 1]].next == ids[i])
            && AllGoOn(members, ids, visited)
    decreases members.Keys - visited
  {
    if at != 0 && at in members && at !in visited {
      assert at in members.Keys - visited;
      var next := members[at].next;
      var rest := Follow(members, next, visited + {at});
      FollowLinks(members, next, visited + {at});
      FollowIsClosed(members, next, visited + {at});
      var ids := [at] + rest;
      forall i | 0 <= i < |ids|
        ensures GoesOn(members, ids, i, visited)
      {
        if i == 0 {
          FirstGoesOn(members, at, visited);
        } else {
          assert GoesOn(members, rest, i - 1, visited + {at});
          assert ids[..i + 1] == [at] + rest[..i];
        }
      }
    }
  }

  lemma FirstGoesOn(members: Members, at: int, visited: set<int>)
    requires at != 0 && at in members && at !in visited
    ensures GoesOn(members, Follow(members, at, visited), 0, visited)
  {
    assert at in members.Keys - visited;
    var ids, next := Follow(members, at, visited), members[at].next;
    assert ids[..1] == [at];
    if next != 0 && next in members && next !in visited && next != at {
      assert next in members.Keys - (visited + {at});
      assert Follow(members, next, visited + {at})[0] == next;
      assert ids == [at] + Follow(members, next, visited + {at});
    }
  }

  lemma GoOnAppend(members: Members, a: seq<int>, b: seq<int>, visited: set<int>)
    requires (forall i :: 0 <= i < |a| ==> a[i] in members) && forall i :: 0 <= i < |b| ==> b[i] in members
    requires AllGoOn(members, a, visited) && AllGoOn(members, b, visited + Elements(a))
    ensures AllGoOn(members, a + b, visited)
  {
    var ids := a + b;
    forall i | 0 <= i < |ids|
      ensures GoesOn(members, ids, i, visited)
    {
      if i < |a| {
        assert GoesOn(members, a, i, visited);
        assert ids[..i + 1] == a[..i + 1];
      } else {
        assert GoesOn(members, b, i - |a|, visited + Elements(a));
        assert ids[..i + 1] == a + b[..i - |a| + 1];
      }
    }
  }

  /** A chain's start aside, all that is on it is pointed at. */
  lemma OneStart(members: Members, chain: seq<int>, i: nat)
    requires (forall k :: 0 <= k < |chain| ==> chain[k] in members) && 0 < i < |chain|
    requires members[chain[i - 1]].next == chain[i]
    ensures PointedAt(members, chain[i])
  {
    var k := chain[i - 1];
    assert k in members && members[k].next == chain[i];
  }

  lemma {:induction false} ChainsOrder(members: Members, ids: seq<int>, visited: set<int>)
    requires Ascending(ids) && forall id :: id in ids ==> id in members
    ensures var out := Chains(members, ids, visited);
            && Linked(members, out) && AllGoOn(members, out, visited) && StartsRise(members, out)
            && forall i :: 0 <= i < |out| && !PointedAt(members, out[i]) ==> out[i] in ids
    decreases |ids|
  {
    if ids != [] {
      assert ids == [ids[0]] + ids[1..];
      if PointedAt(members, ids[0]) {
        ChainsOrder(members, ids[1..], visited);
      } else {
        var chain := Follow(members, ids[0], visited);
        FollowLinks(members, ids[0], visited);
        ChainsOrder(members, ids[1..], visited + Elements(chain));
        ChainThenRest(members, ids, chain, Chains(members, ids[1..], visited + Elements(chain)));
        GoOnAppend(members, chain, Chains(members, ids[1..], visited + Elements(chain)), visited);
      }
    }
  }

  lemma ChainThenRest(members: Members, ids: seq<int>, chain: seq<int>, rest: seq<int>)
    requires ids != [] && Ascending(ids) && !PointedAt(members, ids[0])
    requires (forall i :: 0 <= i < |chain| ==> chain[i] in members) && (chain != [] ==> chain[0] == ids[0])
    requires forall i :: 0 < i < |chain| ==> members[chain[i - 1]].next == chain[i]
    requires Linked(members, rest) && StartsRise(members, rest)
    requires forall i :: 0 <= i < |rest| && !PointedAt(members, rest[i]) ==> rest[i] in ids[1..]
    ensures Linked(members, chain + rest) && StartsRise(members, chain + rest)
    ensures forall i :: 0 <= i < |chain + rest| && !PointedAt(members, (chain + rest)[i]) ==> (chain + rest)[i] in ids
  {
    var out := chain + rest;
    forall i | 0 < i < |chain|
      ensures PointedAt(members, chain[i])
    {
      OneStart(members, chain, i);
    }
    forall i | 0 <= i < |out|
      ensures !PointedAt(members, out[i]) ==> out[i] in ids && (i < |chain| || ids[0] < out[i])
      ensures PointedAt(members, out[i]) ==> i > 0 && members[out[i - 1]].next == out[i]
    {
      if i >= |chain| {
        assert out[i] == rest[i - |chain|];
      }
    }
  }

  /**
   The unmarked entities come first, the marked ones after them in rising order. An unmarked one
   begins a chain or is what the one before it points at, a chain goes on for as long as it leads to
   an entity not listed yet, and chains are in the order of the entities that begin them.
   */
  lemma EntriesAreInOrder(members: Members, ids: seq<int>)
    requires IsWalkOf(ids, members.Keys)
    ensures var out := Linear(members, ids);
            exists chained: seq<int>, off: seq<int> ::
              Linked(members, chained) && Ascending(off) && out == Mark(chained, false) + Mark(off, true) &&
              AllGoOn(members, chained, {}) && StartsRise(members, chained)
  {
    var chains := Chains(members, ids, {});
    var off := OffChain(ids, Elements(chains));
    ChainsOrder(members, ids, {});
    OffChainVisits(ids, Elements(chains));
    assert Linked(members, chains) && Ascending(off);
  }

  // ----- one sound chain

  /** All of a playlist's entities, linked in this order, the last to nothing in it. */
  ghost predicate SoundChain(members: Members, chain: seq<int>) {
    && Distinct(chain) && 0 !in chain
    && (forall id :: id in members <==> id in chain)
    && (forall i :: 0 < i < |chain| ==> members[chain[i - 1]].next == chain[i])
    && (chain != [] ==> members[chain[|chain| - 1]].next !in members)
  }

  lemma {:induction false} FollowSoundChain(members: Members, chain: seq<int>, i: nat, visited: set<int>)
    requires SoundChain(members, chain) && i <= |chain| && visited == Elements(chain[..i])
    ensures i < |chain| ==> Follow(members, chain[i], visited) == chain[i..]
    decreases |chain| - i
  {
    if i < |chain| {
      assert chain[i] in chain;
      assert chain[i] !in visited;
      assert chain[..i + 1] == chain[..i] + [chain[i]];
      assert chain[i..] == [chain[i]] + chain[i + 1..];
      FollowSoundChain(members, chain, i + 1, visited + {chain[i]});
    }
  }

  lemma OnlyTheFirstIsUnpointed(members: Members, chain: seq<int>, id: int)
    requires SoundChain(members, chain) && id in members
    ensures !PointedAt(members, id) <==> id == chain[0]
  {
    var i :| 0 <= i < |chain| && chain[i] == id;
    if i > 0 {
      assert chain[i - 1] in chain && members[chain[i - 1]].next == id;
    }
    if PointedAt(members, chain[0]) {
      var k :| k in members && members[k].next == chain[0];
      var j :| 0 <= j < |chain| && chain[j] == k;
      assert chain[0] in chain;
      assert j == |chain| - 1 || chain[j + 1] == chain[0];
    }
  }

  lemma {:induction false} ChainsOfSound(members: Members, chain: seq<int>, ids: seq<int>)
    requires SoundChain(members, chain) && Ascending(ids) && forall id :: id in ids ==> id in members
    ensures Chains(members, ids, {}) == if chain != [] && chain[0] in ids then chain else []
    ensures Chains(members, ids, Elements(chain)) == []
    decreases |ids|
  {
    if ids != [] {
      assert ids == [ids[0]] + ids[1..];
      OnlyTheFirstIsUnpointed(members, chain, ids[0]);
      ChainsOfSound(members, chain, ids[1..]);
      if ids[0] == chain[0] {
        FollowSoundChain(members, chain, 0, {});
        assert chain[0..] == chain;
        assert {} + Elements(chain) == Elements(chain);
        assert Elements(chain) + Elements([]) == Elements(chain);
      }
    }
  }

  lemma {:induction false} NothingOffChain(ids: seq<int>, visited: set<int>)
    requires forall i :: 0 <= i < |ids| ==> ids[i] in visited
    ensures OffChain(ids, visited) == []
  {
    if ids != [] { NothingOffChain(ids[1..], visited); }
  }

  /** A playlist that is one sound chain is listed in the chain's order, nothing marked. */
  lemma SoundChainIsKept(members: Members, chain: seq<int>, ids: seq<int>)
    requires SoundChain(members, chain) && IsWalkOf(ids, members.Keys)
    ensures Linear(members, ids) == Mark(chain, false)
  {
    ChainsOfSound(members, chain, ids);
    assert chain != [] ==> chain[0] in chain;
    assert forall i :: 0 <= i < |ids| ==> ids[i] in ids && ids[i] in chain;
    NothingOffChain(ids, Elements(chain));
    assert Chains(members, ids, {}) == chain by {
      assert ids == [] ==> chain == [];
    }
    NothingMarked(chain);
  }

  lemma NothingMarked(ids: seq<int>)
    ensures Mark(ids, false) + Mark([], true) == Mark(ids, false)
  {
  }

  // ----- the full name of a playlist

  datatype List = List(title: string, parent: int)

  type Lists = map<int, List>

  /** A playlist and its parents, up to the top, a missing one, or one already met. */
  function Ancestors(lists: Lists, id: int, seen: set<int>): seq<int>
    decreases lists.Keys - seen
  {
    if id == 0 || id !in lists || id in seen then []
    else
      assert id in lists.Keys - seen;
      [id] + Ancestors(lists, lists[id].parent, seen + {id})
  }

  /** The loop's way of putting a title in front of the name so far. */
  function Prepend(title: string, name: string): string {
    if name == "" then title else title + "/" + name
  }

  function NameAfter(lists: Lists, name: string, ids: seq<int>): string
    decreases |ids|
  {
    if ids == [] then name
    else NameAfter(lists, Prepend(if ids[0] in lists then lists[ids[0]].title else "", name), ids[1..])
  }

  method FullName(lists: Lists, start: int) returns (name: string)
    ensures name == NameAfter(lists, "", Ancestors(lists, start, {}))
  {
    name := "";
    var id := start;
    var seen: set<int> := {};
    while id != 0 && id in lists && id !in seen
      invariant NameAfter(lists, name, Ancestors(lists, id, seen)) == NameAfter(lists, "", Ancestors(lists, start, {}))
      decreases lists.Keys - seen
    {
      assert Ancestors(lists, id, seen)[1..] == Ancestors(lists, lists[id].parent, seen + {id});
      seen := seen + {id};
      name := Prepend(lists[id].title, name);
      id := lists[id].parent;
    }
  }

  /** A way from a playlist to the top: each the parent of the one before it, none met twice. */
  ghost predicate LeadsToTop(lists: Lists, path: seq<int>) {
    && Distinct(path) && 0 !in path
    && (forall i :: 0 <= i < |path| ==> path[i] in lists)
    && (forall i :: 0 < i < |path| ==> lists[path[i - 1]].parent == path[i])
    && (path != [] ==> var top := lists[path[|path| - 1]].parent; top == 0 || top !in lists)
  }

  lemma {:induction false} AncestorsFrom(lists: Lists, path: seq<int>, i: nat, seen: set<int>)
    requires LeadsToTop(lists, path) && i < |path| && seen == Elements(path[..i])
    ensures Ancestors(lists, path[i], seen) == path[i..]
    decreases |path| - i
  {
    assert path[i] in path;
    assert path[i] !in seen;
    assert path[..i + 1] == path[..i] + [path[i]];
    assert path[i..] == [path[i]] + path[i + 1..];
    if i + 1 < |path| {
      AncestorsFrom(lists, path, i + 1, seen + {path[i]});
    } else {
      assert Ancestors(lists, lists[path[i]].parent, seen + {path[i]}) == [];
    }
  }

  /** Titles from the top down, with a slash between each and the next. */
  function JoinTitles(titles: seq<string>): string {
    if titles == [] then ""
    else if |titles| == 1 then titles[0]
    else titles[0] + "/" + JoinTitles(titles[1..])
  }

  /** The titles of a path, the top's first. */
  function TitlesDown(lists: Lists, path: seq<int>): (titles: seq<string>)
    ensures |titles| == |path|
  {
    if path == [] then []
    else TitlesDown(lists, path[1..]) + [if path[0] in lists then lists[path[0]].title else ""]
  }

  lemma {:induction false} JoinTitlesLast(titles: seq<string>, last: string)
    requires titles != []
    ensures JoinTitles(titles + [last]) == JoinTitles(titles) + "/" + last
  {
    if |titles| > 1 {
      assert (titles + [last])[1..] == titles[1..] + [last];
      JoinTitlesLast(titles[1..], last);
    } else {
      assert (titles + [last])[1..] == [last];
    }
  }

  lemma {:induction false} NameIsJoined(lists: Lists, name: string, path: seq<int>)
    requires name != ""
    ensures NameAfter(lists, name, path) == JoinTitles(TitlesDown(lists, path) + [name])
    decreases |path|
  {
    var down := TitlesDown(lists, path);
    if path == [] {
      assert down + [name] == [name];
    } else {
      var title := if path[0] in lists then lists[path[0]].title else "";
      NameIsJoined(lists, Prepend(title, name), path[1..]);
      JoinLastTwo(TitlesDown(lists, path[1..]), title, name);
    }
  }

  lemma RegroupTitles(a: string, b: string, c: string)
    ensures a + "/" + (b + "/" + c) == a + "/" + b + "/" + c
  {
  }

  /** Joining the last two titles first changes nothing. */
  lemma JoinLastTwo(titles: seq<string>, title: string, name: string)
    requires name != ""
    ensures JoinTitles(titles + [Prepend(title, name)]) == JoinTitles(titles + [title] + [name])
  {
    JoinTitlesLast(titles + [title], name);
    if titles == [] {
      assert titles + [title] == [title];
      assert titles + [Prepend(title, name)] == [Prepend(title, name)];
    } else {
      JoinTitlesLast(titles, title);
      JoinTitlesLast(titles, Prepend(title, name));
      RegroupTitles(JoinTitles(titles), title, name);
    }
  }

  /** The playlists of a path after the untitled ones it begins with. */
  function FromFirstTitle(lists: Lists, path: seq<int>): seq<int> {
    if path != [] && path[0] in lists && lists[path[0]].title == "" then FromFirstTitle(lists, path[1..]) else path
  }

  lemma {:induction false} UntitledLeavesNoTrace(lists: Lists, path: seq<int>)
    requires forall i :: 0 <= i < |path| ==> path[i] in lists
    ensures NameAfter(lists, "", path) == JoinTitles(TitlesDown(lists, FromFirstTitle(lists, path)))
    decreases |path|
  {
    if path != [] {
      var title := lists[path[0]].title;
      if title == "" {
        UntitledLeavesNoTrace(lists, path[1..]);
      } else {
        NameIsJoined(lists, title, path[1..]);
      }
    }
  }

  /**
   Where parents do not loop, the name is the titles from the top down, a slash between each, but for
   the playlist itself and the parents next to it, which leave no trace as long as they are untitled.
   */
  lemma FullNameFromFirstTitle(lists: Lists, path: seq<int>)
    requires LeadsToTop(lists, path) && path != []
    ensures NameAfter(lists, "", Ancestors(lists, path[0], {})) ==
            JoinTitles(TitlesDown(lists, FromFirstTitle(lists, path)))
  {
    AncestorsFrom(lists, path, 0, {});
    assert path[0..] == path;
    UntitledLeavesNoTrace(lists, path);
  }

  /** A playlist without a title ends the full path in a slash. */
  lemma UntitledEndsInSlash(lists: Lists, path: seq<int>)
    requires |path| > 1 && path[0] in lists && lists[path[0]].title == ""
    ensures JoinTitles(TitlesDown(lists, path)) == JoinTitles(TitlesDown(lists, path[1..])) + "/"
  {
    JoinTitlesLast(TitlesDown(lists, path[1..]), "");
  }

  lemma {:induction false} DroppingNeverLengthens(lists: Lists, path: seq<int>)
    requires forall i :: 0 <= i < |path| ==> path[i] in lists
    ensures |JoinTitles(TitlesDown(lists, FromFirstTitle(lists, path)))| <= |JoinTitles(TitlesDown(lists, path))|
  {
    if path != [] && lists[path[0]].title == "" {
      DroppingNeverLengthens(lists, path[1..]);
      if |path| > 1 {
        UntitledEndsInSlash(lists, path);
      } else {
        assert FromFirstTitle(lists, path) == [];
      }
    }
  }

  /** The name is the whole path from the top exactly when the playlist has a title, or has no parents. */
  lemma FullNameIsThePath(lists: Lists, path: seq<int>)
    requires LeadsToTop(lists, path) && path != []
    ensures NameAfter(lists, "", Ancestors(lists, path[0], {})) == JoinTitles(TitlesDown(lists, path)) <==>
            |path| == 1 || lists[path[0]].title != ""
  {
    FullNameFromFirstTitle(lists, path);
    if lists[path[0]].title == "" {
      if |path| > 1 {
        DroppingNeverLengthens(lists, path[1..]);
        UntitledEndsInSlash(lists, path);
      } else {
        assert path[1..] == [] && FromFirstTitle(lists, path) == [];
        assert TitlesDown(lists, path) == [""];
      }
    }
  }

  /** An untitled playlist under "Sets" gets its parent's name, and not "Sets/". */
  lemma UntitledTakesParentsName()
    ensures var lists := map[1 := List("Sets", 0), 2 := List("", 1)];
            && LeadsToTop(lists, [2, 1])
            && JoinTitles(TitlesDown(lists, [2, 1])) == "Sets/"
            && NameAfter(lists, "", Ancestors(lists, 2, {})) == "Sets"
            && NameAfter(lists, "", Ancestors(lists, 1, {})) == "Sets"
  {
    var lists, path := map[1 := List("Sets", 0), 2 := List("", 1)], [2, 1];
    assert LeadsToTop(lists, path) && LeadsToTop(lists, [1]);
    assert path[1..] == [1] && [1][1..] == [];
    assert TitlesDown(lists, [1]) == ["Sets"];
    UntitledEndsInSlash(lists, path);
    FullNameFromFirstTitle(lists, path);
    FullNameFromFirstTitle(lists, [1]);
    assert FromFirstTitle(lists, path) == [1] == FromFirstTitle(lists, [1]);
  }

  // ----- which names tell playlists apart

  /** No title on the way to the top has a slash in it. */
  predicate Slashless(titles: seq<string>) {
    forall i :: 0 <= i < |titles| ==> Free(titles[i], '/')
  }

  lemma {:induction false} JoinedTitlesCut(titles: seq<string>)
    requires titles != [] && Slashless(titles)
    ensures Cut(JoinTitles(titles), '/') == titles
  {
    if |titles| == 1 {
      CutCons(titles[0], '/', "");
    } else {
      assert forall i :: 0 <= i < |titles| - 1 ==> titles[1..][i] == titles[i + 1];
      JoinedTitlesCut(titles[1..]);
      CutCons(titles[0], '/', JoinTitles(titles[1..]));
    }
  }

  /**
   Where parents do not loop, the playlists have titles, and no title on their ways to the top has a
   slash in it, two playlists of one name have the same titles on the way.
   */
  lemma NamesTellTitles(lists: Lists, one: seq<int>, other: seq<int>)
    requires LeadsToTop(lists, one) && LeadsToTop(lists, other) && one != [] && other != []
    requires lists[one[0]].title != "" && lists[other[0]].title != ""
    requires Slashless(TitlesDown(lists, one)) && Slashless(TitlesDown(lists, other))
    ensures NameAfter(lists, "", Ancestors(lists, one[0], {})) == NameAfter(lists, "", Ancestors(lists, other[0], {}))
            <==> TitlesDown(lists, one) == TitlesDown(lists, other)
  {
    FullNameIsThePath(lists, one);
    FullNameIsThePath(lists, other);
    JoinedTitlesCut(TitlesDown(lists, one));
    JoinedTitlesCut(TitlesDown(lists, other));
  }

  /** A playlist "A/B" at the top, and a "B" under an "A", have one name. */
  lemma SlashedTitleSharesName()
    ensures var lists := map[1 := List("A/B", 0), 2 := List("A", 0), 3 := List("B", 2)];
            && LeadsToTop(lists, [1]) && LeadsToTop(lists, [3, 2])
            && NameAfter(lists, "", Ancestors(lists, 1, {})) == "A/B" == NameAfter(lists, "", Ancestors(lists, 3, {}))
  {
    var lists := map[1 := List("A/B", 0), 2 := List("A", 0), 3 := List("B", 2)];
    assert LeadsToTop(lists, [1]) && LeadsToTop(lists, [3, 2]);
    assert [1][1..] == [] && [2][1..] == [] && [3, 2][1..] == [2];
    assert TitlesDown(lists, [1]) == ["A/B"] && TitlesDown(lists, [2]) == ["A"];
    assert TitlesDown(lists, [3, 2]) == ["A", "B"] && ["A", "B"][1..] == ["B"];
    FullNameIsThePath(lists, [1]);
    FullNameIsThePath(lists, [3, 2]);
    assert "A" + "/" + "B" == "A/B";
  }
}
