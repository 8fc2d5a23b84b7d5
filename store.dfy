/** The abstract tables standing in for the two JPA repositories: per entity,
    a map from id to row, the order in which findAll returns the rows, and a
    fresh-id allocator (the next id the store will assign on insert). */
module Store {
  import opened Base
  import opened Entity

  datatype Tables = Tables(
    trainOrder: seq<int>,
    trains: map<int, Train>,
    nextTrainId: int,
    routeOrder: seq<int>,
    routes: map<int, Route>,
    nextRouteId: int)

  /** What save returns: the tables afterwards and the saved entity. */
  datatype Saved<R> = Saved(after: Tables, entity: R)

  ghost predicate Distinct(s: seq<int>) {
    forall i, j :: 0 <= i < j < |s| ==> s[i] != s[j]
  }

  /** The store invariant: each table's order lists exactly its keys once,
      every row carries its own key as id, ids are positive (so the unsaved
      sentinel -1 is never a key) and below the allocator, and every route
      references a train that is in the trains table. */
  ghost predicate Valid(s: Tables) {
    && 1 <= s.nextTrainId && 1 <= s.nextRouteId
    && Distinct(s.trainOrder) && Distinct(s.routeOrder)
    && (forall i :: 0 <= i < |s.trainOrder| ==> s.trainOrder[i] in s.trains)
    && (forall k :: k in s.trains ==> k in s.trainOrder)
    && (forall i :: 0 <= i < |s.routeOrder| ==> s.routeOrder[i] in s.routes)
    && (forall k :: k in s.routes ==> k in s.routeOrder)
    && (forall k :: k in s.trains ==> 1 <= k < s.nextTrainId && s.trains[k].id == k)
    && (forall k :: k in s.routes ==>
          1 <= k < s.nextRouteId && s.routes[k].id == k && s.routes[k].trainId in s.trains)
  }

  const Empty: Tables := Tables([], map[], 1, [], map[], 1)

  /** `r` lists some of the elements of `order`, in the order they have there. */
  ghost predicate Subsequence(r: seq<int>, order: seq<int>)
    decreases |order|
  {
    if r == [] then true
    else if order == [] then false
    else (r[0] == order[0] && Subsequence(r[1..], order[1..])) || Subsequence(r, order[1..])
  }

  lemma {:induction false} SubsequenceOfItself(order: seq<int>)
    ensures Subsequence(order, order)
    decreases |order|
  {
    if order != [] {
      SubsequenceOfItself(order[1..]);
    }
  }

  /** The elements of `order` that are in `keys`, in their original order. */
  function Keep(order: seq<int>, keys: set<int>): (r: seq<int>)
    ensures forall k :: k in r <==> k in order && k in keys
    ensures Distinct(order) ==> Distinct(r)
    ensures Subsequence(r, order)
  {
    if order == [] then []
    else
      var rest := Keep(order[1..], keys);
      assert Distinct(order) ==> Distinct(order[1..]) && order[0] !in order[1..];
      if order[0] in keys then
        assert ([order[0]] + rest)[1..] == rest;
        [order[0]] + rest
      else rest
  }

  /** Keeping every element but the one at index `i` removes just that entry. */
  lemma {:induction false} KeepAllBut(order: seq<int>, keys: set<int>, i: int)
    requires 0 <= i < |order| && order[i] !in keys
    requires forall j :: 0 <= j < |order| && j != i ==> order[j] in keys
    ensures Keep(order, keys) == order[..i] + order[i + 1..]
    decreases |order|
  {
    if i == 0 {
      KeepAll(order[1..], keys);
    } else {
      KeepAllBut(order[1..], keys, i - 1);
      KeepStep(order, keys, i);
    }
  }

  /** The inductive step of KeepAllBut: an element in front that is kept. */
  lemma KeepStep(order: seq<int>, keys: set<int>, i: int)
    requires 0 < i < |order| && order[0] in keys
    requires Keep(order[1..], keys) == order[1..][..i - 1] + order[1..][i..]
    ensures Keep(order, keys) == order[..i] + order[i + 1..]
  {
    var tail := order[1..];
    calc {
      Keep(order, keys);
      { KeepCons(order, keys); }
      [order[0]] + Keep(tail, keys);
      [order[0]] + (tail[..i - 1] + tail[i..]);
      { assert order[..i] == [order[0]] + tail[..i - 1] && order[i + 1..] == tail[i..]; }
      order[..i] + order[i + 1..];
    }
  }

  /** One unfolding of Keep on a kept first element. */
  lemma KeepCons(order: seq<int>, keys: set<int>)
    requires order != [] && order[0] in keys
    ensures Keep(order, keys) == [order[0]] + Keep(order[1..], keys)
  {
  }

  lemma {:induction false} KeepAll(order: seq<int>, keys: set<int>)
    requires forall j :: 0 <= j < |order| ==> order[j] in keys
    ensures Keep(order, keys) == order
    decreases |order|
  {
    if order != [] {
      KeepAll(order[1..], keys);
      assert order == [order[0]] + order[1..];
    }
  }

  /** In a duplicate-free order, dropping one key from the kept set removes
      exactly its entry and leaves the others where they were relative to
      each other. */
  lemma KeepRemovesOne(order: seq<int>, keys: set<int>, x: int)
    requires Distinct(order) && x !in keys
    requires forall j :: 0 <= j < |order| && order[j] != x ==> order[j] in keys
    ensures forall i :: 0 <= i < |order| && order[i] == x ==>
              Keep(order, keys) == order[..i] + order[i + 1..]
  {
    forall i | 0 <= i < |order| && order[i] == x
      ensures Keep(order, keys) == order[..i] + order[i + 1..]
    {
      KeepAllBut(order, keys, i);
    }
  }

  lemma DistinctAppend(s: seq<int>, x: int)
    requires Distinct(s) && x !in s
    ensures Distinct(s + [x])
  {
  }

  /** findById on the trains table. */
  function FindTrain(s: Tables, id: int): (r: Option<Train>)
    ensures r.Some? <==> id in s.trains
    ensures r.Some? ==> r.value == s.trains[id]
  {
    if id in s.trains then Some(s.trains[id]) else None
  }

  /** findById on the routes table. */
  function FindRoute(s: Tables, id: int): (r: Option<Route>)
    ensures r.Some? <==> id in s.routes
    ensures r.Some? ==> r.value == s.routes[id]
  {
    if id in s.routes then Some(s.routes[id]) else None
  }

  /** findAll on the trains table, in store order. */
  function AllTrains(s: Tables): (r: seq<Train>)
    requires Valid(s)
    ensures |r| == |s.trainOrder|
    ensures forall i :: 0 <= i < |r| ==> r[i] == s.trains[s.trainOrder[i]]
  {
    seq(|s.trainOrder|,
        i requires 0 <= i < |s.trainOrder| && s.trainOrder[i] in s.trains =>
          s.trains[s.trainOrder[i]])
  }

  /** findAll on the routes table, in store order. */
  function AllRoutes(s: Tables): (r: seq<Route>)
    requires Valid(s)
    ensures |r| == |s.routeOrder|
    ensures forall i :: 0 <= i < |r| ==> r[i] == s.routes[s.routeOrder[i]]
  {
    seq(|s.routeOrder|,
        i requires 0 <= i < |s.routeOrder| && s.routeOrder[i] in s.routes =>
          s.routes[s.routeOrder[i]])
  }

  /** findAll lists every stored train, and nothing else. */
  lemma AllTrainsListsEveryRow(s: Tables, t: Train)
    requires Valid(s)
    ensures t in AllTrains(s) <==> exists k :: k in s.trains && s.trains[k] == t
  {
    var all := AllTrains(s);
    if exists k :: k in s.trains && s.trains[k] == t {
      var k :| k in s.trains && s.trains[k] == t;
      var i :| 0 <= i < |s.trainOrder| && s.trainOrder[i] == k;
      assert all[i] == t;
    }
    if t in all {
      var i :| 0 <= i < |all| && all[i] == t;
      assert s.trainOrder[i] in s.trains;
    }
  }

  /** findAll lists every stored route, and nothing else. */
  lemma AllRoutesListsEveryRow(s: Tables, r: Route)
    requires Valid(s)
    ensures r in AllRoutes(s) <==> exists k :: k in s.routes && s.routes[k] == r
  {
    var all := AllRoutes(s);
    if exists k :: k in s.routes && s.routes[k] == r {
      var k :| k in s.routes && s.routes[k] == r;
      var i :| 0 <= i < |s.routeOrder| && s.routeOrder[i] == k;
      assert all[i] == r;
    }
    if r in all {
      var i :| 0 <= i < |all| && all[i] == r;
      assert s.routeOrder[i] in s.routes;
    }
  }

  /** The `routes` collection of a train (mappedBy "train"): the ids of the
      routes whose train is `trainId`. */
  function RoutesOf(s: Tables, trainId: int): (r: set<int>)
    ensures r <= s.routes.Keys
    ensures forall k :: k in r <==> k in s.routes && s.routes[k].trainId == trainId
  {
    set k | k in s.routes && s.routes[k].trainId == trainId
  }

  /** save on the trains table: a train whose id is a key overwrites that row;
      any other train is inserted under a fresh id, appended to store order. */
  function SaveTrain(s: Tables, t: Train): (r: Saved<Train>)
    requires Valid(s)
    ensures Valid(r.after)
    ensures r.after.routeOrder == s.routeOrder && r.after.routes == s.routes
    ensures r.after.nextRouteId == s.nextRouteId
    ensures t.id in s.trains ==>
              && r.entity == t && r.after.trains == s.trains[t.id := t]
              && r.after.trainOrder == s.trainOrder
    ensures t.id !in s.trains ==>
              && r.entity == t.(id := r.entity.id)
              && r.entity.id !in s.trains && r.entity.id != UnsavedId
              && r.after.trains == s.trains[r.entity.id := r.entity]
              && r.after.trainOrder == s.trainOrder + [r.entity.id]
  {
    if t.id in s.trains then
      Saved(s.(trains := s.trains[t.id := t]), t)
    else
      var saved := t.(id := s.nextTrainId);
      DistinctAppend(s.trainOrder, saved.id);
      Saved(s.(trains := s.trains[saved.id := saved],
               trainOrder := s.trainOrder + [saved.id],
               nextTrainId := s.nextTrainId + 1),
            saved)
  }

  /** save on the routes table, with `train` the route's train object. A train
      that is not yet a row is inserted first under a fresh id and the route
      then references that id. The source declares no cascade on Route.train,
      so this insertion is an assumption about the persistence provider. */
  function SaveRoute(s: Tables, r: Route, train: Train): (res: Saved<Route>)
    requires Valid(s)
    requires r.trainId == train.id
    ensures Valid(res.after)
    ensures res.entity.trainId in res.after.trains
    ensures train.id in s.trains ==>
              && res.entity.trainId == r.trainId
              && res.after.trains == s.trains && res.after.trainOrder == s.trainOrder
    ensures train.id !in s.trains ==>
              && res.entity.trainId !in s.trains && res.entity.trainId != UnsavedId
              && res.after.trains == s.trains[res.entity.trainId := train.(id := res.entity.trainId)]
              && res.after.trainOrder == s.trainOrder + [res.entity.trainId]
    ensures r.id in s.routes ==>
              && res.entity == r.(trainId := res.entity.trainId)
              && res.after.routes == s.routes[r.id := res.entity]
              && res.after.routeOrder == s.routeOrder
    ensures r.id !in s.routes ==>
              && res.entity == r.(id := res.entity.id, trainId := res.entity.trainId)
              && res.entity.id !in s.routes && res.entity.id != UnsavedId
              && res.after.routes == s.routes[res.entity.id := res.entity]
              && res.after.routeOrder == s.routeOrder + [res.entity.id]
  {
    var withTrain := if train.id in s.trains then Saved(s, train) else SaveTrain(s, train);
    PutRoute(withTrain.after, r.(trainId := withTrain.entity.id))
  }

  /** The routes-table half of save, for a route whose train is a row. */
  function PutRoute(s: Tables, route: Route): (res: Saved<Route>)
    requires Valid(s) && route.trainId in s.trains
    ensures Valid(res.after)
    ensures res.after.trains == s.trains && res.after.trainOrder == s.trainOrder
    ensures res.entity.trainId == route.trainId
    ensures route.id in s.routes ==>
              && res.entity == route
              && res.after.routes == s.routes[route.id := route]
              && res.after.routeOrder == s.routeOrder
    ensures route.id !in s.routes ==>
              && res.entity == route.(id := res.entity.id)
              && res.entity.id !in s.routes && res.entity.id != UnsavedId
              && res.after.routes == s.routes[res.entity.id := res.entity]
              && res.after.routeOrder == s.routeOrder + [res.entity.id]
  {
    if route.id in s.routes then
      Saved(s.(routes := s.routes[route.id := route]), route)
    else
      var saved := route.(id := s.nextRouteId);
      DistinctAppend(s.routeOrder, saved.id);
      Saved(s.(routes := s.routes[saved.id := saved],
               routeOrder := s.routeOrder + [saved.id],
               nextRouteId := s.nextRouteId + 1),
            saved)
  }

  /** delete on the trains table. Train.routes is cascade-all, so the train's
      routes go with it. A train that is not a row leaves the store as it is. */
  function DeleteTrain(s: Tables, t: Train): (after: Tables)
    requires Valid(s)
    ensures Valid(after)
    ensures after.trains == s.trains - {t.id}
    ensures forall k :: k in after.routes <==> k in s.routes && s.routes[k].trainId != t.id
    ensures forall k :: k in after.routes ==> after.routes[k] == s.routes[k]
    ensures RoutesOf(after, t.id) == {}
    ensures after.nextTrainId == s.nextTrainId && after.nextRouteId == s.nextRouteId
    ensures forall i :: 0 <= i < |s.trainOrder| && s.trainOrder[i] == t.id ==>
              after.trainOrder == s.trainOrder[..i] + s.trainOrder[i + 1..]
    ensures Subsequence(after.routeOrder, s.routeOrder)
    ensures t.id !in s.trains ==> after == s
  {
    if t.id !in s.trains then SubsequenceOfItself(s.routeOrder); s
    else
      var routes := map k | k in s.routes && s.routes[k].trainId != t.id :: s.routes[k];
      KeepRemovesOne(s.trainOrder, s.trains.Keys - {t.id}, t.id);
      CascadeKeepsValid(s, t.id, routes);
      s.(trainOrder := Keep(s.trainOrder, s.trains.Keys - {t.id}),
         trains := s.trains - {t.id},
         routeOrder := Keep(s.routeOrder, routes.Keys),
         routes := routes)
  }

  /** Removing a train together with the routes that reference it keeps the
      store invariant. */
  lemma CascadeKeepsValid(s: Tables, id: int, routes: map<int, Route>)
    requires Valid(s)
    requires routes == map k | k in s.routes && s.routes[k].trainId != id :: s.routes[k]
    ensures Valid(s.(trainOrder := Keep(s.trainOrder, s.trains.Keys - {id}),
                     trains := s.trains - {id},
                     routeOrder := Keep(s.routeOrder, routes.Keys),
                     routes := routes))
  {
  }

  /** delete on the routes table; the route's train stays. */
  function DeleteRoute(s: Tables, r: Route): (after: Tables)
    requires Valid(s)
    ensures Valid(after)
    ensures after.routes == s.routes - {r.id}
    ensures after.trains == s.trains && after.trainOrder == s.trainOrder
    ensures after.nextTrainId == s.nextTrainId && after.nextRouteId == s.nextRouteId
    ensures forall i :: 0 <= i < |s.routeOrder| && s.routeOrder[i] == r.id ==>
              after.routeOrder == s.routeOrder[..i] + s.routeOrder[i + 1..]
    ensures r.id !in s.routes ==> after == s
  {
    if r.id !in s.routes then s
    else
      KeepRemovesOne(s.routeOrder, s.routes.Keys - {r.id}, r.id);
      s.(routeOrder := Keep(s.routeOrder, s.routes.Keys - {r.id}), routes := s.routes - {r.id})
  }
}
