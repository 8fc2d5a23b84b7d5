/** The shared database behind TrainRepository and RouteRepository, as an
    object whose tables the save and delete calls update in place. */
module Repository {
  import opened Entity
  import Store

  class Database {
    var trainOrder: seq<int>
    var trains: map<int, Train>
    var nextTrainId: int
    var routeOrder: seq<int>
    var routes: map<int, Route>
    var nextRouteId: int

    /** The abstract value of the database. */
    function Snapshot(): Store.Tables
      reads this
    {
      Store.Tables(trainOrder, trains, nextTrainId, routeOrder, routes, nextRouteId)
    }

    ghost predicate Valid()
      reads this
    {
      Store.Valid(Snapshot())
    }

    constructor ()
      ensures Snapshot() == Store.Empty && Valid()
    {
      trainOrder, trains, nextTrainId := [], map[], 1;
      routeOrder, routes, nextRouteId := [], map[], 1;
    }

    /** trainRepository.save */
    method SaveTrain(t: Train) returns (saved: Train)
      requires Valid()
      modifies this
      ensures Valid()
      ensures Store.Saved(Snapshot(), saved) == Store.SaveTrain(old(Snapshot()), t)
    {
      if t.id in trains {
        saved := t;
        trains := trains[t.id := t];
      } else {
        saved := t.(id := nextTrainId);
        trains := trains[saved.id := saved];
        trainOrder := trainOrder + [saved.id];
        nextTrainId := nextTrainId + 1;
      }
    }

    /** routeRepository.save, with `train` the route's train object. */
    method SaveRoute(r: Route, train: Train) returns (saved: Route)
      requires Valid() && r.trainId == train.id
      modifies this
      ensures Valid()
      ensures Store.Saved(Snapshot(), saved) == Store.SaveRoute(old(Snapshot()), r, train)
    {
      var trainId := train.id;
      if train.id !in trains {
        var persisted := SaveTrain(train);
        trainId := persisted.id;
      }
      saved := PutRoute(r.(trainId := trainId));
    }

    /** The routes-table half of routeRepository.save. */
    method PutRoute(route: Route) returns (saved: Route)
      requires Valid() && route.trainId in trains
      modifies this
      ensures Valid()
      ensures Store.Saved(Snapshot(), saved) == Store.PutRoute(old(Snapshot()), route)
    {
      saved := route;
      if saved.id in routes {
        routes := routes[saved.id := saved];
      } else {
        saved := saved.(id := nextRouteId);
        routes := routes[saved.id := saved];
        routeOrder := routeOrder + [saved.id];
        nextRouteId := nextRouteId + 1;
      }
    }

    /** trainRepository.delete, cascading to the train's routes. */
    method DeleteTrain(t: Train)
      requires Valid()
      modifies this
      ensures Valid()
      ensures Snapshot() == Store.DeleteTrain(old(Snapshot()), t)
    {
      if t.id in trains {
        var kept := map k | k in routes && routes[k].trainId != t.id :: routes[k];
        trainOrder := Store.Keep(trainOrder, trains.Keys - {t.id});
        trains := trains - {t.id};
        routeOrder := Store.Keep(routeOrder, kept.Keys);
        routes := kept;
        assert Snapshot() == Store.DeleteTrain(old(Snapshot()), t);
      }
    }

    /** routeRepository.delete */
    method DeleteRoute(r: Route)
      requires Valid()
      modifies this
      ensures Valid()
      ensures Snapshot() == Store.DeleteRoute(old(Snapshot()), r)
    {
      if r.id in routes {
        routeOrder := Store.Keep(routeOrder, routes.Keys - {r.id});
        routes := routes - {r.id};
      }
    }
  }
}
