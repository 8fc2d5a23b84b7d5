/** TrainServiceImpl and RouteServiceImpl: objects over the shared database
    whose methods look the row up, assign its fields one by one and save or
    delete through the repository, each proved to do what module Services
    says the operation does. */
module ServiceImpl {
  import opened Base
  import opened Dtos
  import opened Entity
  import Store
  import Repository
  import Services

  class TrainServiceImpl {
    const db: Repository.Database
    const dates: DateLibrary

    constructor (db: Repository.Database, dates: DateLibrary)
      ensures this.db == db && this.dates == dates
    {
      this.db := db;
      this.dates := dates;
    }

    /** getTrainById */
    method GetTrainById(id: int) returns (r: Result<Train>)
      requires db.Valid()
      ensures r == Services.GetTrainById(db.Snapshot(), id)
      ensures r.Ok? <==> id in db.trains
    {
      if id in db.trains {
        r := Ok(db.trains[id]);
      } else {
        r := Err(NotFound(TrainEntity, id));
      }
    }

    method Create(trainRequest: TrainRequest) returns (r: Result<TrainResponse>)
      requires db.Valid()
      modifies db
      ensures db.Valid()
      ensures Services.Step(r, db.Snapshot()) == Services.CreateTrain(old(db.Snapshot()), dates, trainRequest)
    {
      var date := dates.parse(trainRequest.commissioningDate);
      if date.None? {
        return Err(DateParseError(trainRequest.commissioningDate));
      }
      var train := NewTrain(trainRequest.model, trainRequest.manufacturer, trainRequest.trainType,
                            date.value, trainRequest.seatCount, trainRequest.weight,
                            trainRequest.hasAirConditioning);
      var savedTrain := db.SaveTrain(train);
      r := Ok(Services.TrainToDto(savedTrain, dates));
    }

    method Read() returns (r: seq<TrainResponse>)
      requires db.Valid()
      ensures r == Services.ReadTrains(db.Snapshot(), dates)
      ensures |r| == |db.trainOrder|
    {
      r := Services.TrainsToDtos(Store.AllTrains(db.Snapshot()), dates);
    }

    method ReadById(id: int) returns (r: Result<TrainResponse>)
      requires db.Valid()
      ensures r == Services.ReadTrainById(db.Snapshot(), dates, id)
      ensures r.Err? <==> id !in db.trains
    {
      var train := GetTrainById(id);
      if train.Err? {
        return Err(train.failure);
      }
      r := Ok(Services.TrainToDto(train.value, dates));
    }

    method UpdateById(id: int, trainRequest: TrainRequest) returns (r: Result<TrainResponse>)
      requires db.Valid()
      modifies db
      ensures db.Valid()
      ensures Services.Step(r, db.Snapshot()) ==
                Services.UpdateTrainById(old(db.Snapshot()), dates, id, trainRequest)
    {
      var found := GetTrainById(id);
      if found.Err? {
        return Err(found.failure);
      }
      var train := found.value;
      train := train.(model := trainRequest.model);
      train := train.(manufacturer := trainRequest.manufacturer);
      train := train.(trainType := trainRequest.trainType);
      var date := dates.parse(trainRequest.commissioningDate);
      if date.None? {
        return Err(DateParseError(trainRequest.commissioningDate));
      }
      train := train.(commissioningDate := date.value);
      train := train.(seatCount := trainRequest.seatCount);
      train := train.(weight := trainRequest.weight);
      train := train.(hasAirConditioning := trainRequest.hasAirConditioning);
      var updatedTrain := db.SaveTrain(train);
      r := Ok(Services.TrainToDto(updatedTrain, dates));
    }

    method DeleteById(id: int) returns (r: Result<TrainResponse>)
      requires db.Valid()
      modifies db
      ensures db.Valid()
      ensures Services.Step(r, db.Snapshot()) == Services.DeleteTrainById(old(db.Snapshot()), dates, id)
    {
      var found := GetTrainById(id);
      if found.Err? {
        return Err(found.failure);
      }
      db.DeleteTrain(found.value);
      r := Ok(Services.TrainToDto(found.value, dates));
    }
  }

  class RouteServiceImpl {
    const db: Repository.Database
    const dates: DateLibrary

    constructor (db: Repository.Database, dates: DateLibrary)
      ensures this.db == db && this.dates == dates
    {
      this.db := db;
      this.dates := dates;
    }

    /** getRouteById */
    method GetRouteById(id: int) returns (r: Result<Route>)
      requires db.Valid()
      ensures r == Services.GetRouteById(db.Snapshot(), id)
      ensures r.Ok? <==> id in db.routes
    {
      if id in db.routes {
        r := Ok(db.routes[id]);
      } else {
        r := Err(NotFound(RouteEntity, id));
      }
    }

    method Create(routeRequest: RouteRequest) returns (r: Result<RouteResponse>)
      requires db.Valid()
      modifies db
      ensures db.Valid()
      ensures Services.Step(r, db.Snapshot()) == Services.CreateRoute(old(db.Snapshot()), dates, routeRequest)
    {
      var train := routeRequest.train;
      var trainDate := dates.parse(train.commissioningDate);
      if trainDate.None? {
        return Err(DateParseError(train.commissioningDate));
      }
      var newTrain := NewTrain(train.model, train.manufacturer, train.trainType, trainDate.value,
                               train.seatCount, train.weight, train.hasAirConditioning);
      var date := dates.parse(routeRequest.departureDate);
      if date.None? {
        return Err(DateParseError(routeRequest.departureDate));
      }
      var route := NewRoute(newTrain, routeRequest.departurePoint, routeRequest.destination,
                            date.value, routeRequest.distance, routeRequest.ticketPrice,
                            routeRequest.isCircular);
      var savedRoute := db.SaveRoute(route, newTrain);
      r := Ok(Services.StoredRouteToDto(db.Snapshot(), savedRoute, dates));
    }

    method Read() returns (r: seq<RouteResponse>)
      requires db.Valid()
      ensures r == Services.ReadRoutes(db.Snapshot(), dates)
      ensures |r| == |db.routeOrder|
    {
      var routes := Store.AllRoutes(db.Snapshot());
      assert forall i :: 0 <= i < |routes| ==>
               db.routeOrder[i] in db.routes && routes[i] == db.routes[db.routeOrder[i]];
      r := Services.RoutesToDtos(routes, db.trains, dates);
    }

    method ReadById(id: int) returns (r: Result<RouteResponse>)
      requires db.Valid()
      ensures r == Services.ReadRouteById(db.Snapshot(), dates, id)
      ensures r.Err? <==> id !in db.routes
    {
      var route := GetRouteById(id);
      if route.Err? {
        return Err(route.failure);
      }
      r := Ok(Services.StoredRouteToDto(db.Snapshot(), route.value, dates));
    }

    method UpdateById(id: int, routeRequest: RouteRequest) returns (r: Result<RouteResponse>)
      requires db.Valid()
      modifies db
      ensures db.Valid()
      ensures Services.Step(r, db.Snapshot()) ==
                Services.UpdateRouteById(old(db.Snapshot()), dates, id, routeRequest)
    {
      var found := GetRouteById(id);
      if found.Err? {
        return Err(found.failure);
      }
      var route := found.value;
      route := route.(departurePoint := routeRequest.departurePoint);
      route := route.(destination := routeRequest.destination);
      var date := dates.parse(routeRequest.departureDate);
      if date.None? {
        return Err(DateParseError(routeRequest.departureDate));
      }
      route := route.(departureDate := date.value);
      route := route.(distance := routeRequest.distance);
      route := route.(ticketPrice := routeRequest.ticketPrice);
      route := route.(isCircular := routeRequest.isCircular);
      var updatedRoute := db.SaveRoute(route, db.trains[route.trainId]);
      r := Ok(Services.StoredRouteToDto(db.Snapshot(), updatedRoute, dates));
    }

    method DeleteById(id: int) returns (r: Result<RouteResponse>)
      requires db.Valid()
      modifies db
      ensures db.Valid()
      ensures Services.Step(r, db.Snapshot()) == Services.DeleteRouteById(old(db.Snapshot()), dates, id)
    {
      var found := GetRouteById(id);
      if found.Err? {
        return Err(found.failure);
      }
      var response := Services.StoredRouteToDto(db.Snapshot(), found.value, dates);
      db.DeleteRoute(found.value);
      r := Ok(response);
    }
  }
}
