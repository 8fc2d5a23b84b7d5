/** The HTTP endpoints of TrainController (/trains) and RouteController
    (/routes). Each endpoint calls one service method with the path id and the
    body as received; GET-by-id, PUT and DELETE turn the not-found exception
    into an empty 404 through wrapNotFound, list GET and POST return the
    service result as it is. */
module Controllers {
  import opened Base
  import opened Dtos
  import opened Store
  import Services
  import ServiceImpl

  /** What a handler produces: a response with a status and an optional
      body, or an exception that escapes the handler. */
  datatype Reply<T> = Http(status: int, body: Option<T>) | Thrown(failure: Failure)

  /** wrapNotFound: 200 with the result as body; an IllegalArgumentException
      (the not-found failure) becomes 404 with no body; any other exception is
      not caught and propagates. Both controllers and the functional router
      carry identical copies of it. */
  function WrapNotFound<T>(call: Result<T>): (r: Reply<T>)
    ensures call.Ok? <==> r.Http? && r.status == 200
    ensures call.Ok? ==> r.body == Some(call.value)
    ensures r == Http(404, None) <==> call.Err? && call.failure.NotFound?
    ensures r.Thrown? <==> call.Err? && !call.failure.NotFound?
    ensures r.Thrown? ==> r.failure == call.failure
  {
    match call
    case Ok(v) => Http(200, Some(v))
    case Err(NotFound(_, _)) => Http(404, None)
    case Err(f) => Thrown(f)
  }

  /** An endpoint that returns the service result itself: 200 with the
      result, and every exception propagates. */
  function ReturnDirectly<T>(call: Result<T>): (r: Reply<T>)
    ensures call.Ok? <==> r.Http?
    ensures r.Http? ==> r == Http(200, Some(call.value))
    ensures r.Thrown? ==> r.failure == call.failure
  {
    match call
    case Ok(v) => Http(200, Some(v))
    case Err(f) => Thrown(f)
  }

  class TrainController {
    const trainService: ServiceImpl.TrainServiceImpl

    constructor (trainService: ServiceImpl.TrainServiceImpl)
      ensures this.trainService == trainService
    {
      this.trainService := trainService;
    }

    /** GET /trains */
    method Trains() returns (r: Reply<seq<TrainResponse>>)
      requires trainService.db.Valid()
      ensures r == Http(200, Some(Services.ReadTrains(trainService.db.Snapshot(), trainService.dates)))
    {
      var trains := trainService.Read();
      r := ReturnDirectly(Ok(trains));
    }

    /** GET /trains/{id} */
    method ReadTrainBy(id: int) returns (r: Reply<TrainResponse>)
      requires trainService.db.Valid()
      ensures r == WrapNotFound(Services.ReadTrainById(trainService.db.Snapshot(), trainService.dates, id))
    {
      var result := trainService.ReadById(id);
      r := WrapNotFound(result);
    }

    /** POST /trains */
    method CreateTrain(trainRequest: TrainRequest) returns (r: Reply<TrainResponse>)
      requires trainService.db.Valid()
      modifies trainService.db
      ensures trainService.db.Valid()
      ensures var step := Services.CreateTrain(old(trainService.db.Snapshot()), trainService.dates, trainRequest);
              r == ReturnDirectly(step.result) && trainService.db.Snapshot() == step.after
    {
      var result := trainService.Create(trainRequest);
      r := ReturnDirectly(result);
    }

    /** PUT /trains/{id} */
    method UpdateTrain(id: int, trainRequest: TrainRequest) returns (r: Reply<TrainResponse>)
      requires trainService.db.Valid()
      modifies trainService.db
      ensures trainService.db.Valid()
      ensures var step := Services.UpdateTrainById(old(trainService.db.Snapshot()), trainService.dates, id, trainRequest);
              r == WrapNotFound(step.result) && trainService.db.Snapshot() == step.after
    {
      var result := trainService.UpdateById(id, trainRequest);
      r := WrapNotFound(result);
    }

    /** DELETE /trains/{id} */
    method DeleteTrain(id: int) returns (r: Reply<TrainResponse>)
      requires trainService.db.Valid()
      modifies trainService.db
      ensures trainService.db.Valid()
      ensures var step := Services.DeleteTrainById(old(trainService.db.Snapshot()), trainService.dates, id);
              r == WrapNotFound(step.result) && trainService.db.Snapshot() == step.after
    {
      var result := trainService.DeleteById(id);
      r := WrapNotFound(result);
    }
  }

  class RouteController {
    const routeService: ServiceImpl.RouteServiceImpl

    constructor (routeService: ServiceImpl.RouteServiceImpl)
      ensures this.routeService == routeService
    {
      this.routeService := routeService;
    }

    /** GET /routes */
    method Routes() returns (r: Reply<seq<RouteResponse>>)
      requires routeService.db.Valid()
      ensures r == Http(200, Some(Services.ReadRoutes(routeService.db.Snapshot(), routeService.dates)))
    {
      var routes := routeService.Read();
      r := ReturnDirectly(Ok(routes));
    }

    /** GET /routes/{id} */
    method ReadRoute(id: int) returns (r: Reply<RouteResponse>)
      requires routeService.db.Valid()
      ensures r == WrapNotFound(Services.ReadRouteById(routeService.db.Snapshot(), routeService.dates, id))
    {
      var result := routeService.ReadById(id);
      r := WrapNotFound(result);
    }

    /** POST /routes */
    method CreateRoute(routeRequest: RouteRequest) returns (r: Reply<RouteResponse>)
      requires routeService.db.Valid()
      modifies routeService.db
      ensures routeService.db.Valid()
      ensures var step := Services.CreateRoute(old(routeService.db.Snapshot()), routeService.dates, routeRequest);
              r == ReturnDirectly(step.result) && routeService.db.Snapshot() == step.after
    {
      var result := routeService.Create(routeRequest);
      r := ReturnDirectly(result);
    }

    /** PUT /routes/{id} */
    method UpdateRoute(id: int, routeRequest: RouteRequest) returns (r: Reply<RouteResponse>)
      requires routeService.db.Valid()
      modifies routeService.db
      ensures routeService.db.Valid()
      ensures var step := Services.UpdateRouteById(old(routeService.db.Snapshot()), routeService.dates, id, routeRequest);
              r == WrapNotFound(step.result) && routeService.db.Snapshot() == step.after
    {
      var result := routeService.UpdateById(id, routeRequest);
      r := WrapNotFound(result);
    }

    /** DELETE /routes/{id} */
    method DeleteRoute(id: int) returns (r: Reply<RouteResponse>)
      requires routeService.db.Valid()
      modifies routeService.db
      ensures routeService.db.Valid()
      ensures var step := Services.DeleteRouteById(old(routeService.db.Snapshot()), routeService.dates, id);
              r == WrapNotFound(step.result) && routeService.db.Snapshot() == step.after
    {
      var result := routeService.DeleteById(id);
      r := WrapNotFound(result);
    }
  }

  // ---------------------------------------------------------------------------
  // Status codes as seen by a client

  /** /trains/{id}: GET, PUT and DELETE answer 404 with no body exactly when
      the id is absent. PUT with a malformed date on a present id throws the
      parse error instead of answering. */
  lemma TrainByIdStatuses(s: Tables, lib: DateLibrary, id: int, req: TrainRequest)
    requires Valid(s)
    ensures var get := WrapNotFound(Services.ReadTrainById(s, lib, id));
            var put := WrapNotFound(Services.UpdateTrainById(s, lib, id, req).result);
            var delete := WrapNotFound(Services.DeleteTrainById(s, lib, id).result);
            && (get == Http(404, None) <==> id !in s.trains)
            && (delete == Http(404, None) <==> id !in s.trains)
            && (put == Http(404, None) <==> id !in s.trains)
            && (id in s.trains ==> get == Http(200, Some(Services.TrainToDto(s.trains[id], lib))))
            && (id in s.trains ==> delete == get)
            && (id in s.trains && lib.parse(req.commissioningDate).None? ==>
                  put == Thrown(DateParseError(req.commissioningDate)))
            && (id in s.trains && lib.parse(req.commissioningDate).Some? ==> put.Http? && put.status == 200)
  {
  }

  /** POST /trains never answers 404; a malformed date propagates. */
  lemma CreateTrainStatuses(s: Tables, lib: DateLibrary, req: TrainRequest)
    requires Valid(s)
    ensures var post := ReturnDirectly(Services.CreateTrain(s, lib, req).result);
            && post != Http(404, None)
            && (lib.parse(req.commissioningDate).None? <==> post == Thrown(DateParseError(req.commissioningDate)))
  {
  }

  /** /routes/{id}: the same contract as /trains/{id}. */
  lemma RouteByIdStatuses(s: Tables, lib: DateLibrary, id: int, req: RouteRequest)
    requires Valid(s)
    ensures var get := WrapNotFound(Services.ReadRouteById(s, lib, id));
            var put := WrapNotFound(Services.UpdateRouteById(s, lib, id, req).result);
            var delete := WrapNotFound(Services.DeleteRouteById(s, lib, id).result);
            && (get == Http(404, None) <==> id !in s.routes)
            && (delete == Http(404, None) <==> id !in s.routes)
            && (put == Http(404, None) <==> id !in s.routes)
            && (id in s.routes ==> delete == get && get.Http? && get.status == 200)
            && (id in s.routes && lib.parse(req.departureDate).None? ==>
                  put == Thrown(DateParseError(req.departureDate)))
            && (id in s.routes && lib.parse(req.departureDate).Some? ==> put.Http? && put.status == 200)
  {
  }

  /** A full exchange: POST a train, GET it back with the same body,
      DELETE it answering that body again, then GET answers 404. */
  lemma TrainLifecycle(s: Tables, lib: DateLibrary, req: TrainRequest)
    requires Valid(s) && lib.parse(req.commissioningDate).Some?
    ensures var created := Services.CreateTrain(s, lib, req);
            var post := ReturnDirectly(created.result);
            && post.Http? && post.status == 200 && post.body.Some?
            && var id := post.body.value.id;
            && WrapNotFound(Services.ReadTrainById(created.after, lib, id)) == post
            && var deleted := Services.DeleteTrainById(created.after, lib, id);
            && WrapNotFound(deleted.result) == post
            && WrapNotFound(Services.ReadTrainById(deleted.after, lib, id)) == Http(404, None)
  {
  }
}
