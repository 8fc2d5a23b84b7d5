/** What each operation of TrainService and RouteService does to the tables
    and what it returns, as functions of the tables before the call, together
    with the entity-to-DTO mappers and the properties that relate operations. */
module Services {
  import opened Base
  import opened Dtos
  import opened Entity
  import opened Store

  /** The outcome of one service call: its result and the tables afterwards. */
  datatype Step<T> = Step(result: Result<T>, after: Tables)

  // ---------------------------------------------------------------------------
  // Mappers

  /** trainEntityToDto; also the train part of routeEntityToDto, which builds
      the same TrainResponse with the same ISO_DATE formatter. */
  function TrainToDto(t: Train, lib: DateLibrary): (r: TrainResponse)
    ensures r.id == t.id && r.model == t.model && r.manufacturer == t.manufacturer
    ensures r.trainType == t.trainType && r.commissioningDate == lib.formatIso(t.commissioningDate)
    ensures r.seatCount == t.seatCount && r.weight == t.weight
    ensures r.hasAirConditioning == t.hasAirConditioning
  {
    TrainResponse(t.id, t.model, t.manufacturer, t.trainType, lib.formatIso(t.commissioningDate),
                  t.seatCount, t.weight, t.hasAirConditioning)
  }

  /** routeEntityToDto, with `train` the route's train. The route's own date
      goes through LocalDate.toString, not through the ISO_DATE formatter. */
  function RouteToDto(r: Route, train: Train, lib: DateLibrary): (resp: RouteResponse)
    ensures resp.id == r.id && resp.train == TrainToDto(train, lib)
    ensures resp.departurePoint == r.departurePoint && resp.destination == r.destination
    ensures resp.departureDate == lib.toText(r.departureDate)
    ensures resp.distance == r.distance && resp.ticketPrice == r.ticketPrice
    ensures resp.isCircular == r.isCircular
  {
    RouteResponse(r.id, TrainToDto(train, lib), r.departurePoint, r.destination,
                  lib.toText(r.departureDate), r.distance, r.ticketPrice, r.isCircular)
  }

  /** The unsaved Train built from a request whose date text parsed to `date`. */
  function TrainFromRequest(req: TrainRequest, date: LocalDate): Train {
    NewTrain(req.model, req.manufacturer, req.trainType, date, req.seatCount, req.weight,
             req.hasAirConditioning)
  }

  /** `resp` carries the scalar fields of `req`, its date text replaced by the
      formatted parse result `date`. */
  predicate TrainAnswers(resp: TrainResponse, req: TrainRequest, date: LocalDate, lib: DateLibrary) {
    && resp.model == req.model && resp.manufacturer == req.manufacturer
    && resp.trainType == req.trainType && resp.commissioningDate == lib.formatIso(date)
    && resp.seatCount == req.seatCount && resp.weight == req.weight
    && resp.hasAirConditioning == req.hasAirConditioning
  }

  /** `resp` carries the route's own scalar fields of `req`, its date text
      replaced by `date` rendered with LocalDate.toString. */
  predicate RouteAnswers(resp: RouteResponse, req: RouteRequest, date: LocalDate, lib: DateLibrary) {
    && resp.departurePoint == req.departurePoint && resp.destination == req.destination
    && resp.departureDate == lib.toText(date) && resp.distance == req.distance
    && resp.ticketPrice == req.ticketPrice && resp.isCircular == req.isCircular
  }

  /** Building a Train from a request and mapping it back gives the request's
      fields, with whatever id the store assigned. */
  lemma TrainRoundTrip(req: TrainRequest, date: LocalDate, id: int, lib: DateLibrary)
    ensures var resp := TrainToDto(TrainFromRequest(req, date).(id := id), lib);
            resp.id == id && TrainAnswers(resp, req, date, lib)
  {
  }

  /** The stream map of `read`: one response per train, in order. */
  function TrainsToDtos(ts: seq<Train>, lib: DateLibrary): (rs: seq<TrainResponse>)
    ensures |rs| == |ts|
    ensures forall i :: 0 <= i < |ts| ==> rs[i] == TrainToDto(ts[i], lib)
  {
    if ts == [] then [] else [TrainToDto(ts[0], lib)] + TrainsToDtos(ts[1..], lib)
  }

  /** The stream map of route `read`, each route mapped with its train. */
  function RoutesToDtos(rs: seq<Route>, trains: map<int, Train>, lib: DateLibrary): (out: seq<RouteResponse>)
    requires forall i :: 0 <= i < |rs| ==> rs[i].trainId in trains
    ensures |out| == |rs|
    ensures forall i :: 0 <= i < |rs| ==> out[i] == RouteToDto(rs[i], trains[rs[i].trainId], lib)
  {
    if rs == [] then []
    else [RouteToDto(rs[0], trains[rs[0].trainId], lib)] + RoutesToDtos(rs[1..], trains, lib)
  }

  // ---------------------------------------------------------------------------
  // TrainService

  /** getTrainById: the row, or the not-found IllegalArgumentException. */
  function GetTrainById(s: Tables, id: int): (r: Result<Train>)
    requires Valid(s)
    ensures r.Ok? <==> id in s.trains
    ensures r.Ok? ==> r.value == s.trains[id] && r.value.id == id
    ensures r.Err? ==> r.failure == NotFound(TrainEntity, id)
  {
    match FindTrain(s, id)
    case None => Err(NotFound(TrainEntity, id))
    case Some(t) => Ok(t)
  }

  /** TrainService.create */
  function CreateTrain(s: Tables, lib: DateLibrary, req: TrainRequest): (step: Step<TrainResponse>)
    requires Valid(s)
    ensures Valid(step.after)
    ensures lib.parse(req.commissioningDate).None? ==>
              step == Step(Err(DateParseError(req.commissioningDate)), s)
    ensures lib.parse(req.commissioningDate).Some? ==>
              var date := lib.parse(req.commissioningDate).value;
              && step.result.Ok?
              && var resp := step.result.value;
              && TrainAnswers(resp, req, date, lib)
              && resp.id !in s.trains && resp.id != UnsavedId
              && step.after.trains == s.trains[resp.id := TrainFromRequest(req, date).(id := resp.id)]
              && step.after.trainOrder == s.trainOrder + [resp.id]
              && step.after.routes == s.routes && step.after.routeOrder == s.routeOrder
              && RoutesOf(step.after, resp.id) == {}
  {
    match lib.parse(req.commissioningDate)
    case None => Step(Err(DateParseError(req.commissioningDate)), s)
    case Some(date) =>
      var saved := SaveTrain(s, TrainFromRequest(req, date));
      assert forall k :: k in s.routes ==> s.routes[k].trainId != saved.entity.id;
      Step(Ok(TrainToDto(saved.entity, lib)), saved.after)
  }

  /** TrainService.read: every stored train mapped, in store order. */
  function ReadTrains(s: Tables, lib: DateLibrary): (rs: seq<TrainResponse>)
    requires Valid(s)
    ensures |rs| == |s.trainOrder|
    ensures forall i :: 0 <= i < |rs| ==> rs[i] == TrainToDto(s.trains[s.trainOrder[i]], lib)
  {
    TrainsToDtos(AllTrains(s), lib)
  }

  /** TrainService.readById */
  function ReadTrainById(s: Tables, lib: DateLibrary, id: int): (r: Result<TrainResponse>)
    requires Valid(s)
    ensures r.Ok? <==> id in s.trains
    ensures r.Ok? ==> r.value.id == id && r.value == TrainToDto(s.trains[id], lib)
    ensures r.Err? ==> r.failure == NotFound(TrainEntity, id)
  {
    match GetTrainById(s, id)
    case Err(f) => Err(f)
    case Ok(train) => Ok(TrainToDto(train, lib))
  }

  /** TrainService.updateById: model, manufacturer and type are assigned, then
      the date is parsed (a malformed one throws before save), then the other
      four fields are assigned and the train is saved. */
  function UpdateTrainById(s: Tables, lib: DateLibrary, id: int, req: TrainRequest): (step: Step<TrainResponse>)
    requires Valid(s)
    ensures Valid(step.after)
    ensures id !in s.trains ==> step == Step(Err(NotFound(TrainEntity, id)), s)
    ensures id in s.trains && lib.parse(req.commissioningDate).None? ==>
              step == Step(Err(DateParseError(req.commissioningDate)), s)
    ensures id in s.trains && lib.parse(req.commissioningDate).Some? ==>
              var date := lib.parse(req.commissioningDate).value;
              && step.after.trains == s.trains[id := TrainFromRequest(req, date).(id := id)]
              && step.after.trainOrder == s.trainOrder && step.after.nextTrainId == s.nextTrainId
              && step.after.routes == s.routes && step.after.routeOrder == s.routeOrder
              && step.result == Ok(TrainToDto(step.after.trains[id], lib))
              && step.result.value.id == id && TrainAnswers(step.result.value, req, date, lib)
  {
    match GetTrainById(s, id)
    case Err(f) => Step(Err(f), s)
    case Ok(train) =>
      var train := train.(model := req.model, manufacturer := req.manufacturer,
                          trainType := req.trainType);
      match lib.parse(req.commissioningDate)
      case None => Step(Err(DateParseError(req.commissioningDate)), s)
      case Some(date) =>
        var train := train.(commissioningDate := date, seatCount := req.seatCount,
                            weight := req.weight, hasAirConditioning := req.hasAirConditioning);
        var saved := SaveTrain(s, train);
        Step(Ok(TrainToDto(saved.entity, lib)), saved.after)
  }

  /** TrainService.deleteById: the train and, by cascade, its routes are
      removed; the answer is the train as it was. */
  function DeleteTrainById(s: Tables, lib: DateLibrary, id: int): (step: Step<TrainResponse>)
    requires Valid(s)
    ensures Valid(step.after)
    ensures id !in s.trains ==> step == Step(Err(NotFound(TrainEntity, id)), s)
    ensures id in s.trains ==>
              && step.result == Ok(TrainToDto(s.trains[id], lib))
              && step.after.trains == s.trains - {id}
              && (forall k :: k in step.after.routes <==> k in s.routes && s.routes[k].trainId != id)
              && (forall k :: k in step.after.routes ==> step.after.routes[k] == s.routes[k])
              && RoutesOf(step.after, id) == {}
              && (forall i :: 0 <= i < |s.trainOrder| && s.trainOrder[i] == id ==>
                    step.after.trainOrder == s.trainOrder[..i] + s.trainOrder[i + 1..])
              && Subsequence(step.after.routeOrder, s.routeOrder)
  {
    match GetTrainById(s, id)
    case Err(f) => Step(Err(f), s)
    case Ok(train) => Step(Ok(TrainToDto(train, lib)), DeleteTrain(s, train))
  }

  // ---------------------------------------------------------------------------
  // RouteService

  /** getRouteById: the row, or the not-found IllegalArgumentException. */
  function GetRouteById(s: Tables, id: int): (r: Result<Route>)
    requires Valid(s)
    ensures r.Ok? <==> id in s.routes
    ensures r.Ok? ==> r.value == s.routes[id] && r.value.id == id && r.value.trainId in s.trains
    ensures r.Err? ==> r.failure == NotFound(RouteEntity, id)
  {
    match FindRoute(s, id)
    case None => Err(NotFound(RouteEntity, id))
    case Some(r) => Ok(r)
  }

  /** The response for a stored route, its train looked up in the same tables. */
  function StoredRouteToDto(s: Tables, r: Route, lib: DateLibrary): RouteResponse
    requires r.trainId in s.trains
  {
    RouteToDto(r, s.trains[r.trainId], lib)
  }

  /** RouteService.create: a brand-new Train is built from the embedded train
      request (its date parsed first), then the route (its date parsed
      second); saving the route inserts both. No existing train is looked up. */
  function CreateRoute(s: Tables, lib: DateLibrary, req: RouteRequest): (step: Step<RouteResponse>)
    requires Valid(s)
    ensures Valid(step.after)
    ensures lib.parse(req.train.commissioningDate).None? ==>
              step == Step(Err(DateParseError(req.train.commissioningDate)), s)
    ensures lib.parse(req.train.commissioningDate).Some? && lib.parse(req.departureDate).None? ==>
              step == Step(Err(DateParseError(req.departureDate)), s)
    ensures lib.parse(req.train.commissioningDate).Some? && lib.parse(req.departureDate).Some? ==>
              var trainDate := lib.parse(req.train.commissioningDate).value;
              var date := lib.parse(req.departureDate).value;
              && step.result.Ok?
              && var resp := step.result.value;
              && var trainId := resp.train.id;
              && trainId !in s.trains && trainId != UnsavedId
              && step.after.trains == s.trains[trainId := TrainFromRequest(req.train, trainDate).(id := trainId)]
              && step.after.trainOrder == s.trainOrder + [trainId]
              && |step.after.trains| == |s.trains| + 1
              && resp.id !in s.routes && resp.id != UnsavedId
              && step.after.routes == s.routes[resp.id := Route(resp.id, trainId, req.departurePoint,
                   req.destination, date, req.distance, req.ticketPrice, req.isCircular)]
              && step.after.routeOrder == s.routeOrder + [resp.id]
              && TrainAnswers(resp.train, req.train, trainDate, lib)
              && RouteAnswers(resp, req, date, lib)
  {
    var t := req.train;
    match lib.parse(t.commissioningDate)
    case None => Step(Err(DateParseError(t.commissioningDate)), s)
    case Some(trainDate) =>
      var newTrain := TrainFromRequest(t, trainDate);
      match lib.parse(req.departureDate)
      case None => Step(Err(DateParseError(req.departureDate)), s)
      case Some(date) =>
        var route := NewRoute(newTrain, req.departurePoint, req.destination, date, req.distance,
                              req.ticketPrice, req.isCircular);
        var saved := SaveRoute(s, route, newTrain);
        Step(Ok(StoredRouteToDto(saved.after, saved.entity, lib)), saved.after)
  }

  /** RouteService.read: every stored route mapped with its train, in store order. */
  function ReadRoutes(s: Tables, lib: DateLibrary): (rs: seq<RouteResponse>)
    requires Valid(s)
    ensures |rs| == |s.routeOrder|
    ensures forall i :: 0 <= i < |rs| ==>
              var r := s.routes[s.routeOrder[i]];
              r.trainId in s.trains && rs[i] == RouteToDto(r, s.trains[r.trainId], lib)
  {
    var all := AllRoutes(s);
    assert forall i :: 0 <= i < |all| ==> s.routeOrder[i] in s.routes && all[i] == s.routes[s.routeOrder[i]];
    RoutesToDtos(all, s.trains, lib)
  }

  /** RouteService.readById */
  function ReadRouteById(s: Tables, lib: DateLibrary, id: int): (r: Result<RouteResponse>)
    requires Valid(s)
    ensures r.Ok? <==> id in s.routes
    ensures r.Ok? ==> r.value.id == id && r.value == StoredRouteToDto(s, s.routes[id], lib)
    ensures r.Err? ==> r.failure == NotFound(RouteEntity, id)
  {
    match GetRouteById(s, id)
    case Err(f) => Err(f)
    case Ok(route) => Ok(StoredRouteToDto(s, route, lib))
  }

  /** RouteService.updateById: only the route's six own scalar fields are
      assigned (the date parse sitting between them); the train is untouched. */
  function UpdateRouteById(s: Tables, lib: DateLibrary, id: int, req: RouteRequest): (step: Step<RouteResponse>)
    requires Valid(s)
    ensures Valid(step.after)
    ensures id !in s.routes ==> step == Step(Err(NotFound(RouteEntity, id)), s)
    ensures id in s.routes && lib.parse(req.departureDate).None? ==>
              step == Step(Err(DateParseError(req.departureDate)), s)
    ensures id in s.routes && lib.parse(req.departureDate).Some? ==>
              var date := lib.parse(req.departureDate).value;
              var was := s.routes[id];
              && step.after.routes == s.routes[id := was.(departurePoint := req.departurePoint,
                   destination := req.destination, departureDate := date, distance := req.distance,
                   ticketPrice := req.ticketPrice, isCircular := req.isCircular)]
              && step.after.routes[id].id == id && step.after.routes[id].trainId == was.trainId
              && step.after.trains == s.trains && step.after.trainOrder == s.trainOrder
              && step.after.routeOrder == s.routeOrder
              && step.result == Ok(StoredRouteToDto(step.after, step.after.routes[id], lib))
              && step.result.value.train == TrainToDto(s.trains[was.trainId], lib)
              && RouteAnswers(step.result.value, req, date, lib)
  {
    match GetRouteById(s, id)
    case Err(f) => Step(Err(f), s)
    case Ok(route) =>
      var route := route.(departurePoint := req.departurePoint, destination := req.destination);
      match lib.parse(req.departureDate)
      case None => Step(Err(DateParseError(req.departureDate)), s)
      case Some(date) =>
        var route := route.(departureDate := date, distance := req.distance,
                            ticketPrice := req.ticketPrice, isCircular := req.isCircular);
        var saved := SaveRoute(s, route, s.trains[route.trainId]);
        Step(Ok(StoredRouteToDto(saved.after, saved.entity, lib)), saved.after)
  }

  /** RouteService.deleteById: only the route is removed; its train stays. */
  function DeleteRouteById(s: Tables, lib: DateLibrary, id: int): (step: Step<RouteResponse>)
    requires Valid(s)
    ensures Valid(step.after)
    ensures id !in s.routes ==> step == Step(Err(NotFound(RouteEntity, id)), s)
    ensures id in s.routes ==>
              && step.result == Ok(StoredRouteToDto(s, s.routes[id], lib))
              && step.after.routes == s.routes - {id}
              && step.after.trains == s.trains && step.after.trainOrder == s.trainOrder
              && (forall i :: 0 <= i < |s.routeOrder| && s.routeOrder[i] == id ==>
                    step.after.routeOrder == s.routeOrder[..i] + s.routeOrder[i + 1..])
  {
    match GetRouteById(s, id)
    case Err(f) => Step(Err(f), s)
    case Ok(route) => Step(Ok(StoredRouteToDto(s, route, lib)), DeleteRoute(s, route))
  }

  // ---------------------------------------------------------------------------
  // Properties relating several calls

  /** create then readById of the assigned id answers what create answered. */
  lemma CreateThenReadTrain(s: Tables, lib: DateLibrary, req: TrainRequest)
    requires Valid(s) && lib.parse(req.commissioningDate).Some?
    ensures var step := CreateTrain(s, lib, req);
            step.result.Ok? && ReadTrainById(step.after, lib, step.result.value.id) == step.result
  {
  }

  /** create appends exactly the created response to what read returns. */
  lemma CreateTrainAppendsToRead(s: Tables, lib: DateLibrary, req: TrainRequest)
    requires Valid(s) && lib.parse(req.commissioningDate).Some?
    ensures var step := CreateTrain(s, lib, req);
            step.result.Ok? && ReadTrains(step.after, lib) == ReadTrains(s, lib) + [step.result.value]
  {
  }

  /** updateById then readById answers what updateById answered. */
  lemma UpdateThenReadTrain(s: Tables, lib: DateLibrary, id: int, req: TrainRequest)
    requires Valid(s)
    ensures var step := UpdateTrainById(s, lib, id, req);
            step.result.Ok? ==> ReadTrainById(step.after, lib, id) == step.result
  {
  }

  /** deleteById then readById of the same id is not found, for the train and,
      through the cascade, for every route that referenced it. */
  lemma DeleteThenReadTrain(s: Tables, lib: DateLibrary, id: int)
    requires Valid(s) && id in s.trains
    ensures var after := DeleteTrainById(s, lib, id).after;
            && ReadTrainById(after, lib, id) == Err(NotFound(TrainEntity, id))
            && forall routeId :: routeId in s.routes && s.routes[routeId].trainId == id ==>
                 ReadRouteById(after, lib, routeId) == Err(NotFound(RouteEntity, routeId))
  {
  }

  /** deleteById of the train at position `i` of read's answer removes just
      that entry from what read returns; the others keep their order. */
  lemma DeleteTrainRemovesFromRead(s: Tables, lib: DateLibrary, i: int)
    requires Valid(s) && 0 <= i < |s.trainOrder|
    ensures var before := ReadTrains(s, lib);
            ReadTrains(DeleteTrainById(s, lib, s.trainOrder[i]).after, lib) == before[..i] + before[i + 1..]
  {
    var after := DeleteTrainById(s, lib, s.trainOrder[i]).after;
    WithoutAt(after.trainOrder, s.trainOrder, i);
    TrainsReadWithout(s, after, lib, i);
  }

  /** Tables whose train order lost entry `i` and whose rows are unchanged
      read as the old answer without entry `i`. */
  lemma TrainsReadWithout(s: Tables, after: Tables, lib: DateLibrary, i: int)
    requires Valid(s) && Valid(after) && 0 <= i < |s.trainOrder|
    requires |after.trainOrder| == |s.trainOrder| - 1
    requires forall k :: 0 <= k < i ==> after.trainOrder[k] == s.trainOrder[k]
    requires forall k :: i <= k < |after.trainOrder| ==> after.trainOrder[k] == s.trainOrder[k + 1]
    requires forall k :: k in after.trains ==> k in s.trains && after.trains[k] == s.trains[k]
    ensures var before := ReadTrains(s, lib);
            ReadTrains(after, lib) == before[..i] + before[i + 1..]
  {
    var before, now := ReadTrains(s, lib), ReadTrains(after, lib);
    forall k | 0 <= k < i
      ensures now[k] == before[k]
    {
      TrainsReadAt(s, after, lib, k, k);
    }
    forall k | i <= k < |now|
      ensures now[k] == before[k + 1]
    {
      TrainsReadAt(s, after, lib, k, k + 1);
    }
    RemovedAt(now, before, i);
  }

  /** Entry `k` of the answer on `after` is entry `j` on `s` when both name the same row. */
  lemma TrainsReadAt(s: Tables, after: Tables, lib: DateLibrary, k: int, j: int)
    requires Valid(s) && Valid(after)
    requires 0 <= k < |after.trainOrder| && 0 <= j < |s.trainOrder| && after.trainOrder[k] == s.trainOrder[j]
    requires forall x :: x in after.trains ==> x in s.trains && after.trains[x] == s.trains[x]
    ensures ReadTrains(after, lib)[k] == ReadTrains(s, lib)[j]
  {
  }

  /** deleteById of the route at position `i` of read's answer removes just
      that entry from what read returns; the others keep their order. */
  lemma DeleteRouteRemovesFromRead(s: Tables, lib: DateLibrary, i: int)
    requires Valid(s) && 0 <= i < |s.routeOrder|
    ensures var before := ReadRoutes(s, lib);
            ReadRoutes(DeleteRouteById(s, lib, s.routeOrder[i]).after, lib) == before[..i] + before[i + 1..]
  {
    var after := DeleteRouteById(s, lib, s.routeOrder[i]).after;
    WithoutAt(after.routeOrder, s.routeOrder, i);
    RoutesReadWithout(s, after, lib, i);
  }

  /** Tables whose route order lost entry `i`, with the other routes and all
      trains unchanged, read as the old answer without entry `i`. */
  lemma RoutesReadWithout(s: Tables, after: Tables, lib: DateLibrary, i: int)
    requires Valid(s) && Valid(after) && 0 <= i < |s.routeOrder|
    requires |after.routeOrder| == |s.routeOrder| - 1
    requires forall k :: 0 <= k < i ==> after.routeOrder[k] == s.routeOrder[k]
    requires forall k :: i <= k < |after.routeOrder| ==> after.routeOrder[k] == s.routeOrder[k + 1]
    requires forall k :: k in after.routes ==> k in s.routes && after.routes[k] == s.routes[k]
    requires after.trains == s.trains
    ensures var before := ReadRoutes(s, lib);
            ReadRoutes(after, lib) == before[..i] + before[i + 1..]
  {
    var before, now := ReadRoutes(s, lib), ReadRoutes(after, lib);
    forall k | 0 <= k < i
      ensures now[k] == before[k]
    {
      RoutesReadAt(s, after, lib, k, k);
    }
    forall k | i <= k < |now|
      ensures now[k] == before[k + 1]
    {
      RoutesReadAt(s, after, lib, k, k + 1);
    }
    RemovedAt(now, before, i);
  }

  /** Entry `k` of the answer on `after` is entry `j` on `s` when both name the same row. */
  lemma RoutesReadAt(s: Tables, after: Tables, lib: DateLibrary, k: int, j: int)
    requires Valid(s) && Valid(after)
    requires 0 <= k < |after.routeOrder| && 0 <= j < |s.routeOrder| && after.routeOrder[k] == s.routeOrder[j]
    requires forall x :: x in after.routes ==> x in s.routes && after.routes[x] == s.routes[x]
    requires after.trains == s.trains
    ensures ReadRoutes(after, lib)[k] == ReadRoutes(s, lib)[j]
  {
  }

  /** Taking out the entry at `i` shifts every later entry down by one. */
  lemma WithoutAt<T>(now: seq<T>, before: seq<T>, i: int)
    requires 0 <= i < |before| && now == before[..i] + before[i + 1..]
    ensures |now| == |before| - 1
    ensures forall k :: 0 <= k < i ==> now[k] == before[k]
    ensures forall k :: i <= k < |now| ==> now[k] == before[k + 1]
  {
  }

  /** `now` is `before` with the entry at `i` taken out. */
  lemma RemovedAt<T>(now: seq<T>, before: seq<T>, i: int)
    requires 0 <= i < |before| && |now| == |before| - 1
    requires forall k :: 0 <= k < i ==> now[k] == before[k]
    requires forall k :: i <= k < |now| ==> now[k] == before[k + 1]
    ensures now == before[..i] + before[i + 1..]
  {
  }

  /** The request a client sends back when it echoes a response. */
  function EchoTrain(resp: TrainResponse): TrainRequest {
    TrainRequest(resp.model, resp.manufacturer, resp.trainType, resp.commissioningDate,
                 resp.seatCount, resp.weight, resp.hasAirConditioning)
  }

  /** If the stored date survives ISO formatting and parsing back, updating a
      train with its own response changes nothing in the store. */
  lemma UpdateWithOwnResponseChangesNothing(s: Tables, lib: DateLibrary, id: int)
    requires Valid(s) && id in s.trains
    requires lib.parse(lib.formatIso(s.trains[id].commissioningDate)) == Some(s.trains[id].commissioningDate)
    ensures var req := EchoTrain(TrainToDto(s.trains[id], lib));
            UpdateTrainById(s, lib, id, req) == Step(Ok(TrainToDto(s.trains[id], lib)), s)
  {
  }

  /** A route's answer shows its train as it is now: updating the train is
      visible through every route that references it. */
  lemma TrainUpdateShowsInRoutes(s: Tables, lib: DateLibrary, id: int, req: TrainRequest, routeId: int)
    requires Valid(s) && routeId in s.routes && s.routes[routeId].trainId == id
    ensures var step := UpdateTrainById(s, lib, id, req);
            step.result.Ok? ==>
              ReadRouteById(step.after, lib, routeId).Ok?
              && ReadRouteById(step.after, lib, routeId).value.train == step.result.value
  {
  }

  /** Route updateById ignores the train embedded in the request. */
  lemma UpdateRouteIgnoresRequestTrain(s: Tables, lib: DateLibrary, id: int, req: RouteRequest, other: TrainRequest)
    requires Valid(s)
    ensures UpdateRouteById(s, lib, id, req) == UpdateRouteById(s, lib, id, req.(train := other))
  {
  }

  /** Route create inserts a new train even when a stored train carries
      exactly the requested fields. */
  lemma CreateRouteNeverReusesTrain(s: Tables, lib: DateLibrary, req: RouteRequest, existing: int)
    requires Valid(s) && existing in s.trains
    requires lib.parse(req.train.commissioningDate).Some? && lib.parse(req.departureDate).Some?
    ensures var step := CreateRoute(s, lib, req);
            step.result.Ok? && step.result.value.train.id != existing
            && existing in step.after.trains && step.after.trains[existing] == s.trains[existing]
  {
  }

  /** create then readById of the route answers what create answered. */
  lemma CreateThenReadRoute(s: Tables, lib: DateLibrary, req: RouteRequest)
    requires Valid(s)
    requires lib.parse(req.train.commissioningDate).Some? && lib.parse(req.departureDate).Some?
    ensures var step := CreateRoute(s, lib, req);
            step.result.Ok? && ReadRouteById(step.after, lib, step.result.value.id) == step.result
  {
  }

  /** deleteById of a route leaves its train readable. */
  lemma DeleteRouteKeepsTrain(s: Tables, lib: DateLibrary, id: int)
    requires Valid(s) && id in s.routes
    ensures var after := DeleteRouteById(s, lib, id).after;
            && ReadRouteById(after, lib, id) == Err(NotFound(RouteEntity, id))
            && ReadTrainById(after, lib, s.routes[id].trainId) == ReadTrainById(s, lib, s.routes[id].trainId)
  {
  }
}
