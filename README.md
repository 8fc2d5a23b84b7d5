# Train and route REST service: a verified model of its service layer

The repository is a small Spring Boot CRUD service over two tables, trains and
routes, where a route belongs to exactly one train. This project models its
core in Dafny:

- the two service objects, `TrainServiceImpl` and `RouteServiceImpl`, over a
  shared database;
- the `Train` and `Route` entities, with their `compareTo` methods;
- the HTTP controllers and `wrapNotFound`.

Every operation is proved against a specification. The specification says
what the operation returns, how it changes the tables, and how it relates to
the other operations.

Layout, one module per file:

- `base.dfy` (`Base`): the shared value types.
  - `Int32` stands for Kotlin `Int`.
  - `Double` keeps a Kotlin `Double` as its bit pattern. Weight, distance and ticket price are only ever copied.
  - `LocalDate` is a date as a value.
  - `DateLibrary` holds the three java.time calls the service makes: ISO_DATE parse, ISO_DATE format and `LocalDate.toString`.
  - `Failure` has two cases: `NotFound` is the IllegalArgumentException from `getTrainById`/`getRouteById`, and `DateParseError` is the DateTimeParseException.
  - `Result` is a normal return or a thrown failure.
- `dtos.dfy` (`Dtos`): the four request and response shapes.
- `entity.dfy` (`Entity`): the `Train` and `Route` rows, construction with the unsaved id -1, and `compareTo`.
- `store.dfy` (`Store`): the abstract tables that stand in for the JPA repositories.
  - Per entity there is a map from id to row, the order in which `findAll` lists the rows, and a fresh-id allocator.
  - `Valid` is the store invariant. It includes "every route references a stored train".
  - `save` inserts or overwrites; `delete` removes.
- `repository.dfy` (`Repository`): class `Database`. It holds those tables as fields that its save and delete methods update in place, each proved equal to the `Store` function.
- `services.dfy` (`Services`): what each service operation returns and leaves behind, as functions of the tables before the call. It also holds the entity-to-DTO mappers and the lemmas that relate several calls.
- `service_impl.dfy` (`ServiceImpl`): the imperative `TrainServiceImpl` and `RouteServiceImpl`.
  - `updateById` assigns the fetched row's fields one by one, parses the date between them as the source does, then saves.
  - Each method is proved to return and leave exactly what `Services` states.
- `controllers.dfy` (`Controllers`): `WrapNotFound` and the direct-return path, the two controller classes, and the status codes a client sees.

Modelling decisions:

- **Route.train is a foreign key.** A `Route` row stores `trainId`, and the route mapper looks the train up in the trains table. So a change to a train shows through every route that references it, as with the shared JPA object (`TrainUpdateShowsInRoutes`).
- **Train.routes is derived.** It is the `mappedBy` side, so it is not stored. `Store.RoutesOf` derives it, and deleting a train removes those routes, per its cascade-all declaration.
- **Saving a route with a new train inserts that train first.** `Route.train` declares no cascade, so this is an assumption about the persistence provider, stated in `Store.SaveRoute`. It is not a proven fact.
- **The date calls are a parameter.** Each service takes a `DateLibrary`. Nothing is assumed about parse except where a lemma says so: `UpdateWithOwnResponseChangesNothing` requires that the stored date survives formatting and parsing back.
- **`type` is renamed.** It is a Dafny keyword, so the train's `type` field is called `trainType`.

## Model

| member | source | states |
|---|---|---|
| `Entity.NewTrain` | src/main/kotlin/ua/kpi/its/lab/rest/entity/Entity.kt:10-37 | a newly constructed train has the sentinel id -1 and exactly the given field values |
| `Entity.NewRoute` | src/main/kotlin/ua/kpi/its/lab/rest/entity/Entity.kt:51-76 | a newly constructed route has id -1, references the given train, and has the given field values |
| `Entity.TrainCompareTo` | src/main/kotlin/ua/kpi/its/lab/rest/entity/Entity.kt:39-42 | Train.compareTo is 0 exactly when model and commissioningDate are equal, and is otherwise 1, never negative |
| `Entity.TrainCompareToIsEquivalence` | src/main/kotlin/ua/kpi/its/lab/rest/entity/Entity.kt:39-42 | read as an equality, Train.compareTo is reflexive, symmetric and transitive |
| `Entity.TrainCompareToIgnoresOtherFields` | src/main/kotlin/ua/kpi/its/lab/rest/entity/Entity.kt:40 | id, manufacturer, type, seatCount, weight and hasAirConditioning never change the result, on either side |
| `Entity.TrainCompareToIsNoOrdering` | src/main/kotlin/ua/kpi/its/lab/rest/entity/Entity.kt:41 | there are two trains (same date, different models) that each compare as 1 against the other, which breaks Comparable's sign rule sgn(a.compareTo(b)) == -sgn(b.compareTo(a)) |
| `Entity.RouteCompareTo` | src/main/kotlin/ua/kpi/its/lab/rest/entity/Entity.kt:78-81 | Route.compareTo is 0 exactly when departurePoint, destination and departureDate are equal, and is otherwise 1 |
| `Entity.RouteCompareToIsEquivalence` | src/main/kotlin/ua/kpi/its/lab/rest/entity/Entity.kt:78-81 | read as an equality, Route.compareTo is reflexive, symmetric and transitive |
| `Entity.RouteCompareToIgnoresOtherFields` | src/main/kotlin/ua/kpi/its/lab/rest/entity/Entity.kt:79 | id, train, distance, ticketPrice and isCircular never change the result |
| `Entity.RouteCompareToIsNoOrdering` | src/main/kotlin/ua/kpi/its/lab/rest/entity/Entity.kt:80 | there are two routes (different destinations) that each compare as 1 against the other, which breaks Comparable's sign rule: no ordering |
| `Store.Keep` | src/main/kotlin/ua/kpi/its/lab/rest/svc/impl/EntityServiceImpl.kt:66 | the order bookkeeping of train delete (and of route delete, line 159): filtering the findAll order keeps exactly the listed keys, duplicate-free, as a subsequence of the old order (relative order kept) |
| `Store.FindTrain` | src/main/kotlin/ua/kpi/its/lab/rest/svc/impl/EntityServiceImpl.kt:71 | findById finds a train exactly when the id is a key, and then it is that row |
| `Store.FindRoute` | src/main/kotlin/ua/kpi/its/lab/rest/svc/impl/EntityServiceImpl.kt:164 | findById finds a route exactly when the id is a key, and then it is that row |
| `Store.AllTrains` | src/main/kotlin/ua/kpi/its/lab/rest/svc/impl/EntityServiceImpl.kt:40 | findAll gives one train per entry of the store order, the row under that id, at the same position |
| `Store.AllRoutes` | src/main/kotlin/ua/kpi/its/lab/rest/svc/impl/EntityServiceImpl.kt:134 | findAll gives one route per entry of the store order, the row under that id, at the same position |
| `Store.AllTrainsListsEveryRow` | src/main/kotlin/ua/kpi/its/lab/rest/svc/impl/EntityServiceImpl.kt:40 | a train is in findAll's answer exactly when it is a stored row |
| `Store.AllRoutesListsEveryRow` | src/main/kotlin/ua/kpi/its/lab/rest/svc/impl/EntityServiceImpl.kt:134 | a route is in findAll's answer exactly when it is a stored row |
| `Store.RoutesOf` | src/main/kotlin/ua/kpi/its/lab/rest/entity/Entity.kt:31-33 | a train's routes collection holds exactly the stored routes whose train reference is that train |
| `Store.SaveTrain` | src/main/kotlin/ua/kpi/its/lab/rest/svc/impl/EntityServiceImpl.kt:35 | save overwrites a stored train in place, and otherwise inserts it under a fresh positive id appended to findAll order; the store invariant holds after |
| `Store.SaveRoute` | src/main/kotlin/ua/kpi/its/lab/rest/svc/impl/EntityServiceImpl.kt:129 | saving a route whose train is unsaved inserts that train under a fresh id (assumed of the provider), then inserts or overwrites the route referencing it; every route still references a stored train |
| `Store.DeleteTrain` | src/main/kotlin/ua/kpi/its/lab/rest/entity/Entity.kt:32-33 | deleting a train removes it and, by the cascade-all on routes, exactly the routes that reference it; the rest is untouched. The train's entry leaves the findAll order with the others keeping their places, and the route order keeps its relative order |
| `Store.DeleteRoute` | src/main/kotlin/ua/kpi/its/lab/rest/svc/impl/EntityServiceImpl.kt:159 | deleting a route removes only that route and just its entry in the findAll order; the trains table is unchanged |
| `Repository.Database.constructor` | src/main/kotlin/ua/kpi/its/lab/rest/repo/Repository.kt:7-13 | a new database is empty and satisfies the store invariant |
| `Repository.Database.SaveTrain` | src/main/kotlin/ua/kpi/its/lab/rest/svc/impl/EntityServiceImpl.kt:35 | the in-place update of the tables equals `Store.SaveTrain` and keeps the invariant |
| `Repository.Database.SaveRoute` | src/main/kotlin/ua/kpi/its/lab/rest/svc/impl/EntityServiceImpl.kt:129 | the in-place update equals `Store.SaveRoute` and keeps the invariant |
| `Repository.Database.DeleteTrain` | src/main/kotlin/ua/kpi/its/lab/rest/svc/impl/EntityServiceImpl.kt:66 | the in-place removal equals `Store.DeleteTrain`, cascade included |
| `Repository.Database.DeleteRoute` | src/main/kotlin/ua/kpi/its/lab/rest/svc/impl/EntityServiceImpl.kt:159 | the in-place removal equals `Store.DeleteRoute` |
| `Services.TrainToDto` | src/main/kotlin/ua/kpi/its/lab/rest/svc/impl/EntityServiceImpl.kt:76-87 | trainEntityToDto: the response carries the train's id and every field, the date formatted with ISO_DATE |
| `Services.RouteToDto` | src/main/kotlin/ua/kpi/its/lab/rest/svc/impl/EntityServiceImpl.kt:169-193 | routeEntityToDto: the response carries the route's id and fields, the date through toString, and the route's train mapped as trainEntityToDto does |
| `Services.TrainRoundTrip` | src/main/kotlin/ua/kpi/its/lab/rest/svc/impl/EntityServiceImpl.kt:76-87 | mapping a train built from a request gives back every scalar field of the request, the date passed through parse then format, with the assigned id |
| `Services.TrainsToDtos` | src/main/kotlin/ua/kpi/its/lab/rest/svc/impl/EntityServiceImpl.kt:40-42 | the stream map gives one response per train, at the same position |
| `Services.RoutesToDtos` | src/main/kotlin/ua/kpi/its/lab/rest/svc/impl/EntityServiceImpl.kt:134-136 | the stream map gives one response per route, at the same position, each with that route's train |
| `Services.GetTrainById` | src/main/kotlin/ua/kpi/its/lab/rest/svc/impl/EntityServiceImpl.kt:70-74 | the stored train with that id, or the not-found failure exactly when the id is absent |
| `Services.CreateTrain` | src/main/kotlin/ua/kpi/its/lab/rest/svc/impl/EntityServiceImpl.kt:25-37 | a malformed date fails before anything is written. Otherwise the response carries the request's fields (date parsed then formatted) and a fresh id; the store gains exactly that row, appended, with no routes |
| `Services.ReadTrains` | src/main/kotlin/ua/kpi/its/lab/rest/svc/impl/EntityServiceImpl.kt:39-43 | one mapped response per stored train, in store order, with no filtering |
| `Services.ReadTrainById` | src/main/kotlin/ua/kpi/its/lab/rest/svc/impl/EntityServiceImpl.kt:45-48 | the mapped train carrying the asked id, or not-found exactly when the id is absent |
| `Services.UpdateTrainById` | src/main/kotlin/ua/kpi/its/lab/rest/svc/impl/EntityServiceImpl.kt:50-62 | an absent id fails with not-found and a malformed date fails with the parse error; both leave the store unchanged. Otherwise all seven fields are replaced from the request, the id is kept, and every other row is untouched |
| `Services.DeleteTrainById` | src/main/kotlin/ua/kpi/its/lab/rest/svc/impl/EntityServiceImpl.kt:64-68 | an absent id fails with not-found and changes nothing. Otherwise the answer is the train as it was, and the train and exactly its routes are removed; the remaining trains and routes keep their findAll order |
| `Services.GetRouteById` | src/main/kotlin/ua/kpi/its/lab/rest/svc/impl/EntityServiceImpl.kt:163-167 | the stored route, whose train is stored, or not-found exactly when the id is absent |
| `Services.CreateRoute` | src/main/kotlin/ua/kpi/its/lab/rest/svc/impl/EntityServiceImpl.kt:106-131 | the train date is parsed first and the route date second; either failure leaves the store unchanged. Otherwise exactly one brand-new train row (fresh id) and one route referencing it are added, and the response embeds both mapped field by field |
| `Services.ReadRoutes` | src/main/kotlin/ua/kpi/its/lab/rest/svc/impl/EntityServiceImpl.kt:133-137 | one mapped response per stored route, in store order, each with its current train |
| `Services.ReadRouteById` | src/main/kotlin/ua/kpi/its/lab/rest/svc/impl/EntityServiceImpl.kt:139-142 | the mapped route carrying the asked id, or not-found exactly when the id is absent |
| `Services.UpdateRouteById` | src/main/kotlin/ua/kpi/its/lab/rest/svc/impl/EntityServiceImpl.kt:144-155 | not-found and parse failures leave the store unchanged. Otherwise only the six own fields change; the route's id, its train reference and the trains table stay the same |
| `Services.DeleteRouteById` | src/main/kotlin/ua/kpi/its/lab/rest/svc/impl/EntityServiceImpl.kt:157-161 | not-found leaves the store unchanged. Otherwise the answer is the route as it was, only that route is removed (and just its entry in the findAll order), and its train stays |
| `Services.CreateThenReadTrain` | src/main/kotlin/ua/kpi/its/lab/rest/svc/impl/EntityServiceImpl.kt:25-48 | readById of the id that create assigned answers exactly what create answered |
| `Services.CreateTrainAppendsToRead` | src/main/kotlin/ua/kpi/its/lab/rest/svc/impl/EntityServiceImpl.kt:25-43 | after create, read returns the earlier list followed by the created response |
| `Services.UpdateThenReadTrain` | src/main/kotlin/ua/kpi/its/lab/rest/svc/impl/EntityServiceImpl.kt:45-62 | after a successful updateById, readById answers what updateById answered |
| `Services.DeleteThenReadTrain` | src/main/kotlin/ua/kpi/its/lab/rest/svc/impl/EntityServiceImpl.kt:45-74 | after deleteById of any stored train, with or without routes, readById of that train fails with not-found, and so does readById of every route that referenced it |
| `Services.DeleteTrainRemovesFromRead` | src/main/kotlin/ua/kpi/its/lab/rest/svc/impl/EntityServiceImpl.kt:39-43 | after deleteById of the train at position i of read's answer, read returns the earlier list without entry i, the rest in the same order |
| `Services.DeleteRouteRemovesFromRead` | src/main/kotlin/ua/kpi/its/lab/rest/svc/impl/EntityServiceImpl.kt:133-161 | after route deleteById of the route at position i of read's answer, read returns the earlier list without entry i, the rest in the same order |
| `Services.UpdateWithOwnResponseChangesNothing` | src/main/kotlin/ua/kpi/its/lab/rest/svc/impl/EntityServiceImpl.kt:50-97 | if the stored date survives ISO format then parse, sending a train's own response back as the update request changes nothing |
| `Services.TrainUpdateShowsInRoutes` | src/main/kotlin/ua/kpi/its/lab/rest/svc/impl/EntityServiceImpl.kt:169-181 | after a train update, every route of that train answers with the updated train |
| `Services.UpdateRouteIgnoresRequestTrain` | src/main/kotlin/ua/kpi/its/lab/rest/svc/impl/EntityServiceImpl.kt:144-155 | route updateById gives the same result and store whatever train the request embeds |
| `Services.CreateRouteNeverReusesTrain` | src/main/kotlin/ua/kpi/its/lab/rest/svc/impl/EntityServiceImpl.kt:106-117 | the created route's train id differs from every stored train id, and every stored train stays as it was |
| `Services.CreateThenReadRoute` | src/main/kotlin/ua/kpi/its/lab/rest/svc/impl/EntityServiceImpl.kt:106-142 | readById of the created route answers exactly what create answered |
| `Services.DeleteRouteKeepsTrain` | src/main/kotlin/ua/kpi/its/lab/rest/svc/impl/EntityServiceImpl.kt:157-161 | after route deleteById the route is not found and its train reads as before |
| `ServiceImpl.TrainServiceImpl.constructor` | src/main/kotlin/ua/kpi/its/lab/rest/svc/impl/EntityServiceImpl.kt:20-23 | the service holds the injected database and date library |
| `ServiceImpl.TrainServiceImpl.GetTrainById` | src/main/kotlin/ua/kpi/its/lab/rest/svc/impl/EntityServiceImpl.kt:70-74 | the lookup answers as `Services.GetTrainById`; it succeeds exactly when the id is stored |
| `ServiceImpl.TrainServiceImpl.Create` | src/main/kotlin/ua/kpi/its/lab/rest/svc/impl/EntityServiceImpl.kt:25-37 | its result and the database afterwards are those of `Services.CreateTrain` |
| `ServiceImpl.TrainServiceImpl.Read` | src/main/kotlin/ua/kpi/its/lab/rest/svc/impl/EntityServiceImpl.kt:39-43 | returns `Services.ReadTrains` of the current database, one response per stored train |
| `ServiceImpl.TrainServiceImpl.ReadById` | src/main/kotlin/ua/kpi/its/lab/rest/svc/impl/EntityServiceImpl.kt:45-48 | returns `Services.ReadTrainById`; it fails exactly when the id is absent |
| `ServiceImpl.TrainServiceImpl.UpdateById` | src/main/kotlin/ua/kpi/its/lab/rest/svc/impl/EntityServiceImpl.kt:50-62 | the field-by-field assignment followed by save has the result and new state of `Services.UpdateTrainById` |
| `ServiceImpl.TrainServiceImpl.DeleteById` | src/main/kotlin/ua/kpi/its/lab/rest/svc/impl/EntityServiceImpl.kt:64-68 | its result and new state are those of `Services.DeleteTrainById` |
| `ServiceImpl.RouteServiceImpl.constructor` | src/main/kotlin/ua/kpi/its/lab/rest/svc/impl/EntityServiceImpl.kt:101-104 | the service holds the injected database and date library |
| `ServiceImpl.RouteServiceImpl.GetRouteById` | src/main/kotlin/ua/kpi/its/lab/rest/svc/impl/EntityServiceImpl.kt:163-167 | the lookup answers as `Services.GetRouteById`; it succeeds exactly when the id is stored |
| `ServiceImpl.RouteServiceImpl.Create` | src/main/kotlin/ua/kpi/its/lab/rest/svc/impl/EntityServiceImpl.kt:106-131 | its result and new state are those of `Services.CreateRoute` |
| `ServiceImpl.RouteServiceImpl.Read` | src/main/kotlin/ua/kpi/its/lab/rest/svc/impl/EntityServiceImpl.kt:133-137 | returns `Services.ReadRoutes`, one response per stored route |
| `ServiceImpl.RouteServiceImpl.ReadById` | src/main/kotlin/ua/kpi/its/lab/rest/svc/impl/EntityServiceImpl.kt:139-142 | returns `Services.ReadRouteById`; it fails exactly when the id is absent |
| `ServiceImpl.RouteServiceImpl.UpdateById` | src/main/kotlin/ua/kpi/its/lab/rest/svc/impl/EntityServiceImpl.kt:144-155 | the field-by-field assignment followed by save has the result and new state of `Services.UpdateRouteById` |
| `ServiceImpl.RouteServiceImpl.DeleteById` | src/main/kotlin/ua/kpi/its/lab/rest/svc/impl/EntityServiceImpl.kt:157-161 | its result and new state are those of `Services.DeleteRouteById` |
| `Controllers.WrapNotFound` | src/main/kotlin/ua/kpi/its/lab/rest/controller/Controllers.kt:47-58 | 200 with the result as body exactly when the call returns; 404 with no body exactly when it throws not-found; any other failure propagates unchanged |
| `Controllers.ReturnDirectly` | src/main/kotlin/ua/kpi/its/lab/rest/controller/Controllers.kt:21-32 | list GET and POST answer 200 with the result and let every failure propagate, so they never answer 404 |
| `Controllers.TrainController.constructor` | src/main/kotlin/ua/kpi/its/lab/rest/controller/Controllers.kt:18-20 | the controller holds the injected train service |
| `Controllers.TrainController.Trains` | src/main/kotlin/ua/kpi/its/lab/rest/controller/Controllers.kt:21-22 | GET /trains answers 200 with the full list of `Services.ReadTrains` |
| `Controllers.TrainController.ReadTrainBy` | src/main/kotlin/ua/kpi/its/lab/rest/controller/Controllers.kt:24-27 | GET /trains/{id} is `WrapNotFound` of readById of the path id |
| `Controllers.TrainController.CreateTrain` | src/main/kotlin/ua/kpi/its/lab/rest/controller/Controllers.kt:29-32 | POST /trains returns create's result directly, and the database ends as create leaves it |
| `Controllers.TrainController.UpdateTrain` | src/main/kotlin/ua/kpi/its/lab/rest/controller/Controllers.kt:34-40 | PUT /trains/{id} is `WrapNotFound` of one updateById with the path id and body unchanged |
| `Controllers.TrainController.DeleteTrain` | src/main/kotlin/ua/kpi/its/lab/rest/controller/Controllers.kt:42-45 | DELETE /trains/{id} is `WrapNotFound` of one deleteById with the path id |
| `Controllers.RouteController.constructor` | src/main/kotlin/ua/kpi/its/lab/rest/controller/Controllers.kt:63-65 | the controller holds the injected route service |
| `Controllers.RouteController.Routes` | src/main/kotlin/ua/kpi/its/lab/rest/controller/Controllers.kt:66-67 | GET /routes answers 200 with the full list of `Services.ReadRoutes` |
| `Controllers.RouteController.ReadRoute` | src/main/kotlin/ua/kpi/its/lab/rest/controller/Controllers.kt:69-72 | GET /routes/{id} is `WrapNotFound` of readById of the path id |
| `Controllers.RouteController.CreateRoute` | src/main/kotlin/ua/kpi/its/lab/rest/controller/Controllers.kt:74-77 | POST /routes returns create's result directly |
| `Controllers.RouteController.UpdateRoute` | src/main/kotlin/ua/kpi/its/lab/rest/controller/Controllers.kt:79-85 | PUT /routes/{id} is `WrapNotFound` of one updateById with the path id and body unchanged |
| `Controllers.RouteController.DeleteRoute` | src/main/kotlin/ua/kpi/its/lab/rest/controller/Controllers.kt:87-90 | DELETE /routes/{id} is `WrapNotFound` of one deleteById with the path id |
| `Controllers.TrainByIdStatuses` | src/main/kotlin/ua/kpi/its/lab/rest/controller/Controllers.kt:24-58 | GET, PUT and DELETE on /trains/{id} answer an empty 404 exactly when the id is absent. DELETE answers what GET would. PUT with a malformed date on a present id propagates the parse error instead of answering 404 |
| `Controllers.CreateTrainStatuses` | src/main/kotlin/ua/kpi/its/lab/rest/controller/Controllers.kt:29-32 | POST /trains never answers 404; it propagates the parse error exactly when the date is malformed |
| `Controllers.RouteByIdStatuses` | src/main/kotlin/ua/kpi/its/lab/rest/controller/Controllers.kt:69-103 | GET, PUT and DELETE on /routes/{id} answer an empty 404 exactly when the id is absent. On a present id, DELETE answers what GET answers with 200, PUT with a malformed date propagates the parse error, and PUT with a well-formed date answers 200 |
| `Controllers.TrainLifecycle` | src/main/kotlin/ua/kpi/its/lab/rest/controller/Controllers.kt:21-58 | POST a train, then GET its id answers the same 200 body, DELETE answers that body again, and a later GET answers an empty 404 |

## Left out

- JPA's save/merge rules and transactions are not modelled.
  - The store is an abstract map with a fresh-id allocator: an id that is a key is overwritten, and any other id is inserted fresh.
  - Persisting the new train on route save is assumed, not proven, because `Route.train` declares no cascade.
  - Ids are unbounded integers rather than 64-bit `Long`.
- The ISO 8601 grammar of `LocalDate.parse`/`format` is not modelled. It is a library call, taken as an opaque partial parse and two total formatters.
  - The route mapper's `toString` is kept as a separate formatter from ISO_DATE.
  - Their round trip is only ever an explicit requirement of a lemma, and only for the one stored date it needs.
- Floating-point fields are opaque bit patterns. They are only copied, never computed on.
- The in-memory `routes` list of a `Train` object is not modelled. The relation is kept in the routes table, and the service never writes that list.
- A failed `updateById` is not modelled as partly changing the fetched entity object. The model assigns the fields on a local copy, and a parse failure returns before `save`, so the store is unchanged. Dirty-checking flushes by the provider are not modelled.
- JSON serialisation, pretty printing, `toString` overrides and HTTP path-id parsing are not modelled. A non-integer path id never reaches the service.
- The functional router in `WebConfig.kt` is not modelled separately.
  - Its `wrapNotFoundError` is the same mapping as `WrapNotFound`.
  - Its endpoints are the same calls, mounted under `/fn`.
- The unused injected dependencies are left out: `routeRepository` in `TrainServiceImpl` and `trainService` in `RouteServiceImpl`.
- The order of `findAll` is modelled as insertion order, with deletes keeping the relative order of what remains. The repository declares no sort, so this order is an assumption about the provider, as the save rules above are.
- The `EntityService.kt` interface comments describe index-based access "in order of creation". The implementation looks rows up by id, and the model follows the implementation.
