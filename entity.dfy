/** The persisted records Train and Route, how they are built, and their
    `compareTo` methods, which are equality tests rather than orderings. */
module Entity {
  import opened Base

  /** The id a Train or Route has from construction until the store assigns one. */
  const UnsavedId: int := -1

  /** A row of the trains table. The `routes` collection of the source
      (mappedBy "train") is not stored here: it is the set of routes whose
      `trainId` names this train, derived in module Store. */
  datatype Train = Train(
    id: int,
    model: string,
    manufacturer: string,
    trainType: string,
    commissioningDate: LocalDate,
    seatCount: Int32,
    weight: Double,
    hasAirConditioning: bool)

  /** A row of the routes table. `trainId` is the train_id join column: the
      reference to the one Train the route belongs to. */
  datatype Route = Route(
    id: int,
    trainId: int,
    departurePoint: string,
    destination: string,
    departureDate: LocalDate,
    distance: Double,
    ticketPrice: Double,
    isCircular: bool)

  /** `Train(model, ...)`: a new, unsaved train. */
  function NewTrain(model: string, manufacturer: string, trainType: string,
                    commissioningDate: LocalDate, seatCount: Int32, weight: Double,
                    hasAirConditioning: bool): (t: Train)
    ensures t.id == UnsavedId
    ensures t.model == model && t.manufacturer == manufacturer && t.trainType == trainType
    ensures t.commissioningDate == commissioningDate && t.seatCount == seatCount
    ensures t.weight == weight && t.hasAirConditioning == hasAirConditioning
  {
    Train(UnsavedId, model, manufacturer, trainType, commissioningDate, seatCount, weight,
          hasAirConditioning)
  }

  /** `Route(train, ...)`: a new, unsaved route referencing `train`. */
  function NewRoute(train: Train, departurePoint: string, destination: string,
                    departureDate: LocalDate, distance: Double, ticketPrice: Double,
                    isCircular: bool): (r: Route)
    ensures r.id == UnsavedId && r.trainId == train.id
    ensures r.departurePoint == departurePoint && r.destination == destination
    ensures r.departureDate == departureDate && r.distance == distance
    ensures r.ticketPrice == ticketPrice && r.isCircular == isCircular
  {
    Route(UnsavedId, train.id, departurePoint, destination, departureDate, distance, ticketPrice,
          isCircular)
  }

  /** Train.compareTo: 0 when model and commissioning date agree, 1 otherwise. */
  function TrainCompareTo(self: Train, other: Train): (r: int)
    ensures r == 0 || r == 1
    ensures r == 0 <==> self.model == other.model && self.commissioningDate == other.commissioningDate
  {
    if self.model == other.model && self.commissioningDate == other.commissioningDate then 0 else 1
  }

  /** Route.compareTo: 0 when departure point, destination and departure date
      agree, 1 otherwise. */
  function RouteCompareTo(self: Route, other: Route): (r: int)
    ensures r == 0 || r == 1
    ensures r == 0 <==>
              self.departurePoint == other.departurePoint && self.destination == other.destination
              && self.departureDate == other.departureDate
  {
    if self.departurePoint == other.departurePoint && self.destination == other.destination
       && self.departureDate == other.departureDate
    then 0 else 1
  }

  /** The sign test of java.lang.Comparable: sgn(x.compareTo(y)) == -sgn(y.compareTo(x)). */
  predicate SignAntisymmetric(xy: int, yx: int) {
    (xy > 0 <==> yx < 0) && (xy == 0 <==> yx == 0)
  }

  /** Read as an equality, Train.compareTo is reflexive, symmetric and transitive. */
  lemma TrainCompareToIsEquivalence(a: Train, b: Train, c: Train)
    ensures TrainCompareTo(a, a) == 0
    ensures TrainCompareTo(a, b) == TrainCompareTo(b, a)
    ensures TrainCompareTo(a, b) == 0 && TrainCompareTo(b, c) == 0 ==> TrainCompareTo(a, c) == 0
  {
  }

  /** Changing any field other than model and commissioningDate never changes
      the comparison. */
  lemma TrainCompareToIgnoresOtherFields(a: Train, b: Train, a': Train)
    requires a'.model == a.model && a'.commissioningDate == a.commissioningDate
    ensures TrainCompareTo(a', b) == TrainCompareTo(a, b)
    ensures TrainCompareTo(b, a') == TrainCompareTo(b, a)
  {
  }

  /** There are two trains (same date, different models) that compare as 1
      both ways, so Train.compareTo breaks the sign rule of Comparable: it is
      no ordering. */
  lemma TrainCompareToIsNoOrdering()
    ensures exists a: Train, b: Train ::
              TrainCompareTo(a, b) == 1 && TrainCompareTo(b, a) == 1
              && !SignAntisymmetric(TrainCompareTo(a, b), TrainCompareTo(b, a))
  {
    var d := LocalDate(2020, 1, 1);
    var a := NewTrain("X1", "Acme", "Express", d, 200, Double(0), true);
    var b := a.(model := "X2");
    assert TrainCompareTo(a, b) == 1 && TrainCompareTo(b, a) == 1;
  }

  /** Read as an equality, Route.compareTo is reflexive, symmetric and transitive. */
  lemma RouteCompareToIsEquivalence(a: Route, b: Route, c: Route)
    ensures RouteCompareTo(a, a) == 0
    ensures RouteCompareTo(a, b) == RouteCompareTo(b, a)
    ensures RouteCompareTo(a, b) == 0 && RouteCompareTo(b, c) == 0 ==> RouteCompareTo(a, c) == 0
  {
  }

  /** The train, distance, ticket price, circularity and id of a route never
      change the comparison. */
  lemma RouteCompareToIgnoresOtherFields(a: Route, b: Route, a': Route)
    requires a'.departurePoint == a.departurePoint && a'.destination == a.destination
    requires a'.departureDate == a.departureDate
    ensures RouteCompareTo(a', b) == RouteCompareTo(a, b)
    ensures RouteCompareTo(b, a') == RouteCompareTo(b, a)
  {
  }

  /** There are two routes (different destinations) that compare as 1 both
      ways, so Route.compareTo breaks the sign rule of Comparable: no ordering. */
  lemma RouteCompareToIsNoOrdering()
    ensures exists a: Route, b: Route ::
              RouteCompareTo(a, b) == 1 && RouteCompareTo(b, a) == 1
              && !SignAntisymmetric(RouteCompareTo(a, b), RouteCompareTo(b, a))
  {
    var d := LocalDate(2020, 1, 1);
    var t := NewTrain("X1", "Acme", "Express", d, 200, Double(0), true);
    var a := NewRoute(t, "Kyiv", "Lviv", d, Double(0), Double(0), false);
    var b := a.(destination := "Odesa");
    assert RouteCompareTo(a, b) == 1 && RouteCompareTo(b, a) == 1;
  }
}
