/** Value types shared by every layer of the train/route service. */
module Base {

  datatype Option<T> = None | Some(value: T)

  /** Kotlin `Int` (seatCount): 32 bits wide, only ever copied. */
  newtype Int32 = x: int | -0x8000_0000 <= x < 0x8000_0000

  /** Kotlin `Double` (weight, distance, ticketPrice), kept as its IEEE 754 bit
      pattern: the service only ever copies these values, never computes on them. */
  datatype Double = Double(bits: bv64)

  /** java.time.LocalDate as a value: two dates are equal when year, month and
      day are. */
  datatype LocalDate = LocalDate(year: int, month: int, day: int)

  /** The date calls the service makes into java.time, taken as given:
      - parse: LocalDate.parse(text, DateTimeFormatter.ISO_DATE), partial (None is
        the DateTimeParseException it throws);
      - formatIso: date.format(DateTimeFormatter.ISO_DATE), total;
      - toText: LocalDate.toString(), total, used by the route mapper only. */
  datatype DateLibrary = DateLibrary(
    parse: string -> Option<LocalDate>,
    formatIso: LocalDate -> string,
    toText: LocalDate -> string)

  datatype EntityKind = TrainEntity | RouteEntity

  /** The two exceptions the service can raise.
      - NotFound: the IllegalArgumentException thrown by getTrainById/getRouteById
        ("Train not found by id = ..." / "Route not found by id = ...").
      - DateParseError: the DateTimeParseException thrown by LocalDate.parse on
        malformed text; it is a DateTimeException, not an IllegalArgumentException. */
  datatype Failure =
    | NotFound(entity: EntityKind, id: int)
    | DateParseError(text: string)

  /** Normal return of a service call, or the exception it throws. */
  datatype Result<T> = Ok(value: T) | Err(failure: Failure)
}
