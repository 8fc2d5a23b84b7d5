/** The wire shapes of requests and responses. `type` is a Dafny keyword, so the
    train's `type` field is called `trainType` here. */
module Dtos {
  import opened Base

  datatype TrainRequest = TrainRequest(
    model: string,
    manufacturer: string,
    trainType: string,
    commissioningDate: string,
    seatCount: Int32,
    weight: Double,
    hasAirConditioning: bool)

  datatype TrainResponse = TrainResponse(
    id: int,
    model: string,
    manufacturer: string,
    trainType: string,
    commissioningDate: string,
    seatCount: Int32,
    weight: Double,
    hasAirConditioning: bool)

  datatype RouteRequest = RouteRequest(
    train: TrainRequest,
    departurePoint: string,
    destination: string,
    departureDate: string,
    distance: Double,
    ticketPrice: Double,
    isCircular: bool)

  datatype RouteResponse = RouteResponse(
    id: int,
    train: TrainResponse,
    departurePoint: string,
    destination: string,
    departureDate: string,
    distance: Double,
    ticketPrice: Double,
    isCircular: bool)
}
