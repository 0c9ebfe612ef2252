/** The records the tag-based engine works on: catalog items and bags with
    their tag IDs, the trip context, and the packing list it builds. */
module Schemas {
  import opened Wrappers

  /** A catalog item; `tagIds` lists every tag attached to it. */
  datatype Item = Item(id: int, name: string, userId: string, categoryId: Option<int>, tagIds: seq<int>)

  /** A bag; `travelModeTagIds` lists the travel modes it suits. */
  datatype Luggage = Luggage(id: int, name: string, userId: string, capacityDays: int, travelModeTagIds: seq<int>)

  /** The trip: one weather tag per forecast day, so the trip lasts as many
      days as the forecast has entries. */
  datatype TripContext = TripContext(tripWeatherForecast: seq<int>, tripTypeTagId: int, travelModeTagId: int)

  datatype PackingListItem = PackingListItem(itemId: int, name: string, quantity: int, isPacked: bool)

  datatype TripSummary = TripSummary(
    destination: string, tripTypeTagId: int, travelModeTagId: int, dailyWeatherTagIds: seq<int>)

  /** The list the engine returns: trip details, the bag, the items. */
  datatype CurrentPackingList = CurrentPackingList(
    tripDetails: TripSummary, luggageId: int, items: seq<PackingListItem>)
}
