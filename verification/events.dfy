/**
 * The records the event-search API returns and the formatter reads. Each is
 * a plain value: built once by decoding a response, never updated.
 */
module Events {

  /** Where an event takes place (the coordinates of the source record are left out). */
  datatype Location = Location(
    country: string,
    address: string,
    addressAlt: string,
    city: string,
    addressNum: string,
    name: string,
    state: string,
    neighbourhood: string,
    zipCode: string)

  /** The start date as display text in Portuguese, English and Spanish. */
  datatype StartDateFormats = StartDateFormats(pt: string, en: string, es: string)

  /** The end date as display text in Portuguese, English and Spanish. */
  datatype EndDateFormats = EndDateFormats(pt: string, en: string, es: string)

  /** One listed event. */
  datatype Event = Event(
    name: string,
    images: string,
    location: Location,
    startDateFormats: StartDateFormats,
    endDateFormats: EndDateFormats,
    url: string)
}
