/** The records shared by the pipeline and the display layer. */
module Types {

  /**
   * One organization of the directory. The text fields default to the empty
   * string; the coordinates are numbers in degrees, never NaN (both parsers
   * reject a NaN coordinate before building a record).
   */
  datatype Organization = Organization(
    organizationName: string,
    mission: string,
    website: string,
    contactEmail: string,
    headquartersAddress: string,
    street: string,
    city: string,
    stateProvince: string,
    country: string,
    zipPostalCode: string,
    siteLatitude: real,
    siteLongitude: real)

  /** The map's bounding box, in degrees. */
  datatype MapBounds = MapBounds(north: real, south: real, east: real, west: real)
}
