/** A collision record as the aggregators see it after CSV parsing. */
module Records {
  import opened Names

  /** One parsed row.  `fields` holds the raw columns by header name and is
      what the presence checks look at.  The month label ("MMM YYYY" from the
      DATE column), the three-decimal latitude and longitude keys and the
      killed and injured counts are derived by date, float and integer
      parsing; they arrive here already derived. */
  datatype Row = Row(
    fields: map<string, string>,
    month: string,
    lat: string,
    lng: string,
    killed: nat,
    injured: nat)

  /** The column `prop` is present and is a non-empty string. */
  predicate HasString(fields: map<string, string>, prop: string) {
    prop in fields && |fields[prop]| > 0
  }

  /** The borough key of a row: the BOROUGH column, lower-cased and capitalized. */
  function BoroughOf(row: Row): string
    requires HasString(row.fields, "BOROUGH")
  {
    Capitalize(Lower(row.fields["BOROUGH"]))
  }
}
