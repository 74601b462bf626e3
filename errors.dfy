/** The error values the data layer produces or inspects. Go errors are
    compared either by identity (the sentinels, sql.ErrNoRows) or by their
    text (`Error()`), so each value carries both. */
module Errors {
  import opened Strings

  datatype Error =
    | DuplicateEntry                 // data.ErrDuplicateEntry
    | NotFound                       // data.ErrNotFound
    | NoRows                         // sql.ErrNoRows
    | Driver(msg: string)            // any other failure reported by the driver or the server
    | RetriesExceeded(last: Error)   // retry's "Maximum number of retries exceeded: %+v"
    | NoVenueListKey                 // VenueListGet called with neither id nor name
    | NoVenueKey                     // VenueGet called with neither id nor name
    | VenueListNotFound(listName: string)   // VenueListAdd: the list lookup failed
    | VenueNotFound(venueName: string)      // VenueListAdd: the venue lookup failed
  {
    /** err.Error() */
    function Text(): string
    {
      match this
      case DuplicateEntry => "duplicate entry"
      case NotFound => "no matching records found"
      case NoRows => "sql: no rows in result set"
      case Driver(msg) => msg
      case RetriesExceeded(last) => "Maximum number of retries exceeded: " + last.Text()
      case NoVenueListKey => "no venue list id or name provided"
      case NoVenueKey => "no venue id or name provided"
      case VenueListNotFound(name) => "venue list " + name + " not found"
      case VenueNotFound(name) => "venue " + name + " not found"
    }
  }

  const DuplicateMarker := "Duplicate entry"

  /** The test every insert applies to an Exec error: its text mentions "Duplicate entry". */
  predicate IsDuplicate(e: Error)
  {
    Contains(e.Text(), DuplicateMarker)
  }

  /** The server's message for a unique-key violation (MySQL error 1062). */
  function DuplicateKeyMessage(key: string): (m: string)
    ensures IsDuplicate(Driver(m))
  {
    OccursInContext("Error 1062: ", DuplicateMarker, " for key '" + key + "'");
    assert "Error 1062: " + DuplicateMarker + (" for key '" + key + "'")
        == "Error 1062: " + DuplicateMarker + " for key '" + key + "'";
    "Error 1062: " + DuplicateMarker + " for key '" + key + "'"
  }
}
