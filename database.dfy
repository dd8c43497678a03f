/**
 * The MySQL database both endpoints share: the applications table and the two
 * analytics counter tables. Keys are unique: `id` for applications, `date` for page
 * views and (`date`, `platform`) for social clicks.
 */
module Database {
  import opened Values
  import opened Sql

  /**
   * When a row was last touched: the client's timestamp, or the server clock, read as
   * seconds of local wall-clock time (the form `date()` writes).
   */
  datatype Stamp = Given(cell: Cell) | Clock(seconds: int)

  /** One row of the applications table; `files` holds the JSON value json_encode wrote. */
  datatype Row = Row(
    id: string,
    name: Cell,
    email: Cell,
    phone: Cell,
    experience: Cell,
    message: Cell,
    files: Json,
    status: Cell,
    createdAt: Cell,
    updatedAt: Stamp,
    archived: bool,
    archivedAt: Option<int>,
    autoDeleteDate: Option<int>)

  class Db {
    /** Rows of `applications`, keyed by their `id` column. */
    var applications: map<string, Row>
    /** `page_views`: date to views. */
    var pageViews: map<string, int>
    /** `social_analytics`: (date, platform) to clicks. */
    var socialClicks: map<(string, string), int>

    ghost predicate Valid()
      reads this
    {
      forall id | id in applications :: applications[id].id == id
    }

    constructor ()
      ensures Valid()
      ensures applications == map[] && pageViews == map[] && socialClicks == map[]
    {
      applications, pageViews, socialClicks := map[], map[], map[];
    }
  }
}
