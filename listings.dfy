/**
 * The `google_maps_listings` table: one record per business, and the table itself as an
 * object whose rows the update and add operations change in place.
 *
 * SQL NULL in a text column is written as "", which is how every reader in the source
 * treats it (`row[1] or ""`, `IFNULL(address, '')`).
 */
module Listings {
  import opened Wrappers

  /** A row: SQLite's `rowid`, the `id` column, the nine editable text columns and the rest. */
  datatype Listing = Listing(
    rowid: int,
    id: int,
    name: string,
    address: string,
    phoneNumber: string,
    website: string,
    category: string,
    subcategory: string,
    city: string,
    state: string,
    area: string,
    reviewsCount: int,
    reviewsAverage: Option<real>,
    createdAt: string)

  /** The columns named in `ALLOWED_FIELDS`, in that order. */
  datatype Column = Name | Address | PhoneNumber | Website | Category | Subcategory | Area | City | State

  /** The column's name in SQL and in an updates dictionary. */
  function ColumnName(c: Column): string {
    match c
    case Name => "name"
    case Address => "address"
    case PhoneNumber => "phone_number"
    case Website => "website"
    case Category => "category"
    case Subcategory => "subcategory"
    case Area => "area"
    case City => "city"
    case State => "state"
  }

  /** `k in ALLOWED_FIELDS`, answered with the column `k` names. */
  function ParseColumn(k: string): (c: Option<Column>)
    ensures c.Some? ==> ColumnName(c.value) == k
    ensures c.None? ==> forall d: Column :: ColumnName(d) != k
  {
    if k == "name" then Some(Name)
    else if k == "address" then Some(Address)
    else if k == "phone_number" then Some(PhoneNumber)
    else if k == "website" then Some(Website)
    else if k == "category" then Some(Category)
    else if k == "subcategory" then Some(Subcategory)
    else if k == "area" then Some(Area)
    else if k == "city" then Some(City)
    else if k == "state" then Some(State)
    else None
  }

  /** The value of an editable column. */
  function Field(r: Listing, c: Column): string {
    match c
    case Name => r.name
    case Address => r.address
    case PhoneNumber => r.phoneNumber
    case Website => r.website
    case Category => r.category
    case Subcategory => r.subcategory
    case Area => r.area
    case City => r.city
    case State => r.state
  }

  /** `UPDATE ... SET col = ?, ...` on one row: the columns in `f` take their new values. */
  function WithFields(r: Listing, f: map<Column, string>): (r': Listing)
    ensures r'.rowid == r.rowid && r'.id == r.id && r'.createdAt == r.createdAt
    ensures r'.reviewsCount == r.reviewsCount && r'.reviewsAverage == r.reviewsAverage
  {
    r.(
      name := if Name in f then f[Name] else r.name,
      address := if Address in f then f[Address] else r.address,
      phoneNumber := if PhoneNumber in f then f[PhoneNumber] else r.phoneNumber,
      website := if Website in f then f[Website] else r.website,
      category := if Category in f then f[Category] else r.category,
      subcategory := if Subcategory in f then f[Subcategory] else r.subcategory,
      area := if Area in f then f[Area] else r.area,
      city := if City in f then f[City] else r.city,
      state := if State in f then f[State] else r.state)
  }

  /** Exactly the columns in `f` change, to the values `f` gives them. */
  lemma FieldOfWithFields(r: Listing, f: map<Column, string>, c: Column)
    ensures Field(WithFields(r, f), c) == if c in f then f[c] else Field(r, c)
  {
    match c
    case Name =>
    case Address =>
    case PhoneNumber =>
    case Website =>
    case Category =>
    case Subcategory =>
    case Area =>
    case City =>
    case State =>
  }

  /** With no columns to set, a row is left as it was. */
  lemma WithNoFields(r: Listing)
    ensures WithFields(r, map[]) == r
  {
  }

  /** SQLite keeps `rowid` unique within a table, and the rowids it assigns are positive. */
  predicate UniqueRowids(rows: seq<Listing>) {
    && (forall i | 0 <= i < |rows| :: rows[i].rowid >= 1)
    && (forall i, j | 0 <= i < j < |rows| :: rows[i].rowid != rows[j].rowid)
  }

  /** The largest rowid in use, 0 for an empty table. */
  function MaxRowid(rows: seq<Listing>): (m: int)
    ensures forall i | 0 <= i < |rows| :: rows[i].rowid <= m
    ensures rows != [] ==> exists i | 0 <= i < |rows| :: rows[i].rowid == m
    ensures rows == [] ==> m == 0
  {
    if rows == [] then 0
    else
      var m := MaxRowid(rows[..|rows| - 1]);
      var last := rows[|rows| - 1].rowid;
      if |rows| == 1 || last > m then last else m
  }

  /** The table; SQL statements become methods that reassign `rows`. */
  class ListingTable {
    var rows: seq<Listing>

    ghost predicate Valid()
      reads this
    {
      UniqueRowids(rows)
    }

    constructor(initial: seq<Listing>)
      requires UniqueRowids(initial)
      ensures rows == initial && Valid()
    {
      rows := initial;
    }
  }
}
