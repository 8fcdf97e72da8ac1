/**
 * `add_business`: return the id of an existing listing with the same name, address, area,
 * city, state and phone key, or append a new listing and return its id.
 */
module BusinessAdd {
  import opened Wrappers
  import opened Text
  import opened PhoneIdentity
  import opened Listings
  import opened BusinessByPhone

  /** The arguments of `add_business` (absent optional arguments are ""). */
  datatype NewListing = NewListing(
    name: string,
    address: string,
    phoneNumber: string,
    website: string,
    category: string,
    subcategory: string,
    city: string,
    state: string,
    area: string)

  /** The duplicate test: the five text columns agree ignoring case, and the phone keys are equal. */
  predicate SameListing(r: Listing, a: NewListing) {
    && Lower(r.name) == Lower(a.name)
    && Lower(r.address) == Lower(a.address)
    && Lower(r.area) == Lower(a.area)
    && Lower(r.city) == Lower(a.city)
    && Lower(r.state) == Lower(a.state)
    && NormalizePhone(r.phoneNumber) == NormalizePhone(a.phoneNumber)
  }

  /** The first row, in table order, that the duplicate test accepts. */
  function FirstDuplicate(rows: seq<Listing>, a: NewListing): (d: Option<Listing>)
    ensures d.None? <==> forall i | 0 <= i < |rows| :: !SameListing(rows[i], a)
    ensures d.Some? ==> exists i | 0 <= i < |rows| ::
      rows[i] == d.value && SameListing(rows[i], a) && forall k | 0 <= k < i :: !SameListing(rows[k], a)
    decreases |rows|
  {
    if rows == [] then None
    else if SameListing(rows[0], a) then Some(rows[0])
    else
      var d := FirstDuplicate(rows[1..], a);
      assert forall i | 1 <= i < |rows| :: rows[i] == rows[1..][i - 1];
      d
  }

  /**
   * The inserted row: SQLite gives it the next rowid, which the `id` column aliases; the
   * phone is stored as its key, reviews start at 0 and no average, and `created_at` is the
   * timestamp passed in.
   */
  function NewRow(rows: seq<Listing>, a: NewListing, createdAt: string): Listing {
    var rowid := MaxRowid(rows) + 1;
    Listing(rowid, rowid, a.name, a.address, NormalizePhone(a.phoneNumber), a.website,
            a.category, a.subcategory, a.city, a.state, a.area, 0, None, createdAt)
  }

  /** The table after the call and the id returned. */
  function AddOutcome(rows: seq<Listing>, a: NewListing, createdAt: string): (seq<Listing>, int) {
    match FirstDuplicate(rows, a)
    case Some(d) => (rows, d.id)
    case None => (rows + [NewRow(rows, a, createdAt)], NewRow(rows, a, createdAt).id)
  }

  /**
   * `add_business`: when a duplicate exists its id comes back and the table is unchanged;
   * otherwise exactly one row is appended and its id comes back.
   */
  method AddBusiness(table: ListingTable, a: NewListing, createdAt: string) returns (id: Option<int>)
    modifies table
    ensures id.Some? && (table.rows, id.value) == AddOutcome(old(table.rows), a, createdAt)
    ensures old(table.Valid()) ==> table.Valid()
  {
    var key := if a.phoneNumber != "" then NormalizePhone(a.phoneNumber) else "";
    for i := 0 to |table.rows|
      invariant forall k | 0 <= k < i :: !SameListing(table.rows[k], a)
    {
      var r := table.rows[i];
      if Lower(r.name) == Lower(a.name) && Lower(r.address) == Lower(a.address)
        && Lower(r.area) == Lower(a.area) && Lower(r.city) == Lower(a.city)
        && Lower(r.state) == Lower(a.state) && NormalizePhone(r.phoneNumber) == key
      {
        assert FirstDuplicate(table.rows, a) == Some(r) by {
          FirstDuplicateAt(table.rows, a, i);
        }
        return Some(r.id);
      }
    }
    var row := NewRow(table.rows, a, createdAt);
    if UniqueRowids(table.rows) {
      AppendValid(table.rows, row);
    }
    table.rows := table.rows + [row];
    return Some(row.id);
  }

  lemma {:induction false} FirstDuplicateAt(rows: seq<Listing>, a: NewListing, i: int)
    requires 0 <= i < |rows| && SameListing(rows[i], a)
    requires forall k | 0 <= k < i :: !SameListing(rows[k], a)
    ensures FirstDuplicate(rows, a) == Some(rows[i])
    decreases i
  {
    if i > 0 {
      FirstDuplicateAt(rows[1..], a, i - 1);
    }
  }

  /** A row with a rowid above all others keeps the rowids unique. */
  lemma AppendValid(rows: seq<Listing>, row: Listing)
    requires UniqueRowids(rows) && row.rowid == MaxRowid(rows) + 1
    ensures UniqueRowids(rows + [row])
  {
    var rows' := rows + [row];
    assert MaxRowid(rows) >= 0 by {
      if rows != [] {
        assert rows[0].rowid <= MaxRowid(rows);
      }
    }
    forall i, j | 0 <= i < j < |rows'|
      ensures rows'[i].rowid != rows'[j].rowid
    {
      if j == |rows| {
        assert rows'[i] == rows[i];
      }
    }
  }

  /** A new row passes the duplicate test for the arguments that created it. */
  lemma NewRowIsSame(rows: seq<Listing>, a: NewListing, createdAt: string)
    ensures SameListing(NewRow(rows, a, createdAt), a)
  {
    NormalizeIdempotent(a.phoneNumber);
  }

  /**
   * Idempotence: calling `add_business` again with the same arguments returns the same id
   * and leaves the table as the first call left it.
   */
  lemma AddIdempotent(rows: seq<Listing>, a: NewListing, t1: string, t2: string)
    ensures var (rows1, id1) := AddOutcome(rows, a, t1);
      AddOutcome(rows1, a, t2) == (rows1, id1)
  {
    if FirstDuplicate(rows, a).None? {
      var row := NewRow(rows, a, t1);
      var rows1 := rows + [row];
      NewRowIsSame(rows, a, t1);
      assert rows1[|rows|] == row;
      forall k | 0 <= k < |rows|
        ensures !SameListing(rows1[k], a)
      {
        assert rows1[k] == rows[k];
      }
      FirstDuplicateAt(rows1, a, |rows|);
    }
  }

  /** The new listing is found again under the phone it was added with, as the add flow expects. */
  lemma NewRowFoundByPhone(rows: seq<Listing>, a: NewListing, createdAt: string)
    ensures MatchesKey(NewRow(rows, a, createdAt), NormalizePhone(a.phoneNumber))
  {
    NormalizeIdempotent(a.phoneNumber);
  }

  /** A new row gets a rowid no existing row has. */
  lemma NewRowidIsFresh(rows: seq<Listing>, a: NewListing, createdAt: string)
    ensures forall i | 0 <= i < |rows| :: rows[i].rowid < NewRow(rows, a, createdAt).rowid
  {
  }
}
