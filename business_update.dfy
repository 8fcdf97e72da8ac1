/**
 * `update_business`: keep the allowed, cleaned fields of an updates dictionary, find the
 * rows to change (by id, then by rowid, then by phone) and set those fields on those rows.
 */
module BusinessUpdate {
  import opened Wrappers
  import opened Text
  import opened PhoneIdentity
  import opened Listings
  import opened BusinessByPhone

  /** `ALLOWED_FIELDS` as a set of columns. */
  const AllColumns: set<Column> := {Name, Address, PhoneNumber, Website, Category, Subcategory, Area, City, State}

  /** A value as stored: None becomes "", text is stripped, and a phone is stored as its key. */
  function CleanValue(c: Column, v: Option<string>): string {
    match v
    case None => ""
    case Some(s) => if c == PhoneNumber then NormalizePhone(Strip(s)) else Strip(s)
  }

  /** `filtered_updates`: the allowed keys of `updates`, with their cleaned values. */
  function FilteredUpdates(updates: map<string, Option<string>>): map<Column, string> {
    map c | c in AllColumns && ColumnName(c) in updates :: CleanValue(c, updates[ColumnName(c)])
  }

  lemma ColumnNameInjective(c: Column, d: Column)
    requires ColumnName(c) == ColumnName(d)
    ensures c == d
  {
  }

  /** The filtering loop over the items of `updates`. */
  method FilterUpdates(updates: map<string, Option<string>>) returns (filtered: map<Column, string>)
    ensures filtered == FilteredUpdates(updates)
  {
    filtered := map[];
    var remaining := updates.Keys;
    while remaining != {}
      invariant remaining <= updates.Keys
      invariant filtered == map c | c in AllColumns && ColumnName(c) in updates.Keys - remaining ::
        CleanValue(c, updates[ColumnName(c)])
      decreases |remaining|
    {
      var k :| k in remaining;
      var c := ParseColumn(k);
      if c.Some? {
        forall d | ColumnName(d) == k
          ensures d == c.value
        {
          ColumnNameInjective(d, c.value);
        }
        filtered := filtered[c.value := CleanValue(c.value, updates[k])];
      }
      remaining := remaining - {k};
    }
  }

  /** A key that names no allowed column is dropped; "phone" is one. */
  lemma UnknownKeyDropped(k: string, v: Option<string>)
    requires ParseColumn(k).None?
    ensures FilteredUpdates(map[k := v]) == map[]
  {
  }

  lemma PhoneIsNoColumn()
    ensures ParseColumn("phone").None?
  {
  }

  /** A stored phone value is always a key: digits only. */
  lemma StoredPhoneIsKey(updates: map<string, Option<string>>)
    requires PhoneNumber in FilteredUpdates(updates)
    ensures forall i | 0 <= i < |FilteredUpdates(updates)[PhoneNumber]| ::
      IsDigit(FilteredUpdates(updates)[PhoneNumber][i])
  {
  }

  // ---------------- which rows ---------------- //

  /** The rowid of the first row whose `id` is `id`. */
  function FirstRowidWithId(rows: seq<Listing>, id: int): (r: Option<int>)
    ensures r.None? <==> forall i | 0 <= i < |rows| :: rows[i].id != id
    ensures r.Some? ==> exists i | 0 <= i < |rows| :: rows[i].id == id && rows[i].rowid == r.value
    decreases |rows|
  {
    if rows == [] then None
    else if rows[0].id == id then Some(rows[0].rowid)
    else
      var r := FirstRowidWithId(rows[1..], id);
      assert forall i | 1 <= i < |rows| :: rows[i] == rows[1..][i - 1];
      r
  }

  /** The rowid `id`, when a row has it. */
  function RowWithRowid(rows: seq<Listing>, id: int): (r: Option<int>)
    ensures r.None? <==> forall i | 0 <= i < |rows| :: rows[i].rowid != id
    ensures r.Some? ==> r.value == id
  {
    if exists i | 0 <= i < |rows| :: rows[i].rowid == id then Some(id) else None
  }

  /**
   * The id lookups: no id gives nothing; otherwise the row whose `id` column matches, and
   * failing that the row whose rowid is the given number.
   */
  function IdMatches(rows: seq<Listing>, businessId: Option<int>): seq<int> {
    match businessId
    case None => []
    case Some(id) =>
      match FirstRowidWithId(rows, id)
      case Some(r) => [r]
      case None =>
        match RowWithRowid(rows, id)
        case Some(r) => [r]
        case None => []
  }

  function RowidsOf(rows: seq<Listing>): (ids: seq<int>)
    ensures |ids| == |rows| && forall i | 0 <= i < |rows| :: ids[i] == rows[i].rowid
  {
    seq(|rows|, i requires 0 <= i < |rows| => rows[i].rowid)
  }

  /** `matching_rowids`: the phone scan runs only when the id found nothing and the phone has digits. */
  function MatchedRowids(rows: seq<Listing>, businessId: Option<int>, phoneNumber: string): seq<int> {
    var byId := IdMatches(rows, businessId);
    if byId == [] && phoneNumber != "" && NormalizePhone(phoneNumber) != "" then
      RowidsOf(MatchingRows(rows, NormalizePhone(phoneNumber)))
    else byId
  }

  /** `UPDATE ... WHERE rowid IN (...)`: the matched rows take the filtered fields, the others stay. */
  function UpdatedRows(rows: seq<Listing>, matched: seq<int>, f: map<Column, string>): (rows': seq<Listing>)
    ensures |rows'| == |rows|
  {
    seq(|rows|, i requires 0 <= i < |rows| =>
      if rows[i].rowid in matched then WithFields(rows[i], f) else rows[i])
  }

  /** When `update_business` reports success. */
  predicate UpdateSucceeds(rows: seq<Listing>, businessId: Option<int>,
                           updates: map<string, Option<string>>, phoneNumber: string)
  {
    updates != map[] && FilteredUpdates(updates) != map[] &&
    MatchedRowids(rows, businessId, phoneNumber) != []
  }

  /**
   * `update_business`. A storage error (`storageFails`) rolls back and reports failure.
   * It succeeds exactly when there are updates, some of them allowed, and some row
   * matched; then the matched rows take the filtered fields, and otherwise nothing changes.
   */
  method UpdateBusiness(table: ListingTable, businessId: Option<int>,
                        updates: map<string, Option<string>>, phoneNumber: string, storageFails: bool)
    returns (ok: bool)
    modifies table
    ensures ok <==> !storageFails && UpdateSucceeds(old(table.rows), businessId, updates, phoneNumber)
    ensures ok ==> table.rows == UpdatedRows(old(table.rows),
      MatchedRowids(old(table.rows), businessId, phoneNumber), FilteredUpdates(updates))
    ensures !ok ==> table.rows == old(table.rows)
    ensures old(table.Valid()) ==> table.Valid()
  {
    if updates == map[] {
      return false;
    }
    var filtered := FilterUpdates(updates);
    if filtered == map[] {
      return false;
    }
    if storageFails {
      return false;
    }
    var matched := FindMatchedRowids(table, businessId, phoneNumber);
    if matched == [] {
      return false;
    }
    SetFields(table, matched, filtered);
    if UniqueRowids(old(table.rows)) {
      UpdatedRowsValid(old(table.rows), matched, filtered);
    }
    return true;
  }

  /** The id lookups, then the phone scan when they found nothing. */
  method FindMatchedRowids(table: ListingTable, businessId: Option<int>, phoneNumber: string)
    returns (matched: seq<int>)
    ensures matched == MatchedRowids(table.rows, businessId, phoneNumber)
  {
    matched := [];
    if businessId.Some? {
      var byId := FindRowidById(table, businessId.value);
      if byId.Some? {
        matched := [byId.value];
      } else {
        var byRowid := FindRowid(table, businessId.value);
        if byRowid.Some? {
          matched := [byRowid.value];
        }
      }
    }
    assert matched == IdMatches(table.rows, businessId);
    if matched == [] && phoneNumber != "" {
      var key := NormalizePhone(phoneNumber);
      if key != "" {
        matched := FindRowidsByPhone(table, key);
      }
    }
  }

  /** The UPDATE statement, row by row. */
  method SetFields(table: ListingTable, matched: seq<int>, filtered: map<Column, string>)
    modifies table
    ensures table.rows == UpdatedRows(old(table.rows), matched, filtered)
  {
    ghost var before := table.rows;
    for i := 0 to |table.rows|
      invariant |table.rows| == |before|
      invariant forall k | 0 <= k < |before| ::
        table.rows[k] == (if k < i && before[k].rowid in matched then WithFields(before[k], filtered) else before[k])
    {
      if table.rows[i].rowid in matched {
        table.rows := table.rows[i := WithFields(table.rows[i], filtered)];
      }
    }
  }

  /** `SELECT rowid ... WHERE id = ?` and `fetchone()`. */
  method FindRowidById(table: ListingTable, id: int) returns (r: Option<int>)
    ensures r == FirstRowidWithId(table.rows, id)
  {
    for i := 0 to |table.rows|
      invariant FirstRowidWithId(table.rows, id) == FirstRowidWithId(table.rows[i..], id)
    {
      assert table.rows[i..][1..] == table.rows[i + 1..];
      if table.rows[i].id == id {
        return Some(table.rows[i].rowid);
      }
    }
    return None;
  }

  /** `SELECT rowid ... WHERE rowid = ?` and `fetchone()`. */
  method FindRowid(table: ListingTable, id: int) returns (r: Option<int>)
    ensures r == RowWithRowid(table.rows, id)
  {
    for i := 0 to |table.rows|
      invariant forall k | 0 <= k < i :: table.rows[k].rowid != id
    {
      if table.rows[i].rowid == id {
        return Some(id);
      }
    }
    return None;
  }

  /** The phone scan: the rowid of every row whose phone normalises to `key`, in table order. */
  method FindRowidsByPhone(table: ListingTable, key: string) returns (ids: seq<int>)
    ensures ids == RowidsOf(MatchingRows(table.rows, key))
  {
    ids := [];
    for i := 0 to |table.rows|
      invariant ids == RowidsOf(MatchingRows(table.rows[..i], key))
    {
      assert table.rows[..i + 1][..i] == table.rows[..i];
      if NormalizePhone(table.rows[i].phoneNumber) == key {
        ids := ids + [table.rows[i].rowid];
      }
    }
    assert table.rows[..|table.rows|] == table.rows;
  }

  // ---------------- properties ---------------- //

  /** Updating keeps every rowid where it is, so a well-formed table stays well-formed. */
  lemma UpdatedRowsValid(rows: seq<Listing>, matched: seq<int>, f: map<Column, string>)
    requires UniqueRowids(rows)
    ensures UniqueRowids(UpdatedRows(rows, matched, f))
  {
    var rows' := UpdatedRows(rows, matched, f);
    assert forall i | 0 <= i < |rows| :: rows'[i].rowid == rows[i].rowid;
  }

  /**
   * Only matched rows change, and in them only the filtered columns: every other column,
   * the ids, the reviews and `created_at` keep their values.
   */
  lemma OnlyMatchedFieldsChange(rows: seq<Listing>, matched: seq<int>, f: map<Column, string>, i: int, c: Column)
    requires 0 <= i < |rows|
    ensures var r' := UpdatedRows(rows, matched, f)[i];
      && (rows[i].rowid !in matched ==> r' == rows[i])
      && Field(r', c) == (if rows[i].rowid in matched && c in f then f[c] else Field(rows[i], c))
      && r'.rowid == rows[i].rowid && r'.id == rows[i].id && r'.createdAt == rows[i].createdAt
  {
    FieldOfWithFields(rows[i], f, c);
  }

  /** The id wins: when some row carries the id, that row alone is updated and the phone is ignored. */
  lemma IdBeforePhone(rows: seq<Listing>, id: int, phoneNumber: string)
    requires exists i | 0 <= i < |rows| :: rows[i].id == id
    ensures |MatchedRowids(rows, Some(id), phoneNumber)| == 1
    ensures MatchedRowids(rows, Some(id), phoneNumber)[0] == FirstRowidWithId(rows, id).value
  {
  }

  /**
   * Without an id match, the phone selects exactly the rows whose phone has the same key,
   * and nothing when that key is empty.
   */
  lemma PhoneMatchesAll(rows: seq<Listing>, phoneNumber: string, r: Listing)
    requires r in rows
    ensures r.rowid in MatchedRowids(rows, None, phoneNumber) <==>
      NormalizePhone(phoneNumber) != "" && exists i | 0 <= i < |rows| ::
        rows[i].rowid == r.rowid && MatchesKey(rows[i], NormalizePhone(phoneNumber))
  {
    var key := NormalizePhone(phoneNumber);
    if key != "" {
      MatchingRowsMembers(rows, key);
      var m := MatchingRows(rows, key);
      var ids := RowidsOf(m);
      if r.rowid in ids {
        var p :| 0 <= p < |ids| && ids[p] == r.rowid;
        assert m[p] in rows;
        var q :| 0 <= q < |rows| && rows[q] == m[p];
        assert rows[q].rowid == r.rowid && MatchesKey(rows[q], key);
      }
      if exists i | 0 <= i < |rows| :: rows[i].rowid == r.rowid && MatchesKey(rows[i], key) {
        var i :| 0 <= i < |rows| && rows[i].rowid == r.rowid && MatchesKey(rows[i], key);
        assert rows[i] in m;
        var p :| 0 <= p < |m| && m[p] == rows[i];
        assert ids[p] == r.rowid;
      }
    }
  }

  /** An empty updates dictionary, or one with no allowed key, fails whatever the rows. */
  lemma NothingToUpdateFails(rows: seq<Listing>, businessId: Option<int>,
                             updates: map<string, Option<string>>, phoneNumber: string)
    requires forall k | k in updates :: ParseColumn(k).None?
    ensures !UpdateSucceeds(rows, businessId, updates, phoneNumber)
  {
    assert FilteredUpdates(updates) == map[];
  }
}
