/**
 * Reading listings: every listing under a phone number, newest first; one listing by
 * its `id`; the listing with the highest `id`.
 */
module BusinessByPhone {
  import opened Wrappers
  import opened Text
  import opened PhoneIdentity
  import opened Listings

  /** A row belongs to the owner whose key is `key` when its phone normalises to `key`. */
  predicate MatchesKey(r: Listing, key: string) {
    NormalizePhone(r.phoneNumber) == key
  }

  /** The rows under `key`, in table order. */
  function MatchingRows(rows: seq<Listing>, key: string): seq<Listing>
    decreases |rows|
  {
    if rows == [] then []
    else
      var last := rows[|rows| - 1];
      MatchingRows(rows[..|rows| - 1], key) + (if MatchesKey(last, key) then [last] else [])
  }

  /** Soundness and completeness of the filter. */
  lemma {:induction false} MatchingRowsMembers(rows: seq<Listing>, key: string)
    ensures forall x :: x in MatchingRows(rows, key) <==> x in rows && MatchesKey(x, key)
    decreases |rows|
  {
    if rows != [] {
      MatchingRowsMembers(rows[..|rows| - 1], key);
      assert rows == rows[..|rows| - 1] + [rows[|rows| - 1]];
    }
  }

  predicate DistinctRowids(s: seq<Listing>) {
    forall i, j | 0 <= i < j < |s| :: s[i].rowid != s[j].rowid
  }

  /** No row is returned twice: the filter keeps distinct rowids distinct. */
  lemma {:induction false} MatchingRowsDistinct(rows: seq<Listing>, key: string)
    requires DistinctRowids(rows)
    ensures DistinctRowids(MatchingRows(rows, key))
    decreases |rows|
  {
    if rows != [] {
      var n := |rows| - 1;
      MatchingRowsDistinct(rows[..n], key);
      MatchingRowsMembers(rows[..n], key);
      var m := MatchingRows(rows[..n], key);
      forall i | 0 <= i < |m|
        ensures m[i].rowid != rows[n].rowid
      {
        assert m[i] in rows[..n];
        var p :| 0 <= p < n && rows[..n][p] == m[i];
        assert rows[p] == m[i];
      }
    }
  }

  // ---------------- the created_at sort ---------------- //

  /** `created_at` descending: each row is at least as recent as every row after it. */
  predicate SortedDesc(s: seq<Listing>) {
    forall i, j | 0 <= i < j < |s| :: LessEq(s[j].createdAt, s[i].createdAt)
  }

  /** Put `x` after every row at least as recent as it: a later row with an equal key stays later. */
  function Insert(s: seq<Listing>, x: Listing): seq<Listing>
    decreases |s|
  {
    if s == [] then [x]
    else if Less(s[0].createdAt, x.createdAt) then [x] + s
    else [s[0]] + Insert(s[1..], x)
  }

  /** `sort(key=created_at, reverse=True)`: a stable sort, newest first. */
  function SortByCreatedDesc(xs: seq<Listing>): seq<Listing>
    decreases |xs|
  {
    if xs == [] then []
    else Insert(SortByCreatedDesc(xs[..|xs| - 1]), xs[|xs| - 1])
  }

  lemma {:induction false} InsertMultiset(s: seq<Listing>, x: Listing)
    ensures multiset(Insert(s, x)) == multiset(s) + multiset{x}
    decreases |s|
  {
    if s != [] && !Less(s[0].createdAt, x.createdAt) {
      InsertMultiset(s[1..], x);
      assert s == [s[0]] + s[1..];
    }
  }

  /** Every row of a sorted list is no more recent than one that beats its head. */
  lemma BelowHead(s: seq<Listing>, x: Listing)
    requires SortedDesc(s) && s != [] && Less(s[0].createdAt, x.createdAt)
    ensures forall j | 0 <= j < |s| :: Less(s[j].createdAt, x.createdAt)
  {
    forall j | 0 < j < |s|
      ensures Less(s[j].createdAt, x.createdAt)
    {
      LessEqLessTransitive(s[j].createdAt, s[0].createdAt, x.createdAt);
    }
  }

  /** The rows of `Insert(s, x)` are `x` and the rows of `s`. */
  lemma InsertMembers(s: seq<Listing>, x: Listing)
    ensures forall y :: y in Insert(s, x) <==> y == x || y in s
  {
    InsertMultiset(s, x);
    assert forall y :: y in Insert(s, x) <==> y in multiset(Insert(s, x));
  }

  /** A sorted list stays sorted under a head at least as recent as all of it. */
  lemma ConsSorted(h: Listing, rest: seq<Listing>)
    requires SortedDesc(rest)
    requires forall k | 0 <= k < |rest| :: LessEq(rest[k].createdAt, h.createdAt)
    ensures SortedDesc([h] + rest)
  {
    var r := [h] + rest;
    forall i, j | 0 <= i < j < |r|
      ensures LessEq(r[j].createdAt, r[i].createdAt)
    {
      assert r[j] == rest[j - 1];
      if i > 0 {
        assert r[i] == rest[i - 1];
      }
    }
  }

  /** In a sorted list no row after the head is more recent than it. */
  lemma SortedTail(s: seq<Listing>, y: Listing)
    requires SortedDesc(s) && s != [] && y in s[1..]
    ensures LessEq(y.createdAt, s[0].createdAt)
  {
    var p :| 0 <= p < |s[1..]| && s[1..][p] == y;
    assert s[p + 1] == y;
  }

  lemma {:induction false} InsertSorted(s: seq<Listing>, x: Listing)
    requires SortedDesc(s)
    ensures SortedDesc(Insert(s, x))
    decreases |s|
  {
    if s == [] {
    } else if Less(s[0].createdAt, x.createdAt) {
      BelowHead(s, x);
      ConsSorted(x, s);
    } else {
      var rest := Insert(s[1..], x);
      InsertSorted(s[1..], x);
      InsertMembers(s[1..], x);
      NotLessIsAtLeast(s[0].createdAt, x.createdAt);
      forall k | 0 <= k < |rest|
        ensures LessEq(rest[k].createdAt, s[0].createdAt)
      {
        assert rest[k] in rest;
        if rest[k] != x {
          SortedTail(s, rest[k]);
        }
      }
      ConsSorted(s[0], rest);
    }
  }

  lemma {:induction false} SortSorted(xs: seq<Listing>)
    ensures SortedDesc(SortByCreatedDesc(xs))
    decreases |xs|
  {
    if xs != [] {
      SortSorted(xs[..|xs| - 1]);
      InsertSorted(SortByCreatedDesc(xs[..|xs| - 1]), xs[|xs| - 1]);
    }
  }

  /** The sort neither loses nor invents a row. */
  lemma {:induction false} SortPermutation(xs: seq<Listing>)
    ensures multiset(SortByCreatedDesc(xs)) == multiset(xs)
    decreases |xs|
  {
    if xs != [] {
      var init, last := xs[..|xs| - 1], xs[|xs| - 1];
      SortStep(xs);
      SortPermutation(init);
      assert xs == init + [last];
      calc {
        multiset(SortByCreatedDesc(xs));
        multiset(init) + multiset{last};
        multiset(init) + multiset([last]);
        multiset(init + [last]);
      }
    }
  }

  lemma SortStep(xs: seq<Listing>)
    requires xs != []
    ensures multiset(SortByCreatedDesc(xs)) == multiset(SortByCreatedDesc(xs[..|xs| - 1])) + multiset{xs[|xs| - 1]}
  {
    InsertMultiset(SortByCreatedDesc(xs[..|xs| - 1]), xs[|xs| - 1]);
  }

  /** The rows stamped `k`, in order. */
  function WithCreatedAt(s: seq<Listing>, k: string): seq<Listing>
    decreases |s|
  {
    if s == [] then []
    else (if s[0].createdAt == k then [s[0]] else []) + WithCreatedAt(s[1..], k)
  }

  lemma {:induction false} WithCreatedAtAppend(a: seq<Listing>, b: seq<Listing>, k: string)
    ensures WithCreatedAt(a + b, k) == WithCreatedAt(a, k) + WithCreatedAt(b, k)
    decreases |a|
  {
    if a == [] {
      assert a + b == b;
    } else {
      var head := if a[0].createdAt == k then [a[0]] else [];
      assert (a + b)[0] == a[0];
      assert (a + b)[1..] == a[1..] + b;
      WithCreatedAtAppend(a[1..], b, k);
      calc {
        WithCreatedAt(a + b, k);
        head + WithCreatedAt(a[1..] + b, k);
        head + (WithCreatedAt(a[1..], k) + WithCreatedAt(b, k));
        (head + WithCreatedAt(a[1..], k)) + WithCreatedAt(b, k);
        WithCreatedAt(a, k) + WithCreatedAt(b, k);
      }
    }
  }

  lemma {:induction false} WithCreatedAtNone(s: seq<Listing>, k: string)
    requires forall j | 0 <= j < |s| :: Less(s[j].createdAt, k)
    ensures WithCreatedAt(s, k) == []
    decreases |s|
  {
    if s != [] {
      LessIsNotEqual(s[0].createdAt, k);
      WithCreatedAtNone(s[1..], k);
    }
  }

  lemma SortedRest(s: seq<Listing>)
    requires SortedDesc(s) && s != []
    ensures SortedDesc(s[1..])
  {
    forall i, j | 0 <= i < j < |s[1..]|
      ensures LessEq(s[1..][j].createdAt, s[1..][i].createdAt)
    {
      assert s[1..][j] == s[j + 1] && s[1..][i] == s[i + 1];
    }
  }

  lemma {:induction false} InsertStable(s: seq<Listing>, x: Listing, k: string)
    requires SortedDesc(s)
    ensures WithCreatedAt(Insert(s, x), k) == WithCreatedAt(s, k) + WithCreatedAt([x], k)
    decreases |s|
  {
    if s == [] {
    } else if Less(s[0].createdAt, x.createdAt) {
      InsertFrontStable(s, x, k);
    } else {
      assert Insert(s, x) == [s[0]] + Insert(s[1..], x);
      SortedRest(s);
      InsertStable(s[1..], x, k);
      WithCreatedAtAppend([s[0]], Insert(s[1..], x), k);
      WithCreatedAtAppend([s[0]], s[1..], k);
      assert s == [s[0]] + s[1..];
    }
  }

  /** A row more recent than the head goes first; no row of `s` shares its stamp. */
  lemma InsertFrontStable(s: seq<Listing>, x: Listing, k: string)
    requires SortedDesc(s) && s != [] && Less(s[0].createdAt, x.createdAt)
    ensures WithCreatedAt(Insert(s, x), k) == WithCreatedAt(s, k) + WithCreatedAt([x], k)
  {
    assert Insert(s, x) == [x] + s;
    WithCreatedAtAppend([x], s, k);
    if x.createdAt == k {
      BelowHead(s, x);
      WithCreatedAtNone(s, k);
    } else {
      assert WithCreatedAt([x], k) == [];
    }
  }

  /** Stability: rows with equal `created_at` come out in the order the table holds them. */
  lemma {:induction false} SortStable(xs: seq<Listing>, k: string)
    ensures WithCreatedAt(SortByCreatedDesc(xs), k) == WithCreatedAt(xs, k)
    decreases |xs|
  {
    if xs != [] {
      var n := |xs| - 1;
      SortSorted(xs[..n]);
      InsertStable(SortByCreatedDesc(xs[..n]), xs[n], k);
      SortStable(xs[..n], k);
      WithCreatedAtAppend(xs[..n], [xs[n]], k);
      assert xs == xs[..n] + [xs[n]];
    }
  }

  lemma {:induction false} InsertDistinct(s: seq<Listing>, x: Listing)
    requires DistinctRowids(s)
    requires forall j | 0 <= j < |s| :: s[j].rowid != x.rowid
    ensures DistinctRowids(Insert(s, x))
    decreases |s|
  {
    if s == [] {
    } else if Less(s[0].createdAt, x.createdAt) {
      var r := [x] + s;
      assert Insert(s, x) == r;
      forall i, j | 0 <= i < j < |r|
        ensures r[i].rowid != r[j].rowid
      {
        assert r[j] == s[j - 1];
      }
    } else {
      var rest := Insert(s[1..], x);
      assert Insert(s, x) == [s[0]] + rest;
      InsertDistinct(s[1..], x);
      InsertMultiset(s[1..], x);
      forall k | 0 <= k < |rest|
        ensures rest[k].rowid != s[0].rowid
      {
        assert rest[k] in multiset(rest);
        if rest[k] != x {
          assert rest[k] in multiset(s[1..]);
          var p :| 0 <= p < |s[1..]| && s[1..][p] == rest[k];
          assert s[p + 1] == rest[k];
        }
      }
      var r := [s[0]] + rest;
      forall i, j | 0 <= i < j < |r|
        ensures r[i].rowid != r[j].rowid
      {
        assert r[j] == rest[j - 1];
        if i > 0 {
          assert r[i] == rest[i - 1];
        }
      }
    }
  }

  lemma SortMembers(xs: seq<Listing>)
    ensures forall y :: y in SortByCreatedDesc(xs) <==> y in xs
  {
    SortPermutation(xs);
    assert forall y :: y in SortByCreatedDesc(xs) <==> y in multiset(SortByCreatedDesc(xs));
  }

  lemma {:induction false} SortDistinct(xs: seq<Listing>)
    requires DistinctRowids(xs)
    ensures DistinctRowids(SortByCreatedDesc(xs))
    decreases |xs|
  {
    if xs != [] {
      var n := |xs| - 1;
      var sorted := SortByCreatedDesc(xs[..n]);
      SortDistinct(xs[..n]);
      SortMembers(xs[..n]);
      forall j | 0 <= j < |sorted|
        ensures sorted[j].rowid != xs[n].rowid
      {
        RowidBefore(xs, n, sorted[j]);
      }
      InsertDistinct(sorted, xs[n]);
    }
  }

  lemma RowidBefore(xs: seq<Listing>, n: int, y: Listing)
    requires DistinctRowids(xs) && 0 <= n < |xs| && y in xs[..n]
    ensures y.rowid != xs[n].rowid
  {
    var p :| 0 <= p < n && xs[..n][p] == y;
    assert xs[p] == y;
  }

  // ---------------- the operations ---------------- //

  /**
   * `get_businesses_by_phone`: an input with no digits gives no rows; otherwise exactly the
   * rows whose phone normalises to the same key, each once, newest `created_at` first.
   */
  method GetBusinessesByPhone(table: ListingTable, phone: string) returns (result: seq<Listing>)
    ensures NormalizePhone(phone) == "" ==> result == []
    ensures NormalizePhone(phone) != "" ==>
      result == SortByCreatedDesc(MatchingRows(table.rows, NormalizePhone(phone)))
    ensures forall x :: x in result <==>
      NormalizePhone(phone) != "" && x in table.rows && MatchesKey(x, NormalizePhone(phone))
    ensures SortedDesc(result)
    ensures table.Valid() ==> DistinctRowids(result)
  {
    var key := NormalizePhone(phone);
    if key == "" {
      return [];
    }
    var matching: seq<Listing> := [];
    for i := 0 to |table.rows|
      invariant matching == MatchingRows(table.rows[..i], key)
    {
      assert table.rows[..i + 1][..i] == table.rows[..i];
      if NormalizePhone(table.rows[i].phoneNumber) == key {
        matching := matching + [table.rows[i]];
      }
    }
    assert table.rows[..|table.rows|] == table.rows;
    result := SortNewestFirst(matching);
    MatchingRowsMembers(table.rows, key);
    SortPermutation(matching);
    assert forall x :: x in result <==> x in multiset(result);
    if table.Valid() {
      MatchingRowsDistinct(table.rows, key);
      SortDistinct(matching);
    }
  }

  /** The in-place sort: each row in turn is inserted into the sorted prefix. */
  method SortNewestFirst(xs: seq<Listing>) returns (sorted: seq<Listing>)
    ensures sorted == SortByCreatedDesc(xs)
    ensures SortedDesc(sorted)
  {
    sorted := [];
    for i := 0 to |xs|
      invariant sorted == SortByCreatedDesc(xs[..i])
    {
      assert xs[..i + 1][..i] == xs[..i];
      SortSorted(xs[..i]);
      var j := 0;
      while j < |sorted| && !Less(sorted[j].createdAt, xs[i].createdAt)
        invariant 0 <= j <= |sorted|
        invariant forall k | 0 <= k < j :: !Less(sorted[k].createdAt, xs[i].createdAt)
      {
        j := j + 1;
      }
      InsertAt(sorted, xs[i], j);
      sorted := sorted[..j] + [xs[i]] + sorted[j..];
    }
    assert xs[..|xs|] == xs;
    SortSorted(xs);
  }

  /** Inserting at the first row older than `x` is what `Insert` does. */
  lemma {:induction false} InsertAt(s: seq<Listing>, x: Listing, j: int)
    requires 0 <= j <= |s|
    requires forall k | 0 <= k < j :: !Less(s[k].createdAt, x.createdAt)
    requires j == |s| || Less(s[j].createdAt, x.createdAt)
    ensures Insert(s, x) == s[..j] + [x] + s[j..]
    decreases j
  {
    if j > 0 {
      InsertAt(s[1..], x, j - 1);
      assert s[1..][..j - 1] == s[..j][1..];
      assert s[1..][j - 1..] == s[j..];
      assert s[..j] == [s[0]] + s[..j][1..];
    }
  }

  /** `get_business_by_id`: the first row whose `id` is the argument, or None when there is none. */
  method GetBusinessById(table: ListingTable, businessId: int) returns (r: Option<Listing>)
    ensures r.None? <==> forall i | 0 <= i < |table.rows| :: table.rows[i].id != businessId
    ensures r.Some? ==> exists i | 0 <= i < |table.rows| ::
      table.rows[i] == r.value && r.value.id == businessId &&
      forall k | 0 <= k < i :: table.rows[k].id != businessId
  {
    for i := 0 to |table.rows|
      invariant forall k | 0 <= k < i :: table.rows[k].id != businessId
    {
      if table.rows[i].id == businessId {
        return Some(table.rows[i]);
      }
    }
    return None;
  }

  /** `get_latest_business`: a row with the highest `id`, or None for an empty table. */
  method GetLatestBusiness(table: ListingTable) returns (r: Option<Listing>)
    ensures r.None? <==> table.rows == []
    ensures r.Some? ==> r.value in table.rows
    ensures r.Some? ==> forall i | 0 <= i < |table.rows| :: table.rows[i].id <= r.value.id
  {
    if table.rows == [] {
      return None;
    }
    var best := table.rows[0];
    for i := 1 to |table.rows|
      invariant best in table.rows[..i]
      invariant forall k | 0 <= k < i :: table.rows[k].id <= best.id
    {
      if table.rows[i].id > best.id {
        best := table.rows[i];
      }
    }
    assert table.rows[..|table.rows|] == table.rows;
    return Some(best);
  }
}
