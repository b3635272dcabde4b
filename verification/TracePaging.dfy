/** Keyset pagination over trace logs, newest first, with the cursor taken from the row after the page. */
module TracePaging {
  import opened Common
  import StringOrder

  /** A trace row, reduced to its primary key. */
  datatype Row = Row(ts: nat, hash: string)

  const I64_MAX: nat := 0x7FFF_FFFF_FFFF_FFFF
  const U64_LIMIT: nat := 0x1_0000_0000_0000_0000

  /** `a` comes after `b` in the listing: older, or as old with a smaller hash. */
  predicate Below(a: Row, b: Row) {
    a.ts < b.ts || (a.ts == b.ts && StringOrder.Less(a.hash, b.hash))
  }

  ghost predicate Descending(rows: seq<Row>) {
    forall i, j :: 0 <= i < j < |rows| ==> Below(rows[j], rows[i])
  }

  /** Newest first; rows of one timestamp by falling hash. */
  ghost predicate NewestFirst(rows: seq<Row>) {
    forall i, j :: 0 <= i < j < |rows| ==>
      rows[j].ts <= rows[i].ts && (rows[j].ts == rows[i].ts ==> StringOrder.Less(rows[j].hash, rows[i].hash))
  }

  // ---------------------------------------------------------------------------
  // Cursors
  // ---------------------------------------------------------------------------

  function Digit(d: nat): char
    requires d < 10
  {
    '0' + d as char
  }

  function Decimal(n: nat): string {
    if n < 10 then [Digit(n)] else Decimal(n / 10) + [Digit(n % 10)]
  }

  predicate IsDigit(c: char) {
    '0' <= c <= '9'
  }

  function DecimalValue(s: string): nat
    requires forall c :: c in s ==> IsDigit(c)
  {
    if s == [] then 0
    else
      assert s[|s| - 1] in s && IsDigit(s[|s| - 1]);
      DecimalValue(s[..|s| - 1]) * 10 + (s[|s| - 1] as int - '0' as int)
  }

  /** `str::parse::<u64>`: an optional plus sign, digits, no overflow. */
  function ParseU64(s: string): Option<nat> {
    var d := if s != [] && s[0] == '+' then s[1..] else s;
    if d != [] && (forall c :: c in d ==> IsDigit(c)) && DecimalValue(d) < U64_LIMIT
    then Some(DecimalValue(d)) else None
  }

  function FormatCursor(r: Row): string {
    Decimal(r.ts) + ":" + r.hash
  }

  /** Split at the first colon. A malformed cursor is no cursor. */
  function ParseCursor(s: string): Option<Row> {
    var k := FirstColon(s);
    if k == |s| then None
    else match ParseU64(s[..k])
      case None => None
      case Some(ts) => Some(Row(if ts > I64_MAX then I64_MAX else ts, s[k + 1..]))
  }

  function FirstColon(s: string): (k: nat)
    ensures k <= |s| && (k < |s| ==> s[k] == ':') && forall i :: 0 <= i < k ==> s[i] != ':'
  {
    if s == [] || s[0] == ':' then 0 else FirstColon(s[1..]) + 1
  }

  lemma {:induction false} DecimalRoundTrip(n: nat)
    ensures Decimal(n) != [] && forall c :: c in Decimal(n) ==> IsDigit(c)
    ensures DecimalValue(Decimal(n)) == n
  {
    if n >= 10 {
      DecimalRoundTrip(n / 10);
      assert Decimal(n)[..|Decimal(n)| - 1] == Decimal(n / 10);
    }
  }

  /** A cursor written for a stored row reads back as that row, whatever its hash contains. */
  lemma CursorRoundTrip(r: Row)
    requires r.ts <= I64_MAX
    ensures ParseCursor(FormatCursor(r)) == Some(r)
  {
    var d, s := Decimal(r.ts), FormatCursor(r);
    DecimalRoundTrip(r.ts);
    assert forall i :: 0 <= i < |d| ==> s[i] == d[i] && d[i] in d;
    assert s[|d|] == ':';
    assert FirstColon(s) == |d|;
    assert s[..|d|] == d && s[|d| + 1..] == r.hash;
    assert d[0] in d;
  }

  // ---------------------------------------------------------------------------
  // One page
  // ---------------------------------------------------------------------------

  function Filtered(rows: seq<Row>, keep: Row -> bool): seq<Row> {
    if rows == [] then []
    else (if keep(rows[0]) then [rows[0]] else []) + Filtered(rows[1..], keep)
  }

  predicate AfterCursor(r: Row, cursor: Option<Row>) {
    cursor.None? || Below(r, cursor.value)
  }

  function Rest(list: seq<Row>, cursor: Option<Row>): seq<Row> {
    Filtered(list, (r: Row) => AfterCursor(r, cursor))
  }

  datatype Page = Page(rows: seq<Row>, next: Option<string>)

  /** The first `limit` rows, and a cursor made from the row after them. */
  function PageOf(list: seq<Row>, limit: nat): Page {
    if |list| > limit then Page(list[..limit], Some(FormatCursor(list[limit]))) else Page(list, None)
  }

  /** The query: rows in listing order that pass the filters and lie after the cursor, one more than asked. */
  method QueryPage(rows: seq<Row>, keep: Row -> bool, cursor: Option<string>, limit: nat) returns (page: Page)
    ensures page == PageOf(Rest(Filtered(rows, keep), if cursor.None? then None else ParseCursor(cursor.value)), limit)
  {
    var at := if cursor.None? then None else ParseCursor(cursor.value);
    ghost var full := Rest(Filtered(rows, keep), at);
    var fetched: seq<Row> := [];
    var n := 0;
    ghost var more := full;
    assert rows[0..] == rows;
    while n < |rows| && |fetched| < limit + 1
      invariant n <= |rows| && |fetched| <= limit + 1
      invariant full == fetched + more && more == Rest(Filtered(rows[n..], keep), at)
    {
      RestStep(rows, n, keep, at);
      more := Rest(Filtered(rows[n + 1..], keep), at);
      if keep(rows[n]) && AfterCursor(rows[n], at) {
        assert fetched + ([rows[n]] + more) == (fetched + [rows[n]]) + more;
        fetched := fetched + [rows[n]];
      } else {
        assert [] + more == more;
      }
      n := n + 1;
    }
    PageDone(fetched, more, limit);
    if |fetched| > limit {
      page := Page(fetched[..limit], Some(FormatCursor(fetched[limit])));
    } else {
      page := Page(fetched, None);
    }
  }

  /** One row more than asked, or all there are, is enough to make the page. */
  lemma PageDone(fetched: seq<Row>, more: seq<Row>, limit: nat)
    requires |fetched| <= limit + 1 && (|fetched| == limit + 1 || more == [])
    ensures PageOf(fetched + more, limit) ==
            if |fetched| > limit then Page(fetched[..limit], Some(FormatCursor(fetched[limit]))) else Page(fetched, None)
  {
    var full := fetched + more;
    if |fetched| > limit {
      assert full[..limit] == fetched[..limit] && full[limit] == fetched[limit];
    } else {
      assert full == fetched;
    }
  }

  lemma RestStep(rows: seq<Row>, n: nat, keep: Row -> bool, at: Option<Row>)
    requires n < |rows|
    ensures Rest(Filtered(rows[n..], keep), at) ==
            (if keep(rows[n]) && AfterCursor(rows[n], at) then [rows[n]] else []) + Rest(Filtered(rows[n + 1..], keep), at)
  {
    var r, tail := rows[n], Filtered(rows[n + 1..], keep);
    assert rows[n..][1..] == rows[n + 1..];
    if keep(r) {
      assert ([r] + tail)[1..] == tail;
    } else {
      assert [] + tail == tail;
    }
  }

  // ---------------------------------------------------------------------------
  // The walk
  // ---------------------------------------------------------------------------

  lemma BelowTransitive(a: Row, b: Row, c: Row)
    requires Below(a, b) && Below(b, c)
    ensures Below(a, c)
  {
    if a.ts == b.ts == c.ts { StringOrder.Transitive(a.hash, b.hash, c.hash); }
  }

  lemma BelowIrreflexive(a: Row)
    ensures !Below(a, a)
  {
    StringOrder.Irreflexive(a.hash);
  }

  lemma {:induction false} FilteredAll(list: seq<Row>, keep: Row -> bool)
    requires forall r :: r in list ==> keep(r)
    ensures Filtered(list, keep) == list
  {
    if list != [] {
      assert list[0] in list;
      FilteredAll(list[1..], keep);
      assert list == [list[0]] + list[1..];
    }
  }

  /** Asking for rows strictly below row `k` of the listing gives everything after it. */
  lemma {:induction false} RestBelow(list: seq<Row>, k: nat)
    requires Descending(list) && k < |list|
    ensures Rest(list, Some(list[k])) == list[k + 1..]
    decreases |list|
  {
    if k == 0 {
      HeadNotBelow(list, 0);
      TailBelow(list);
      assert [] + list[1..] == list[1..];
    } else {
      HeadNotBelow(list, k);
      RestBelow(list[1..], k - 1);
      assert list[1..][k - 1 + 1..] == list[k + 1..];
    }
  }

  lemma HeadNotBelow(list: seq<Row>, k: nat)
    requires Descending(list) && k < |list|
    ensures !Below(list[0], list[k])
  {
    BelowIrreflexive(list[0]);
    if k > 0 && Below(list[0], list[k]) {
      BelowTransitive(list[0], list[k], list[0]);
    }
  }

  lemma TailBelow(list: seq<Row>)
    requires Descending(list) && list != []
    ensures Rest(list[1..], Some(list[0])) == list[1..]
  {
    var f := (r: Row) => AfterCursor(r, Some(list[0]));
    forall r | r in list[1..] ensures f(r) {
      var i :| 0 <= i < |list[1..]| && list[1..][i] == r;
      assert list[i + 1] == r;
    }
    FilteredAll(list[1..], f);
  }

  /** Follow the cursors from the rows still ahead to the end. */
  function Walk(ahead: seq<Row>, limit: nat): seq<seq<Row>>
    decreases |ahead|
  {
    if |ahead| > limit then [ahead[..limit]] + Walk(ahead[limit + 1..], limit) else [ahead]
  }

  function Flat(pages: seq<seq<Row>>): seq<Row> {
    if pages == [] then [] else pages[0] + Flat(pages[1..])
  }

  /** Every (limit + 1)-th row is left out: the row each cursor was made from. */
  function Visited(list: seq<Row>, limit: nat): seq<Row>
    decreases |list|
  {
    if |list| > limit then list[..limit] + Visited(list[limit + 1..], limit) else list
  }

  ghost predicate Storable(list: seq<Row>) {
    forall r :: r in list ==> r.ts <= I64_MAX
  }

  /** The walk is what a client sees: each page asks with the cursor of the one before. */
  lemma WalkFollowsCursors(list: seq<Row>, k: nat, limit: nat)
    requires Descending(list) && Storable(list) && k <= |list|
    ensures var page := PageOf(list[k..], limit);
            && Walk(list[k..], limit)[0] == page.rows
            && (page.next.None? ==> Walk(list[k..], limit) == [page.rows])
            && (page.next.Some? ==>
                  && k + limit < |list|
                  && Rest(list, ParseCursor(page.next.value)) == list[k + limit + 1..]
                  && Walk(list[k..], limit) == [page.rows] + Walk(list[k + limit + 1..], limit))
  {
    var ahead := list[k..];
    if |ahead| > limit {
      assert ahead[limit] == list[k + limit];
      CursorResumes(list, k + limit);
      assert ahead[limit + 1..] == list[k + limit + 1..];
      assert Walk(ahead, limit) == [ahead[..limit]] + Walk(ahead[limit + 1..], limit);
    }
  }

  /** Asking with the cursor of a row gives everything after it. */
  lemma CursorResumes(list: seq<Row>, k: nat)
    requires Descending(list) && Storable(list) && k < |list|
    ensures Rest(list, ParseCursor(FormatCursor(list[k]))) == list[k + 1..]
  {
    assert list[k] in list;
    CursorRoundTrip(list[k]);
    RestBelow(list, k);
  }

  lemma {:induction false} WalkVisits(list: seq<Row>, limit: nat)
    ensures Flat(Walk(list, limit)) == Visited(list, limit)
    decreases |list|
  {
    if |list| > limit {
      WalkVisits(list[limit + 1..], limit);
      assert Walk(list, limit)[1..] == Walk(list[limit + 1..], limit);
    } else {
      assert Flat([list]) == list + Flat([]);
    }
  }

  /** Row `r` of block `q`, other than the block's last, is visited, at its place in order. */
  lemma {:induction false} VisitedRow(list: seq<Row>, limit: nat, q: nat, r: nat)
    requires r < limit && q * (limit + 1) + r < |list|
    ensures q * limit + r < |Visited(list, limit)|
    ensures Visited(list, limit)[q * limit + r] == list[q * (limit + 1) + r]
    decreases q
  {
    var w := limit + 1;
    if q > 0 {
      assert q * w == (q - 1) * w + w && q * limit == (q - 1) * limit + limit;
      VisitedRow(list[w..], limit, q - 1, r);
      assert list[w..][(q - 1) * w + r] == list[q * w + r];
    }
  }

  /** The last row of a full block is never visited. */
  lemma {:induction false} MissedRow(list: seq<Row>, limit: nat, q: nat)
    requires Descending(list) && q * (limit + 1) + limit < |list|
    ensures list[q * (limit + 1) + limit] !in Visited(list, limit)
    decreases q
  {
    var w := limit + 1;
    var i, tail := q * w + limit, list[limit + 1..];
    assert i >= limit;
    RowsDiffer(list);
    if q > 0 {
      assert q * w == (q - 1) * w + w;
      MissedRow(tail, limit, q - 1);
      assert tail[(q - 1) * w + limit] == list[i];
    } else {
      VisitedDescending(tail, limit);
      assert list[i] !in tail;
    }
    assert Visited(list, limit) == list[..limit] + Visited(tail, limit);
  }

  lemma RowsDiffer(list: seq<Row>)
    requires Descending(list)
    ensures forall i, j :: 0 <= i < j < |list| ==> list[i] != list[j]
  {
    forall i, j | 0 <= i < j < |list| ensures list[i] != list[j] {
      BelowIrreflexive(list[i]);
    }
  }

  lemma DivModSmall(i: nat, w: nat)
    requires i < w
    ensures i / w == 0 && i % w == i
  {
  }

  lemma DivModShift(i: nat, w: nat)
    requires w > 0 && i >= w
    ensures i / w == (i - w) / w + 1 && i % w == (i - w) % w
  {
    var q, r := (i - w) / w, (i - w) % w;
    assert i == (q + 1) * w + r;
    DivModUnique(i, w, q + 1, r);
  }

  lemma DivModUnique(i: nat, w: nat, q: nat, r: nat)
    requires w > 0 && i == q * w + r && r < w
    ensures i / w == q && i % w == r
  {
    assert (i / w - q) * w == r - i % w;
    Scaled(i / w - q, w);
  }

  lemma Scaled(d: int, w: nat)
    ensures d >= 1 ==> d * w >= w
    ensures d <= -1 ==> d * w + w <= 0
  {
    assert d >= 1 ==> (d - 1) * w >= 0;
    assert d <= -1 ==> (-d - 1) * w >= 0;
  }

  /** How many rows are visited, so how many are missed: one per page break. */
  lemma {:induction false} VisitedCount(list: seq<Row>, limit: nat)
    ensures |Visited(list, limit)| == |list| - |list| / (limit + 1)
    ensures |Visited(list, limit)| == |list| - (|Walk(list, limit)| - 1)
    decreases |list|
  {
    var w := limit + 1;
    if |list| >= w {
      VisitedCount(list[w..], limit);
      DivModShift(|list|, w);
    } else {
      DivModSmall(|list|, w);
    }
  }

  /** The pages together are the whole listing exactly when it fits on one page. */
  lemma CompleteExactly(list: seq<Row>, limit: nat)
    ensures Flat(Walk(list, limit)) == list <==> |list| <= limit
  {
    WalkVisits(list, limit);
    VisitedCount(list, limit);
    if |list| > limit {
      VisitedShrinks(list, limit);
    }
  }

  lemma VisitedShrinks(list: seq<Row>, limit: nat)
    requires |list| > limit
    ensures |Visited(list, limit)| < |list|
  {
  }

  /** What is visited keeps the listing order, without repeats. */
  lemma {:induction false} VisitedDescending(list: seq<Row>, limit: nat)
    requires Descending(list)
    ensures Descending(Visited(list, limit)) && NewestFirst(Visited(list, limit))
    ensures forall r :: r in Visited(list, limit) ==> r in list
    decreases |list|
  {
    if |list| > limit {
      var tail := list[limit + 1..];
      VisitedDescending(tail, limit);
      var v := Visited(tail, limit);
      forall i, j | 0 <= i < limit && 0 <= j < |v| ensures Below(v[j], list[i]) {
        assert v[j] in tail;
        var k :| 0 <= k < |tail| && tail[k] == v[j];
        assert list[limit + 1 + k] == v[j];
      }
    }
  }

  /** With the cursor taken from the last row returned instead, nothing is missed. */
  function WalkFromLast(ahead: seq<Row>, limit: nat): seq<seq<Row>>
    requires limit > 0
    decreases |ahead|
  {
    if |ahead| > limit then [ahead[..limit]] + WalkFromLast(ahead[limit..], limit) else [ahead]
  }

  lemma {:induction false} LastRowCursorIsComplete(list: seq<Row>, limit: nat)
    requires limit > 0 && Descending(list)
    ensures Flat(WalkFromLast(list, limit)) == list
    ensures |list| > limit ==> Rest(list, Some(list[limit - 1])) == list[limit..]
    decreases |list|
  {
    if |list| > limit {
      RestBelow(list, limit - 1);
      var front, tail := list[..limit], list[limit..];
      LastRowCursorIsComplete(tail, limit);
      var pages := WalkFromLast(tail, limit);
      assert WalkFromLast(list, limit) == [front] + pages && ([front] + pages)[1..] == pages;
      assert Flat([front] + pages) == front + Flat(pages);
      assert front + tail == list;
    } else {
      assert Flat([list]) == list + Flat([]);
    }
  }
}
