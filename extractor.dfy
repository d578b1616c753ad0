/** The result-table extractor: turns the rows of the rendered result table
    into announcement records (scripts/scrape.ts, the callback passed to
    `targetFrame.evaluate` at the extraction step). */
module Extractor {
  import opened Wrappers
  import opened Text

  /** A bid announcement as the scraper builds it for one result row. */
  datatype Announcement = Announcement(
    id: string,
    title: string,
    link: string,
    date: string,
    agency: string,
    status: string)

  /** A link element: its raw text content and its resolved `href`. */
  datatype Link = Link(text: string, href: string)

  /** One `table tbody tr` of the result page: the raw text content of its
      `td` cells in order, and what the three title-link queries of the row
      return (`div.tl a`, then `td.tl a`, then any `a`). */
  datatype Row = Row(
    cells: seq<string>,
    divTitleLink: Option<Link>,
    cellTitleLink: Option<Link>,
    anyLink: Option<Link>)

  /** Rows with fewer cells than this are header, footer or decoration rows. */
  const MinColumns: nat := 5
  const OpenStatus := "Open"
  const UnknownAgency := "Unknown"
  /** Full name of the target agency (National Geographic Information Institute). */
  const TargetAgencyName := "국토지리정보원"
  /** The generic "demanding agency" column marker. */
  const DemandAgencyMarker := "수요기관"
  const BidnoKey := "bidno="

  /** The title element: the first of the three queries that found a link. */
  function TitleLink(r: Row): (l: Option<Link>)
    ensures l.None? <==> r.divTitleLink.None? && r.cellTitleLink.None? && r.anyLink.None?
    ensures r.divTitleLink.Some? ==> l == r.divTitleLink
    ensures r.divTitleLink.None? && r.cellTitleLink.Some? ==> l == r.cellTitleLink
    ensures r.divTitleLink.None? && r.cellTitleLink.None? ==> l == r.anyLink
  {
    if r.divTitleLink.Some? then r.divTitleLink
    else if r.cellTitleLink.Some? then r.cellTitleLink
    else r.anyLink
  }

  /** The trimmed text of every cell, in cell order. */
  function CellTexts(r: Row): (texts: seq<string>)
    ensures |texts| == |r.cells|
    ensures forall i :: 0 <= i < |texts| ==> texts[i] == Trim(r.cells[i])
  {
    seq(|r.cells|, i requires 0 <= i < |r.cells| => Trim(r.cells[i]))
  }

  /** `/^\d{4}\/\d{2}\/\d{2}/.test(t)`: `t` begins with a `YYYY/MM/DD` shape. */
  predicate HasDatePrefix(t: string) {
    |t| >= 10 &&
    IsDigit(t[0]) && IsDigit(t[1]) && IsDigit(t[2]) && IsDigit(t[3]) && t[4] == '/' &&
    IsDigit(t[5]) && IsDigit(t[6]) && t[7] == '/' &&
    IsDigit(t[8]) && IsDigit(t[9])
  }

  predicate IsAgencyText(t: string) {
    Contains(t, TargetAgencyName) || Contains(t, DemandAgencyMarker)
  }

  /** The date column: the first cell text that begins with a date, or "" if none does. */
  function DateOf(texts: seq<string>): (d: string)
    ensures d == "" <==> forall i :: 0 <= i < |texts| ==> !HasDatePrefix(texts[i])
    ensures d != "" ==> (HasDatePrefix(d) &&
      exists k :: 0 <= k < |texts| && texts[k] == d &&
                  forall j :: 0 <= j < k ==> !HasDatePrefix(texts[j]))
  {
    match Find(texts, HasDatePrefix)
    case Some(t) => t
    case None => ""
  }

  /** The agency column: the first cell text naming the target agency or the
      demanding-agency marker, or "Unknown" if none does. */
  function AgencyOf(texts: seq<string>): (a: string)
    ensures (forall i :: 0 <= i < |texts| ==> !IsAgencyText(texts[i])) ==> a == UnknownAgency
    ensures (exists i :: 0 <= i < |texts| && IsAgencyText(texts[i])) ==>
      IsAgencyText(a) &&
      exists k :: 0 <= k < |texts| && texts[k] == a &&
                  forall j :: 0 <= j < k ==> !IsAgencyText(texts[j])
  {
    match Find(texts, IsAgencyText)
    case Some(t) => t
    case None => UnknownAgency
  }

  /** The maximal run of ASCII digits in `s` starting at position `i`. */
  function DigitRun(s: string, i: nat): (run: string)
    requires i <= |s|
    ensures AllDigits(run) && OccursAt(s, run, i)
    ensures i + |run| == |s| || !IsDigit(s[i + |run|])
    decreases |s| - i
  {
    if i < |s| && IsDigit(s[i]) then [s[i]] + DigitRun(s, i + 1) else []
  }

  /** A run of digits that ends where the digits end is the maximal run. */
  lemma {:induction false} DigitRunUnique(s: string, i: nat, d: string)
    requires i <= |s| && AllDigits(d) && OccursAt(s, d, i)
    requires i + |d| == |s| || !IsDigit(s[i + |d|])
    ensures DigitRun(s, i) == d
    decreases |d|
  {
    if d != [] {
      assert s[i] == d[0];
      assert OccursAt(s, d[1..], i + 1) by {
        assert s[i + 1..i + 1 + |d[1..]|] == s[i..i + |d|][1..];
      }
      DigitRunUnique(s, i + 1, d[1..]);
    }
  }

  /** The regular expression `bidno=(\d+)&` matches `s` at position `p` with capture `d`. */
  predicate BidnoMatchAt(s: string, p: int, d: string) {
    |d| > 0 && AllDigits(d) && OccursAt(s, BidnoKey + d + "&", p)
  }

  /** The match attempt of `bidno=(\d+)&` anchored at position `p`. */
  function BidnoAt(s: string, p: nat): Option<string>
    requires p <= |s|
  {
    if OccursAt(s, BidnoKey, p) then
      var run := DigitRun(s, p + |BidnoKey|);
      if |run| > 0 && p + |BidnoKey| + |run| < |s| && s[p + |BidnoKey| + |run|] == '&'
      then Some(run) else None
    else None
  }

  /** Where the pattern matches at `p`, the anchored attempt finds that capture. */
  lemma BidnoAtComplete(s: string, p: nat, d: string)
    requires p <= |s| && BidnoMatchAt(s, p, d)
    ensures BidnoAt(s, p) == Some(d)
  {
    var k := |BidnoKey|;
    OccursAtConcat(s, BidnoKey + d, "&", p);
    OccursAtConcat(s, BidnoKey, d, p);
    assert s[p + k + |d|] == "&"[0] by {
      assert s[p + k + |d|..p + k + |d| + 1] == "&";
    }
    DigitRunUnique(s, p + k, d);
  }

  /** What the anchored attempt captures is a match of the pattern at `p`. */
  lemma BidnoAtSound(s: string, p: nat, d: string)
    requires p <= |s| && BidnoAt(s, p) == Some(d)
    ensures BidnoMatchAt(s, p, d)
  {
    var k := |BidnoKey|;
    assert OccursAt(s, "&", p + k + |d|) by {
      assert s[p + k + |d|..p + k + |d| + 1] == [s[p + k + |d|]];
    }
    OccursAtConcat(s, BidnoKey, d, p);
    OccursAtConcat(s, BidnoKey + d, "&", p);
  }

  /** The anchored attempt succeeds exactly with the captures the pattern allows there. */
  lemma BidnoAtSpec(s: string, p: nat)
    requires p <= |s|
    ensures forall d :: BidnoAt(s, p) == Some(d) <==> BidnoMatchAt(s, p, d)
  {
    forall d
      ensures BidnoAt(s, p) == Some(d) <==> BidnoMatchAt(s, p, d)
    {
      if BidnoMatchAt(s, p, d) {
        BidnoAtComplete(s, p, d);
      }
      if BidnoAt(s, p) == Some(d) {
        BidnoAtSound(s, p, d);
      }
    }
  }

  /** JavaScript's search for `bidno=(\d+)&` from position `p` on: the capture
      of the leftmost position where the pattern matches. */
  function SearchBidno(s: string, p: nat): (r: Option<string>)
    requires p <= |s|
    ensures r.Some? ==> exists q :: p <= q <= |s| && BidnoMatchAt(s, q, r.value) &&
                          forall q', e :: p <= q' < q ==> !BidnoMatchAt(s, q', e)
    ensures r.None? ==> forall q, e :: p <= q ==> !BidnoMatchAt(s, q, e)
    decreases |s| - p
  {
    BidnoAtSpec(s, p);
    match BidnoAt(s, p)
    case Some(d) => Some(d)
    case None =>
      if p == |s| then
        assert forall q, e :: p < q ==> !OccursAt(s, BidnoKey + e + "&", q);
        None
      else SearchBidno(s, p + 1)
  }

  /** The identifier of a row: the `bidno=` digits of the link when the link
      carries `bidno=` ("" when that parameter is not followed by digits and
      `&`), and `title + "_" + date` otherwise. */
  function DeriveId(title: string, link: string, date: string): (id: string)
    ensures !Contains(link, BidnoKey) ==> id == title + "_" + date
    ensures Contains(link, BidnoKey) && (forall p, d :: !BidnoMatchAt(link, p, d)) ==> id == ""
    ensures Contains(link, BidnoKey) && id != "" ==>
      exists p :: BidnoMatchAt(link, p, id) && forall q, e :: 0 <= q < p ==> !BidnoMatchAt(link, q, e)
    ensures Contains(link, BidnoKey) && (exists p, d :: BidnoMatchAt(link, p, d)) ==>
      AllDigits(id) && id != ""
  {
    if Contains(link, BidnoKey) then
      match SearchBidno(link, 0)
      case Some(d) => d
      case None => ""
    else title + "_" + date
  }

  /** The announcement a row contributes, if any. */
  function ExtractRow(r: Row): Option<Announcement> {
    if |r.cells| < MinColumns then None
    else match TitleLink(r)
      case None => None
      case Some(l) =>
        var title := Trim(l.text);
        var texts := CellTexts(r);
        var date := DateOf(texts);
        var id := DeriveId(title, l.href, date);
        if title != "" then Some(Announcement(id, title, l.href, date, AgencyOf(texts), OpenStatus))
        else None
  }

  /** A row with too few cells or without a title link contributes nothing; a
      row whose title is blank after trimming is dropped; every announcement
      has a non-empty trimmed title, the title link's target, status "Open",
      and the date, agency and identifier derived from the row's cells. */
  lemma ExtractRowSpec(r: Row)
    ensures |r.cells| < MinColumns ==> ExtractRow(r).None?
    ensures TitleLink(r).None? ==> ExtractRow(r).None?
    ensures |r.cells| >= MinColumns && TitleLink(r).Some? ==>
      (ExtractRow(r).None? <==> AllSpace(TitleLink(r).value.text))
    ensures ExtractRow(r).Some? ==>
      var a := ExtractRow(r).value;
      var l := TitleLink(r).value;
      var texts := CellTexts(r);
      && a.title == Trim(l.text) && a.title != ""
      && a.link == l.href
      && a.status == OpenStatus
      && a.date == DateOf(texts)
      && a.agency == AgencyOf(texts)
      && a.id == DeriveId(a.title, l.href, a.date)
  {
  }

  /** What each row contributes, row by row. */
  function RowResults(rows: seq<Row>): (rs: seq<Option<Announcement>>)
    ensures |rs| == |rows|
    ensures forall i :: 0 <= i < |rows| ==> rs[i] == ExtractRow(rows[i])
  {
    MapSeq(ExtractRow, rows)
  }

  /** The announcements of the whole table, in row order. */
  function ExtractAll(rows: seq<Row>): (out: seq<Announcement>)
    ensures |out| <= |rows|
  {
    Somes(RowResults(rows))
  }

  /** The `rows.forEach` loop that pushes each row's announcement onto `results`. */
  method ExtractResults(rows: seq<Row>) returns (results: seq<Announcement>)
    ensures results == ExtractAll(rows)
  {
    ghost var rs := RowResults(rows);
    results := [];
    var i := 0;
    while i < |rows|
      invariant 0 <= i <= |rows|
      invariant results == Somes(rs[..i])
    {
      assert rs[..i + 1][..i] == rs[..i];
      var a := ExtractRow(rows[i]);
      if a.Some? {
        results := results + [a.value];
      }
      i := i + 1;
    }
    assert rs[..|rows|] == rs;
  }

  lemma RowResultsAppend(xs: seq<Row>, ys: seq<Row>)
    ensures RowResults(xs + ys) == RowResults(xs) + RowResults(ys)
  {
    MapSeqAppend(ExtractRow, xs, ys);
  }

  /** Extraction works row by row: the table split in two extracts to the two halves' results. */
  lemma ExtractAllAppend(xs: seq<Row>, ys: seq<Row>)
    ensures ExtractAll(xs + ys) == ExtractAll(xs) + ExtractAll(ys)
  {
    RowResultsAppend(xs, ys);
    SomesAppend(RowResults(xs), RowResults(ys));
  }

  /** A row that contributes nothing (too few cells, no title link, blank
      title) can be removed from the table without changing the output. */
  lemma DroppedRowIsInvisible(xs: seq<Row>, r: Row, ys: seq<Row>)
    requires ExtractRow(r).None?
    ensures ExtractAll(xs + [r] + ys) == ExtractAll(xs + ys)
  {
    RowResultsAppend(xs + [r], ys);
    RowResultsAppend(xs, [r]);
    RowResultsAppend(xs, ys);
    assert RowResults([r]) == [None];
    SomesSkipsNone(RowResults(xs), RowResults(ys));
  }

  /** Every emitted announcement comes from one row, and every row's
      announcement is emitted. */
  lemma ExtractAllMembers(rows: seq<Row>, a: Announcement)
    ensures a in ExtractAll(rows) <==> exists i :: 0 <= i < |rows| && ExtractRow(rows[i]) == Some(a)
  {
    SomesMembers(RowResults(rows), a);
  }

  /** Output order follows row order: the announcements of rows i < j appear
      in that order. */
  lemma ExtractAllOrder(rows: seq<Row>, i: nat, j: nat)
    requires i < j < |rows|
    requires ExtractRow(rows[i]).Some? && ExtractRow(rows[j]).Some?
    ensures exists m, n :: (0 <= m < n < |ExtractAll(rows)| &&
      ExtractAll(rows)[m] == ExtractRow(rows[i]).value &&
      ExtractAll(rows)[n] == ExtractRow(rows[j]).value)
  {
    var rs := RowResults(rows);
    assert rs[i] == ExtractRow(rows[i]) && rs[j] == ExtractRow(rows[j]);
    assert ExtractAll(rows) == Somes(rs);
    SomesOrder(rs, i, j);
  }
}
