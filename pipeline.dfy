/** One scheduled run end to end: the scrape yields the extracted rows of the
    results table, or nothing when navigation is abandoned (the scraper
    catches its own errors and returns an empty list); the change detector
    then works on whatever came back. */
module Pipeline {
  import opened Extractor
  import opened Navigation
  import opened ChangeDetector

  /** What `scrapeG2B` returns: no items when arrival verification ends the
      run, the extracted rows of the results table otherwise. */
  function ScrapeItems(arrival: Arrival, rows: seq<Row>): (items: seq<Announcement>)
    ensures IsFatal(arrival) ==> items == []
    ensures !IsFatal(arrival) ==> items == ExtractAll(rows)
    ensures |items| <= |rows|
  {
    if IsFatal(arrival) then [] else ExtractAll(rows)
  }

  /** A run whose navigation fails leaves the store exactly as it was and
      reports nothing new, whatever the table or the store would have held. */
  lemma FailedNavigationLeavesStoreAlone(arrival: Arrival, rows: seq<Row>, stored: map<string, Record>)
    requires IsFatal(arrival)
    ensures RunRows(stored, ScrapeItems(arrival, rows), []) == stored
  {
  }

  /** A run over a table whose rows are all already stored leaves the store
      exactly as it was and reports nothing new. */
  lemma {:induction false} RerunOfStoredTableChangesNothing(arrival: Arrival, rows: seq<Row>,
                                                            stored: map<string, Record>,
                                                            faults: seq<StoreFaults>)
    requires |faults| == |ScrapeItems(arrival, rows)|
    requires forall a :: a in ScrapeItems(arrival, rows) ==> a.id in stored
    ensures RunRows(stored, ScrapeItems(arrival, rows), faults) == stored
    ensures Dedup(stored, ScrapeItems(arrival, rows), faults).newItems == []
  {
    var items := ScrapeItems(arrival, rows);
    forall j | 0 <= j < |items|
      ensures items[j].id in stored
    {
      assert items[j] in items;
    }
    RerunAddsNothing(stored, items, faults);
  }
}
