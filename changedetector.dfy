/** The change detector and persister (`run`): each scraped announcement is
    looked up in the `announcements` store by id; unseen ones are inserted
    with `is_sent = false` and collected as new; when there are new ones the
    notifier is called and all their ids are marked sent in one bulk update. */
module ChangeDetector {
  import opened Wrappers
  import opened Extractor
  import opened Notifier

  /** A row of the `announcements` store, keyed by the announcement id. */
  datatype Record = Record(
    title: string,
    link: string,
    date: string,
    agency: string,
    status: string,
    isSent: bool)

  /** The row inserted for a new announcement. */
  function NewRecord(a: Announcement): (r: Record)
    ensures !r.isSent
  {
    Record(a.title, a.link, a.date, a.agency, a.status, false)
  }

  /** The store's "no rows" error code for a `.single()` query. */
  const NotFoundCode := "PGRST116"

  /** What the lookup `select('id').eq('id', id).single()` answers. */
  datatype LookupReply = Found | QueryError(code: string)

  /** How the store misbehaves for one item: an error (with its code) the
      lookup reports instead of its answer, and whether the insert fails for
      a reason other than a duplicate id. */
  datatype StoreFaults = StoreFaults(lookupError: Option<string>, insertFails: bool)

  /** What the lookup of `id` answers against the rows `rows`. */
  function LookupIn(rows: map<string, Record>, id: string, fault: Option<string>): (reply: LookupReply)
    ensures fault.None? ==> (reply == Found <==> id in rows)
    ensures fault.None? && id !in rows ==> reply == QueryError(NotFoundCode)
    ensures fault.Some? ==> reply == QueryError(fault.value)
  {
    match fault
    case Some(code) => QueryError(code)
    case None => if id in rows then Found else QueryError(NotFoundCode)
  }

  /** `update({ is_sent: true }).in('id', ids)`: the rows whose id is listed
      are marked sent; the others are left alone. */
  function MarkSentIn(rows: map<string, Record>, ids: seq<string>): (r: map<string, Record>)
    ensures r.Keys == rows.Keys
    ensures forall k :: k in rows && k in ids ==> r[k] == rows[k].(isSent := true)
    ensures forall k :: k in rows && k !in ids ==> r[k] == rows[k]
  {
    map k | k in rows :: if k in ids then rows[k].(isSent := true) else rows[k]
  }

  /** The persistent store: a map from id to record, updated in place. */
  class Store {
    var rows: map<string, Record>

    constructor (initial: map<string, Record>)
      ensures rows == initial
    {
      rows := initial;
    }

    /** Looks up `id`; `fault` is the error the store reports instead, if any. */
    method Lookup(id: string, fault: Option<string>) returns (reply: LookupReply)
      ensures reply == LookupIn(rows, id, fault)
    {
      reply := LookupIn(rows, id, fault);
    }

    /** Inserts the announcement with `is_sent = false`; the store refuses a
        duplicate id, and `fails` stands for any other insert error. */
    method Insert(a: Announcement, fails: bool) returns (ok: bool)
      modifies this
      ensures ok <==> !fails && a.id !in old(rows)
      ensures rows == if ok then old(rows)[a.id := NewRecord(a)] else old(rows)
    {
      ok := !fails && a.id !in rows;
      if ok {
        rows := rows[a.id := NewRecord(a)];
      }
    }

    /** The bulk update that marks `ids` sent. */
    method MarkSent(ids: seq<string>)
      modifies this
      ensures rows == MarkSentIn(old(rows), ids)
    {
      rows := MarkSentIn(rows, ids);
    }
  }

  /** The state of the dedup loop: the store's rows and `newItems` so far. */
  datatype Progress = Progress(rows: map<string, Record>, newItems: seq<Announcement>)

  /** One iteration of the dedup loop for item `a`. */
  function Step(p: Progress, a: Announcement, f: StoreFaults): Progress {
    match LookupIn(p.rows, a.id, f.lookupError)
    case Found => p
    case QueryError(code) =>
      if code != NotFoundCode then p
      else if !f.insertFails && a.id !in p.rows then
        Progress(p.rows[a.id := NewRecord(a)], p.newItems + [a])
      else p
  }

  /** The dedup loop over `items`, starting from the rows `rows`. */
  function Dedup(rows: map<string, Record>, items: seq<Announcement>, faults: seq<StoreFaults>): Progress
    requires |faults| == |items|
  {
    if items == [] then Progress(rows, [])
    else Step(Dedup(rows, items[..|items| - 1], faults[..|faults| - 1]), items[|items| - 1], faults[|faults| - 1])
  }

  function Ids(items: seq<Announcement>): (ids: seq<string>)
    ensures |ids| == |items| && forall j :: 0 <= j < |items| ==> ids[j] == items[j].id
  {
    MapSeq((a: Announcement) => a.id, items)
  }

  /** The store after a whole run: untouched when nothing was scraped;
      otherwise the dedup loop's rows, with the new ids marked sent when there
      are new items. */
  function RunRows(rows: map<string, Record>, items: seq<Announcement>, faults: seq<StoreFaults>): map<string, Record>
    requires |faults| == |items|
  {
    if items == [] then rows
    else
      var p := Dedup(rows, items, faults);
      if p.newItems == [] then p.rows else MarkSentIn(p.rows, Ids(p.newItems))
  }

  /** `run`: exits at once when nothing was scraped; otherwise looks each item
      up, skips it on a lookup error other than "no rows" or when it exists,
      inserts it otherwise and collects it when the insert succeeds; then, if
      anything is new, notifies and marks the new ids sent, whether or not the
      notification went out. */
  method Run(store: Store, items: seq<Announcement>, faults: seq<StoreFaults>, webhookConfigured: bool)
    returns (newItems: seq<Announcement>, posted: seq<Payload>)
    requires |faults| == |items|
    modifies store
    ensures newItems == if items == [] then [] else Dedup(old(store.rows), items, faults).newItems
    ensures store.rows == RunRows(old(store.rows), items, faults)
    ensures posted == if newItems != [] && webhookConfigured then Payloads(newItems) else []
  {
    newItems := [];
    posted := [];
    if |items| == 0 {
      return;
    }
    ghost var initial := store.rows;
    for i := 0 to |items|
      invariant Progress(store.rows, newItems) == Dedup(initial, items[..i], faults[..i])
    {
      assert items[..i + 1][..i] == items[..i] && faults[..i + 1][..i] == faults[..i];
      var item := items[i];
      var reply := store.Lookup(item.id, faults[i].lookupError);
      if reply.QueryError? && reply.code != NotFoundCode {
        continue;
      }
      if reply.QueryError? {
        var ok := store.Insert(item, faults[i].insertFails);
        if ok {
          newItems := newItems + [item];
        }
      }
    }
    assert items[..|items|] == items && faults[..|faults|] == faults;
    if |newItems| > 0 {
      posted := SendNotification(webhookConfigured, newItems);
      var ids := Ids(newItems);
      store.MarkSent(ids);
    }
  }

  /** The set of ids of `items`. */
  function IdSet(items: seq<Announcement>): set<string> {
    set j | 0 <= j < |items| :: items[j].id
  }

  lemma IdSetAppend(items: seq<Announcement>, a: Announcement)
    ensures IdSet(items + [a]) == IdSet(items) + {a.id}
  {
    var xs := items + [a];
    forall k | k in IdSet(items) ensures k in IdSet(xs) {
      var j :| 0 <= j < |items| && items[j].id == k;
      assert xs[j].id == k;
    }
    assert xs[|items|].id == a.id;
  }

  /** `newItems` is a subsequence of the scraped items. */
  lemma {:induction false} DedupSubsequence(rows: map<string, Record>, items: seq<Announcement>, faults: seq<StoreFaults>)
    requires |faults| == |items|
    ensures IsSubsequence(Dedup(rows, items, faults).newItems, items)
    decreases |items|
  {
    if items != [] {
      var n := |items|;
      var p0 := Dedup(rows, items[..n - 1], faults[..n - 1]);
      DedupSubsequence(rows, items[..n - 1], faults[..n - 1]);
      var p := Dedup(rows, items, faults);
      if p.newItems == p0.newItems {
        assert items[..n - 1] == items[..|items| - 1];
      } else {
        assert p.newItems == p0.newItems + [items[n - 1]];
        assert p.newItems[..|p.newItems| - 1] == p0.newItems;
      }
    }
  }

  /** How the dedup loop's state relates to the rows it started from: the rows
      that were there are left alone; each new item was inserted once, with
      `is_sent = false`, under an id the store did not hold; no id is
      inserted twice; nothing else is added. */
  ghost predicate InsertedOnlyNewItems(rows: map<string, Record>, p: Progress) {
    && p.rows.Keys == rows.Keys + IdSet(p.newItems)
    && (forall k :: k in rows ==> p.rows[k] == rows[k])
    && (forall j :: 0 <= j < |p.newItems| ==>
          p.newItems[j].id !in rows && p.rows[p.newItems[j].id] == NewRecord(p.newItems[j]))
    && (forall j, l :: 0 <= j < l < |p.newItems| ==> p.newItems[j].id != p.newItems[l].id)
  }

  /** One iteration of the dedup loop keeps that relation. */
  lemma StepInsertsOnlyNewItems(rows: map<string, Record>, p0: Progress, a: Announcement, f: StoreFaults)
    requires InsertedOnlyNewItems(rows, p0)
    ensures InsertedOnlyNewItems(rows, Step(p0, a, f))
  {
    var p := Step(p0, a, f);
    if p != p0 {
      assert a.id !in p0.rows;
      assert p.rows == p0.rows[a.id := NewRecord(a)];
      assert p.newItems == p0.newItems + [a];
      IdSetAppend(p0.newItems, a);
      forall j | 0 <= j < |p0.newItems|
        ensures p0.newItems[j].id != a.id
      {
        assert p0.newItems[j].id in IdSet(p0.newItems);
      }
    }
  }

  /** What the dedup loop does to the store, over a whole batch. */
  lemma {:induction false} DedupStore(rows: map<string, Record>, items: seq<Announcement>, faults: seq<StoreFaults>)
    requires |faults| == |items|
    ensures InsertedOnlyNewItems(rows, Dedup(rows, items, faults))
    decreases |items|
  {
    if items == [] {
      assert IdSet([]) == {};
    } else {
      var n := |items|;
      DedupStore(rows, items[..n - 1], faults[..n - 1]);
      StepInsertsOnlyNewItems(rows, Dedup(rows, items[..n - 1], faults[..n - 1]), items[n - 1], faults[n - 1]);
    }
  }

  /** Batches the loop treats alike stay alike when the same item is appended. */
  lemma DedupExtend(rows: map<string, Record>, xs: seq<Announcement>, fs: seq<StoreFaults>,
                    ys: seq<Announcement>, gs: seq<StoreFaults>, a: Announcement, f: StoreFaults)
    requires |fs| == |xs| && |gs| == |ys|
    requires Dedup(rows, xs, fs) == Dedup(rows, ys, gs)
    ensures Dedup(rows, xs + [a], fs + [f]) == Dedup(rows, ys + [a], gs + [f])
  {
    assert (xs + [a])[..|xs|] == xs && (fs + [f])[..|fs|] == fs;
    assert (ys + [a])[..|ys|] == ys && (gs + [f])[..|gs|] == gs;
  }

  /** An item whose loop iteration leaves the state as it found it can be
      taken out of the batch without changing what the loop produces. */
  lemma {:induction false} DedupWithoutIdleItem(rows: map<string, Record>,
                                                 xs: seq<Announcement>, fs: seq<StoreFaults>,
                                                 a: Announcement, f: StoreFaults,
                                                 ys: seq<Announcement>, gs: seq<StoreFaults>)
    requires |fs| == |xs| && |gs| == |ys|
    requires Step(Dedup(rows, xs, fs), a, f) == Dedup(rows, xs, fs)
    ensures Dedup(rows, xs + [a] + ys, fs + [f] + gs) == Dedup(rows, xs + ys, fs + gs)
    decreases |ys|
  {
    if ys == [] {
      assert xs + [a] + ys == xs + [a] && fs + [f] + gs == fs + [f];
      assert (xs + [a])[..|xs|] == xs && (fs + [f])[..|fs|] == fs;
      assert xs + ys == xs && fs + gs == fs;
    } else {
      var m := |ys| - 1;
      var ys', gs' := ys[..m], gs[..m];
      DedupWithoutIdleItem(rows, xs, fs, a, f, ys', gs');
      assert xs + [a] + ys == (xs + [a] + ys') + [ys[m]] && fs + [f] + gs == (fs + [f] + gs') + [gs[m]];
      assert xs + ys == (xs + ys') + [ys[m]] && fs + gs == (fs + gs') + [gs[m]];
      DedupExtend(rows, xs + [a] + ys', fs + [f] + gs', xs + ys', fs + gs', ys[m], gs[m]);
    }
  }

  /** An item whose lookup fails with an error other than "no rows" has no
      effect at all: it is neither inserted nor reported, and the rest of the
      batch is processed as if it were absent. */
  lemma LookupErrorItemIgnored(rows: map<string, Record>,
                               xs: seq<Announcement>, fs: seq<StoreFaults>,
                               a: Announcement, f: StoreFaults,
                               ys: seq<Announcement>, gs: seq<StoreFaults>)
    requires |fs| == |xs| && |gs| == |ys|
    requires f.lookupError.Some? && f.lookupError.value != NotFoundCode
    ensures Dedup(rows, xs + [a] + ys, fs + [f] + gs) == Dedup(rows, xs + ys, fs + gs)
  {
    DedupWithoutIdleItem(rows, xs, fs, a, f, ys, gs);
  }

  /** An item whose insert fails has no effect at all: the store keeps no
      record of it, it is not reported as new, and the rest of the batch is
      processed as if it were absent. */
  lemma InsertFailureItemIgnored(rows: map<string, Record>,
                                 xs: seq<Announcement>, fs: seq<StoreFaults>,
                                 a: Announcement, f: StoreFaults,
                                 ys: seq<Announcement>, gs: seq<StoreFaults>)
    requires |fs| == |xs| && |gs| == |ys|
    requires f.insertFails
    ensures Dedup(rows, xs + [a] + ys, fs + [f] + gs) == Dedup(rows, xs + ys, fs + gs)
  {
    DedupWithoutIdleItem(rows, xs, fs, a, f, ys, gs);
  }

  /** An item whose id the store already held has no effect at all, whatever
      the store answers for it: a re-run never re-inserts or re-reports it. */
  lemma StoredItemIgnored(rows: map<string, Record>,
                          xs: seq<Announcement>, fs: seq<StoreFaults>,
                          a: Announcement, f: StoreFaults,
                          ys: seq<Announcement>, gs: seq<StoreFaults>)
    requires |fs| == |xs| && |gs| == |ys|
    requires a.id in rows
    ensures Dedup(rows, xs + [a] + ys, fs + [f] + gs) == Dedup(rows, xs + ys, fs + gs)
  {
    DedupStore(rows, xs, fs);
    DedupWithoutIdleItem(rows, xs, fs, a, f, ys, gs);
  }

  /** An item whose id is not in the store, whose lookup answers "no rows"
      (or reports nothing) and whose insert goes through is inserted with
      `is_sent = false` and reported as new. */
  lemma DedupInsertsUnseenItem(rows: map<string, Record>, xs: seq<Announcement>, fs: seq<StoreFaults>,
                               a: Announcement, f: StoreFaults)
    requires |fs| == |xs|
    requires a.id !in Dedup(rows, xs, fs).rows
    requires f.lookupError.None? || f.lookupError == Some(NotFoundCode)
    requires !f.insertFails
    ensures var p := Dedup(rows, xs, fs);
      Dedup(rows, xs + [a], fs + [f]) == Progress(p.rows[a.id := NewRecord(a)], p.newItems + [a])
  {
    assert (xs + [a])[..|xs|] == xs && (fs + [f])[..|fs|] == fs;
  }

  /** An id neither stored nor among the reported items is still absent after the loop. */
  lemma UnseenAfterReportedPrefix(rows: map<string, Record>, xs: seq<Announcement>, fs: seq<StoreFaults>,
                                  a: Announcement)
    requires |fs| == |xs| && Dedup(rows, xs, fs).newItems == xs
    requires a.id !in rows && forall j :: 0 <= j < |xs| ==> xs[j].id != a.id
    ensures a.id !in Dedup(rows, xs, fs).rows
  {
    DedupStore(rows, xs, fs);
    assert a.id !in IdSet(xs);
  }

  /** When the store answers every lookup and insert normally, a batch of
      distinct ids none of which is stored is reported in full, in order. */
  lemma {:induction false} DedupReportsAllUnseen(rows: map<string, Record>, items: seq<Announcement>,
                                                 faults: seq<StoreFaults>)
    requires |faults| == |items|
    requires forall j :: 0 <= j < |faults| ==> faults[j] == StoreFaults(None, false)
    requires forall j :: 0 <= j < |items| ==> items[j].id !in rows
    requires forall j, l :: 0 <= j < l < |items| ==> items[j].id != items[l].id
    ensures Dedup(rows, items, faults).newItems == items
    decreases |items|
  {
    if items != [] {
      var n := |items|;
      var xs, fs := items[..n - 1], faults[..n - 1];
      DedupReportsAllUnseen(rows, xs, fs);
      var a := items[n - 1];
      UnseenAfterReportedPrefix(rows, xs, fs, a);
      assert items == xs + [a] && faults == fs + [faults[n - 1]];
      DedupInsertsUnseenItem(rows, xs, fs, a, faults[n - 1]);
    }
  }

  /** A batch whose ids are all stored already changes nothing and reports nothing. */
  lemma {:induction false} RerunAddsNothing(rows: map<string, Record>, items: seq<Announcement>,
                                            faults: seq<StoreFaults>)
    requires |faults| == |items|
    requires forall j :: 0 <= j < |items| ==> items[j].id in rows
    ensures Dedup(rows, items, faults) == Progress(rows, [])
    decreases |items|
  {
    if items != [] {
      var n := |items|;
      RerunAddsNothing(rows, items[..n - 1], faults[..n - 1]);
      assert items[n - 1].id in rows;
    }
  }

  /** After a run, every record that was in the store is unchanged (whatever
      its `is_sent` was), each new item is stored with `is_sent = true`, and
      no other row is added; when nothing is new the store is as it was. */
  lemma RunMarksExactlyNewItems(rows: map<string, Record>, items: seq<Announcement>, faults: seq<StoreFaults>)
    requires |faults| == |items|
    ensures var newItems := if items == [] then [] else Dedup(rows, items, faults).newItems;
      var r := RunRows(rows, items, faults);
      && r.Keys == rows.Keys + IdSet(newItems)
      && (forall k :: k in rows ==> r[k] == rows[k])
      && (forall j :: 0 <= j < |newItems| ==> r[newItems[j].id] == NewRecord(newItems[j]).(isSent := true))
      && (newItems == [] ==> r == rows)
  {
    if items != [] {
      var p := Dedup(rows, items, faults);
      DedupStore(rows, items, faults);
      if p.newItems == [] {
        assert IdSet(p.newItems) == {};
        assert p.rows == rows;
      } else {
        var ids := Ids(p.newItems);
        forall j | 0 <= j < |p.newItems|
          ensures p.newItems[j].id in ids
        {
          assert ids[j] == p.newItems[j].id;
        }
      }
    } else {
      assert IdSet([]) == {};
    }
  }
}
