// The finance team's payment history: the paid entries, newest change first,
// each joined with the invoice it refers to.

module FinanceHistory {
  import opened Js
  import opened Records
  import opened Sorting

  /** `(entry.status ?? '').toLowerCase() === 'paid'` */
  predicate IsPaidEntry(e: HistoryEntry)
  {
    Lower(e.status) == "paid"
  }

  /** `new Date(entry.changed_at ?? 0)` in milliseconds; an unparsable date is taken as 0. */
  function ChangedTime(e: HistoryEntry): int
  {
    match e.changedAt
    case At(t) => t.millis
    case _ => 0
  }

  /** `(a, b) => new Date(b.changed_at) - new Date(a.changed_at)`: newer first. */
  predicate NewerChange(a: HistoryEntry, b: HistoryEntry)
  {
    ChangedTime(a) >= ChangedTime(b)
  }

  /** A `Map` key lookup hits an invoice: same id, an object id never being the same one. */
  predicate KeyMatches(inv: Invoice, key: Value)
  {
    inv.id == key && !key.Obj?
  }

  /** The position of the last invoice with that id, or -1 when there is none. */
  function LastMatchIndex(invoices: seq<Invoice>, key: Value): (k: int)
    ensures -1 <= k < |invoices|
    ensures k >= 0 ==> KeyMatches(invoices[k], key)
    ensures forall j :: k < j < |invoices| ==> !KeyMatches(invoices[j], key)
  {
    hide KeyMatches;
    if invoices == [] then -1
    else if KeyMatches(invoices[|invoices| - 1], key) then |invoices| - 1
    else
      var init := invoices[..|invoices| - 1];
      assert forall i :: 0 <= i < |init| ==> init[i] == invoices[i];
      LastMatchIndex(init, key)
  }

  /** `map.get(key)` of the map filled with `map.set(invoice.id, invoice)` for every invoice
    * in order: the last invoice with that id. */
  function InvoiceById(invoices: seq<Invoice>, key: Value): (r: Option<Invoice>)
    ensures r.None? <==> forall i :: 0 <= i < |invoices| ==> !KeyMatches(invoices[i], key)
    ensures r.Some? ==> exists k :: 0 <= k < |invoices| && invoices[k] == r.value && KeyMatches(r.value, key)
                                    && forall j :: k < j < |invoices| ==> !KeyMatches(invoices[j], key)
  {
    hide KeyMatches;
    var k := LastMatchIndex(invoices, key);
    if k < 0 then None else Some(invoices[k])
  }

  /** An entry with the invoice it refers to, or none. */
  datatype Enriched = Enriched(entry: HistoryEntry, invoice: Option<Invoice>)

  /** `enrichHistory`: the paid entries, newest change first, each with its invoice. */
  function EnrichHistory(history: seq<HistoryEntry>, invoices: seq<Invoice>): seq<Enriched>
  {
    var sorted := SortBy(Where(history, IsPaidEntry), NewerChange);
    seq(|sorted|, i requires 0 <= i < |sorted| => Enriched(sorted[i], InvoiceById(invoices, sorted[i].invoiceId)))
  }

  lemma NewerChangeTotalPreorder()
    ensures TotalPreorder(NewerChange)
  {
  }

  lemma SortedByChange(entries: seq<HistoryEntry>)
    ensures SortedBy(SortBy(entries, NewerChange), NewerChange)
  {
    NewerChangeTotalPreorder();
    SortBySorted(entries, NewerChange);
  }

  lemma EnrichedEntries(history: seq<HistoryEntry>, invoices: seq<Invoice>)
    ensures var sorted := SortBy(Where(history, IsPaidEntry), NewerChange);
            var r := EnrichHistory(history, invoices);
            |r| == |sorted| && forall i :: 0 <= i < |r| ==> r[i].entry == sorted[i] && r[i].invoice == InvoiceById(invoices, sorted[i].invoiceId)
  {
  }

  /** The paid entries sorted: each comes from the history and is paid, every paid entry
    * is there, and the newest change comes first. */
  lemma PaidEntriesSorted(history: seq<HistoryEntry>)
    ensures var s := SortBy(Where(history, IsPaidEntry), NewerChange);
            && |s| <= |history|
            && (forall i :: 0 <= i < |s| ==> s[i] in history && IsPaidEntry(s[i]))
            && (forall e :: e in history && IsPaidEntry(e) ==> e in s)
            && (forall i, j :: 0 <= i < j < |s| ==> ChangedTime(s[i]) >= ChangedTime(s[j]))
  {
    var paid := Where(history, IsPaidEntry);
    var sorted := SortBy(paid, NewerChange);
    SortedByChange(paid);
    hide SortBy, Where, Lower;
    forall i | 0 <= i < |sorted| ensures sorted[i] in history && IsPaidEntry(sorted[i]) {
      assert sorted[i] in multiset(paid);
    }
    forall e | e in history && IsPaidEntry(e) ensures e in sorted {
      var k :| 0 <= k < |history| && history[k] == e;
      assert e in paid;
      assert e in multiset(sorted);
    }
  }

  /** The history shows every paid entry and nothing else, never more entries than the
    * history has, newest change first; each entry carries the last invoice with its
    * invoice id, or none when no invoice has it. */
  lemma EnrichHistoryFacts(history: seq<HistoryEntry>, invoices: seq<Invoice>)
    ensures var r := EnrichHistory(history, invoices);
            && |r| <= |history|
            && (forall i :: 0 <= i < |r| ==> r[i].entry in history && IsPaidEntry(r[i].entry))
            && (forall e :: e in history && IsPaidEntry(e) ==> exists i :: 0 <= i < |r| && r[i].entry == e)
            && (forall i, j :: 0 <= i < j < |r| ==> ChangedTime(r[i].entry) >= ChangedTime(r[j].entry))
            && (forall i :: 0 <= i < |r| ==> r[i].invoice == InvoiceById(invoices, r[i].entry.invoiceId))
  {
    var sorted := SortBy(Where(history, IsPaidEntry), NewerChange);
    PaidEntriesSorted(history);
    EnrichedEntries(history, invoices);
    hide SortBy, Where, InvoiceById, EnrichHistory, Lower, ChangedTime, IsPaidEntry;
    var r := EnrichHistory(history, invoices);
    forall e | e in history && IsPaidEntry(e) ensures exists i :: 0 <= i < |r| && r[i].entry == e {
      var i :| 0 <= i < |sorted| && sorted[i] == e;
      assert r[i].entry == e;
    }
  }
}
