// The finance team's payments view: the status filter over the invoice
// listing. Its status changes and its selected invoice follow the same rules
// as the administrator's view (module AdminPayments).

module FinancePayments {
  import opened Js
  import opened Records
  import opened Invoices
  import opened AdminPayments

  /** The listing filter built from the chosen status: `all` filters nothing. */
  function FilterFor(statusFilter: string): (f: InvoiceFilter)
    ensures f.partner == Missing && f.period == Missing
    ensures statusFilter == "all" <==> f.status == NoStatus
  {
    if statusFilter == "all" then InvoiceFilter(NoStatus, Missing, Missing)
    else InvoiceFilter(OneStatus(Str(statusFilter)), Missing, Missing)
  }

  /** The invoices the view lists for the chosen status. */
  function Listing(statusFilter: string, invoices: seq<Invoice>, now: Instant): seq<Invoice>
  {
    ListInvoices(invoices, FilterFor(statusFilter), now)
  }

  /** `all` lists every invoice, in store order. */
  lemma AllListsEverything(invoices: seq<Invoice>, now: Instant)
    ensures Listing("all", invoices, now) == invoices
  {
    ListInvoicesUnfiltered(invoices, FilterFor("all"), now);
  }

  /** A single non-blank status asks for exactly that status, trimmed and lower-cased. */
  lemma SingleStatusWanted(w: string)
    requires Trim(w) != ""
    ensures StatusFilter(OneStatus(Str(w))) == Some({Lower(Trim(w))})
  {
    var l := Lower(Trim(w));
    assert |l| == |Trim(w)|;
    assert WantedStatuses([Str(w)]) == {l} by {
      assert Str(w) in [Str(w)];
    }
  }

  /** Any other status lists exactly the invoices whose status, lower-cased, is that status
    * trimmed and lower-cased. */
  lemma OtherFilterListsThatStatus(statusFilter: string, invoices: seq<Invoice>, now: Instant)
    requires statusFilter != "all" && Trim(statusFilter) != ""
    ensures forall inv :: inv in Listing(statusFilter, invoices, now) <==>
                            inv in invoices && ListedStatus(inv) == Lower(Trim(statusFilter))
  {
    hide Trim, Lower, WantedStatuses, ListedStatus;
    var f := FilterFor(statusFilter);
    var l := Lower(Trim(statusFilter));
    SingleStatusWanted(statusFilter);
    assert PartnerFilter(Missing).None? && PeriodFilter(Missing).None?;
    hide StatusFilter, PartnerFilter, PeriodFilter, NormaliseId, InvoicePeriod;
    forall inv ensures Passes(f, inv, now) <==> ListedStatus(inv) == l {
    }
  }

  /** Putting an invoice under review updates it but records nothing in the payment
    * history. */
  lemma ReviewLeavesHistory(invoices: seq<Invoice>, history: seq<HistoryEntry>, invoiceId: Value, now: Instant)
    requires !invoiceId.Missing?
    ensures var r := StatusChange(invoices, history, invoiceId, "review", now);
            && r.Success?
            && r.value.1 == history
            && |r.value.0| == |invoices|
            && (r.value.2 ==> exists k :: 0 <= k < |invoices| && r.value.0 == invoices[k := r.value.0[k]]
                                         && r.value.0[k].status == Str("review"))
  {
    hide Trim, TrimStart, TrimEnd, StatusUpdateError, NormaliseId, JsString, IntText, Lower;
    StatusChangeHistory(invoices, history, invoiceId, "review", now);
    assert IsTrimmed("review");
    TrimOfTrimmed("review");
    assert NextStatus(Str("review")) == "review";
    StatusUpdateChangesOne(invoices, invoiceId, Str("review"), now);
    hide NextStatus;
    var u := StatusUpdate(invoices, invoiceId, Str("review"), now);
    var r := StatusChange(invoices, history, invoiceId, "review", now);
    if u.value.1.Some? {
      var k :| 0 <= k < |invoices| && u.value.1.value == invoices[k].(status := Str(NextStatus(Str("review"))), updatedAt := At(now))
               && u.value.0 == invoices[k := u.value.1.value];
      assert r.value.0 == u.value.0;
      assert r.value.0[k] == u.value.1.value;
    }
  }
}
