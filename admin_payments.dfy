// The administrator's payments view: the invoice summary, status changes that
// record paid invoices in the payment history, invoice generation from the
// cutoff form and the selected invoice.

module AdminPayments {
  import opened Js
  import opened Records
  import opened Invoices

  /** The counters `summarizeInvoices` shows. */
  datatype Summary = Summary(total: nat, pending: nat, paid: nat, amount: JsNum)

  /** Only a string status that lower-cases to `paid` counts as paid. */
  predicate IsPaid(inv: Invoice)
  {
    inv.status.Str? && Lower(inv.status.s) == "paid"
  }

  /** `Number(invoice.amount ?? 0)` */
  function AmountOf(inv: Invoice): JsNum
  {
    JsNumber(Coalesce(inv.amount, Num(0.0)))
  }

  /** The number of paid invoices. */
  function PaidCount(invs: seq<Invoice>): (n: nat)
    ensures n <= |invs|
  {
    if invs == [] then 0
    else PaidCount(invs[..|invs| - 1]) + (if IsPaid(invs[|invs| - 1]) then 1 else 0)
  }

  /** The sum of the amounts, added left to right; a non-finite amount absorbs. */
  function AmountTotal(invs: seq<Invoice>): JsNum
  {
    if invs == [] then Fin(0.0)
    else Add(AmountTotal(invs[..|invs| - 1]), AmountOf(invs[|invs| - 1]))
  }

  /** `summarizeInvoices`: every invoice is either paid or pending, and the amount is the
    * sum of the amounts with a missing amount counted as 0. */
  method SummarizeInvoices(invoices: seq<Invoice>) returns (s: Summary)
    ensures s.total == |invoices| && s.paid + s.pending == s.total
    ensures s.paid == PaidCount(invoices)
    ensures s.amount == AmountTotal(invoices)
  {
    s := Summary(|invoices|, 0, 0, Fin(0.0));
    var i := 0;
    while i < |invoices|
      invariant 0 <= i <= |invoices|
      invariant s.total == |invoices| && s.paid + s.pending == i
      invariant s.paid == PaidCount(invoices[..i])
      invariant s.amount == AmountTotal(invoices[..i])
    {
      assert invoices[..i + 1][..i] == invoices[..i];
      if IsPaid(invoices[i]) {
        s := s.(paid := s.paid + 1);
      } else {
        s := s.(pending := s.pending + 1);
      }
      s := s.(amount := Add(s.amount, AmountOf(invoices[i])));
      i := i + 1;
    }
    assert invoices[..i] == invoices;
  }

  /** Every invoice is paid exactly when the paid count is the total, and none is exactly
    * when it is 0. */
  lemma {:induction false} PaidCountExtremes(invs: seq<Invoice>)
    ensures PaidCount(invs) == |invs| <==> forall i :: 0 <= i < |invs| ==> IsPaid(invs[i])
    ensures PaidCount(invs) == 0 <==> forall i :: 0 <= i < |invs| ==> !IsPaid(invs[i])
  {
    if invs != [] {
      var init := invs[..|invs| - 1];
      PaidCountExtremes(init);
      assert forall i :: 0 <= i < |init| ==> init[i] == invs[i];
    }
  }

  /** An amount as a number, a missing one as 0. */
  function AmountNumber(inv: Invoice): real
  {
    if inv.amount.Num? then inv.amount.n else 0.0
  }

  /** A finite amount counts as itself and a missing one as 0. */
  lemma AmountOfNumber(inv: Invoice)
    requires inv.amount.Missing? || inv.amount.Num?
    ensures AmountOf(inv) == Fin(AmountNumber(inv))
  {
  }

  /** The amounts as numbers, missing ones as 0. */
  function SumAmounts(invs: seq<Invoice>): real
  {
    if invs == [] then 0.0 else SumAmounts(invs[..|invs| - 1]) + AmountNumber(invs[|invs| - 1])
  }

  /** Every amount is a finite number or missing. */
  predicate AmountsNumeric(invs: seq<Invoice>)
  {
    forall i :: 0 <= i < |invs| ==> invs[i].amount.Missing? || invs[i].amount.Num?
  }

  lemma AmountsNumericPrefix(invs: seq<Invoice>)
    requires AmountsNumeric(invs) && invs != []
    ensures AmountsNumeric(invs[..|invs| - 1])
    ensures invs[|invs| - 1].amount.Missing? || invs[|invs| - 1].amount.Num?
  {
  }

  /** When every amount is a finite number or missing, the summary amount is their exact
    * sum with a missing amount as 0. */
  lemma {:induction false} AmountTotalFinite(invs: seq<Invoice>)
    requires AmountsNumeric(invs)
    ensures AmountTotal(invs) == Fin(SumAmounts(invs))
  {
    if invs != [] {
      var init := invs[..|invs| - 1];
      var last := invs[|invs| - 1];
      AmountsNumericPrefix(invs);
      assert AmountTotal(invs) == Add(AmountTotal(init), AmountOf(last));
      assert SumAmounts(invs) == SumAmounts(init) + AmountNumber(last);
      hide AmountTotal, SumAmounts, AmountNumber, AmountOf, AmountsNumeric, JsNumber, Coalesce;
      AmountTotalFinite(init);
      AmountOfNumber(last);
      var a, b := SumAmounts(init), AmountNumber(last);
      assert Add(Fin(a), Fin(b)) == Fin(a + b);
    }
  }

  /** The history entry a paid status change records. */
  function PaidEntry(invoiceId: Value, status: string, updated: Invoice, now: Instant): HistoryEntry
  {
    HistoryEntry(JsString(invoiceId) + "-" + IntText(now.millis), invoiceId, status, updated.amount, At(now),
                 updated.partnerRef)
  }

  /** The invoices and history after `applyStatusChange`, and whether an invoice was updated;
    * a failure is the error the status update throws. */
  function StatusChange(invoices: seq<Invoice>, history: seq<HistoryEntry>, invoiceId: Value, status: string,
                        now: Instant): Result<(seq<Invoice>, seq<HistoryEntry>, bool)>
  {
    match StatusUpdate(invoices, invoiceId, Str(status), now)
    case Failure(e) => Failure(e)
    case Success((next, updated)) =>
      match updated
      case None => Success((next, history, false))
      case Some(inv) =>
        Success((next, if status == "paid" then history + [PaidEntry(invoiceId, status, inv, now)] else history, true))
  }

  /** A status change appends exactly one history entry when an invoice was updated to
    * `paid`, and none otherwise; the earlier entries stay as they were, in order; when no
    * invoice has the id nothing changes. */
  lemma StatusChangeHistory(invoices: seq<Invoice>, history: seq<HistoryEntry>, invoiceId: Value, status: string,
                            now: Instant)
    ensures var r := StatusChange(invoices, history, invoiceId, status, now);
            r.Failure? <==> invoiceId.Missing? || Trim(status) == ""
    ensures var r := StatusChange(invoices, history, invoiceId, status, now);
            r.Success? ==>
              && r.value.1[..|history|] == history
              && |r.value.1| == |history| + (if r.value.2 && status == "paid" then 1 else 0)
              && (r.value.2 <==> NormaliseId(invoiceId).Some? && exists k :: 0 <= k < |invoices| && NormaliseId(invoices[k].id) == NormaliseId(invoiceId))
              && (!r.value.2 ==> r.value.0 == invoices && r.value.1 == history)
    ensures var r := StatusChange(invoices, history, invoiceId, status, now);
            r.Success? && r.value.2 && status == "paid" ==>
              var e := r.value.1[|history|];
              && e.invoiceId == invoiceId && e.status == "paid" && e.changedAt == At(now)
              && exists k :: 0 <= k < |invoices| && NormaliseId(invoices[k].id) == NormaliseId(invoiceId)
                             && e.amount == invoices[k].amount && e.partnerRef == invoices[k].partnerRef
  {
    StatusUpdateChangesOne(invoices, invoiceId, Str(status), now);
    assert NextStatus(Str(status)) == Trim(status);
    hide Trim, TrimStart, TrimEnd, JsString, IntText, NextStatus, StatusUpdateError;
    var u := StatusUpdate(invoices, invoiceId, Str(status), now);
    if u.Success? {
      var k := FindInvoice(invoices, NormaliseId(invoiceId));
      var r := StatusChange(invoices, history, invoiceId, status, now);
      hide NormaliseId;
      if k.Some? {
        var inv := invoices[k.value].(status := Str(NextStatus(Str(status))), updatedAt := At(now));
        assert u.value.1 == Some(inv);
        if status == "paid" {
          assert r.value.1 == history + [PaidEntry(invoiceId, status, inv, now)];
        } else {
          assert r.value.1 == history;
        }
      } else {
        assert u.value == (invoices, None);
        assert r.value == (invoices, history, false);
      }
    }
  }

  /** `applyStatusChange`: the status update runs on the store; an updated invoice set to
    * `paid` is also recorded in the payment history. The result says whether an invoice was
    * updated; a failure is the error that escapes. */
  method ApplyStatusChange(db: Store, invoiceId: Value, status: string, now: Instant) returns (r: Result<bool>)
    modifies db`invoices, db`history
    ensures var expected := StatusChange(old(db.invoices), old(db.history), invoiceId, status, now);
            && (expected.Failure? ==> r.Failure? && db.invoices == old(db.invoices) && db.history == old(db.history))
            && (expected.Success? ==> r == Success(expected.value.2) && db.invoices == expected.value.0
                                      && db.history == expected.value.1)
  {
    var result := SetInvoiceStatus(db, invoiceId, Str(status), now);
    if result.Failure? {
      return Failure(result.error);
    }
    match result.value
    case None =>
      r := Success(false);
    case Some(updated) =>
      if status == "paid" {
        db.history := db.history + [PaidEntry(invoiceId, status, updated, now)];
      }
      r := Success(true);
  }

  /** The cutoff form's submit: without a cutoff date nothing is generated; otherwise the
    * parsed date goes to the invoice generator. */
  method HandleGeneration(db: Store, rawDate: Value, parsed: DateInput, now: Instant) returns (r: Result<seq<Invoice>>)
    modifies db`invoices
    ensures !Truthy(rawDate) ==> r == Success([]) && db.invoices == old(db.invoices)
    ensures Truthy(rawDate) && parsed.Invalid? ==> r.Failure? && db.invoices == old(db.invoices)
    ensures Truthy(rawDate) && !parsed.Invalid? ==>
              var b := BillingFor(if parsed.At? then parsed.t else now, now, db.users, db.PayoutCtx());
              && r == Success(Generate(b, old(db.invoices)))
              && db.invoices == old(db.invoices) + r.value
  {
    if !Truthy(rawDate) {
      return Success([]);
    }
    r := GenerateInvoices(db, parsed, now);
  }

  /** `===` between two ids: `NaN` equals nothing and two objects are never the same one. */
  predicate SameId(a: Value, b: Value)
  {
    a == b && !a.NaN? && !a.Obj?
  }

  /** The invoice selected after a refresh: the current selection when it is set and still
    * listed, otherwise the first listed invoice's id, or `null` when nothing is listed. */
  function SelectInvoice(selected: Value, invoices: seq<Invoice>): (r: Value)
    ensures Truthy(selected) && (exists i :: 0 <= i < |invoices| && SameId(invoices[i].id, selected)) ==> r == selected
    ensures !(Truthy(selected) && exists i :: 0 <= i < |invoices| && SameId(invoices[i].id, selected)) ==>
              r == (if invoices == [] then Missing else invoices[0].id)
  {
    var kept := FindFirst(invoices, (inv: Invoice) => SameId(inv.id, selected));
    if Truthy(selected) && kept.Some? then selected
    else if invoices == [] then Missing
    else invoices[0].id
  }

  /** The selection is always `null` or the id of a listed invoice. */
  lemma SelectionIsListed(selected: Value, invoices: seq<Invoice>)
    ensures var r := SelectInvoice(selected, invoices);
            r.Missing? || exists i :: 0 <= i < |invoices| && invoices[i].id == r
  {
    var r := SelectInvoice(selected, invoices);
    if !r.Missing? && invoices != [] && r != invoices[0].id {
      assert Truthy(selected) && exists i :: 0 <= i < |invoices| && SameId(invoices[i].id, selected);
    }
  }
}
