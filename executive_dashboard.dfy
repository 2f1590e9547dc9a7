// The executive dashboard's money figures: what is still to pay, what has been paid, and how
// many distinct partners the invoices belong to.

module ExecutiveDashboard {
  import opened Js
  import opened Records
  import AdminPayments

  /** The reduce accumulator: the two running sums and the partner set. */
  datatype Totals = Totals(toPay: JsNum, paid: JsNum, partners: set<Value>)

  /** The amounts of the paid invoices, added left to right. */
  function PaidTotal(invs: seq<Invoice>): JsNum
  {
    if invs == [] then Fin(0.0)
    else
      var inv := invs[|invs| - 1];
      if AdminPayments.IsPaid(inv) then Add(PaidTotal(invs[..|invs| - 1]), AdminPayments.AmountOf(inv))
      else PaidTotal(invs[..|invs| - 1])
  }

  /** The amounts of every other invoice, added left to right. */
  function ToPayTotal(invs: seq<Invoice>): JsNum
  {
    if invs == [] then Fin(0.0)
    else
      var inv := invs[|invs| - 1];
      if AdminPayments.IsPaid(inv) then ToPayTotal(invs[..|invs| - 1])
      else Add(ToPayTotal(invs[..|invs| - 1]), AdminPayments.AmountOf(inv))
  }

  /** The truthy partner references, as the `Set` collects them. */
  function PartnersOf(invs: seq<Invoice>): set<Value>
  {
    if invs == [] then {}
    else
      var p := invs[|invs| - 1].partnerRef;
      PartnersOf(invs[..|invs| - 1]) + (if Truthy(p) then {p} else {})
  }

  /** The invoice totals reduce: each invoice's amount goes to `paid` when its status is
    * `'paid'` in any case and to `toPay` otherwise, and its partner reference joins the set
    * when it is truthy. */
  method InvoiceTotals(invoices: seq<Invoice>) returns (t: Totals)
    ensures t.paid == PaidTotal(invoices)
    ensures t.toPay == ToPayTotal(invoices)
    ensures t.partners == PartnersOf(invoices)
    ensures invoices == [] ==> t == Totals(Fin(0.0), Fin(0.0), {})
  {
    t := Totals(Fin(0.0), Fin(0.0), {});
    var i := 0;
    while i < |invoices|
      invariant 0 <= i <= |invoices|
      invariant t.paid == PaidTotal(invoices[..i])
      invariant t.toPay == ToPayTotal(invoices[..i])
      invariant t.partners == PartnersOf(invoices[..i])
    {
      var invoice := invoices[i];
      assert invoices[..i + 1][..i] == invoices[..i];
      var amount := AdminPayments.AmountOf(invoice);
      if AdminPayments.IsPaid(invoice) {
        t := t.(paid := Add(t.paid, amount));
      } else {
        t := t.(toPay := Add(t.toPay, amount));
      }
      var partnerId := invoice.partnerRef;
      if Truthy(partnerId) {
        t := t.(partners := t.partners + {partnerId});
      }
      i := i + 1;
    }
    assert invoices[..i] == invoices;
  }

  /** `toPay + paid` is the sum of every invoice's amount, a missing amount counting as 0;
    * one non-finite amount makes both sides non-finite. */
  lemma {:induction false} ToPayPlusPaid(invs: seq<Invoice>)
    ensures Add(ToPayTotal(invs), PaidTotal(invs)) == AdminPayments.AmountTotal(invs)
  {
    hide AdminPayments.IsPaid, AdminPayments.AmountOf;
    if invs != [] {
      var init := invs[..|invs| - 1];
      ToPayPlusPaid(init);
      var a, b, x := ToPayTotal(init), PaidTotal(init), AdminPayments.AmountOf(invs[|invs| - 1]);
      if AdminPayments.IsPaid(invs[|invs| - 1]) {
        assert Add(a, Add(b, x)) == Add(Add(a, b), x);
      } else {
        assert Add(Add(a, x), b) == Add(Add(a, b), x);
      }
    }
  }

  /** When every invoice is paid there is nothing to pay and `paid` is the whole sum; when none
    * is, nothing is paid and `toPay` is the whole sum. */
  lemma {:induction false} AllOrNonePaid(invs: seq<Invoice>)
    ensures (forall i :: 0 <= i < |invs| ==> AdminPayments.IsPaid(invs[i])) ==>
              ToPayTotal(invs) == Fin(0.0) && PaidTotal(invs) == AdminPayments.AmountTotal(invs)
    ensures (forall i :: 0 <= i < |invs| ==> !AdminPayments.IsPaid(invs[i])) ==>
              PaidTotal(invs) == Fin(0.0) && ToPayTotal(invs) == AdminPayments.AmountTotal(invs)
  {
    if invs != [] {
      var init := invs[..|invs| - 1];
      assert forall i :: 0 <= i < |init| ==> init[i] == invs[i];
      AllOrNonePaid(init);
    }
  }

  /** A value is in the partner set exactly when it is truthy and some invoice refers to it. */
  lemma {:induction false} PartnersAreTruthyRefs(invs: seq<Invoice>, v: Value)
    ensures v in PartnersOf(invs) <==> Truthy(v) && exists i :: 0 <= i < |invs| && invs[i].partnerRef == v
  {
    if invs != [] {
      var init := invs[..|invs| - 1];
      PartnersAreTruthyRefs(init, v);
      if exists i :: 0 <= i < |invs| && invs[i].partnerRef == v {
        var i :| 0 <= i < |invs| && invs[i].partnerRef == v;
        if i < |init| { assert init[i] == invs[i]; }
      }
      if exists i :: 0 <= i < |init| && init[i].partnerRef == v {
        var i :| 0 <= i < |init| && init[i].partnerRef == v;
        assert invs[i] == init[i];
      }
    }
  }

  /** There are never more active partners than invoices. */
  lemma {:induction false} PartnersAtMostInvoices(invs: seq<Invoice>)
    ensures |PartnersOf(invs)| <= |invs|
  {
    if invs != [] {
      PartnersAtMostInvoices(invs[..|invs| - 1]);
    }
  }
}
