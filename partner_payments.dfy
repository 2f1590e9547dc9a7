// The partner's payments view: the first partner's invoices, cleaned up for
// display, and the totals shown above them.

module PartnerPayments {
  import opened Js
  import opened Records
  import opened Invoices

  /** An invoice as the view shows it: an id is always there, the partner id is a trimmed,
    * non-blank string or none, and the amount and user count are finite numbers. */
  datatype SafeInvoice = SafeInvoice(
    id: Value,
    partnerId: Option<string>,
    partnerName: Value,
    period: Value,
    amount: real,
    status: Value,
    usersCount: real,
    cutoffDate: DateInput,
    dueDate: Value
  )

  /** `partnerIdRaw == null || partnerIdRaw === '' ? null : String(partnerIdRaw).trim() || null` */
  function PartnerIdOf(raw: Value): (r: Option<string>)
    ensures r.Some? ==> r.value != "" && IsTrimmed(r.value) && r.value == Trim(JsString(raw))
    ensures r.None? <==> raw.Missing? || Trim(JsString(raw)) == ""
  {
    if raw.Missing? || raw == Str("") then None
    else
      var t := Trim(JsString(raw));
      if t == "" then None else Some(t)
  }

  /** `Number(x ?? 0)` when that is finite, otherwise 0. */
  function FiniteOrZero(v: Value): real
  {
    match JsNumber(Coalesce(v, Num(0.0)))
    case Fin(r) => r
    case NotFinite => 0.0
  }

  /** `sanitiseInvoice`: an invoice without an id is dropped; otherwise its fields are kept,
    * the partner id cleaned and non-finite numbers replaced by 0. */
  function SanitiseInvoice(inv: Invoice): (r: Option<SafeInvoice>)
    ensures r.None? <==> inv.id.Missing?
    ensures r.Some? ==> r.value.id == inv.id && r.value.partnerId == PartnerIdOf(inv.partnerRef)
                        && r.value.status == inv.status && r.value.period == inv.period
  {
    if inv.id.Missing? then None
    else
      Some(SafeInvoice(inv.id, PartnerIdOf(inv.partnerRef), inv.partnerName, inv.period,
                       FiniteOrZero(inv.amount), inv.status, FiniteOrZero(inv.usersCount),
                       inv.cutoffDate, inv.dueDate))
  }

  /** A cleaned partner id is a fixed point: cleaning it once more gives it back. */
  lemma PartnerIdRoundTrip(raw: Value)
    requires PartnerIdOf(raw).Some?
    ensures PartnerIdOf(Str(PartnerIdOf(raw).value)) == PartnerIdOf(raw)
  {
    var p := PartnerIdOf(raw).value;
    TrimOfTrimmed(p);
  }

  /** A string partner id is kept trimmed unless it is blank, which gives none. */
  lemma PartnerIdOfString(s: string)
    ensures PartnerIdOf(Str(s)) == (if Trim(s) == "" then None else Some(Trim(s)))
  {
  }

  /** Numbers are kept as they are, a missing value and a non-finite number both show as 0. */
  lemma FiniteOrZeroFacts(v: Value)
    ensures v.Num? ==> FiniteOrZero(v) == v.n
    ensures v.Missing? || v.NaN? || v.Inf? || v.Obj? ==> FiniteOrZero(v) == 0.0
    ensures v.Bool? ==> FiniteOrZero(v) == (if v.b then 1.0 else 0.0)
  {
  }

  /** `.map(sanitiseInvoice).filter(Boolean)`: the cleaned invoices that have an id, in order. */
  function Sanitised(invs: seq<Invoice>): (r: seq<SafeInvoice>)
    ensures |r| <= |invs|
  {
    if invs == [] then []
    else
      var init, last := invs[..|invs| - 1], invs[|invs| - 1];
      Sanitised(init) + (match SanitiseInvoice(last) case Some(s) => [s] case None => [])
  }

  /** The cleaned list holds the cleaned form of every invoice with an id and nothing else. */
  lemma {:induction false} SanitisedFacts(invs: seq<Invoice>)
    ensures forall i :: 0 <= i < |Sanitised(invs)| ==>
              exists j :: 0 <= j < |invs| && SanitiseInvoice(invs[j]) == Some(Sanitised(invs)[i])
    ensures forall j :: 0 <= j < |invs| && !invs[j].id.Missing? ==> SanitiseInvoice(invs[j]).value in Sanitised(invs)
  {
    if invs != [] {
      var init, last := invs[..|invs| - 1], invs[|invs| - 1];
      SanitisedFacts(init);
      var r, r0 := Sanitised(invs), Sanitised(init);
      var tail := match SanitiseInvoice(last) case Some(s) => [s] case None => [];
      assert r == r0 + tail;
      forall i | 0 <= i < |r|
        ensures exists j :: 0 <= j < |invs| && SanitiseInvoice(invs[j]) == Some(r[i])
      {
        if i < |r0| {
          var j :| 0 <= j < |init| && SanitiseInvoice(init[j]) == Some(r0[i]);
          assert invs[j] == init[j] && r[i] == r0[i];
          assert SanitiseInvoice(invs[j]) == Some(r[i]);
        } else {
          assert tail != [] && r[i] == tail[0];
          assert SanitiseInvoice(invs[|invs| - 1]) == Some(r[i]);
        }
      }
      forall j | 0 <= j < |invs| && !invs[j].id.Missing?
        ensures SanitiseInvoice(invs[j]).value in r
      {
        if j < |init| {
          assert invs[j] == init[j];
          assert SanitiseInvoice(init[j]).value in r0;
        } else {
          assert r[|r| - 1] == SanitiseInvoice(last).value;
        }
      }
    } else {
      assert Sanitised(invs) == [];
    }
  }

  /** Cleaning keeps store order: cleaning a concatenation concatenates the cleaned parts. */
  lemma {:induction false} SanitisedAppend(a: seq<Invoice>, b: seq<Invoice>)
    ensures Sanitised(a + b) == Sanitised(a) + Sanitised(b)
  {
    if b == [] {
      assert a + b == a;
    } else {
      var init := b[..|b| - 1];
      assert (a + b)[..|a + b| - 1] == a + init;
      SanitisedAppend(a, init);
    }
  }

  // ---------------------------------------------------------------- the summary

  /** The figures `summarise` shows. */
  datatype Totals = Totals(count: nat, amount: real, paid: real, pending: real)

  /** Only a string status that lower-cases to `paid` counts as paid. */
  predicate IsPaid(inv: SafeInvoice)
  {
    inv.status.Str? && Lower(inv.status.s) == "paid"
  }

  /** The amounts of all invoices. */
  function AmountSum(invs: seq<SafeInvoice>): real
  {
    if invs == [] then 0.0 else AmountSum(invs[..|invs| - 1]) + invs[|invs| - 1].amount
  }

  /** The amounts of the paid invoices. */
  function PaidSum(invs: seq<SafeInvoice>): real
  {
    if invs == [] then 0.0
    else PaidSum(invs[..|invs| - 1]) + (if IsPaid(invs[|invs| - 1]) then invs[|invs| - 1].amount else 0.0)
  }

  /** The amounts of the invoices that are not paid. */
  function PendingSum(invs: seq<SafeInvoice>): real
  {
    if invs == [] then 0.0
    else PendingSum(invs[..|invs| - 1]) + (if IsPaid(invs[|invs| - 1]) then 0.0 else invs[|invs| - 1].amount)
  }

  /** `summarise`: the number of invoices, the sum of their amounts, and that sum split into
    * the paid and the pending invoices. */
  method Summarise(invoices: seq<SafeInvoice>) returns (t: Totals)
    ensures t.count == |invoices|
    ensures t.amount == AmountSum(invoices)
    ensures t.paid == PaidSum(invoices) && t.pending == PendingSum(invoices)
  {
    t := Totals(0, 0.0, 0.0, 0.0);
    var i := 0;
    while i < |invoices|
      invariant 0 <= i <= |invoices|
      invariant t == Totals(i, AmountSum(invoices[..i]), PaidSum(invoices[..i]), PendingSum(invoices[..i]))
    {
      assert invoices[..i + 1][..i] == invoices[..i];
      var inv := invoices[i];
      t := t.(count := t.count + 1, amount := t.amount + inv.amount);
      var status := if inv.status.Str? then Lower(inv.status.s) else "";
      if status == "paid" {
        t := t.(paid := t.paid + inv.amount);
      } else {
        t := t.(pending := t.pending + inv.amount);
      }
      i := i + 1;
    }
    assert invoices[..i] == invoices;
  }

  /** Every invoice's amount lands in exactly one of paid and pending: they add up to the
    * total amount. */
  lemma {:induction false} AmountSplits(invs: seq<SafeInvoice>)
    ensures AmountSum(invs) == PaidSum(invs) + PendingSum(invs)
  {
    if invs != [] {
      AmountSplits(invs[..|invs| - 1]);
    }
  }

  /** With no invoice paid the pending figure is the whole amount, and with all of them paid
    * the paid figure is. */
  lemma {:induction false} AllOrNothingPaid(invs: seq<SafeInvoice>)
    ensures (forall i :: 0 <= i < |invs| ==> !IsPaid(invs[i])) ==> PaidSum(invs) == 0.0 && PendingSum(invs) == AmountSum(invs)
    ensures (forall i :: 0 <= i < |invs| ==> IsPaid(invs[i])) ==> PendingSum(invs) == 0.0 && PaidSum(invs) == AmountSum(invs)
  {
    if invs != [] {
      var init := invs[..|invs| - 1];
      assert forall i :: 0 <= i < |init| ==> init[i] == invs[i];
      AllOrNothingPaid(init);
    }
  }

  // ---------------------------------------------------------------- the first partner

  /** The filter the view passes to `listInvoices`: only the partner id is given. */
  function PartnerOnly(partnerId: Value): InvoiceFilter
  {
    InvoiceFilter(NoStatus, partnerId, Missing)
  }

  /** The invoices the view lists: the first partner's invoices, cleaned, or nothing when no
    * partner is configured. */
  function PartnerInvoices(partners: seq<Partner>, invoices: seq<Invoice>, now: Instant): Option<seq<SafeInvoice>>
  {
    if partners == [] then None
    else Some(Sanitised(ListInvoices(invoices, PartnerOnly(partners[0].id), now)))
  }

  /** Only the first partner's invoices are shown, each with an id, and every one of them with
    * an id is; when the first partner has no usable id the partner filter is off and every
    * invoice with an id is shown. */
  lemma OnlyFirstPartner(partners: seq<Partner>, invoices: seq<Invoice>, now: Instant)
    ensures PartnerInvoices(partners, invoices, now).None? <==> partners == []
    ensures partners != [] ==>
              var shown := PartnerInvoices(partners, invoices, now).value;
              var pid := partners[0].id;
              && (forall i :: 0 <= i < |shown| ==>
                    exists inv :: inv in invoices && PartnerPasses(pid, inv) && SanitiseInvoice(inv) == Some(shown[i]))
              && (forall inv :: inv in invoices && PartnerPasses(pid, inv) && !inv.id.Missing? ==>
                    SanitiseInvoice(inv).value in shown)
    ensures partners != [] && PartnerFilter(partners[0].id).Some? ==>
              forall inv :: inv in invoices && PartnerPasses(partners[0].id, inv) ==>
                NormaliseId(inv.partnerRef) == PartnerFilter(partners[0].id)
    ensures partners != [] && PartnerFilter(partners[0].id).None? ==>
              forall inv :: inv in invoices && !inv.id.Missing? ==>
                SanitiseInvoice(inv).value in PartnerInvoices(partners, invoices, now).value
  {
    if partners != [] {
      var pid := partners[0].id;
      var f := PartnerOnly(pid);
      var listed := ListInvoices(invoices, f, now);
      var shown := Sanitised(listed);
      SanitisedFacts(listed);
      assert forall inv :: Passes(f, inv, now) <==> PartnerPasses(pid, inv);
      forall i | 0 <= i < |shown|
        ensures exists inv :: inv in invoices && PartnerPasses(pid, inv) && SanitiseInvoice(inv) == Some(shown[i])
      {
        var j :| 0 <= j < |listed| && SanitiseInvoice(listed[j]) == Some(shown[i]);
        assert listed[j] in listed;
      }
      forall inv | inv in invoices && PartnerPasses(pid, inv) && !inv.id.Missing?
        ensures SanitiseInvoice(inv).value in shown
      {
        assert inv in listed;
        var j :| 0 <= j < |listed| && listed[j] == inv;
      }
    }
  }
}
