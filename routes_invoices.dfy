// The invoice endpoints of the in-browser API: role gates in front of the
// invoice generator, the listing and the status update.

module RoutesInvoices {
  import opened Js
  import opened Records
  import opened Http
  import opened Invoices

  /** `parseDate`: a missing, empty or unparsable input is the current time. */
  function ParseDate(input: DateInput, now: Instant): (t: Instant)
    ensures input.At? ==> t == input.t
    ensures !input.At? ==> t == now
  {
    if input.At? then input.t else now
  }

  /** `sanitiseInvoice`: the stored invoice, with a missing amount shown as 0. */
  function Sanitise(inv: Invoice): (r: Invoice)
    ensures inv.amount.Missing? ==> r.amount == Num(0.0)
    ensures !inv.amount.Missing? ==> r.amount == inv.amount
    ensures r.(amount := inv.amount) == inv
  {
    inv.(amount := Coalesce(inv.amount, Num(0.0)))
  }

  function SanitiseAll(invs: seq<Invoice>): (r: seq<Invoice>)
    ensures |r| == |invs| && forall i :: 0 <= i < |invs| ==> r[i] == Sanitise(invs[i])
  {
    if invs == [] then [] else [Sanitise(invs[0])] + SanitiseAll(invs[1..])
  }

  const FinanceRoles: seq<string> := ["admin", "finance"]
  const ListingRoles: seq<string> := ["admin", "finance", "owner"]

  /** `requireFinanceRole` */
  function RequireFinanceRole(caller: Caller): (r: Check<()>)
    ensures r.Reject? <==> !HasRole(caller, FinanceRoles)
    ensures r.Reject? ==> r.status == 403
  {
    if HasRole(caller, FinanceRoles) then Pass(()) else Reject(403, "Finance or admin role required.")
  }

  /** `generateInvoicesHandler`: the cutoff is parsed leniently, so the generator never
    * sees an unparsable date and the call always creates. */
  method GenerateHandler(db: Store, caller: Caller, cutoffInput: DateInput, now: Instant) returns (r: Reply<seq<Invoice>>)
    modifies db`invoices
    ensures !HasRole(caller, FinanceRoles) ==> r == Err(403, "Finance or admin role required.") && db.invoices == old(db.invoices)
    ensures HasRole(caller, FinanceRoles) ==>
              var b := BillingFor(ParseDate(cutoffInput, now), now, db.users, db.PayoutCtx());
              var created := Generate(b, old(db.invoices));
              && db.invoices == old(db.invoices) + created
              && r == Ok(201, SanitiseAll(created))
  {
    var guard := RequireFinanceRole(caller);
    if guard.Reject? {
      return Err(guard.status, guard.message);
    }
    var cutoff := ParseDate(cutoffInput, now);
    var result := GenerateInvoices(db, At(cutoff), now);
    r := Ok(201, SanitiseAll(result.value));
  }

  /** Two generate calls whose cutoffs fall in the same month, made in the same month:
    * the second creates nothing. */
  lemma GenerateTwiceCreatesNothing(cutoff1: Instant, cutoff2: Instant, now1: Instant, now2: Instant,
                                    users: seq<User>, ctx: Ctx, invoices: seq<Invoice>)
    requires MonthKey(cutoff1.local) == MonthKey(cutoff2.local)
    requires MonthKey(now1.local) == MonthKey(now2.local)
    ensures var first := Generate(BillingFor(cutoff1, now1, users, ctx), invoices);
            Generate(BillingFor(cutoff2, now2, users, ctx), invoices + first) == []
  {
    GenerateIdempotent(BillingFor(cutoff1, now1, users, ctx), BillingFor(cutoff2, now2, users, ctx), invoices);
  }

  /** The filter the listing applies: an owner's own partner id replaces any partner in the query. */
  function ListingFilter(caller: Caller, query: InvoiceFilter): (r: Check<InvoiceFilter>)
    ensures r.Pass? ==> r.value.status == query.status && r.value.period == query.period
  {
    var role := GetRole(caller.roles);
    if role.None? || role.value !in ListingRoles then Reject(403, "Access denied.")
    else if role.value == "owner" then
      match ExtractPartnerId(caller.partnerIds)
      case None => Reject(400, "A partner_id is required.")
      case Some(pid) => Pass(query.(partner := Str(pid)))
    else Pass(query)
  }

  /** `listInvoicesHandler` */
  function ListHandler(caller: Caller, query: InvoiceFilter, invoices: seq<Invoice>, now: Instant): (r: Reply<seq<Invoice>>)
  {
    match ListingFilter(caller, query)
    case Reject(status, message) => Err(status, message)
    case Pass(f) => Ok(200, SanitiseAll(ListInvoices(invoices, f, now)))
  }

  /** Only admin, finance and owner callers may list; an owner needs a partner id. */
  lemma ListingGate(caller: Caller, query: InvoiceFilter, invoices: seq<Invoice>, now: Instant)
    ensures ListHandler(caller, query, invoices, now).Err? <==>
              !HasRole(caller, ListingRoles) || (HasRole(caller, ["owner"]) && ExtractPartnerId(caller.partnerIds).None?)
    ensures !HasRole(caller, ListingRoles) ==> ListHandler(caller, query, invoices, now) == Err(403, "Access denied.")
    ensures HasRole(caller, FinanceRoles) ==>
              ListHandler(caller, query, invoices, now) == Ok(200, SanitiseAll(ListInvoices(invoices, query, now)))
  {
  }

  /** An owner sees the same listing whatever partner the query names, and only
    * invoices whose partner normalises to the owner's own id. */
  lemma OwnerListingIsOwn(caller: Caller, q1: InvoiceFilter, q2: InvoiceFilter, invoices: seq<Invoice>, now: Instant)
    requires HasRole(caller, ["owner"]) && ExtractPartnerId(caller.partnerIds).Some?
    requires q1.status == q2.status && q1.period == q2.period
    ensures ListHandler(caller, q1, invoices, now) == ListHandler(caller, q2, invoices, now)
    ensures var pid := ExtractPartnerId(caller.partnerIds).value;
            var f := ListingFilter(caller, q1).value;
            forall inv :: inv in ListInvoices(invoices, f, now) ==> NormaliseId(inv.partnerRef) == Some(IdStr(Trim(pid)))
  {
    hide Trim, TrimStart, TrimEnd, Lower, RoleText, PartnerText, FirstAccepted, ListInvoices;
    var pid := ExtractPartnerId(caller.partnerIds).value;
    PartnerIdNotBlank(caller.partnerIds);
    PartnerIdNonEmpty(caller.partnerIds);
    assert ListingFilter(caller, q1) == Pass(q1.(partner := Str(pid)));
    assert ListingFilter(caller, q2) == Pass(q2.(partner := Str(pid)));
    assert q1.(partner := Str(pid)) == q2.(partner := Str(pid));
    assert PartnerFilter(Str(pid)) == Some(IdStr(Trim(pid)));
    hide ExtractPartnerId, GetRole, PartnerFilter, StatusPasses, PeriodPasses;
    forall inv | inv in ListInvoices(invoices, q1.(partner := Str(pid)), now)
      ensures NormaliseId(inv.partnerRef) == Some(IdStr(Trim(pid)))
    {
      assert PartnerPasses(Str(pid), inv);
    }
  }

  /** A status input the handler accepts: a string with something besides white space. */
  predicate UsableStatus(v: Value)
  {
    v.Str? && Trim(v.s) != ""
  }

  /** `updateInvoiceStatusHandler` */
  method UpdateStatusHandler(db: Store, caller: Caller, id: Value, status: Value, now: Instant) returns (r: Reply<Invoice>)
    modifies db`invoices
    ensures !HasRole(caller, FinanceRoles) ==> r == Err(403, "Finance or admin role required.") && db.invoices == old(db.invoices)
    ensures HasRole(caller, FinanceRoles) && !Truthy(id) ==>
              r == Err(400, "An invoice id is required.") && db.invoices == old(db.invoices)
    ensures HasRole(caller, FinanceRoles) && Truthy(id) && !UsableStatus(status) ==>
              r == Err(400, "A valid status value is required.") && db.invoices == old(db.invoices)
    ensures HasRole(caller, FinanceRoles) && Truthy(id) && UsableStatus(status) ==>
              var u := StatusUpdate(old(db.invoices), id, status, now);
              && u.Success?
              && db.invoices == u.value.0
              && r == (match u.value.1 case None => Err(404, "Invoice not found.") case Some(inv) => Ok(200, Sanitise(inv)))
  {
    var guard := RequireFinanceRole(caller);
    if guard.Reject? {
      return Err(guard.status, guard.message);
    }
    if !Truthy(id) {
      return Err(400, "An invoice id is required.");
    }
    if !UsableStatus(status) {
      return Err(400, "A valid status value is required.");
    }
    StatusUpdateChangesOne(db.invoices, id, status, now);
    assert NextStatus(status) != "" by {
      TrimIdempotent(status.s);
    }
    var updated := SetInvoiceStatus(db, id, status, now);
    match updated.value
    case None => r := Err(404, "Invoice not found.");
    case Some(inv) => r := Ok(200, Sanitise(inv));
  }

  /** An accepted update stores the new status on exactly one invoice and leaves every
    * other one as it was; a 404 leaves the store as it was. */
  lemma AcceptedUpdateChangesOne(invoices: seq<Invoice>, id: Value, status: Value, now: Instant)
    requires Truthy(id) && UsableStatus(status)
    ensures StatusUpdate(invoices, id, status, now).Success?
    ensures var u := StatusUpdate(invoices, id, status, now).value;
            |u.0| == |invoices| && (u.1.None? ==> u.0 == invoices)
    ensures var u := StatusUpdate(invoices, id, status, now).value;
            u.1.Some? ==>
              && u.1.value.status == Str(Trim(status.s))
              && exists k :: 0 <= k < |invoices| && u.0 == invoices[k := u.1.value]
                               && NormaliseId(invoices[k].id) == NormaliseId(id)
  {
    StatusUpdateChangesOne(invoices, id, status, now);
    assert NextStatus(status) == Trim(status.s);
    assert Trim(status.s) != "";
  }
}
