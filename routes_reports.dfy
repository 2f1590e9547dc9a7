// The report endpoints of the in-browser API: the admin's global metrics and
// an owner's own code, summary and report.

module RoutesReports {
  import opened Js
  import opened Records
  import opened Sorting
  import opened Summaries
  import opened Http

  /** The guard of `globalReportHandler`: admins only. */
  function AdminGate(caller: Caller): (r: Check<()>)
    ensures r.Pass? <==> GetRole(caller.roles) == Some("admin")
    ensures r.Reject? ==> r == Reject(403, "Admin privileges required.")
  {
    if HasRole(caller, ["admin"]) then Pass(()) else Reject(403, "Admin privileges required.")
  }

  /** The guard the three owner handlers share: the owner role, then a partner id. */
  function OwnerGate(caller: Caller): (r: Check<string>)
    ensures r.Reject? && r.status == 403 <==> GetRole(caller.roles) != Some("owner")
    ensures r.Reject? && r.status == 400 <==> GetRole(caller.roles) == Some("owner") && ExtractPartnerId(caller.partnerIds).None?
    ensures r.Reject? ==> r.status == 403 || r.status == 400
    ensures r.Pass? ==> Some(r.value) == ExtractPartnerId(caller.partnerIds) && r.value != ""
  {
    if !HasRole(caller, ["owner"]) then Reject(403, "Owner privileges required.")
    else
      match ExtractPartnerId(caller.partnerIds)
      case None => Reject(400, "A partner_id is required.")
      case Some(pid) =>
        PartnerIdNonEmpty(caller.partnerIds);
        Pass(pid)
  }

  /** `globalReportHandler` */
  method GlobalReport(db: Store, caller: Caller, now: Instant) returns (r: Reply<Metrics>)
    ensures AdminGate(caller).Reject? ==> r == Err(403, "Admin privileges required.")
    ensures AdminGate(caller).Pass? ==>
              && r.Ok? && r.status == 200
              && r.data.users == |db.users| && r.data.payout == TotalOf(MonthEntries(db.users, db.PayoutCtx(), now))
              && SumInt(r.data.byApp, BUsers) == |db.users| && SumInt(r.data.byRegion, BUsers) == |db.users|
              && SumInt(r.data.byMonth, BUsers) == |db.users|
              && SortedBy(r.data.byApp, UsersDescLe) && SortedBy(r.data.byRegion, UsersDescLe)
              && SortedBy(r.data.byMonth, MonthLe)
  {
    var guard := AdminGate(caller);
    if guard.Reject? {
      return Err(guard.status, guard.message);
    }
    var report := MetricsGlobal(db, now);
    r := Ok(200, report);
  }

  /** The partner a code is attached to: its own partner id, else its parent partner id. */
  function CodePartner(c: Code): Value
  {
    Coalesce(c.partnerRef, c.parentPartnerRef)
  }

  /** The code type the owner lookup reads: the type, stringified and upper-cased. */
  function CodeTypeText(c: Code): string
  {
    Upper(JsString(Coalesce(c.codeType, Str(""))))
  }

  /** The owner's code: not an affiliate code, attached to a partner whose text is the
    * owner's partner id, and not attached to an affiliate. */
  predicate IsOwnerCode(pid: string, c: Code)
  {
    CodeTypeText(c) != "AF" && Truthy(CodePartner(c)) && JsString(CodePartner(c)) == pid && !Truthy(c.affiliateRef)
  }

  /** `sanitiseCode`: the public fields of a code. */
  datatype ReportCode = ReportCode(
    id: Value,
    value: Value,
    codeType: Value,
    status: Value,
    maxUses: Value,
    currentUses: Value,
    partnerId: Value,
    affiliateId: Value,
    createdAt: DateInput,
    updatedAt: DateInput)

  function SanitiseCode(c: Code): (r: ReportCode)
    ensures r.partnerId == (if c.partnerRef.Missing? then c.parentPartnerRef else c.partnerRef)
    ensures r.id == c.id && r.value == c.value && r.affiliateId == c.affiliateRef
  {
    ReportCode(c.id, c.value, c.codeType, c.status, c.maxUses, c.currentUses, CodePartner(c), c.affiliateRef,
               c.createdAt, c.updatedAt)
  }

  /** `ownerCodeHandler`: the first of the owner's codes, or `null` when there is none. */
  function OwnerCode(caller: Caller, codes: seq<Code>): (r: Reply<Option<ReportCode>>)
  {
    match OwnerGate(caller)
    case Reject(status, message) => Err(status, message)
    case Pass(pid) =>
      var k := FindFirst(codes, c => IsOwnerCode(pid, c));
      Ok(200, if k.Some? then Some(SanitiseCode(codes[k.value])) else None)
  }

  /** The owner's code is the first code that is the owner's, and `null` only when no
    * code is; the guards answer first. */
  lemma OwnerCodeFacts(caller: Caller, codes: seq<Code>)
    ensures var r := OwnerCode(caller, codes);
            OwnerGate(caller).Reject? ==> r == Err(OwnerGate(caller).status, OwnerGate(caller).message)
    ensures var r := OwnerCode(caller, codes);
            OwnerGate(caller).Pass? ==>
              var pid := OwnerGate(caller).value;
              && r.Ok? && r.status == 200
              && (r.data.None? <==> forall i :: 0 <= i < |codes| ==> !IsOwnerCode(pid, codes[i]))
              && (r.data.Some? ==> exists i :: 0 <= i < |codes| && IsOwnerCode(pid, codes[i])
                                      && (forall j :: 0 <= j < i ==> !IsOwnerCode(pid, codes[j]))
                                      && r.data.value == SanitiseCode(codes[i]))
  {
    hide IsOwnerCode, SanitiseCode, ExtractPartnerId, GetRole;
    if OwnerGate(caller).Pass? {
      var pid := OwnerGate(caller).value;
      var accept := c => IsOwnerCode(pid, c);
      var k := FindFirst(codes, accept);
      assert forall i :: 0 <= i < |codes| ==> accept(codes[i]) == IsOwnerCode(pid, codes[i]);
      if k.Some? {
        assert OwnerCode(caller, codes).data.value == SanitiseCode(codes[k.value]);
      }
    }
  }

  /** An affiliate code is never an owner's code, however its type is spelt. */
  lemma AffiliateCodeIsNeverTheOwners(pid: string, c: Code, t: string)
    requires c.codeType == Str(t) && Upper(t) == "AF"
    ensures !IsOwnerCode(pid, c)
  {
    assert CodeTypeText(c) == Upper(t);
  }

  /** A code that names both a partner and a parent partner is matched on the partner only. */
  lemma OwnerCodeIgnoresParent(pid: string, c: Code)
    requires Truthy(c.partnerRef) && JsString(c.partnerRef) != pid
    ensures !IsOwnerCode(pid, c)
  {
    assert !c.partnerRef.Missing?;
  }

  /** The data of `ownerReportHandler`: the summary's totals and monthly series. */
  datatype OwnerReportData = OwnerReportData(
    usersDirect: nat,
    usersAffiliates: nat,
    usersTotal: nat,
    payouts: PartnerTotals,
    monthly: seq<PartnerMonth>)

  /** What an owner's summary promises: the owner's own users, counted once each, split
    * into direct and affiliate users, with consistent payouts and a sorted series. */
  predicate OwnerSummaryFacts(pid: string, s: PartnerSummary, db: Store)
    reads db
  {
    && s.partnerId == Some(IdStr(Trim(pid)))
    && s.usersTotal == |PartnerUsers(db.users, s.partnerId)|
    && s.usersTotal == s.usersDirect + s.usersAffiliates
    && PartnerConsistent(s.payouts)
    && SortedBy(s.monthly, MonthBucketLe)
    && SumInt(s.monthly, PMTotal) == s.usersTotal
    && s.affiliates == Roster(db.affiliates, s.partnerId)
  }

  /** `ownerSummaryHandler` */
  method OwnerSummary(db: Store, caller: Caller, now: Instant) returns (r: Reply<PartnerSummary>)
    ensures OwnerGate(caller).Reject? ==> r == Err(OwnerGate(caller).status, OwnerGate(caller).message)
    ensures OwnerGate(caller).Pass? ==> r.Ok? && r.status == 200 && OwnerSummaryFacts(OwnerGate(caller).value, r.data, db)
  {
    hide PartnerSummaryOf, PartnerEntries, PartnerUsers, Roster, RosterIds, CountDirect, PartnerFold, GroupMonths, SortBy, Trim;
    var guard := OwnerGate(caller);
    if guard.Reject? {
      return Err(guard.status, guard.message);
    }
    var summary := SummaryForPartner(Str(guard.value), db, now);
    PartnerSummaryFacts(Str(guard.value), db.users, db.partners, db.affiliates, db.PayoutCtx(), now);
    r := Ok(200, summary);
  }

  /** `ownerReportHandler` */
  method OwnerReport(db: Store, caller: Caller, now: Instant) returns (r: Reply<OwnerReportData>)
    ensures OwnerGate(caller).Reject? ==> r == Err(OwnerGate(caller).status, OwnerGate(caller).message)
    ensures OwnerGate(caller).Pass? ==>
              var pid := Some(IdStr(Trim(OwnerGate(caller).value)));
              && r.Ok? && r.status == 200
              && r.data.usersTotal == |PartnerUsers(db.users, pid)|
              && r.data.usersTotal == r.data.usersDirect + r.data.usersAffiliates
              && PartnerConsistent(r.data.payouts)
              && SortedBy(r.data.monthly, MonthBucketLe)
              && SumInt(r.data.monthly, PMTotal) == r.data.usersTotal
  {
    hide PartnerSummaryOf, PartnerEntries, PartnerUsers, Roster, RosterIds, CountDirect, PartnerFold, GroupMonths, SortBy, Trim;
    var guard := OwnerGate(caller);
    if guard.Reject? {
      return Err(guard.status, guard.message);
    }
    var s := SummaryForPartner(Str(guard.value), db, now);
    PartnerSummaryFacts(Str(guard.value), db.users, db.partners, db.affiliates, db.PayoutCtx(), now);
    r := Ok(200, OwnerReportData(s.usersDirect, s.usersAffiliates, s.usersTotal, s.payouts, s.monthly));
  }

  /** The partner id reaches the summary as text, and ids are compared strictly: a user
    * stored with a numeric partner id is never among the users of an owner whose
    * context carries that same number. */
  lemma NumericPartnerIdIsNotMatched(caller: Caller, n: int, users: seq<User>)
    requires OwnerGate(caller).Pass?
    requires forall u :: u in users ==> u.partnerRef == Num(n as real)
    ensures PartnerUsers(users, NormaliseId(Str(OwnerGate(caller).value))) == []
  {
    hide OwnerGate, Trim;
    var id := NormaliseId(Str(OwnerGate(caller).value));
    forall u | u in users ensures NormaliseId(u.partnerRef) != id {
      assert NormaliseId(u.partnerRef) == Some(IdNum(n));
    }
    if PartnerUsers(users, id) != [] {
      assert PartnerUsers(users, id)[0] in PartnerUsers(users, id);
    }
  }
}
