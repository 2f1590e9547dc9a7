// The records kept in the browser store and the store itself.
//
// Each field collapses the source's `a ?? b ?? c` alias chain into one
// canonical field; where the order of the candidates decides behaviour the
// candidates are kept as an ordered sequence instead.

module Records {
  import opened Js

  /** A user row. */
  datatype User = User(
    id: Value,
    email: Value,
    status: Value,
    partnerRef: Value,     // partnerId / partner_id / parent_partner_id
    affiliateRef: Value,   // affiliateId / affiliate_id / parent_affiliate_id
    codeRef: Value,        // codeId / code_id
    code: Value,           // code / codeValue / code_value / inviteCode / invite_code
    role: Value,           // role / roleCode / role_code / userType
    accountType: Value,    // accountType / account_type / segment / tier / plan
    region: Value,
    userType: Value,       // type
    appId: Value,          // appId / app_id / applicationId
    createdAt: DateInput,  // createdAt / created_at / joinedAt
    cutFields: seq<Value>, // the seven user-level partner-cut fields, in lookup order
    fields: map<string, Value>,           // the user's own top-level fields, for the override lookup
    overrides: Option<map<string, Value>> // payoutOverride / payout_override / payout / payouts when it is an object
  )

  datatype Partner = Partner(id: Value, name: Value, cutFields: seq<Value>)

  datatype Affiliate = Affiliate(id: Value, partnerRef: Value, cutFields: seq<Value>)

  datatype App = App(id: Value, name: Value)

  /** A referral code row, as written by the code API or the admin view. */
  datatype Code = Code(
    id: Value,               // id / codeId / code_id
    value: Value,            // value / code
    codeType: Value,         // type
    role: Value,             // role (admin view)
    partnerRef: Value,       // partner_id / partnerId
    parentPartnerRef: Value, // parent_partner_id / parentPartnerId
    affiliateRef: Value,     // affiliate_id / affiliateId / parent_affiliate_id / parentAffiliateId
    status: Value,           // status / state / lifecycle / metadata.status
    maxUses: Value,          // max_uses / maxUses
    currentUses: Value,      // current_uses / currentUses
    uses: Value,             // uses / usage_count
    useCount: Value,         // use_count
    notes: Value,
    currency: Value,
    payoutOverrides: Value,  // payout_overrides / payoutOverrides
    createdAt: DateInput,
    updatedAt: DateInput,
    ownerUserRef: Value,     // owner_user_id / userId / user_id (admin view)
    ownerName: Value,        // owner_name / ownerName / owner (admin view)
    email: Value,
    phone: Value,
    region: Value            // region / partner_region (admin view)
  )

  datatype Invoice = Invoice(
    id: Value,               // id / invoiceId / invoice_id
    partnerRef: Value,       // partner_id / partnerId / partner
    partnerName: Value,
    period: Value,
    cutoffDate: DateInput,
    createdAt: DateInput,
    dueDate: Value,          // due_date, `YYYY-MM-DD`
    cutoffDay: Value,
    amount: Value,
    payoutDirect: Value,
    payoutFromAffiliates: Value,
    affiliatePayout: Value,
    usersCount: Value,
    status: Value,
    updatedAt: DateInput
  )

  /** An entry of the payment history kept by the payments views. */
  datatype HistoryEntry = HistoryEntry(
    id: string,
    invoiceId: Value,
    status: string,
    amount: Value,
    changedAt: DateInput,
    partnerRef: Value
  )

  /** The settings the billing rules read. */
  datatype Config = Config(
    partnerTable: Option<map<string, Value>>,   // first object among the payout_base paths
    affiliateTable: Option<map<string, Value>>, // first object among the payout_affiliate paths
    cutTable: seq<Value>,                       // the eight partner_cut paths, in lookup order
    cutoffDays: seq<Value>                      // the twelve cutoff_day paths, in lookup order
  )

  /** What a payout computation reads from the store. */
  datatype Ctx = Ctx(partners: seq<Partner>, affiliates: seq<Affiliate>, config: Config)

  /** The persisted database. */
  class Store {
    var users: seq<User>
    var codes: seq<Code>
    var partners: seq<Partner>
    var affiliates: seq<Affiliate>
    var apps: seq<App>
    var invoices: seq<Invoice>
    var history: seq<HistoryEntry>
    var lastUserId: int
    var lastCodeId: int
    var config: Config

    function PayoutCtx(): Ctx
      reads this
    {
      Ctx(partners, affiliates, config)
    }
  }
}
