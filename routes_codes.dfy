// The referral-code endpoints of the in-browser API: creating a code (with
// its counter and uniqueness rules), updating one, and the code view they reply with.

module RoutesCodes {
  import opened Js
  import opened Records
  import opened Http
  import Validators

  /** The body fields `createCodeHandler` reads, each collapsing the source's alias chain. */
  datatype CodeBody = CodeBody(
    codeType: Value,        // type / codeType
    partnerId: Value,       // partner_id / partnerId
    parentPartnerId: Value, // parent_partner_id / parentPartnerId
    affiliateId: Value,     // affiliate_id / affiliateId / parent_affiliate_id / parentAffiliateId
    maxUses: Value,         // max_uses / maxUses
    notes: Value,
    currency: Value,
    payoutOverrides: Value, // the first of payout_overrides / payoutOverrides that is an object
    id: Value,              // id / code_id / codeId
    value: Value,           // value / code
    status: Value)

  /** The fields an update names; `None` is a field the body does not have. */
  datatype CodeUpdate = CodeUpdate(
    status: Option<Value>,
    maxUses: Option<Value>,         // present when max_uses or maxUses is, read as max_uses ?? maxUses
    notes: Option<Value>,
    payoutOverrides: Option<Value>, // present when either spelling is, read as payout_overrides ?? payoutOverrides
    currency: Option<Value>)

  /** A code as the replies show it (`sanitiseCode`). */
  datatype CodeView = CodeView(
    id: Value, value: Value, codeType: Value, status: string,
    maxUses: Option<int>, currentUses: real, remainingUses: Option<real>,
    notes: Value, payoutOverrides: Value, currency: string,
    partnerRef: Value, affiliateRef: Value, createdAt: DateInput, updatedAt: DateInput,
    usersCount: nat)

  // ---------------------------------------------------------------- field rules

  /** `parseMaxUses`: no limit for a missing, non-numeric or negative input, else its floor. */
  function ParseMaxUses(v: Value): (r: Option<int>)
    ensures r.Some? <==> ApiNumber(v).Some? && ApiNumber(v).value >= 0.0
    ensures r.Some? ==> 0 <= r.value && r.value as real <= ApiNumber(v).value < r.value as real + 1.0
  {
    match ApiNumber(v)
    case None => None
    case Some(x) => if x < 0.0 then None else Some(x.Floor)
  }

  /** `normaliseStatus`: the trimmed status, `'active'` when blank or not a string. */
  function NormaliseStatus(v: Value): (r: string)
    ensures r != "" && IsTrimmed(r)
    ensures NormaliseString(v) != "" ==> r == NormaliseString(v)
  {
    var s := NormaliseString(v);
    if s == "" then "active" else s
  }

  /** `normaliseString(x ?? 'USD') || 'USD'` */
  function Currency(v: Value): (r: string)
    ensures r != ""
  {
    var s := NormaliseString(Coalesce(v, Str("USD")));
    if s == "" then "USD" else s
  }

  /** The code type: `AF` only when the trimmed, upper-cased input is exactly `AF`. */
  function CodeType(v: Value): (r: string)
    ensures r == "AF" || r == "PT"
  {
    if Upper(NormaliseString(Coalesce(v, Str("PT")))) == "AF" then "AF" else "PT"
  }

  /** `generateCodeValue`: the type's prefix, a hyphen and the counter padded to four digits. */
  function GenerateCodeValue(codeType: string, nextId: int): string
  {
    (if codeType == "AF" then "AF" else "PT") + "-" + PadStart(IntText(nextId), 4)
  }

  /** `a || b` on optional texts. */
  function TextOr(a: string, b: string): string
  {
    if a == "" then b else a
  }

  function OptionalText(v: Option<string>): Value
  {
    match v case Some(s) => Str(s) case None => Missing
  }

  /** `remaining_uses`: what is left below the limit, never negative; none without a limit. */
  function Remaining(c: Code): (r: Option<real>)
  {
    match ParseMaxUses(c.maxUses)
    case None => None
    case Some(m) =>
      var used := ApiNumber(c.currentUses).GetOr(0.0);
      Some(if m as real - used > 0.0 then m as real - used else 0.0)
  }

  /** A user counts towards a code when both have an id and they agree, or else
    * when both have a non-empty value and they agree. */
  predicate CountsToward(u: User, c: Code)
  {
    var userId := IdTextOf(Coalesce(u.codeRef, u.code));
    var codeId := IdTextOf(c.id);
    if codeId.Some? && userId.Some? then userId == codeId
    else
      var userValue := NormaliseString(u.code);
      var codeValue := NormaliseString(c.value);
      userValue != "" && codeValue != "" && userValue == codeValue
  }

  /** The `usageCount` filter's length: the users that count towards the code. */
  function UsersCount(users: seq<User>, c: Code): (n: nat)
    ensures n <= |users|
    ensures n == 0 <==> forall i :: 0 <= i < |users| ==> !CountsToward(users[i], c)
    ensures n == |users| <==> forall i :: 0 <= i < |users| ==> CountsToward(users[i], c)
  {
    var r := Where(users, u => CountsToward(u, c));
    assert |r| > 0 ==> r[0] in users && CountsToward(r[0], c);
    |r|
  }

  /** Counting splits over concatenated user lists; with the single-user case of the function's
    * own contract, the count is the number of users that count towards the code. */
  lemma UsersCountAppend(a: seq<User>, b: seq<User>, c: Code)
    ensures UsersCount(a + b, c) == UsersCount(a, c) + UsersCount(b, c)
  {
    WhereAppend(a, b, u => CountsToward(u, c));
  }

  /** `sanitiseCode` */
  function View(c: Code, users: seq<User>): CodeView
  {
    CodeView(
      id := c.id, value := c.value, codeType := c.codeType, status := NormaliseStatus(c.status),
      maxUses := ParseMaxUses(c.maxUses), currentUses := ApiNumber(c.currentUses).GetOr(0.0),
      remainingUses := Remaining(c),
      notes := c.notes, payoutOverrides := c.payoutOverrides, currency := Currency(c.currency),
      partnerRef := Coalesce(c.partnerRef, c.parentPartnerRef), affiliateRef := c.affiliateRef,
      createdAt := c.createdAt, updatedAt := c.updatedAt,
      usersCount := UsersCount(users, c))
  }

  // ---------------------------------------------------------------- create

  /** What `createCodeHandler` settles before it touches the store. */
  datatype Draft = Draft(
    codeType: string, partnerId: string, parentPartnerId: Option<string>, affiliateId: Option<string>,
    maxUses: Option<int>, notes: string, currency: string)

  /** `requireAdmin` */
  function RequireAdmin(caller: Caller): (r: Check<()>)
    ensures r.Reject? <==> !HasRole(caller, ["admin"])
    ensures r.Reject? ==> r.status == 403
  {
    if HasRole(caller, ["admin"]) then Pass(()) else Reject(403, "Admin privileges required.")
  }

  /** The guard clauses of `createCodeHandler` and the fields they settle. */
  function CreateGuard(caller: Caller, body: Option<CodeBody>): (r: Check<Draft>)
    ensures r.Pass? ==> body.Some? && HasRole(caller, ["admin"])
  {
    if !HasRole(caller, ["admin"]) then Reject(403, "Admin privileges required.")
    else if body.None? then Reject(400, "Invalid payload.")
    else
      var b := body.value;
      var codeType := CodeType(b.codeType);
      var partnerId := IdTextOf(b.partnerId);
      if partnerId.None? then Reject(400, "A partner_id is required.")
      else if codeType == "AF" && !Truthy(b.parentPartnerId) then
        Reject(400, "An affiliate code must include parent_partner_id.")
      else
        Pass(Draft(
          codeType, partnerId.value,
          IdTextOf(Coalesce(b.parentPartnerId, Str(partnerId.value))),
          if codeType == "AF" then IdTextOf(b.affiliateId) else None,
          ParseMaxUses(b.maxUses), NormaliseString(b.notes), Currency(b.currency)))
  }

  /** The id of a new code: the body's, or the counter. */
  function NewCodeId(b: CodeBody, nextId: int): string
  {
    TextOr(NormaliseString(b.id), IntText(nextId))
  }

  /** The value of a new code: the body's, or a generated one. */
  function NewCodeValue(b: CodeBody, codeType: string, nextId: int): string
  {
    NormaliseString(Coalesce(b.value, Str(GenerateCodeValue(codeType, nextId))))
  }

  predicate IdTaken(codes: seq<Code>, id: string)
  {
    exists c :: c in codes && IdTextOf(c.id) == Some(id)
  }

  predicate ValueTaken(codes: seq<Code>, value: string)
  {
    exists c :: c in codes && NormaliseString(c.value) == value
  }

  /** The record `createCodeHandler` pushes. */
  function NewCode(b: CodeBody, d: Draft, nextId: int, now: Instant): Code
  {
    Code(
      id := Str(NewCodeId(b, nextId)),
      value := Str(NewCodeValue(b, d.codeType, nextId)),
      codeType := Str(d.codeType),
      role := Missing,
      partnerRef := Str(d.partnerId),
      parentPartnerRef := OptionalText(d.parentPartnerId),
      affiliateRef := OptionalText(d.affiliateId),
      status := Str(NormaliseStatus(b.status)),
      maxUses := match d.maxUses case Some(m) => Num(m as real) case None => Missing,
      currentUses := Num(0.0),
      uses := Missing,
      useCount := Missing,
      notes := OrNull(d.notes),
      currency := Str(d.currency),
      payoutOverrides := b.payoutOverrides,
      createdAt := At(now),
      updatedAt := At(now),
      ownerUserRef := Missing,
      ownerName := Missing,
      email := Missing,
      phone := Missing,
      region := Missing)
  }

  /** `createCodeHandler`. The counter is raised inside the store mutator and put
    * back when the id or the value is already taken. */
  method CreateCode(db: Store, caller: Caller, body: Option<CodeBody>, now: Instant) returns (r: Reply<CodeView>)
    modifies db`codes, db`lastCodeId
    ensures CreateGuard(caller, body).Reject? ==>
              && r == Err(CreateGuard(caller, body).status, CreateGuard(caller, body).message)
              && db.codes == old(db.codes) && db.lastCodeId == old(db.lastCodeId)
    ensures CreateGuard(caller, body).Pass? ==>
              var b := body.value;
              var d := CreateGuard(caller, body).value;
              var nextId := old(db.lastCodeId) + 1;
              var id := NewCodeId(b, nextId);
              var value := NewCodeValue(b, d.codeType, nextId);
              if IdTaken(old(db.codes), id) then
                && r == Err(409, "A referral code with this id already exists.")
                && db.codes == old(db.codes) && db.lastCodeId == old(db.lastCodeId)
              else if ValueTaken(old(db.codes), value) then
                && r == Err(409, "A referral code with this value already exists.")
                && db.codes == old(db.codes) && db.lastCodeId == old(db.lastCodeId)
              else
                var c := NewCode(b, d, nextId, now);
                && db.codes == old(db.codes) + [c]
                && db.lastCodeId == nextId
                && r == Ok(201, View(c, db.users))
  {
    var guard := CreateGuard(caller, body);
    if guard.Reject? {
      return Err(guard.status, guard.message);
    }
    var b := body.value;
    var d := guard.value;
    db.lastCodeId := db.lastCodeId + 1;
    var nextId := db.lastCodeId;
    var id := NewCodeId(b, nextId);
    var value := NewCodeValue(b, d.codeType, nextId);
    if IdTaken(db.codes, id) {
      db.lastCodeId := db.lastCodeId - 1;
      return Err(409, "A referral code with this id already exists.");
    }
    if ValueTaken(db.codes, value) {
      db.lastCodeId := db.lastCodeId - 1;
      return Err(409, "A referral code with this value already exists.");
    }
    var c := NewCode(b, d, nextId, now);
    db.codes := db.codes + [c];
    r := Ok(201, View(c, db.users));
  }

  // ---------------------------------------------------------------- update

  /** The first code whose normalised id equals the target's. */
  function FindById(codes: seq<Code>, target: Option<string>): (r: Option<nat>)
    ensures r.None? <==> forall i :: 0 <= i < |codes| ==> IdTextOf(codes[i].id) != target
    ensures r.Some? ==> r.value < |codes| && IdTextOf(codes[r.value].id) == target
                          && forall j :: 0 <= j < r.value ==> IdTextOf(codes[j].id) != target
  {
    if codes == [] then None
    else if IdTextOf(codes[0].id) == target then Some(0)
    else
      match FindById(codes[1..], target)
      case None => None
      case Some(k) => Some(k + 1)
  }

  /** The record after an update: each named field is rewritten, and the time stamped. */
  function ApplyUpdate(c: Code, u: CodeUpdate, now: Instant): Code
  {
    c.(status := match u.status case Some(v) => Str(NormaliseStatus(v)) case None => c.status,
       maxUses := match u.maxUses
                  case Some(v) => (match ParseMaxUses(v) case Some(m) => Num(m as real) case None => Missing)
                  case None => c.maxUses,
       notes := match u.notes case Some(v) => OrNull(NormaliseString(v)) case None => c.notes,
       payoutOverrides := match u.payoutOverrides
                          case Some(v) => (if v.Obj? then Obj else Missing)
                          case None => c.payoutOverrides,
       currency := match u.currency case Some(v) => Str(Currency(v)) case None => c.currency,
       updatedAt := At(now))
  }

  /** `updateCodeHandler` */
  method UpdateCode(db: Store, caller: Caller, id: Value, updates: CodeUpdate, now: Instant) returns (r: Reply<CodeView>)
    modifies db`codes
    ensures !HasRole(caller, ["admin"]) ==> r == Err(403, "Admin privileges required.") && db.codes == old(db.codes)
    ensures HasRole(caller, ["admin"]) && !Truthy(id) ==> r == Err(400, "A code id is required.") && db.codes == old(db.codes)
    ensures HasRole(caller, ["admin"]) && Truthy(id) ==>
              match FindById(old(db.codes), IdTextOf(id))
              case None => r == Err(404, "Referral code not found.") && db.codes == old(db.codes)
              case Some(i) =>
                var c := ApplyUpdate(old(db.codes)[i], updates, now);
                db.codes == old(db.codes)[i := c] && r == Ok(200, View(c, db.users))
  {
    hide HasRole, GetRole, NormaliseStatus, ParseMaxUses, Currency, NormaliseString, View, Trim, IdTextOf;
    var guard := RequireAdmin(caller);
    if guard.Reject? {
      return Err(guard.status, guard.message);
    }
    if !Truthy(id) {
      return Err(400, "A code id is required.");
    }
    var found := FindById(db.codes, IdTextOf(id));
    if found.None? {
      return Err(404, "Referral code not found.");
    }
    var i := found.value;
    var record := db.codes[i];
    if updates.status.Some? {
      record := record.(status := Str(NormaliseStatus(updates.status.value)));
    }
    if updates.maxUses.Some? {
      var m := ParseMaxUses(updates.maxUses.value);
      record := record.(maxUses := if m.Some? then Num(m.value as real) else Missing);
    }
    if updates.notes.Some? {
      record := record.(notes := OrNull(NormaliseString(updates.notes.value)));
    }
    if updates.payoutOverrides.Some? {
      record := record.(payoutOverrides := if updates.payoutOverrides.value.Obj? then Obj else Missing);
    }
    if updates.currency.Some? {
      record := record.(currency := Str(Currency(updates.currency.value)));
    }
    record := record.(updatedAt := At(now));
    db.codes := db.codes[i := record];
    r := Ok(200, View(record, db.users));
  }

  // ---------------------------------------------------------------- properties

  /** A created code is fresh: its id and value were not taken, it has no uses yet,
    * and it is active unless the body names another status. */
  lemma NewCodeFacts(b: CodeBody, d: Draft, nextId: int, now: Instant, codes: seq<Code>)
    requires d.maxUses.Some? ==> d.maxUses.value >= 0
    requires !IdTaken(codes, NewCodeId(b, nextId)) && !ValueTaken(codes, NewCodeValue(b, d.codeType, nextId))
    ensures var c := NewCode(b, d, nextId, now);
            && (forall x :: x in codes ==> IdTextOf(x.id) != IdTextOf(c.id) && NormaliseString(x.value) != NormaliseString(c.value))
            && ApiNumber(c.currentUses) == Some(0.0)
            && (NormaliseString(b.status) == "" ==> c.status == Str("active"))
            && ParseMaxUses(c.maxUses) == d.maxUses
  {
    hide Trim, TrimStart, TrimEnd, NormaliseString, IdTextOf, IntText, NatText, GenerateCodeValue, PadStart, Upper;
    var c := NewCode(b, d, nextId, now);
    var id := NewCodeId(b, nextId);
    var value := NewCodeValue(b, d.codeType, nextId);
    if NormaliseString(b.id) == "" { IntTextTrimmed(nextId); }
    NormalisedTrimmed(id);
    NormalisedTrimmed(value);
    if d.maxUses.Some? {
      NumberTextOfInt(d.maxUses.value);
    }
    assert c.status == Str(NormaliseStatus(b.status));
  }

  lemma IntTextTrimmed(n: int)
    ensures IsTrimmed(IntText(n)) && IntText(n) != ""
  {
    var t := NatText(if n < 0 then -n else n);
    assert IsDigit(t[0]) && IsDigit(t[|t| - 1]);
  }

  lemma NumberTextOfInt(m: int)
    requires m >= 0
    ensures ApiNumber(Num(m as real)) == Some(m as real)
    ensures ParseMaxUses(Num(m as real)) == Some(m)
  {
  }

  /** 403 before any other check, then 400 for a missing partner or an affiliate code
    * without a parent; a code is `AF` only when its type says so. */
  lemma CreateGuardOrder(caller: Caller, body: Option<CodeBody>)
    ensures !HasRole(caller, ["admin"]) ==> CreateGuard(caller, body) == Reject(403, "Admin privileges required.")
    ensures HasRole(caller, ["admin"]) && body.Some? && IdTextOf(body.value.partnerId).None?
            ==> CreateGuard(caller, body) == Reject(400, "A partner_id is required.")
    ensures HasRole(caller, ["admin"]) && body.Some? && IdTextOf(body.value.partnerId).Some?
            && CodeType(body.value.codeType) == "AF" && !Truthy(body.value.parentPartnerId)
            ==> CreateGuard(caller, body).Reject? && CreateGuard(caller, body).status == 400
    ensures CreateGuard(caller, body).Pass? && CreateGuard(caller, body).value.codeType == "AF"
            ==> Truthy(body.value.parentPartnerId) && CreateGuard(caller, body).value.affiliateId == IdTextOf(body.value.affiliateId)
    ensures CreateGuard(caller, body).Pass? && CreateGuard(caller, body).value.codeType == "PT"
            ==> CreateGuard(caller, body).value.affiliateId.None?
  {
  }

  /** A normalised text that is already trimmed reads back as itself, and a
    * non-empty one is also its own id. */
  lemma NormalisedTrimmed(s: string)
    requires IsTrimmed(s)
    ensures NormaliseString(Str(s)) == s
    ensures s != "" ==> IdTextOf(Str(s)) == Some(s)
  {
    TrimOfTrimmed(s);
  }

  /** A missing type, or one that is not a string, makes a `PT` code. */
  lemma CodeTypeDefaultsToPT(v: Value)
    requires !v.Str?
    ensures CodeType(v) == "PT"
  {
    if v.Missing? {
      NormalisedTrimmed("PT");
      assert Upper("PT") == "PT";
    } else {
      assert Upper("") == "";
    }
  }

  /** Lower-case `af` makes an affiliate code. */
  lemma LowerCaseAfIsAffiliate()
    ensures CodeType(Str("af")) == "AF"
  {
    NormalisedTrimmed("af");
    assert Upper("af") == "AF";
  }

  /** Surrounding white space does not change the type. */
  lemma CodeTypeIgnoresPadding(t: string, pad: string)
    requires IsTrimmed(t) && t != ""
    requires forall i :: 0 <= i < |pad| ==> IsSpace(pad[i])
    ensures CodeType(Str(pad + t + pad)) == CodeType(Str(t))
  {
    TrimAround(pad, t);
    TrimOfTrimmed(t);
  }

  /** `remaining_uses` is the gap to the limit, never negative, and none without a limit. */
  lemma RemainingFacts(c: Code)
    ensures Remaining(c).None? <==> ParseMaxUses(c.maxUses).None?
    ensures Remaining(c).Some? ==> Remaining(c).value >= 0.0
    ensures Remaining(c).Some? ==>
              var used := ApiNumber(c.currentUses).GetOr(0.0);
              var max := ParseMaxUses(c.maxUses).value as real;
              (Remaining(c).value == 0.0 <==> used >= max)
              && (used <= max ==> Remaining(c).value + used == max)
  {
  }

  /** Zero padding does not change the number the digits spell. */
  lemma {:induction false} LeadingZero(s: string)
    requires AllDigits(s)
    ensures AllDigits("0" + s) && DigitsValue("0" + s) == DigitsValue(s)
  {
    if s != [] {
      var t := "0" + s;
      assert t[..|t| - 1] == "0" + s[..|s| - 1];
      LeadingZero(s[..|s| - 1]);
    }
  }

  lemma {:induction false} PadDigits(s: string, width: nat)
    requires AllDigits(s)
    ensures AllDigits(PadStart(s, width)) && DigitsValue(PadStart(s, width)) == DigitsValue(s)
    decreases width - |s|
  {
    if |s| < width {
      LeadingZero(s);
      PadDigits("0" + s, width);
    }
  }

  /** A generated value reads back: after the three-character prefix come only digits,
    * at least four of them, spelling the counter. */
  lemma GeneratedValueReadsBack(codeType: string, n: nat)
    ensures var g := GenerateCodeValue(codeType, n);
            && |g| >= 7
            && g[..3] == (if codeType == "AF" then "AF-" else "PT-")
            && AllDigits(g[3..]) && DigitsValue(g[3..]) == n
  {
    var g := GenerateCodeValue(codeType, n);
    var p := PadStart(NatText(n), 4);
    PadDigits(NatText(n), 4);
    NatTextRoundTrip(n);
    assert g[3..] == p;
  }

  /** A generated value never passes the code validator: the validator wants seven
    * characters without a hyphen, the generator writes one after the prefix. */
  lemma GeneratedValueFailsValidator(codeType: string, n: nat)
    ensures !Validators.IsValidCode(Str(GenerateCodeValue(codeType, n)))
  {
    hide Trim, TrimStart, TrimEnd, Upper, GenerateCodeValue, PadStart, NatText, DigitsValue;
    var g := GenerateCodeValue(codeType, n);
    GeneratedValueReadsBack(codeType, n);
    assert g[2] == g[..3][2] == '-';
    assert IsTrimmed(g) by {
      assert g[0] == g[..3][0];
      assert g[|g| - 1] == g[3..][|g[3..]| - 1];
    }
    TrimOfTrimmed(g);
    if Validators.IsValidCode(Str(g)) {
      Validators.ValidCodeHasNoHyphen(Str(g));
    }
  }

  /** An update leaves a code's identity alone and touches only the fields it names. */
  lemma UpdateKeepsIdentity(c: Code, u: CodeUpdate, now: Instant)
    ensures var n := ApplyUpdate(c, u, now);
            && n.id == c.id && n.value == c.value && n.codeType == c.codeType
            && n.partnerRef == c.partnerRef && n.parentPartnerRef == c.parentPartnerRef
            && n.affiliateRef == c.affiliateRef && n.currentUses == c.currentUses
            && n.updatedAt == At(now)
    ensures u == CodeUpdate(None, None, None, None, None) ==> ApplyUpdate(c, u, now) == c.(updatedAt := At(now))
    ensures ApplyUpdate(ApplyUpdate(c, u, now), u, now) == ApplyUpdate(c, u, now)
  {
  }
}
