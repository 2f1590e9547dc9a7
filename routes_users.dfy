// The user registration endpoint of the in-browser API: a referral code is
// looked up, checked for status and capacity, and consumed by a new user.

module RoutesUsers {
  import opened Js
  import opened Records
  import opened Http
  import Validators

  /** The body fields the handler reads, each collapsing the source's alias chain. */
  datatype RegisterBody = RegisterBody(
    code: Value,     // code / codeValue / code_value / referralCode / referral_code
    email: Value,    // email / mail
    region: Value,   // region / country
    userType: Value, // type / userType
    status: Value,
    appId: Value)    // appId / app_id

  /** The user as the reply shows it. */
  datatype RegisteredUser = RegisteredUser(
    id: Value, code: Value, codeId: Value, partnerRef: Value, affiliateRef: Value, status: Value, createdAt: DateInput)

  /** `normaliseCodeValue`: `null` and blank strings are no code, other strings are
    * trimmed, and any other value is rendered with `String()`. */
  function NormaliseCodeValue(v: Value): (r: Option<string>)
    ensures r.None? <==> v.Missing? || (v.Str? && Trim(v.s) == "")
    ensures r.Some? ==> r.value != ""
    ensures v.Str? && r.Some? ==> r.value == Trim(v.s)
  {
    match v
    case Missing => None
    case Str(s) => if Trim(s) == "" then None else Some(Trim(s))
    case Num(n) => NumberTextNonEmpty(n); Some(JsString(v))
    case _ => Some(JsString(v))
  }

  /** The code id of `extractCodeIdentifiers`: `String(id)`, or none. */
  function CodeId(c: Code): Option<string>
  {
    if c.id.Missing? then None else Some(JsString(c.id))
  }

  /** The code value of `extractCodeIdentifiers`: a string is trimmed, anything else kept. */
  function CodeValue(c: Code): Value
  {
    if c.value.Str? then Str(Trim(c.value.s)) else c.value
  }

  /** A code row answers to `key` through its id or its value. */
  predicate MatchesKey(c: Code, key: string)
  {
    (CodeId(c).Some? && NormaliseCodeValue(Str(CodeId(c).value)) == Some(key))
    || (!CodeValue(c).Missing? && NormaliseCodeValue(CodeValue(c)) == Some(key))
  }

  /** `findCode`: the first code row answering to the key. */
  function FindCode(codes: seq<Code>, key: string): (r: Option<nat>)
    ensures r.None? <==> forall i :: 0 <= i < |codes| ==> !MatchesKey(codes[i], key)
    ensures r.Some? ==> r.value < |codes| && MatchesKey(codes[r.value], key)
                          && forall j :: 0 <= j < r.value ==> !MatchesKey(codes[j], key)
  {
    if codes == [] then None
    else if MatchesKey(codes[0], key) then Some(0)
    else
      match FindCode(codes[1..], key)
      case None => None
      case Some(k) => Some(k + 1)
  }

  /** The statuses that make a code inactive. */
  const InactiveStatuses: seq<string> := ["inactive", "disabled", "revoked", "blocked", "archived"]

  /** `isCodeActive`: a missing status is `'active'`, a status that is not a string
    * counts as active, and a string one is active unless it names a blocked state. */
  predicate IsCodeActive(c: Code)
  {
    var raw := if c.status.Missing? then Str("active") else c.status;
    !raw.Str? || Lower(Trim(raw.s)) !in InactiveStatuses
  }

  /** `maxUsesFor`: the numeric limit; a missing or negative one means unlimited. */
  function MaxUsesFor(c: Code): (r: Option<real>)
    ensures r.Some? ==> r.value >= 0.0
  {
    match ApiNumber(c.maxUses)
    case None => None
    case Some(x) => if x < 0.0 then None else Some(x)
  }

  /** `currentUsesFor`: the stored count, 0 when it is missing or not numeric. */
  function CurrentUsesFor(c: Code): real
  {
    ApiNumber(c.currentUses).GetOr(0.0)
  }

  predicate AtCapacity(c: Code)
  {
    MaxUsesFor(c).Some? && CurrentUsesFor(c) >= MaxUsesFor(c).value
  }

  /** The email address the handler keeps. */
  function EmailOf(b: RegisterBody): string
  {
    NormaliseString(b.email)
  }

  /** A body that passes the checks made before the store is read. */
  predicate WellFormed(body: Option<RegisterBody>)
  {
    body.Some? && NormaliseCodeValue(body.value.code).Some?
    && EmailOf(body.value) != "" && Contains(EmailOf(body.value), "@")
  }

  /** The guard clauses of `registerUserHandler`, in order: the index of the code to consume, or the refusal. */
  function Admit(body: Option<RegisterBody>, codes: seq<Code>): (r: Check<nat>)
    ensures r.Pass? ==> r.value < |codes| && WellFormed(body)
  {
    if body.None? then Reject(400, "Invalid payload.")
    else
      var key := NormaliseCodeValue(body.value.code);
      if key.None? then Reject(400, "A referral code is required.")
      else
        var email := EmailOf(body.value);
        if email == "" || !Contains(email, "@") then Reject(400, "A valid email address is required.")
        else match FindCode(codes, key.value)
          case None => Reject(404, "Referral code not found.")
          case Some(i) =>
            if !IsCodeActive(codes[i]) then Reject(409, "Referral code is not active.")
            else if AtCapacity(codes[i]) then Reject(409, "Referral code has reached its maximum uses.")
            else Pass(i)
  }

  /** `buildUserRecord` */
  function UserRecord(b: RegisterBody, c: Code, nextId: int, now: Instant): User
  {
    var status := NormaliseString(b.status);
    User(
      id := Num(nextId as real),
      email := Str(EmailOf(b)),
      status := Str(if status == "" then "active" else status),
      partnerRef := Coalesce(c.partnerRef, c.parentPartnerRef),
      affiliateRef := c.affiliateRef,
      codeRef := match CodeId(c) case Some(s) => Str(s) case None => Missing,
      code := CodeValue(c),
      role := Missing,
      accountType := Missing,
      region := OrNull(NormaliseString(b.region)),
      userType := OrNull(NormaliseString(b.userType)),
      appId := OrNull(NormaliseString(b.appId)),
      createdAt := At(now),
      cutFields := [],
      fields := map[],
      overrides := None)
  }

  /** `sanitiseUserForResponse` */
  function View(u: User): RegisteredUser
  {
    RegisteredUser(u.id, u.code, u.codeRef, u.partnerRef, u.affiliateRef, u.status, u.createdAt)
  }

  /** The code row after one use: the count rises by one but never above the limit. */
  function Consume(c: Code, now: Instant): Code
  {
    var current := CurrentUsesFor(c) + 1.0;
    var max := MaxUsesFor(c);
    c.(currentUses := Num(if max.Some? && current > max.value then max.value else current),
       updatedAt := At(now))
  }

  /** Every numbered user id is at most the counter. */
  predicate IdsWithin(users: seq<User>, last: int)
  {
    forall u :: u in users && u.id.Num? ==> u.id.n <= last as real
  }

  /** `registerUserHandler`. The store mutator runs right after the checks on the
    * same state, so its own `findCode` finds the same row. */
  method RegisterUser(db: Store, body: Option<RegisterBody>, now: Instant) returns (r: Reply<RegisteredUser>)
    modifies db`users, db`codes, db`lastUserId
    ensures Admit(body, old(db.codes)).Reject? ==>
              && r == Err(Admit(body, old(db.codes)).status, Admit(body, old(db.codes)).message)
              && db.users == old(db.users) && db.codes == old(db.codes) && db.lastUserId == old(db.lastUserId)
    ensures Admit(body, old(db.codes)).Pass? ==>
              var i := Admit(body, old(db.codes)).value;
              var u := UserRecord(body.value, old(db.codes)[i], old(db.lastUserId) + 1, now);
              && db.lastUserId == old(db.lastUserId) + 1
              && db.users == old(db.users) + [u]
              && db.codes == old(db.codes)[i := Consume(old(db.codes)[i], now)]
              && r == Ok(201, View(u))
    ensures IdsWithin(old(db.users), old(db.lastUserId)) ==> IdsWithin(db.users, db.lastUserId)
  {
    hide Admit, FindCode, NormaliseCodeValue, IsCodeActive, Trim, Lower, MatchesKey, NormaliseString, Contains, EmailOf, UserRecord, View, IdsWithin, Consume;
    var check := Admit(body, db.codes);
    if check.Reject? {
      return Err(check.status, check.message);
    }
    var i := check.value;
    db.lastUserId := db.lastUserId + 1;
    var nextId := db.lastUserId;
    var record := db.codes[i];
    var user := UserRecord(body.value, record, nextId, now);
    UserIdIsNext(old(db.users), body.value, record, nextId, now);
    db.users := db.users + [user];
    var codeMax := MaxUsesFor(record);
    var current := CurrentUsesFor(record) + 1.0;
    if codeMax.Some? && current > codeMax.value {
      current := codeMax.value;
    }
    ClampIsConsume(record, now, current);
    db.codes := db.codes[i := record.(currentUses := Num(current), updatedAt := At(now))];
    r := Ok(201, View(user));
  }

  /** The count the handler writes back is the consumed row's count. */
  lemma ClampIsConsume(c: Code, now: Instant, current: real)
    requires var next := CurrentUsesFor(c) + 1.0;
             current == if MaxUsesFor(c).Some? && next > MaxUsesFor(c).value then MaxUsesFor(c).value else next
    ensures c.(currentUses := Num(current), updatedAt := At(now)) == Consume(c, now)
  {
    hide CurrentUsesFor, MaxUsesFor;
  }

  /** Appending the record built with the next id keeps every id within the counter. */
  lemma UserIdIsNext(users: seq<User>, b: RegisterBody, c: Code, nextId: int, now: Instant)
    ensures IdsWithin(users, nextId - 1) ==> IdsWithin(users + [UserRecord(b, c, nextId, now)], nextId)
  {
    hide NormaliseString, EmailOf, CodeId, CodeValue, Coalesce;
  }

  // ---------------------------------------------------------------- properties

  /** A malformed body is refused with 400 whatever the store holds, and a
    * well-formed one is never refused with 400. */
  lemma BadRequestBeforeStore(body: Option<RegisterBody>, codes: seq<Code>, other: seq<Code>)
    ensures !WellFormed(body) ==> Admit(body, codes) == Admit(body, other) && Admit(body, codes).Reject?
                                    && Admit(body, codes).status == 400
    ensures WellFormed(body) && Admit(body, codes).Reject? ==> Admit(body, codes).status in {404, 409}
  {
    hide FindCode, IsCodeActive, MaxUsesFor, CurrentUsesFor, Trim, Lower, NormaliseCodeValue, NormaliseString, Contains;
  }

  /** 404 exactly when no code row answers to the normalised key. */
  lemma NotFoundIff(body: Option<RegisterBody>, codes: seq<Code>)
    requires WellFormed(body)
    ensures var key := NormaliseCodeValue(body.value.code).value;
            (Admit(body, codes).Reject? && Admit(body, codes).status == 404)
            <==> forall i :: 0 <= i < |codes| ==> !MatchesKey(codes[i], key)
  {
    hide MatchesKey, IsCodeActive, MaxUsesFor, CurrentUsesFor, Trim, Lower, NormaliseCodeValue, NormaliseString, Contains;
  }

  /** A registration passes exactly when the first matching row is active and below its limit. */
  lemma AdmitIff(body: Option<RegisterBody>, codes: seq<Code>)
    requires WellFormed(body)
    ensures var key := NormaliseCodeValue(body.value.code).value;
            Admit(body, codes).Pass?
            <==> exists i :: 0 <= i < |codes| && MatchesKey(codes[i], key)
                             && (forall j :: 0 <= j < i ==> !MatchesKey(codes[j], key))
                             && IsCodeActive(codes[i]) && !AtCapacity(codes[i])
  {
    hide MatchesKey, MaxUsesFor, CurrentUsesFor, Trim, Lower, NormaliseCodeValue, NormaliseString, Contains;
    var key := NormaliseCodeValue(body.value.code).value;
    var f := FindCode(codes, key);
    if f.Some? {
      forall i | 0 <= i < |codes| && MatchesKey(codes[i], key) && (forall j :: 0 <= j < i ==> !MatchesKey(codes[j], key))
        ensures i == f.value
      {
      }
    }
  }

  /** Only the five blocked names make a code inactive; every other status,
    * `'paused'` included, lets a registration through. */
  lemma OnlyBlockedStatusesRefuse(c: Code)
    ensures !IsCodeActive(c) <==> c.status.Str? && Lower(Trim(c.status.s)) in InactiveStatuses
  {
    if c.status.Missing? {
      TrimOfTrimmed("active");
      assert Lower("active") == "active";
      hide Trim, Lower;
      assert "active" !in InactiveStatuses;
    }
  }

  /** A `'paused'` code is active for registration, yet the code validator refuses it. */
  lemma PausedCodeDisagrees(c: Code)
    requires c.status == Str("paused")
    ensures IsCodeActive(c)
    ensures !Validators.CanUseCode(Some(Validators.CodeUsage(c.status, c.maxUses, c.uses, c.useCount, c.currentUses)))
  {
    hide Trim, TrimStart, TrimEnd, Lower;
    PausedSpelling();
    assert "paused" !in InactiveStatuses;
    assert Validators.StatusBlocks(c.status);
  }

  /** `'paused'` is already trimmed and lower-case. */
  lemma PausedSpelling()
    ensures Trim("paused") == "paused" && Lower("paused") == "paused"
  {
    TrimOfTrimmed("paused");
  }

  /** A negative limit is no limit. */
  lemma NegativeMaxIsUnlimited(c: Code)
    requires c.maxUses.Num? && c.maxUses.n < 0.0
    ensures MaxUsesFor(c).None? && !AtCapacity(c)
  {
  }

  /** Consuming an admitted code raises its count, never above the limit, and reading
    * the stored count back gives the new value. */
  lemma ConsumeWithinLimit(c: Code, now: Instant)
    requires !AtCapacity(c)
    ensures CurrentUsesFor(Consume(c, now)) > CurrentUsesFor(c)
    ensures MaxUsesFor(c).Some? ==> CurrentUsesFor(Consume(c, now)) <= MaxUsesFor(c).value
    ensures MaxUsesFor(c).None? ==> CurrentUsesFor(Consume(c, now)) == CurrentUsesFor(c) + 1.0
    ensures MaxUsesFor(Consume(c, now)) == MaxUsesFor(c) && IsCodeActive(Consume(c, now)) == IsCodeActive(c)
    ensures AtCapacity(Consume(c, now)) <==> MaxUsesFor(c).Some? && CurrentUsesFor(c) + 1.0 >= MaxUsesFor(c).value
  {
  }

  /** The new user carries the id or value of the code it consumed, so looking that
    * key up again finds the code's identity on the user. */
  lemma RecordRefersToCode(b: RegisterBody, c: Code, key: string, nextId: int, now: Instant)
    requires MatchesKey(c, key)
    ensures var u := UserRecord(b, c, nextId, now);
            (u.codeRef.Str? && NormaliseCodeValue(u.codeRef) == Some(key))
            || (!u.code.Missing? && NormaliseCodeValue(u.code) == Some(key))
    ensures var u := UserRecord(b, c, nextId, now);
            u.partnerRef == (if c.partnerRef.Missing? then c.parentPartnerRef else c.partnerRef)
            && u.affiliateRef == c.affiliateRef
  {
  }

  /** A registered user has the next id, so it differs from every numbered id before it,
    * and its address contains `@`. */
  lemma NewUserIsFresh(db: seq<User>, last: int, body: Option<RegisterBody>, codes: seq<Code>, now: Instant)
    requires IdsWithin(db, last) && Admit(body, codes).Pass?
    ensures var u := UserRecord(body.value, codes[Admit(body, codes).value], last + 1, now);
            && (forall v :: v in db ==> v.id != u.id)
            && u.email.Str? && Contains(u.email.s, "@")
  {
  }
}
