// The reply shapes of the in-browser API handlers and the caller context
// they read: who is calling (the role) and on behalf of which partner.

module Http {
  import opened Js

  /** A handler's reply: `{ok: true, status, data}` or `{ok: false, status, message}`. */
  datatype Reply<+T> = Ok(status: int, data: T) | Err(status: int, message: string)

  /** The outcome of a handler's guard clauses: go on with a value, or refuse with a status. */
  datatype Check<+T> = Pass(value: T) | Reject(status: int, message: string)

  /** The request context. Each list keeps the source's candidate order:
    * `roles` is `[context.role, context.user.role, context.currentUser.role]`,
    * `partnerIds` the six `partnerId` / `partner_id` spellings on the context,
    * its `user` and its `currentUser`. */
  datatype Caller = Caller(roles: seq<Value>, partnerIds: seq<Value>)

  /** `toNumber` of the API routes: `null`, `undefined` and `''` are no number, nor is a non-finite one. */
  function ApiNumber(v: Value): (r: Option<real>)
    ensures v.Num? ==> r == Some(v.n)
    ensures v.Missing? || v == Str("") ==> r == None
    ensures r.Some? ==> JsNumber(v) == Fin(r.value)
  {
    if v.Missing? || v == Str("") then None
    else match JsNumber(v) case Fin(x) => Some(x) case NotFinite => None
  }

  /** `normaliseString`: a string trimmed; anything else is empty. */
  function NormaliseString(v: Value): (r: string)
    ensures IsTrimmed(r)
    ensures !v.Str? ==> r == ""
  {
    if v.Str? then Trim(v.s) else ""
  }

  /** `x || null` on a normalised string. */
  function OrNull(s: string): Value
  {
    if s == "" then Missing else Str(s)
  }

  // ---------------------------------------------------------------- role

  /** A role candidate `getRole` accepts: a string that is not blank. */
  predicate RoleCandidate(v: Value)
  {
    v.Str? && Trim(v.s) != ""
  }

  /** The role an accepted candidate names: trimmed and lower-cased. */
  function RoleText(v: Value): string
    requires RoleCandidate(v)
  {
    Lower(Trim(v.s))
  }

  /** The first candidate `accept` takes, as `for ... of` with an early return finds it. */
  function FirstAccepted(vs: seq<Value>, accept: Value -> bool): (k: Option<nat>)
    ensures k.None? <==> forall i :: 0 <= i < |vs| ==> !accept(vs[i])
    ensures k.Some? ==> k.value < |vs| && accept(vs[k.value])
                          && forall j :: 0 <= j < k.value ==> !accept(vs[j])
  {
    if vs == [] then None
    else if accept(vs[0]) then Some(0)
    else
      match FirstAccepted(vs[1..], accept)
      case None => None
      case Some(k) => Some(k + 1)
  }

  /** `getRole`: the first non-blank string candidate, trimmed and lower-cased. */
  function GetRole(roles: seq<Value>): (r: Option<string>)
    ensures r.None? <==> forall i :: 0 <= i < |roles| ==> !RoleCandidate(roles[i])
    ensures r.Some? ==> exists i :: 0 <= i < |roles| && RoleCandidate(roles[i])
                          && (forall j :: 0 <= j < i ==> !RoleCandidate(roles[j]))
                          && r.value == RoleText(roles[i])
  {
    match FirstAccepted(roles, RoleCandidate)
    case None => None
    case Some(k) => Some(RoleText(roles[k]))
  }

  /** `hasRole(context, roles)` */
  predicate HasRole(c: Caller, allowed: seq<string>)
  {
    GetRole(c.roles).Some? && GetRole(c.roles).value in allowed
  }

  lemma {:induction false} LowerIdempotent(s: string)
    ensures Lower(Lower(s)) == Lower(s)
  {
    assert forall i :: 0 <= i < |s| ==> LowerChar(LowerChar(s[i])) == LowerChar(s[i]);
  }

  lemma {:induction false} LowerKeepsSpaces(s: string)
    ensures forall i :: 0 <= i < |s| ==> (IsSpace(Lower(s)[i]) <==> IsSpace(s[i]))
  {
  }

  lemma {:induction false} LowerOfTrimmed(s: string)
    requires IsTrimmed(s)
    ensures IsTrimmed(Lower(s))
  {
    LowerKeepsSpaces(s);
  }

  /** A resolved role reads back as itself: it is already trimmed and lower-case. */
  lemma RoleIsNormal(roles: seq<Value>)
    requires GetRole(roles).Some?
    ensures GetRole([Str(GetRole(roles).value)]) == GetRole(roles)
  {
    var k := FirstAccepted(roles, RoleCandidate).value;
    var t := Trim(roles[k].s);
    var x := Lower(t);
    assert x == GetRole(roles).value;
    LowerOfTrimmed(t);
    TrimOfTrimmed(x);
    LowerIdempotent(t);
    assert |x| == |t| > 0;
    hide Trim, Lower, GetRole;
    assert RoleCandidate(Str(x));
    assert RoleText(Str(x)) == x;
    assert FirstAccepted([Str(x)], RoleCandidate) == Some(0);
  }

  /** Role names are compared after trimming and lower-casing: any spelling of an
    * allowed role passes. */
  lemma RoleIgnoresCaseAndPadding(role: string, pad: string, allowed: seq<string>)
    requires role in allowed && role != "" && IsTrimmed(role) && Lower(role) == role
    requires forall i :: 0 <= i < |pad| ==> IsSpace(pad[i])
    ensures HasRole(Caller([Str(pad + Upper(role) + pad)], []), allowed)
  {
    var s := pad + Upper(role) + pad;
    var u := Upper(role);
    TrimAround(pad, u);
    UpperKeepsTrimmed(role);
    assert Trim(s) == u;
    LowerOfUpperOfLower(role);
    assert RoleCandidate(Str(s));
  }

  lemma {:induction false} UpperKeepsTrimmed(s: string)
    requires IsTrimmed(s) && s != ""
    ensures IsTrimmed(Upper(s)) && Upper(s) != ""
  {
    assert forall i :: 0 <= i < |s| ==> (IsSpace(Upper(s)[i]) <==> IsSpace(s[i]));
  }

  lemma {:induction false} LowerOfUpperOfLower(s: string)
    requires Lower(s) == s
    ensures Lower(Upper(s)) == s
  {
    assert forall i :: 0 <= i < |s| ==> LowerChar(UpperChar(s[i])) == LowerChar(s[i]);
  }

  /** Trimming removes surrounding white space from a trimmed, non-empty text. */
  lemma {:induction false} TrimAround(pad: string, t: string)
    requires IsTrimmed(t) && t != ""
    requires forall i :: 0 <= i < |pad| ==> IsSpace(pad[i])
    ensures Trim(pad + t + pad) == t
  {
    TrimStartDrops(pad, t + pad);
    assert pad + t + pad == pad + (t + pad);
    TrimEndDrops(t, pad);
  }

  lemma {:induction false} TrimStartDrops(pad: string, rest: string)
    requires forall i :: 0 <= i < |pad| ==> IsSpace(pad[i])
    requires rest != [] && !IsSpace(rest[0])
    ensures TrimStart(pad + rest) == rest
  {
    hide IsSpace;
    if pad != [] {
      assert (pad + rest)[0] == pad[0];
      assert (pad + rest)[1..] == pad[1..] + rest;
      TrimStartDrops(pad[1..], rest);
    } else {
      assert pad + rest == rest;
    }
  }

  lemma {:induction false} TrimEndDrops(t: string, pad: string)
    requires forall i :: 0 <= i < |pad| ==> IsSpace(pad[i])
    requires t != [] && !IsSpace(t[|t| - 1])
    ensures TrimEnd(t + pad) == t
  {
    hide IsSpace;
    if pad != [] {
      var p := pad[..|pad| - 1];
      assert (t + pad)[..|t + pad| - 1] == t + p;
      TrimEndDrops(t, p);
    } else {
      assert t + pad == t;
    }
  }

  // ---------------------------------------------------------------- partner id

  /** A partner-id candidate `extractPartnerId` accepts: any number, or a non-blank string. */
  predicate PartnerCandidate(v: Value)
  {
    v.Num? || v.NaN? || v.Inf? || (v.Str? && Trim(v.s) != "")
  }

  /** The text an accepted candidate stands for: `String(n)`, or the trimmed string. */
  function PartnerText(v: Value): string
    requires PartnerCandidate(v)
  {
    if v.Str? then Trim(v.s) else JsString(v)
  }

  /** `normaliseId` of the code routes: the same rule, one value at a time. */
  function IdTextOf(v: Value): (r: Option<string>)
    ensures r.Some? <==> PartnerCandidate(v)
  {
    if PartnerCandidate(v) then Some(PartnerText(v)) else None
  }

  /** `extractPartnerId`: the first accepted candidate; `null`, `undefined`,
    * booleans, objects and blank strings are skipped. */
  function ExtractPartnerId(cands: seq<Value>): (r: Option<string>)
    ensures r.None? <==> forall i :: 0 <= i < |cands| ==> !PartnerCandidate(cands[i])
    ensures r.Some? ==> exists i :: 0 <= i < |cands| && PartnerCandidate(cands[i])
                          && (forall j :: 0 <= j < i ==> !PartnerCandidate(cands[j]))
                          && r.value == PartnerText(cands[i])
  {
    match FirstAccepted(cands, PartnerCandidate)
    case None => None
    case Some(k) => Some(PartnerText(cands[k]))
  }

  lemma NumberTextNonEmpty(n: real)
    ensures NumberText(n) != ""
  {
  }

  /** An extracted partner id is never empty, so `!partnerId` only rejects a missing one. */
  lemma PartnerIdNonEmpty(cands: seq<Value>)
    requires ExtractPartnerId(cands).Some?
    ensures ExtractPartnerId(cands).value != ""
  {
    var i :| 0 <= i < |cands| && PartnerCandidate(cands[i]) && ExtractPartnerId(cands).value == PartnerText(cands[i]);
    if cands[i].Num? { NumberTextNonEmpty(cands[i].n); }
  }

  /** An extracted partner id is not blank either: trimming it leaves something, so a
    * listing filtered by it does filter. */
  lemma PartnerIdNotBlank(cands: seq<Value>)
    requires ExtractPartnerId(cands).Some?
    ensures Trim(ExtractPartnerId(cands).value) != ""
  {
    var i :| 0 <= i < |cands| && PartnerCandidate(cands[i]) && ExtractPartnerId(cands).value == PartnerText(cands[i]);
    var t := PartnerText(cands[i]);
    if cands[i].Str? {
      TrimIdempotent(cands[i].s);
    } else {
      NumberTextNonEmpty(if cands[i].Num? then cands[i].n else 0.0);
      assert t != [] && !IsSpace(t[0]);
      TrimEmptyIffBlank(t);
    }
  }
}
