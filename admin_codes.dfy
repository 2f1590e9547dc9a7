// The administrator's codes view: random code values, the unique value a new
// code gets, the normalised row the table shows, editing a code and the create
// form's validation and record.
//
// `Math.random()` is replaced by a stream of picks: each pick is the index of
// the alphabet character drawn.

module AdminCodes {
  import opened Js
  import opened Records
  import Validators
  import AdminPayments

  /** The characters a random code is drawn from: no `I`, `O`, `0` or `1`. */
  const Alphabet := "ABCDEFGHJKLMNPQRSTUVWXYZ23456789"

  /** Picks enough for `n` characters, each an index into the alphabet. */
  predicate Draws(picks: seq<nat>, n: nat)
  {
    n <= |picks| && forall i :: 0 <= i < |picks| ==> picks[i] < |Alphabet|
  }

  /** The characters the picks select. */
  function Drawn(picks: seq<nat>): (s: string)
    requires Draws(picks, 0)
    ensures |s| == |picks|
    ensures forall i :: 0 <= i < |s| ==> s[i] in Alphabet
  {
    if picks == [] then ""
    else Drawn(picks[..|picks| - 1]) + [Alphabet[picks[|picks| - 1]]]
  }

  /** Every alphabet character is an upper-case letter or a digit, and the easily
    * confused `I`, `O`, `0` and `1` are not among them. */
  lemma AlphabetChars(c: char)
    requires c in Alphabet
    ensures Validators.CodeChar(c)
    ensures c != 'I' && c != 'O' && c != '0' && c != '1'
  {
  }

  /** Drawing one more pick appends its character. */
  lemma DrawnSnoc(picks: seq<nat>, n: nat)
    requires Draws(picks, n + 1)
    ensures Drawn(picks[..n + 1]) == Drawn(picks[..n]) + [Alphabet[picks[n]]]
  {
    assert picks[..n + 1][..n] == picks[..n];
  }

  /** `randomCode(length)`: `length` characters, each the alphabet character picked. */
  method RandomCode(length: nat, picks: seq<nat>) returns (value: string)
    requires Draws(picks, length)
    ensures value == Drawn(picks[..length])
    ensures |value| == length && forall i :: 0 <= i < length ==> value[i] == Alphabet[picks[i]]
  {
    value := "";
    var index := 0;
    assert Drawn(picks[..0]) == "";
    hide Drawn;
    while index < length
      invariant 0 <= index <= length
      invariant value == Drawn(picks[..index])
      invariant forall i :: 0 <= i < index ==> value[i] == Alphabet[picks[i]]
    {
      DrawnSnoc(picks, index);
      value := value + [Alphabet[picks[index]]];
      index := index + 1;
    }
  }

  /** `AF` for the affiliate role, `PT` for anything else. */
  function PrefixFor(role: Value): string
  {
    if role == Str("affiliate") then "AF" else "PT"
  }

  /** The values already in use: every truthy code value. */
  function Taken(codes: seq<Code>): set<string>
  {
    set c | c in codes && c.value.Str? && c.value.s != "" :: c.value.s
  }

  const AttemptsLimit := 25

  /** The error `nextCodeValue` throws when every attempt collides. */
  const ExhaustedError := "No fue posible generar un código único."

  /** The candidate of attempt `a`: the prefix, a hyphen and five drawn characters. */
  function Candidate(prefix: string, picks: seq<nat>, a: nat): string
    requires Draws(picks, 5 * (a + 1))
  {
    prefix + "-" + Drawn(picks[5 * a..5 * a + 5])
  }

  /** The first candidate from attempt `a` on that is not taken. */
  function FirstFree(prefix: string, picks: seq<nat>, taken: set<string>, a: nat): Result<string>
    requires a <= AttemptsLimit && Draws(picks, 5 * AttemptsLimit)
    decreases AttemptsLimit - a
  {
    if a == AttemptsLimit then Failure(ExhaustedError)
    else if Candidate(prefix, picks, a) !in taken then Success(Candidate(prefix, picks, a))
    else FirstFree(prefix, picks, taken, a + 1)
  }

  lemma FirstFreeStep(prefix: string, picks: seq<nat>, taken: set<string>, a: nat)
    requires a < AttemptsLimit && Draws(picks, 5 * AttemptsLimit)
    ensures FirstFree(prefix, picks, taken, a) ==
              if Candidate(prefix, picks, a) !in taken then Success(Candidate(prefix, picks, a))
              else FirstFree(prefix, picks, taken, a + 1)
  {
  }

  lemma CandidateOf(prefix: string, picks: seq<nat>, a: nat, code: string)
    requires Draws(picks, 5 * (a + 1))
    requires code == Drawn(picks[5 * a..][..5])
    ensures prefix + "-" + code == Candidate(prefix, picks, a)
  {
    assert picks[5 * a..][..5] == picks[5 * a..5 * a + 5];
  }

  /** What `nextCodeValue` returns for the given picks. */
  function NextCode(role: Value, codes: seq<Code>, picks: seq<nat>): Result<string>
    requires Draws(picks, 5 * AttemptsLimit)
  {
    FirstFree(PrefixFor(role), picks, Taken(codes), 0)
  }

  /** `nextCodeValue`: up to 25 random candidates, the first free one wins. */
  method NextCodeValue(role: Value, codes: seq<Code>, picks: seq<nat>) returns (r: Result<string>)
    requires Draws(picks, 5 * AttemptsLimit)
    ensures r == NextCode(role, codes, picks)
  {
    hide Drawn, Taken, FirstFree, Candidate;
    var prefix := if role == Str("affiliate") then "AF" else "PT";
    var taken := Taken(codes);
    FirstFreeFacts(prefix, picks, taken, AttemptsLimit);
    var attempt := 0;
    while attempt < AttemptsLimit
      invariant 0 <= attempt <= AttemptsLimit
      invariant NextCode(role, codes, picks) == FirstFree(prefix, picks, taken, attempt)
    {
      var rest := picks[5 * attempt..];
      var code := RandomCode(5, rest);
      var candidate := prefix + "-" + code;
      CandidateOf(prefix, picks, attempt, code);
      FirstFreeStep(prefix, picks, taken, attempt);
      if candidate !in taken {
        return Success(candidate);
      }
      attempt := attempt + 1;
    }
    r := Failure(ExhaustedError);
  }

  /** `/^(PT|AF)-[A-Z0-9]{5}$/` */
  predicate DashedCode(s: string)
  {
    && |s| == 8
    && (s[..2] == "PT" || s[..2] == "AF")
    && s[2] == '-'
    && forall i :: 3 <= i < 8 ==> Validators.CodeChar(s[i])
  }

  /** Every candidate has the dashed code format and starts with its prefix. */
  lemma CandidateShape(prefix: string, picks: seq<nat>, a: nat)
    requires prefix == "PT" || prefix == "AF"
    requires Draws(picks, 5 * (a + 1))
    ensures DashedCode(Candidate(prefix, picks, a))
    ensures Candidate(prefix, picks, a)[..2] == prefix
  {
    hide Draws, Drawn, Validators.CodeChar, Candidate;
    CandidateSpelled(prefix, picks, a);
  }

  /** A candidate is its prefix, a dash and five drawn code characters. */
  lemma CandidateSpelled(prefix: string, picks: seq<nat>, a: nat)
    requires |prefix| == 2 && Draws(picks, 5 * (a + 1))
    ensures var s := Candidate(prefix, picks, a);
            |s| == 8 && s[..2] == prefix && s[2] == '-' && forall i :: 3 <= i < 8 ==> Validators.CodeChar(s[i])
  {
    hide Validators.CodeChar, Draws;
    DrawsSlice(picks, a);
    var d := Drawn(picks[5 * a..5 * a + 5]);
    DrawnCodeChars(d);
    var s := prefix + "-" + d;
    assert forall i :: 3 <= i < 8 ==> s[i] == d[i - 3];
    assert s[..2] == prefix;
  }

  /** The picks of one attempt are five valid picks. */
  lemma DrawsSlice(picks: seq<nat>, a: nat)
    requires Draws(picks, 5 * (a + 1))
    ensures 5 * a + 5 <= |picks| && Draws(picks[5 * a..5 * a + 5], 0)
  {
  }

  /** Drawn characters are code characters. */
  lemma DrawnCodeChars(d: string)
    requires forall i :: 0 <= i < |d| ==> d[i] in Alphabet
    ensures forall i :: 0 <= i < |d| ==> Validators.CodeChar(d[i])
  {
    forall i | 0 <= i < |d| ensures Validators.CodeChar(d[i]) {
      AlphabetChars(d[i]);
    }
  }

  /** Searching from attempt `a` fails exactly when every remaining candidate is taken,
    * and otherwise yields the first free remaining candidate. */
  lemma {:induction false} FirstFreeFacts(prefix: string, picks: seq<nat>, taken: set<string>, a: nat)
    requires a <= AttemptsLimit && Draws(picks, 5 * AttemptsLimit)
    decreases AttemptsLimit - a
    ensures var r := FirstFree(prefix, picks, taken, a);
            && (r.Failure? <==> forall b :: a <= b < AttemptsLimit ==> Candidate(prefix, picks, b) in taken)
            && (r.Failure? ==> r.error == ExhaustedError)
            && (r.Success? ==> exists b :: a <= b < AttemptsLimit && r.value == Candidate(prefix, picks, b)
                                         && r.value !in taken
                                         && forall e :: a <= e < b ==> Candidate(prefix, picks, e) in taken)
  {
    hide Candidate, Drawn;
    if a < AttemptsLimit {
      FirstFreeStep(prefix, picks, taken, a);
      hide FirstFree;
      var r := FirstFree(prefix, picks, taken, a);
      if Candidate(prefix, picks, a) in taken {
        FirstFreeFacts(prefix, picks, taken, a + 1);
        if r.Success? {
          var b :| a + 1 <= b < AttemptsLimit && r.value == Candidate(prefix, picks, b) && r.value !in taken
                   && forall e :: a + 1 <= e < b ==> Candidate(prefix, picks, e) in taken;
          assert forall e :: a <= e < b ==> Candidate(prefix, picks, e) in taken;
        }
      } else {
        assert r.value == Candidate(prefix, picks, a);
      }
    }
  }

  /** A generated value is free, has the dashed code format and starts with `AF` exactly
    * for the affiliate role; generation fails only when all 25 candidates are taken. */
  lemma NextCodeFacts(role: Value, codes: seq<Code>, picks: seq<nat>)
    requires Draws(picks, 5 * AttemptsLimit)
    ensures var r := NextCode(role, codes, picks);
            && (r.Failure? <==> forall b :: 0 <= b < AttemptsLimit ==> Candidate(PrefixFor(role), picks, b) in Taken(codes))
            && (r.Success? ==> && r.value !in Taken(codes)
                               && DashedCode(r.value)
                               && (r.value[..2] == "AF" <==> role == Str("affiliate")))
  {
    var prefix := PrefixFor(role);
    FirstFreeFacts(prefix, picks, Taken(codes), 0);
    var r := NextCode(role, codes, picks);
    if r.Success? {
      var b :| 0 <= b < AttemptsLimit && r.value == Candidate(prefix, picks, b);
      CandidateShape(prefix, picks, b);
    }
  }

  /** A value this view generates is never accepted by the server's code validator, which
    * wants the prefix and the five characters without a hyphen. */
  lemma GeneratedFailsValidator(s: string)
    requires DashedCode(s)
    ensures !Validators.IsValidCode(Str(s))
  {
    hide Trim, TrimStart, TrimEnd, Upper;
    assert IsTrimmed(s) by {
      assert s[0] == s[..2][0];
      assert Validators.CodeChar(s[7]);
    }
    TrimOfTrimmed(s);
    if Validators.IsValidCode(Str(s)) {
      Validators.ValidCodeHasNoHyphen(Str(s));
    }
  }

  // ---------------------------------------------------------------- the table rows

  /** The normalised row `normaliseCodeRecord` builds for the table. */
  datatype CodeRow = CodeRow(
    id: Value,
    code: Value,
    role: Value,
    ownerUserId: Value,
    ownerName: Value,
    email: Value,
    phone: Value,
    region: Value,
    parentPartnerId: Value,
    status: Value,
    uses: Value,
    maxUses: Value,
    createdAt: DateInput,
    updatedAt: DateInput,
    raw: Code)

  /** The role a code without one is shown with: affiliate when its value starts with `AF`. */
  predicate AffiliateValue(code: Value)
  {
    code.Str? && StartsWith(code.s, "AF")
  }

  /** `normaliseCodeRecord`: every field falls back to a default when the code lacks it. */
  function NormaliseCodeRecord(c: Code): (r: CodeRow)
    ensures r.raw == c
    ensures !c.role.Missing? ==> r.role == c.role
    ensures c.role.Missing? ==> (r.role == Str("affiliate") <==> AffiliateValue(Coalesce(c.value, c.id)))
    ensures c.role.Missing? ==> (r.role == Str("partner") <==> !AffiliateValue(Coalesce(c.value, c.id)))
    ensures r.status == (if c.status.Missing? then Str("active") else c.status)
    ensures r.uses == (if c.uses.Missing? then Num(0.0) else c.uses)
    ensures r.id.Missing? <==> c.id.Missing? && c.value.Missing?
  {
    var resolved := Coalesce(c.value, c.id);
    var role := Coalesce(c.role, Str(if AffiliateValue(resolved) then "affiliate" else "partner"));
    CodeRow(
      id := Coalesce(c.id, resolved),
      code := resolved,
      role := role,
      ownerUserId := Coalesce(c.ownerUserRef, Str("")),
      ownerName := Coalesce(c.ownerName, Str("")),
      email := Coalesce(c.email, Str("")),
      phone := Coalesce(c.phone, Str("")),
      region := Coalesce(c.region, Str("")),
      parentPartnerId := Coalesce(c.parentPartnerRef, Coalesce(c.partnerRef, Str(""))),
      status := Coalesce(c.status, Str("active")),
      uses := Coalesce(c.uses, Num(0.0)),
      maxUses := c.maxUses,
      createdAt := c.createdAt,
      updatedAt := c.updatedAt,
      raw := c)
  }

  // ---------------------------------------------------------------- editing a code

  /** The edit form as submitted; a field the form lacks is `Missing`. */
  datatype EditForm = EditForm(
    ownerName: Value,
    ownerUserId: Value,
    email: Value,
    phone: Value,
    region: Value,
    status: Value,
    parentPartnerId: Value,
    maxUses: Value)

  /** `Number(v)` as a stored value. */
  function NumberValue(v: Value): Value
  {
    match JsNumber(v)
    case Fin(r) => Num(r)
    case NotFinite => NaN
  }

  /** The changes the edit form applies; only an affiliate code keeps a parent partner. */
  function ChangesFrom(form: EditForm, role: Value): (ch: EditForm)
    ensures role != Str("affiliate") ==> ch.parentPartnerId.Missing?
    ensures role == Str("affiliate") ==> ch.parentPartnerId == Coalesce(form.parentPartnerId, Str(""))
    ensures !Truthy(form.maxUses) <==> ch.maxUses.Missing?
    ensures !ch.ownerName.Missing? && !ch.ownerUserId.Missing? && !ch.status.Missing?
  {
    EditForm(
      ownerName := Coalesce(form.ownerName, Str("")),
      ownerUserId := Coalesce(form.ownerUserId, Str("")),
      email := Coalesce(form.email, Str("")),
      phone := Coalesce(form.phone, Str("")),
      region := Coalesce(form.region, Str("")),
      status := Coalesce(form.status, Str("active")),
      parentPartnerId := if role == Str("affiliate") then Coalesce(form.parentPartnerId, Str("")) else Missing,
      maxUses := if Truthy(form.maxUses) then NumberValue(form.maxUses) else Missing)
  }

  /** A code the edit targets: its id is set and `===` the target id. */
  predicate Targets(c: Code, id: Value)
  {
    Truthy(c.id) && AdminPayments.SameId(c.id, id)
  }

  /** `{ ...code, ...changes, updated_at }` */
  function Edited(c: Code, ch: EditForm, now: Instant): Code
  {
    c.(ownerName := ch.ownerName, ownerUserRef := ch.ownerUserId, email := ch.email, phone := ch.phone,
       region := ch.region, status := ch.status, parentPartnerRef := ch.parentPartnerId, maxUses := ch.maxUses,
       updatedAt := At(now))
  }

  /** An edit keeps a code's identity, value, role and uses, so it still targets the same
    * id afterwards, and editing twice with the same changes is editing once. */
  lemma EditKeepsIdentity(c: Code, ch: EditForm, now: Instant, id: Value)
    ensures var e := Edited(c, ch, now);
            && e.id == c.id && e.value == c.value && e.role == c.role && e.uses == c.uses
            && e.createdAt == c.createdAt && e.partnerRef == c.partnerRef
            && (Targets(e, id) <==> Targets(c, id))
            && Edited(e, ch, now) == e
  {
  }

  /** `updateCode`: every code whose id is the target is edited, the others are kept;
    * the result says whether any code was edited. */
  method UpdateCode(db: Store, id: Value, ch: EditForm, now: Instant) returns (found: bool)
    modifies db`codes
    ensures found <==> exists i :: 0 <= i < |old(db.codes)| && Targets(old(db.codes)[i], id)
    ensures |db.codes| == |old(db.codes)|
    ensures forall i :: 0 <= i < |db.codes| ==>
              db.codes[i] == if Targets(old(db.codes)[i], id) then Edited(old(db.codes)[i], ch, now) else old(db.codes)[i]
  {
    found := false;
    var codes := db.codes;
    var next: seq<Code> := [];
    var i := 0;
    while i < |codes|
      invariant 0 <= i <= |codes| && |next| == i
      invariant found <==> exists j :: 0 <= j < i && Targets(codes[j], id)
      invariant forall j :: 0 <= j < i ==> next[j] == if Targets(codes[j], id) then Edited(codes[j], ch, now) else codes[j]
    {
      var code := codes[i];
      if Truthy(code.id) && AdminPayments.SameId(code.id, id) {
        found := true;
        next := next + [Edited(code, ch, now)];
      } else {
        next := next + [code];
      }
      i := i + 1;
    }
    db.codes := next;
  }

  // ---------------------------------------------------------------- creating a code

  /** The create form as submitted. */
  datatype CreateForm = CreateForm(
    role: Value,
    ownerUserId: Value,
    ownerName: Value,
    email: Value,
    phone: Value,
    region: Value,
    parentPartnerId: Value,
    maxUses: Value)

  /** The record the create form stores for a generated value. */
  function NewRecord(form: CreateForm, value: string, now: Instant): Code
  {
    Code(
      id := Str(value),
      value := Str(value),
      codeType := Missing,
      role := form.role,
      partnerRef := Missing,
      parentPartnerRef := if form.role == Str("affiliate") then form.parentPartnerId else Missing,
      affiliateRef := Missing,
      status := Str("active"),
      maxUses := if Truthy(form.maxUses) then NumberValue(form.maxUses) else Missing,
      currentUses := Missing,
      uses := Num(0.0),
      useCount := Missing,
      notes := Missing,
      currency := Missing,
      payoutOverrides := Missing,
      createdAt := At(now),
      updatedAt := At(now),
      ownerUserRef := form.ownerUserId,
      ownerName := form.ownerName,
      email := form.email,
      phone := Coalesce(form.phone, Str("")),
      region := Coalesce(form.region, Str("")))
  }

  /** The outcome of the create form's submit: the stored record, or the warning shown. */
  function Creation(form: CreateForm, codes: seq<Code>, picks: seq<nat>, now: Instant): Result<Code>
    requires Draws(picks, 5 * AttemptsLimit)
  {
    if !Truthy(form.role) then Failure("Debe seleccionar un rol válido.")
    else if form.role == Str("affiliate") && !Truthy(form.parentPartnerId) then
      Failure("Los afiliados requieren un partner padre.")
    else
      match NextCode(form.role, codes, picks)
      case Failure(e) => Failure(e)
      case Success(v) => Success(NewRecord(form, v, now))
  }

  /** The create form's submit: the form is checked, a free value generated and the new
    * record appended to the codes; on any failure the codes stay as they were. */
  method SubmitCreate(db: Store, form: CreateForm, picks: seq<nat>, now: Instant) returns (r: Result<Code>)
    requires Draws(picks, 5 * AttemptsLimit)
    modifies db`codes
    ensures r == Creation(form, old(db.codes), picks, now)
    ensures r.Failure? ==> db.codes == old(db.codes)
    ensures r.Success? ==> db.codes == old(db.codes) + [r.value]
  {
    if !Truthy(form.role) {
      return Failure("Debe seleccionar un rol válido.");
    }
    if form.role == Str("affiliate") && !Truthy(form.parentPartnerId) {
      return Failure("Los afiliados requieren un partner padre.");
    }
    var value := NextCodeValue(form.role, db.codes, picks);
    if value.Failure? {
      return Failure(value.error);
    }
    var record := NewRecord(form, value.value, now);
    db.codes := db.codes + [record];
    r := Success(record);
  }

  /** Creation rejects a missing role and an affiliate without a parent; a new record has a
    * free value in the dashed format, starting with `AF` exactly for an affiliate, no uses,
    * status `active`, and a parent partner only when it is an affiliate code. */
  lemma CreationFacts(form: CreateForm, codes: seq<Code>, picks: seq<nat>, now: Instant)
    requires Draws(picks, 5 * AttemptsLimit)
    ensures var r := Creation(form, codes, picks, now);
            && (!Truthy(form.role) ==> r == Failure("Debe seleccionar un rol válido."))
            && (Truthy(form.role) && form.role == Str("affiliate") && !Truthy(form.parentPartnerId) ==>
                  r == Failure("Los afiliados requieren un partner padre."))
            && (r.Success? ==>
                  && r.value.id == r.value.value && r.value.value.Str?
                  && r.value.value.s !in Taken(codes)
                  && DashedCode(r.value.value.s)
                  && (r.value.value.s[..2] == "AF" <==> form.role == Str("affiliate"))
                  && r.value.uses == Num(0.0) && r.value.status == Str("active")
                  && (form.role != Str("affiliate") ==> r.value.parentPartnerRef.Missing?)
                  && (form.role == Str("affiliate") ==> Truthy(r.value.parentPartnerRef)))
  {
    NextCodeFacts(form.role, codes, picks);
  }
}
