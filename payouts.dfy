// The payout rule of the billing engine: what the partner and the affiliate
// earn for one referred user (js/biz/payouts.js).

module Payouts {
  import opened Js
  import opened Records

  const DefaultAccountType: string := "standard"
  const DefaultPartnerCut: real := 0.25

  datatype Payout = Payout(partner: real, affiliate: real)

  // ---------------------------------------------------------------- numbers

  /** `toNumber(value, fallback)`, with the fallback left to the caller (`None`):
    * a string is trimmed and loses one trailing `%` before it is parsed. */
  function ToNumber(v: Value): (r: Option<real>)
    ensures v.Num? ==> r == Some(v.n)
    ensures v.Missing? || v.NaN? || v.Inf? || v.Obj? ==> r == None
    ensures v.Str? && Trim(v.s) == [] ==> r == None
  {
    match v
    case Str(s) =>
      if Trim(s) == [] then None else FiniteNumber(Str(StripPercent(Trim(s))))
    case _ => FiniteNumber(v)
  }

  /** `Number(v)` when it is finite. */
  function FiniteNumber(v: Value): Option<real>
  {
    match JsNumber(v) case Fin(x) => Some(x) case NotFinite => None
  }

  /** The text without one trailing `%`. */
  function StripPercent(t: string): (r: string)
    ensures t != [] && t[|t| - 1] == '%' ==> t == r + "%"
    ensures t == [] || t[|t| - 1] != '%' ==> r == t
  {
    if t != [] && t[|t| - 1] == '%' then t[..|t| - 1] else t
  }

  /** A percent sign after a number does not change it. */
  lemma PercentSuffixIgnored(s: string)
    requires s != [] && IsTrimmed(s) && s[|s| - 1] != '%'
    ensures ToNumber(Str(s + "%")) == ToNumber(Str(s))
  {
    TrimOfTrimmed(s);
    TrimOfTrimmed(s + "%");
    assert StripPercent(s + "%") == s;
  }

  /** A plain decimal string is read as its value, with or without a percent sign. */
  lemma DigitsReadBack(n: nat)
    ensures ToNumber(Str(NatText(n))) == Some(n as real)
    ensures ToNumber(Str(NatText(n) + "%")) == Some(n as real)
  {
    var s := NatText(n);
    assert IsTrimmed(s) by { assert IsDigit(s[0]) && IsDigit(s[|s| - 1]); }
    TrimOfTrimmed(s);
    assert s[|s| - 1] != '%' by { assert IsDigit(s[|s| - 1]); }
    NumberOfDigits(n);
    PercentSuffixIgnored(s);
  }

  /** A non-negative amount rounded to cents. */
  function Money(x: real): real
  {
    Round2(if x < 0.0 then 0.0 else x)
  }

  /** `normaliseMoney`: anything that is not a number counts as 0; negatives clamp to 0; then cents. */
  function NormaliseMoney(v: Value): (r: real)
    ensures r >= 0.0 && IsCents(r)
    ensures ToNumber(v).None? ==> r == 0.0
    ensures ToNumber(v).Some? && ToNumber(v).value <= 0.0 ==> r == 0.0
    ensures ToNumber(v).Some? && ToNumber(v).value >= 0.0 && IsCents(ToNumber(v).value) ==> r == ToNumber(v).value
  {
    var x := ToNumber(v).GetOr(0.0);
    MoneyProperties(x);
    Money(x)
  }

  lemma MoneyProperties(x: real)
    ensures Money(x) >= 0.0 && IsCents(Money(x))
    ensures x <= 0.0 ==> Money(x) == 0.0
    ensures x >= 0.0 && IsCents(x) ==> Money(x) == x
  {
    Round2Properties(if x < 0.0 then 0.0 else x);
    Round2OfCents(0.0);
    if x >= 0.0 && IsCents(x) { Round2OfCents(x); }
  }

  lemma MoneyMonotone(x: real, y: real)
    requires x <= y
    ensures Money(x) <= Money(y)
  {
    var a := if x < 0.0 then 0.0 else x;
    var b := if y < 0.0 then 0.0 else y;
    assert (a * 100.0 + 0.5).Floor <= (b * 100.0 + 0.5).Floor;
  }

  /** `pickNumber(values, null)`: the first value that reads as a number. */
  function PickNumber(values: seq<Value>): (r: Option<real>)
    ensures r.Some? ==> exists i :: 0 <= i < |values| && ToNumber(values[i]) == r
                                   && forall j :: 0 <= j < i ==> ToNumber(values[j]).None?
    ensures r.None? ==> forall i :: 0 <= i < |values| ==> ToNumber(values[i]).None?
  {
    if values == [] then None
    else if ToNumber(values[0]).Some? then ToNumber(values[0])
    else
      var r := PickNumber(values[1..]);
      assert r.Some? ==> exists i :: 1 <= i < |values| && ToNumber(values[i]) == r
                                   && forall j :: 0 <= j < i ==> ToNumber(values[j]).None? by {
        if r.Some? {
          var i :| 0 <= i < |values[1..]| && ToNumber(values[1..][i]) == r
                   && forall j :: 0 <= j < i ==> ToNumber(values[1..][j]).None?;
          assert forall j :: 1 <= j < i + 1 ==> values[j] == values[1..][j - 1];
        }
      }
      r
  }

  // ---------------------------------------------------------------- account type and tables

  /** `normaliseAccountType`: the trimmed, lower-cased account type, `standard` when it is missing, blank or not text. */
  function NormaliseAccountType(u: User): (r: string)
    ensures r != []
    ensures !u.accountType.Str? ==> r == DefaultAccountType
    ensures u.accountType.Str? && Trim(u.accountType.s) != [] ==> r == Lower(Trim(u.accountType.s))
  {
    match u.accountType
    case Str(s) => if Trim(s) == [] then DefaultAccountType else Lower(Trim(s))
    case _ => DefaultAccountType
  }

  /** `replace(/[-\s]/g, rep)` */
  function ReplaceSeparators(s: string, rep: string): (r: string)
    ensures rep == [] ==> forall c :: c in r ==> c != '-' && !IsSpace(c)
  {
    if s == [] then []
    else (if s[0] == '-' || IsSpace(s[0]) then rep else [s[0]]) + ReplaceSeparators(s[1..], rep)
  }

  function NonEmpty(s: seq<string>): (r: seq<string>)
    ensures forall c :: c in r ==> c != [] && c in s
    ensures forall c :: c in s && c != [] ==> c in r
  {
    if s == [] then [] else (if s[0] == [] then [] else [s[0]]) + NonEmpty(s[1..])
  }

  /** The keys `tableLookup` tries, in order: the account type's spellings, then the defaults. */
  function KeyCandidates(key: string): seq<string>
  {
    var k := Lower(Trim(key));
    NonEmpty([k, Upper(k), ReplaceSeparators(k, "_"), ReplaceSeparators(k, "")]) + ["default", "DEFAULT", "*"]
  }

  predicate HasNumber(table: map<string, Value>, key: string)
  {
    key in table && ToNumber(table[key]).Some?
  }

  /** The value of the first candidate present in the table with a numeric value. */
  function FirstEntry(table: map<string, Value>, keys: seq<string>): (r: Option<real>)
    ensures r.None? <==> forall i :: 0 <= i < |keys| ==> !HasNumber(table, keys[i])
    ensures r.Some? ==> exists i :: 0 <= i < |keys| && HasNumber(table, keys[i]) && r == ToNumber(table[keys[i]])
                                   && forall j :: 0 <= j < i ==> !HasNumber(table, keys[j])
  {
    if keys == [] then None
    else if HasNumber(table, keys[0]) then ToNumber(table[keys[0]])
    else
      var r := FirstEntry(table, keys[1..]);
      assert forall i :: 1 <= i < |keys| ==> keys[i] == keys[1..][i - 1];
      assert r.Some? ==> exists i :: 1 <= i < |keys| && HasNumber(table, keys[i]) && r == ToNumber(table[keys[i]])
                                   && forall j :: 0 <= j < i ==> !HasNumber(table, keys[j]) by {
        if r.Some? {
          var i :| 0 <= i < |keys[1..]| && HasNumber(table, keys[1..][i]) && r == ToNumber(table[keys[1..][i]])
                   && forall j :: 0 <= j < i ==> !HasNumber(table, keys[1..][j]);
          assert keys[i + 1] == keys[1..][i];
        }
      }
      r
  }

  lemma {:induction false} FirstEntrySkips(table: map<string, Value>, a: seq<string>, b: seq<string>)
    requires forall i :: 0 <= i < |a| ==> !HasNumber(table, a[i])
    ensures FirstEntry(table, a + b) == FirstEntry(table, b)
  {
    if a != [] {
      assert (a + b)[1..] == a[1..] + b;
      assert !HasNumber(table, (a + b)[0]);
      FirstEntrySkips(table, a[1..], b);
    } else {
      assert a + b == b;
    }
  }

  /** `tableLookup(table, key, fallback)` */
  function TableLookup(table: Option<map<string, Value>>, key: string, fallback: real): real
  {
    match table
    case None => fallback
    case Some(t) => FirstEntry(t, KeyCandidates(key)).GetOr(fallback)
  }

  /** The exact normalised key wins over every other spelling and over the defaults. */
  lemma ExactKeyWins(t: map<string, Value>, key: string)
    requires Lower(Trim(key)) != [] && HasNumber(t, Lower(Trim(key)))
    ensures TableLookup(Some(t), key, 0.0) == ToNumber(t[Lower(Trim(key))]).value
  {
    var k := Lower(Trim(key));
    var cands := KeyCandidates(key);
    var ne := NonEmpty([k, Upper(k), ReplaceSeparators(k, "_"), ReplaceSeparators(k, "")]);
    assert ne[0] == k;
    assert cands[0] == k;
  }

  /** With no spelling of a plain lower-case key in the table, `default` is used. */
  lemma DefaultWhenKeyAbsent(t: map<string, Value>, key: string)
    requires forall c :: c in t ==> c == "default" || c == "DEFAULT" || c == "*"
    requires forall c :: c in Lower(Trim(key)) ==> 'a' <= c <= 'z'
    requires Lower(Trim(key)) != "default" && HasNumber(t, "default")
    ensures TableLookup(Some(t), key, 0.0) == ToNumber(t["default"]).value
  {
    var k := Lower(Trim(key));
    var spellings := [k, Upper(k), ReplaceSeparators(k, "_"), ReplaceSeparators(k, "")];
    SpellingsAreNotDefaults(k);
    var ne := NonEmpty(spellings);
    forall i | 0 <= i < |ne| ensures !HasNumber(t, ne[i]) {
      assert ne[i] in ne;
      assert ne[i] in spellings;
    }
    FirstEntrySkips(t, ne, ["default", "DEFAULT", "*"]);
  }

  lemma SpellingsAreNotDefaults(k: string)
    requires forall c :: c in k ==> 'a' <= c <= 'z'
    requires k != "default"
    ensures forall c :: c in [k, Upper(k), ReplaceSeparators(k, "_"), ReplaceSeparators(k, "")]
                        ==> c != "default" && c != "DEFAULT" && c != "*"
  {
    hide Upper, ReplaceSeparators;
    LettersHaveNoSeparators(k, "_");
    LettersHaveNoSeparators(k, "");
    UpperOfLetters(k);
  }

  lemma {:induction false} LettersHaveNoSeparators(k: string, rep: string)
    requires forall c :: c in k ==> 'a' <= c <= 'z'
    ensures ReplaceSeparators(k, rep) == k
  {
    if k != [] {
      assert k[0] in k;
      assert !IsSpace(k[0]) && k[0] != '-';
      assert forall c :: c in k[1..] ==> c in k;
      LettersHaveNoSeparators(k[1..], rep);
      calc {
        ReplaceSeparators(k, rep);
        [k[0]] + ReplaceSeparators(k[1..], rep);
        [k[0]] + k[1..];
        k;
      }
    }
  }

  /** Upper-casing a word of lower-case letters spells `DEFAULT` only for `default`, and never `default` or `*`. */
  lemma UpperOfLetters(k: string)
    requires forall c :: c in k ==> 'a' <= c <= 'z'
    ensures Upper(k) != "default" && Upper(k) != "*"
    ensures Upper(k) == "DEFAULT" ==> k == "default"
  {
    if k != [] {
      assert k[0] in k;
      assert 'A' <= Upper(k)[0] <= 'Z';
    }
    if Upper(k) == "DEFAULT" {
      forall i | 0 <= i < |k| ensures k[i] == "default"[i] {
        assert k[i] in k;
        assert UpperChar(k[i]) == "DEFAULT"[i];
      }
    }
  }

  // ---------------------------------------------------------------- partner cut

  /** `normaliseCut`: a share in [0, 1], or a percentage in (1, 100]; anything else is no cut. */
  function NormaliseCut(v: Value): (r: Option<real>)
    ensures r.Some? ==> 0.0 <= r.value <= 1.0
    ensures r.None? <==> ToNumber(v).None? || ToNumber(v).value < 0.0 || ToNumber(v).value > 100.0
    ensures ToNumber(v).Some? && 1.0 < ToNumber(v).value <= 100.0 ==> r == Some(ToNumber(v).value / 100.0)
    ensures ToNumber(v).Some? && 0.0 <= ToNumber(v).value <= 1.0 ==> r == ToNumber(v)
  {
    match ToNumber(v)
    case None => None
    case Some(n) =>
      if n < 0.0 then None
      else if n > 1.0 then (if n <= 100.0 then Some(n / 100.0) else None)
      else Some(n)
  }

  /** `normaliseId(a) === normaliseId(b)` with the first one present. */
  predicate SameId(v: Value, id: Id)
  {
    NormaliseId(v) == Some(id)
  }

  /** `findPartnerById` */
  function FindPartner(ps: seq<Partner>, id: Id): (r: Option<Partner>)
    ensures r.Some? ==> r.value in ps && SameId(r.value.id, id)
    ensures r.None? ==> forall p :: p in ps ==> !SameId(p.id, id)
  {
    if ps == [] then None
    else if SameId(ps[0].id, id) then Some(ps[0])
    else FindPartner(ps[1..], id)
  }

  /** `findAffiliateById` */
  function FindAffiliate(afs: seq<Affiliate>, id: Id): (r: Option<Affiliate>)
    ensures r.Some? ==> r.value in afs && SameId(r.value.id, id)
    ensures r.None? ==> forall a :: a in afs ==> !SameId(a.id, id)
  {
    if afs == [] then None
    else if SameId(afs[0].id, id) then Some(afs[0])
    else FindAffiliate(afs[1..], id)
  }

  /** The user's partner, looked up only when the user names one. */
  function PartnerOf(u: User, ctx: Ctx): Option<Partner>
  {
    match NormaliseId(u.partnerRef)
    case Some(id) => if IdTruthy(id) then FindPartner(ctx.partners, id) else None
    case None => None
  }

  function AffiliateOf(u: User, ctx: Ctx): Option<Affiliate>
  {
    match NormaliseId(u.affiliateRef)
    case Some(id) => if IdTruthy(id) then FindAffiliate(ctx.affiliates, id) else None
    case None => None
  }

  /** The partner-cut candidates in the order they are tried: the user's own fields,
    * the partner's, the affiliate's, then the first numeric configured default.
    * Missing entries stay in place; they normalise to no cut, as the source's filter drops them. */
  function CutCandidates(u: User, ctx: Ctx): seq<Value>
  {
    var partnerFields := match PartnerOf(u, ctx) case Some(p) => p.cutFields case None => [];
    var affiliateFields := match AffiliateOf(u, ctx) case Some(a) => a.cutFields case None => [];
    var tableValue := match PickNumber(ctx.config.cutTable) case Some(x) => Num(x) case None => Missing;
    u.cutFields + partnerFields + affiliateFields + [tableValue]
  }

  /** Each candidate normalised to a cut, position by position. */
  function CutsOf(cands: seq<Value>): (cuts: seq<Option<real>>)
    ensures |cuts| == |cands|
    ensures forall i :: 0 <= i < |cands| ==> cuts[i] == NormaliseCut(cands[i])
    ensures forall i :: 0 <= i < |cuts| && cuts[i].Some? ==> 0.0 <= cuts[i].value <= 1.0
  {
    if cands == [] then [] else [NormaliseCut(cands[0])] + CutsOf(cands[1..])
  }

  /** The first normalised cut, else the default cut. */
  function FirstCut(cuts: seq<Option<real>>): (r: real)
    requires forall i :: 0 <= i < |cuts| && cuts[i].Some? ==> 0.0 <= cuts[i].value <= 1.0
    ensures 0.0 <= r <= 1.0
    ensures (forall i :: 0 <= i < |cuts| ==> cuts[i].None?) ==> r == DefaultPartnerCut
    ensures forall i :: 0 <= i < |cuts| && cuts[i].Some? && (forall j :: 0 <= j < i ==> cuts[j].None?)
                        ==> r == cuts[i].value
  {
    if cuts == [] then DefaultPartnerCut
    else if cuts[0].Some? then cuts[0].value
    else
      assert forall i :: 1 <= i < |cuts| ==> cuts[i] == cuts[1..][i - 1];
      FirstCut(cuts[1..])
  }

  /** `extractPartnerCut` */
  function ExtractPartnerCut(u: User, ctx: Ctx): (r: real)
    ensures 0.0 <= r <= 1.0
  {
    FirstCut(CutsOf(CutCandidates(u, ctx)))
  }

  /** A cut the user states wins over the partner's, the affiliate's and the configured one. */
  lemma UserCutWins(u: User, ctx: Ctx, i: nat)
    requires i < |u.cutFields| && NormaliseCut(u.cutFields[i]).Some?
    requires forall j :: 0 <= j < i ==> NormaliseCut(u.cutFields[j]).None?
    ensures ExtractPartnerCut(u, ctx) == NormaliseCut(u.cutFields[i]).value
  {
    var c := CutCandidates(u, ctx);
    assert forall j :: 0 <= j <= i ==> c[j] == u.cutFields[j];
  }

  /** With no usable cut anywhere, the partner keeps a quarter. */
  lemma DefaultCut(u: User, ctx: Ctx)
    requires forall v :: v in CutCandidates(u, ctx) ==> NormaliseCut(v).None?
    ensures ExtractPartnerCut(u, ctx) == 0.25
  {
    var c := CutCandidates(u, ctx);
    assert forall i :: 0 <= i < |c| ==> c[i] in c;
  }

  // ---------------------------------------------------------------- overrides

  function Field(m: map<string, Value>, name: string): Value
  {
    if name in m then m[name] else Missing
  }

  function FieldValues(m: map<string, Value>, names: seq<string>): (r: seq<Value>)
    ensures |r| == |names| && forall i :: 0 <= i < |names| ==> r[i] == Field(m, names[i])
  {
    if names == [] then [] else [Field(m, names[0])] + FieldValues(m, names[1..])
  }

  /** The values of the names present in `m`, in the order of `names`. */
  function PresentValues(m: map<string, Value>, names: seq<string>): (r: seq<Value>)
    ensures forall v :: v in r ==> exists n :: n in names && n in m && m[n] == v
  {
    if names == [] then []
    else (if names[0] in m then [m[names[0]]] else []) + PresentValues(m, names[1..])
  }

  /** `extractOverride(user, key)`: the user's own `<key>PayoutOverride`-style fields first,
    * then the spellings of `key` inside the payout override object. */
  function OverrideCandidates(u: User, key: string): seq<Value>
  {
    var direct := [key + "PayoutOverride", key + "_payout_override", key + "Payout", key + "_payout",
                   key + "Override", key + "_override"];
    var variants := [key, key + "Amount", key + "_amount", key + "Payout", key + "_payout",
                     key + "Override", key + "_override", key + "Value", key + "_value"];
    FieldValues(u.fields, direct) + (match u.overrides case Some(o) => PresentValues(o, variants) case None => [])
  }

  function ExtractOverride(u: User, key: string): (r: Option<real>)
    ensures r.Some? ==> exists v :: v in OverrideCandidates(u, key) && ToNumber(v) == r
  {
    var c := OverrideCandidates(u, key);
    var r := PickNumber(c);
    assert r.Some? ==> exists i :: 0 <= i < |c| && ToNumber(c[i]) == r;
    r
  }

  /** A direct `<key>PayoutOverride` field beats the override object. */
  lemma DirectOverrideWins(u: User, key: string)
    requires ToNumber(Field(u.fields, key + "PayoutOverride")).Some?
    ensures ExtractOverride(u, key) == ToNumber(Field(u.fields, key + "PayoutOverride"))
  {
    var c := OverrideCandidates(u, key);
    assert c[0] == Field(u.fields, key + "PayoutOverride");
  }

  // ---------------------------------------------------------------- affiliate detection

  datatype Tag = AffiliateTag | PartnerTag | NoTag

  /** What the explicit role field says. */
  function RoleTag(role: Value): Tag
  {
    match role
    case Str(s) =>
      var n := Upper(Trim(s));
      if n == "AF" || n == "AFFILIATE" || n == "AFFILIATED" then AffiliateTag
      else if n == "PT" || n == "PARTNER" then PartnerTag
      else NoTag
    case _ => NoTag
  }

  /** The user has an affiliate id other than `''` and `0`. */
  predicate HasAffiliateId(u: User)
  {
    match NormaliseId(u.affiliateRef)
    case Some(id) => id != IdStr("") && id != IdNum(0)
    case None => false
  }

  /** What the user's code value says. */
  function CodeTag(u: User): Tag
  {
    match u.code
    case Str(s) =>
      var up := Upper(Trim(s));
      if up == [] then NoTag
      else if StartsWith(up, "AF") || Contains(up, "AF-") then AffiliateTag
      else if StartsWith(up, "PT") || Contains(up, "PT-") then PartnerTag
      else NoTag
    case _ => NoTag
  }

  /** `isAffiliateUser`: an explicit role decides; otherwise an affiliate id, otherwise the code's prefix. */
  function IsAffiliateUser(u: User): (r: bool)
    ensures RoleTag(u.role) == AffiliateTag ==> r
    ensures RoleTag(u.role) == PartnerTag ==> !r
    ensures RoleTag(u.role) == NoTag ==> (r <==> HasAffiliateId(u) || CodeTag(u) == AffiliateTag)
  {
    match RoleTag(u.role)
    case AffiliateTag => true
    case PartnerTag => false
    case NoTag => HasAffiliateId(u) || CodeTag(u) == AffiliateTag
  }

  // ---------------------------------------------------------------- the payout

  /** The affiliate's payout before rounding: the override, else the table entry for the account type. */
  function AffiliateBase(u: User, ctx: Ctx): real
  {
    ExtractOverride(u, "affiliate").GetOr(TableLookup(ctx.config.affiliateTable, NormaliseAccountType(u), 0.0))
  }

  /** The partner's payout before rounding. */
  function PartnerBase(u: User, ctx: Ctx): real
  {
    match ExtractOverride(u, "partner")
    case Some(x) => x
    case None =>
      if IsAffiliateUser(u) then Share(AffiliateBase(u, ctx), ExtractPartnerCut(u, ctx))
      else TableLookup(ctx.config.partnerTable, NormaliseAccountType(u), 0.0)
  }

  /** The partner's cut of the affiliate's payout. */
  function Share(amount: real, cut: real): real
  {
    amount * cut
  }

  /** `payoutForUser`; `None` stands for a user that is not an object. */
  function PayoutForUser(user: Option<User>, ctx: Ctx): (r: Payout)
    ensures r.partner >= 0.0 && IsCents(r.partner) && r.affiliate >= 0.0 && IsCents(r.affiliate)
    ensures user.None? ==> r == Payout(0.0, 0.0)
    ensures user.Some? && !IsAffiliateUser(user.value) ==> r.affiliate == 0.0
    ensures user.Some? ==> r.partner == Money(PartnerBase(user.value, ctx))
    ensures user.Some? && IsAffiliateUser(user.value) ==> r.affiliate == Money(AffiliateBase(user.value, ctx))
  {
    match user
    case None => Payout(0.0, 0.0)
    case Some(u) =>
      MoneyProperties(PartnerBase(u, ctx));
      MoneyProperties(AffiliateBase(u, ctx));
      MoneyProperties(0.0);
      var partner := NormaliseMoney(Num(PartnerBase(u, ctx)));
      if !IsAffiliateUser(u) then Payout(partner, 0.0)
      else Payout(partner, NormaliseMoney(Num(AffiliateBase(u, ctx))))
  }

  /** Without a partner override, the partner's share of an affiliate user never exceeds the affiliate's payout. */
  lemma PartnerShareBounded(u: User, ctx: Ctx)
    requires IsAffiliateUser(u) && ExtractOverride(u, "partner").None?
    ensures PayoutForUser(Some(u), ctx).partner <= PayoutForUser(Some(u), ctx).affiliate
  {
    AffiliateUserPayout(u, ctx);
    AffiliatePartnerBase(u, ctx);
    ScaledDown(AffiliateBase(u, ctx), ExtractPartnerCut(u, ctx), PartnerBase(u, ctx));
  }

  lemma AffiliateUserPayout(u: User, ctx: Ctx)
    requires IsAffiliateUser(u)
    ensures PayoutForUser(Some(u), ctx).partner == Money(PartnerBase(u, ctx))
    ensures PayoutForUser(Some(u), ctx).affiliate == Money(AffiliateBase(u, ctx))
  {
  }

  lemma AffiliatePartnerBase(u: User, ctx: Ctx)
    requires IsAffiliateUser(u) && ExtractOverride(u, "partner").None?
    ensures PartnerBase(u, ctx) == Share(AffiliateBase(u, ctx), ExtractPartnerCut(u, ctx))
  {
  }

  /** A share of a non-negative amount is at most the amount; of a negative one, at most 0. */
  lemma ScaledDown(a: real, c: real, x: real)
    requires 0.0 <= c <= 1.0 && x == Share(a, c)
    ensures Money(x) <= Money(a)
  {
    if a >= 0.0 {
      assert x <= a * 1.0;
      MoneyMonotone(x, a);
    } else {
      assert x <= 0.0;
      MoneyProperties(x);
      MoneyProperties(a);
    }
  }

  /** A partner-coded user earns the partner the account-type entry of the partner table. */
  lemma DirectUserPayout(u: User, ctx: Ctx)
    requires RoleTag(u.role) == PartnerTag && ExtractOverride(u, "partner").None?
    ensures PayoutForUser(Some(u), ctx)
         == Payout(Money(TableLookup(ctx.config.partnerTable, NormaliseAccountType(u), 0.0)), 0.0)
  {
  }
}
