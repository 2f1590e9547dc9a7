// The server-side code validators: the `PT`/`AF` code format, whether a code can still be
// used, and the parent-partner requirement for affiliate codes.

module Validators {
  import opened Js

  /** A character of `[A-Z0-9]`. */
  predicate CodeChar(c: char)
  {
    'A' <= c <= 'Z' || IsDigit(c)
  }

  /** `/^(PT|AF)[A-Z0-9]{5}$/` */
  predicate CodeShaped(s: string)
  {
    && |s| == 7
    && (s[..2] == "PT" || s[..2] == "AF")
    && forall i :: 2 <= i < 7 ==> CodeChar(s[i])
  }

  /** `isValidCode(code)`: a string whose trimmed, upper-cased form has the code shape. */
  predicate IsValidCode(code: Value)
  {
    code.Str? && CodeShaped(Upper(Trim(code.s)))
  }

  lemma UpperOfUpperChar(c: char)
    requires 'A' <= c <= 'Z' || IsDigit(c) || c == '-'
    ensures UpperChar(c) == c
  {
  }

  lemma UpperOfLowerLetter(c: char)
    requires 'a' <= c <= 'z'
    ensures 'A' <= UpperChar(c) <= 'Z'
  {
  }

  /** One space on each side of a trimmed, non-empty text is trimmed away again. */
  lemma TrimPadded(s: string)
    requires s != [] && IsTrimmed(s)
    ensures Trim(" " + s + " ") == s
  {
    var padded := " " + s + " ";
    assert padded[1..] == s + " ";
    assert TrimStart(s + " ") == s + " " by {
      assert (s + " ")[0] == s[0];
    }
    assert TrimStart(padded) == s + " ";
    assert (s + " ")[..|s|] == s;
    assert TrimEnd(s + " ") == TrimEnd(s);
    TrimOfTrimmed(s);
    assert TrimEnd(s) == s by {
      assert s[|s| - 1] == s[|s| - 1];
    }
  }

  lemma CodeShapedUpper(s: string)
    requires |s| == 7
    requires forall i :: 0 <= i < 7 ==> 'a' <= s[i] <= 'z' || 'A' <= s[i] <= 'Z' || IsDigit(s[i])
    requires s[..2] == "pt" || s[..2] == "af" || s[..2] == "PT" || s[..2] == "AF"
    ensures CodeShaped(Upper(s))
  {
    var u := Upper(s);
    forall i | 0 <= i < 7 ensures CodeChar(u[i]) {
      if 'a' <= s[i] <= 'z' { UpperOfLowerLetter(s[i]); } else { UpperOfUpperChar(s[i]); }
    }
    assert u[..2] == [UpperChar(s[0]), UpperChar(s[1])];
    assert s[..2] == [s[0], s[1]];
  }

  /** Validity ignores case and surrounding white space: a `pt` or `af` code written in lower
    * case is valid, and so is the same code padded with spaces. */
  lemma ValidCodeIgnoresCase(s: string)
    requires |s| == 7
    requires forall i :: 0 <= i < 7 ==> 'a' <= s[i] <= 'z' || IsDigit(s[i])
    requires s[..2] == "pt" || s[..2] == "af"
    ensures IsValidCode(Str(s))
    ensures IsValidCode(Str(" " + s + " "))
  {
    hide TrimStart, TrimEnd, Trim, Upper, CodeShaped;
    assert IsTrimmed(s) by { assert !IsSpace(s[0]) && !IsSpace(s[6]); }
    TrimOfTrimmed(s);
    TrimPadded(s);
    CodeShapedUpper(s);
  }

  /** A valid code has seven characters once trimmed, and no hyphen. */
  lemma ValidCodeHasNoHyphen(code: Value)
    requires IsValidCode(code)
    ensures |Trim(code.s)| == 7
    ensures forall i :: 0 <= i < |Trim(code.s)| ==> Trim(code.s)[i] != '-'
  {
    var u := Upper(Trim(code.s));
    forall i | 0 <= i < 7 ensures Trim(code.s)[i] != '-' {
      if i >= 2 { assert CodeChar(u[i]); } else { assert u[..2][i] == u[i]; }
    }
  }

  // ---------------------------------------------------------------- canUseCode

  /** The members of a code object `canUseCode` destructures. */
  datatype CodeUsage = CodeUsage(status: Value, maxUses: Value, uses: Value, useCount: Value, currentUses: Value)

  /** `status && String(status).toLowerCase() !== 'active'` */
  predicate StatusBlocks(status: Value)
  {
    Truthy(status) && Lower(JsString(status)) != "active"
  }

  /** The first of `uses`, `use_count`, `current_uses` that is present. */
  function PresentUses(c: CodeUsage): (r: Value)
    ensures r.Missing? <==> c.uses.Missing? && c.useCount.Missing? && c.currentUses.Missing?
  {
    if !c.uses.Missing? then c.uses
    else if !c.useCount.Missing? then c.useCount
    else c.currentUses
  }

  /** The use count: `Number(...)` of the first present candidate, 0 when none is. */
  function TotalUses(c: CodeUsage): JsNum
  {
    var v := PresentUses(c);
    if v.Missing? then Fin(0.0) else JsNumber(v)
  }

  /** `canUseCode(codeObj)`; `None` stands for an input that is not an object. */
  predicate CanUseCode(obj: Option<CodeUsage>)
  {
    if obj.None? then false
    else
      var c := obj.value;
      if StatusBlocks(c.status) then false
      else if c.maxUses.Missing? then true
      else if !(c.maxUses.Num? || c.maxUses.Inf?) || (c.maxUses.Num? && c.maxUses.n < 0.0) || c.maxUses == Inf(true) then false
      else
        var total := TotalUses(c);
        if total.NotFinite? || total.r < 0.0 then false
        else c.maxUses.Inf? || total.r < c.maxUses.n
  }

  /** A status other than `active` (in any case) blocks use; so does a negative or non-numeric
    * limit, and a use count that is negative or not a finite number. */
  lemma CanUseCodeRejects(c: CodeUsage)
    ensures StatusBlocks(c.status) ==> !CanUseCode(Some(c))
    ensures !StatusBlocks(c.status) && c.maxUses.Missing? ==> CanUseCode(Some(c))
    ensures (c.maxUses.Str? || c.maxUses.Bool? || c.maxUses.NaN? || (c.maxUses.Num? && c.maxUses.n < 0.0)) ==> !CanUseCode(Some(c))
    ensures !c.maxUses.Missing? && (TotalUses(c).NotFinite? || TotalUses(c).r < 0.0) ==> !CanUseCode(Some(c))
    ensures !CanUseCode(None)
  {
  }

  /** With an open status and a numeric limit, a code can be used while its count is below the
    * limit: not at the limit, and still one below it. */
  lemma CanUseCodeAtLimit(status: Value, max: nat, uses: nat)
    requires !StatusBlocks(status)
    ensures CanUseCode(Some(CodeUsage(status, Num(max as real), Num(uses as real), Missing, Missing))) <==> uses < max
    ensures max > 0 ==> CanUseCode(Some(CodeUsage(status, Num(max as real), Num((max - 1) as real), Missing, Missing)))
    ensures !CanUseCode(Some(CodeUsage(status, Num(max as real), Num(max as real), Missing, Missing)))
  {
  }

  /** The status comparison ignores case: `ACTIVE` and `Active` are as open as `active`. */
  lemma ActiveStatusAnyCase(s: string)
    requires Lower(s) == "active"
    ensures !StatusBlocks(Str(s))
  {
  }

  /** The count is taken from `uses` before `use_count` before `current_uses`. */
  lemma UsesPriority(c: CodeUsage)
    ensures !c.uses.Missing? ==> TotalUses(c) == JsNumber(c.uses)
    ensures c.uses.Missing? && !c.useCount.Missing? ==> TotalUses(c) == JsNumber(c.useCount)
    ensures c.uses.Missing? && c.useCount.Missing? && !c.currentUses.Missing? ==> TotalUses(c) == JsNumber(c.currentUses)
    ensures c.uses.Missing? && c.useCount.Missing? && c.currentUses.Missing? ==> TotalUses(c) == Fin(0.0)
  {
  }

  // ---------------------------------------------------------------- requireParentForAffiliate

  /** The members of a code payload `requireParentForAffiliate` destructures. */
  datatype CodePayload = CodePayload(code: Value, parentPartnerId: Value)

  /** `Number.isInteger(v) && v > 0` */
  predicate PositiveInteger(v: Value)
  {
    v.Num? && v.n == v.n.Floor as real && v.n > 0.0
  }

  /** `requireParentForAffiliate(payload)` as written: the affiliate test looks at the code
    * upper-cased but not trimmed. `None` stands for an input that is not an object. */
  function RequireParentForAffiliate(payload: Option<CodePayload>): (r: Result<bool>)
    ensures r.Success? ==> r.value
    ensures r.Success? ==> payload.Some? && IsValidCode(payload.value.code)
  {
    if payload.None? then Failure("Code payload is required")
    else
      var p := payload.value;
      if !IsValidCode(p.code) then Failure("Code format is invalid")
      else if !StartsWith(Upper(p.code.s), "AF") then Success(true)
      else if !PositiveInteger(p.parentPartnerId) then Failure("Affiliate codes require a valid parent_partner_id")
      else Success(true)
  }

  /** As written, a valid affiliate code with a leading space is accepted without any parent
    * partner: the trimmed code is an `AF` code, but the untrimmed one does not start with `AF`. */
  lemma ParentCheckSkippedForPaddedCode()
    ensures IsValidCode(Str(" AF12345"))
    ensures StartsWith(Upper(Trim(" AF12345")), "AF")
    ensures RequireParentForAffiliate(Some(CodePayload(Str(" AF12345"), Missing))) == Success(true)
  {
    hide TrimStart, TrimEnd, Trim, Upper, CodeShaped;
    var code := "AF12345";
    assert IsTrimmed(code) by { assert !IsSpace(code[0]) && !IsSpace(code[6]); }
    TrimLeadingSpace(code);
    assert " AF12345" == " " + code;
    CodeShapedUpper(code);
    UpperOfTrimmedAF(code);
    UpperStartsWithSpace(" AF12345");
  }

  /** A space in front of a trimmed, non-empty text is trimmed away again. */
  lemma TrimLeadingSpace(s: string)
    requires s != [] && IsTrimmed(s)
    ensures Trim(" " + s) == s
  {
    assert (" " + s)[1..] == s;
    TrimOfTrimmed(s);
  }

  lemma UpperOfTrimmedAF(code: string)
    requires code == "AF12345"
    ensures StartsWith(Upper(code), "AF")
  {
    assert Upper(code)[..2] == "AF";
  }

  lemma UpperStartsWithSpace(s: string)
    requires s != [] && s[0] == ' '
    ensures !StartsWith(Upper(s), "AF")
  {
    assert Upper(s)[0] == ' ';
  }

  /** The parent check as evidently intended: the affiliate test reads the same trimmed,
    * upper-cased code the format check accepted. */
  function RequireParentForAffiliateTrimmed(payload: Option<CodePayload>): (r: Result<bool>)
    ensures r.Success? ==> r.value
  {
    if payload.None? then Failure("Code payload is required")
    else
      var p := payload.value;
      if !IsValidCode(p.code) then Failure("Code format is invalid")
      else if !StartsWith(Upper(Trim(p.code.s)), "AF") then Success(true)
      else if !PositiveInteger(p.parentPartnerId) then Failure("Affiliate codes require a valid parent_partner_id")
      else Success(true)
  }

  /** With the trimmed test, an accepted code is either a `PT` code or an `AF` code with a
    * positive integer parent partner, and every `PT` code is accepted whatever its parent. */
  lemma TrimmedParentCheckHolds(payload: Option<CodePayload>)
    ensures var r := RequireParentForAffiliateTrimmed(payload);
            r.Success? <==>
              && payload.Some? && IsValidCode(payload.value.code)
              && (Upper(Trim(payload.value.code.s))[..2] == "AF" ==> PositiveInteger(payload.value.parentPartnerId))
  {
    if payload.Some? && IsValidCode(payload.value.code) {
      var u := Upper(Trim(payload.value.code.s));
      assert StartsWith(u, "AF") <==> u[..2] == "AF";
    }
  }

  /** The two checks agree on every code written without surrounding white space. */
  lemma ParentChecksAgreeOnTrimmed(payload: Option<CodePayload>)
    requires payload.Some? && payload.value.code.Str? && IsTrimmed(payload.value.code.s)
    ensures RequireParentForAffiliate(payload) == RequireParentForAffiliateTrimmed(payload)
  {
    TrimOfTrimmed(payload.value.code.s);
  }
}
