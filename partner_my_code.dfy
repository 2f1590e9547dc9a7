// The partner's "my codes" view: the first partner's codes split into partner
// and affiliate codes, and the partner's affiliates with their code counts and
// users.

module PartnerMyCode {
  import opened Js
  import opened Records
  import AdminPayments

  /** `code.code ?? code.value ?? code.id` */
  function ShownValue(c: Code): Value
  {
    Coalesce(c.value, c.id)
  }

  /** An affiliate code: its shown value is a string starting with `AF-`. */
  predicate IsAfCode(c: Code)
  {
    ShownValue(c).Str? && StartsWith(ShownValue(c).s, "AF-")
  }

  /** A partner code: its shown value is any other string. */
  predicate IsPtCode(c: Code)
  {
    ShownValue(c).Str? && !StartsWith(ShownValue(c).s, "AF-")
  }

  /** `groupCodes`: the codes with a string value, split into partner and affiliate codes,
    * each group in the codes' own order; codes without a string value are skipped. */
  method GroupCodes(codes: seq<Code>) returns (pt: seq<Code>, af: seq<Code>)
    ensures pt == Where(codes, IsPtCode) && af == Where(codes, IsAfCode)
  {
    hide Where;
    pt, af := [], [];
    var i := 0;
    while i < |codes|
      invariant 0 <= i <= |codes|
      invariant pt == Where(codes[..i], IsPtCode) && af == Where(codes[..i], IsAfCode)
    {
      assert codes[..i + 1] == codes[..i] + [codes[i]];
      WhereSnoc(codes[..i], codes[i], IsPtCode);
      WhereSnoc(codes[..i], codes[i], IsAfCode);
      var value := Coalesce(codes[i].value, codes[i].id);
      if value.Str? {
        if StartsWith(value.s, "AF-") {
          af := af + [codes[i]];
        } else {
          pt := pt + [codes[i]];
        }
      }
      i := i + 1;
    }
    assert codes[..i] == codes;
  }

  /** The number of codes with a string value. */
  function Grouped(codes: seq<Code>): nat
  {
    if codes == [] then 0
    else Grouped(codes[..|codes| - 1]) + (if ShownValue(codes[|codes| - 1]).Str? then 1 else 0)
  }

  /** Every code with a string value lands in exactly one group and every other code in
    * none: the two groups together are as long as the codes with a string value. */
  lemma {:induction false} GroupsPartition(codes: seq<Code>)
    ensures |Where(codes, IsPtCode)| + |Where(codes, IsAfCode)| == Grouped(codes)
    ensures forall c :: c in codes && ShownValue(c).Str? ==> (c in Where(codes, IsAfCode) <==> c !in Where(codes, IsPtCode))
  {
    if codes != [] {
      GroupsPartition(codes[..|codes| - 1]);
    }
    forall c | c in codes && ShownValue(c).Str?
      ensures c in Where(codes, IsAfCode) <==> c !in Where(codes, IsPtCode)
    {
      var i :| 0 <= i < |codes| && codes[i] == c;
      if IsAfCode(c) {
        assert codes[i] in Where(codes, IsAfCode);
      } else {
        assert codes[i] in Where(codes, IsPtCode);
      }
    }
  }

  /** The listing is stable under appending codes: the groups of more codes are the
    * groups of the earlier ones followed by those of the new ones. */
  lemma GroupsKeepOrder(codes: seq<Code>, more: seq<Code>)
    ensures Where(codes + more, IsPtCode) == Where(codes, IsPtCode) + Where(more, IsPtCode)
    ensures Where(codes + more, IsAfCode) == Where(codes, IsAfCode) + Where(more, IsAfCode)
  {
    WhereAppend(codes, more, IsPtCode);
    WhereAppend(codes, more, IsAfCode);
  }

  // ---------------------------------------------------------------- affiliates

  /** A code of the affiliate: its affiliate id `===` the affiliate's id. */
  predicate OfAffiliate(c: Code, affiliateId: Value)
  {
    AdminPayments.SameId(c.affiliateRef, affiliateId)
  }

  /** `code.uses ?? 0` as a number; anything but a number counts as not finite. */
  function UsesOf(c: Code): JsNum
  {
    match Coalesce(c.uses, Num(0.0))
    case Num(n) => Fin(n)
    case _ => NotFinite
  }

  /** The uses of some codes, added left to right from 0. */
  function UsesSum(codes: seq<Code>): JsNum
  {
    if codes == [] then Fin(0.0) else Add(UsesSum(codes[..|codes| - 1]), UsesOf(codes[|codes| - 1]))
  }

  /** An affiliate's row: the number of its codes and the sum of their uses. */
  datatype AffiliateRow = AffiliateRow(id: Value, codes: nat, users: JsNum)

  function AffiliateRowFor(a: Affiliate, codes: seq<Code>): AffiliateRow
  {
    var related := Where(codes, c => OfAffiliate(c, a.id));
    AffiliateRow(a.id, |related|, UsesSum(related))
  }

  /** The uses of two runs of codes add up. */
  lemma {:induction false} UsesSumAppend(xs: seq<Code>, ys: seq<Code>)
    ensures UsesSum(xs + ys) == Add(UsesSum(xs), UsesSum(ys))
  {
    if ys == [] {
      assert xs + ys == xs;
    } else {
      var init := ys[..|ys| - 1];
      assert (xs + ys)[..|xs + ys| - 1] == xs + init;
      UsesSumAppend(xs, init);
      var a, b, c := UsesSum(xs), UsesSum(init), UsesOf(ys[|ys| - 1]);
      assert Add(Add(a, b), c) == Add(a, Add(b, c));
    }
  }

  /** Codes whose uses are missing or non-negative numbers. */
  predicate UsesCounted(codes: seq<Code>)
  {
    forall i :: 0 <= i < |codes| ==> codes[i].uses.Missing? || (codes[i].uses.Num? && codes[i].uses.n >= 0.0)
  }

  /** When every use count is missing or a non-negative number, the users an affiliate
    * shows are a finite, non-negative number. */
  lemma {:induction false} UsesSumNonNegative(codes: seq<Code>)
    requires UsesCounted(codes)
    ensures UsesSum(codes).Fin? && UsesSum(codes).r >= 0.0
  {
    if codes != [] {
      var init := codes[..|codes| - 1];
      assert UsesCounted(init) by {
        assert forall i :: 0 <= i < |init| ==> init[i] == codes[i];
      }
      UsesSumNonNegative(init);
    }
  }

  /** The affiliate rows: an affiliate counts exactly the codes carrying its id, and codes
    * of several affiliates add up across them. */
  lemma AffiliateRowFacts(a: Affiliate, codes: seq<Code>, more: seq<Code>)
    ensures var row := AffiliateRowFor(a, codes);
            && row.id == a.id
            && row.codes <= |codes|
            && (row.codes == 0 <==> forall i :: 0 <= i < |codes| ==> !OfAffiliate(codes[i], a.id))
            && AffiliateRowFor(a, codes + more).codes == row.codes + AffiliateRowFor(a, more).codes
            && AffiliateRowFor(a, codes + more).users == Add(row.users, AffiliateRowFor(a, more).users)
  {
    var keep := c => OfAffiliate(c, a.id);
    WhereAppend(codes, more, keep);
    UsesSumAppend(Where(codes, keep), Where(more, keep));
    hide UsesSum, Add;
    var related := Where(codes, keep);
    if related != [] {
      assert keep(related[0]);
    }
    if exists i :: 0 <= i < |codes| && OfAffiliate(codes[i], a.id) {
      var i :| 0 <= i < |codes| && OfAffiliate(codes[i], a.id);
      assert keep(codes[i]);
      assert codes[i] in related;
    }
  }

  // ---------------------------------------------------------------- the first partner

  /** What the view lists: the first partner's codes and affiliates, or nothing when no
    * partner is configured. */
  datatype Listing = Listing(codes: seq<Code>, affiliates: seq<Affiliate>)

  /** `(code.partnerId ?? code.partner_id) === partner.id` */
  predicate CodeOfPartner(c: Code, partnerId: Value)
  {
    AdminPayments.SameId(c.partnerRef, partnerId)
  }

  /** `affiliate.partnerId === partner.id` */
  predicate AffiliateOfPartner(a: Affiliate, partnerId: Value)
  {
    AdminPayments.SameId(a.partnerRef, partnerId)
  }

  function MyListing(partners: seq<Partner>, codes: seq<Code>, affiliates: seq<Affiliate>): Option<Listing>
  {
    if partners == [] then None
    else
      var id := partners[0].id;
      Some(Listing(Where(codes, c => CodeOfPartner(c, id)), Where(affiliates, a => AffiliateOfPartner(a, id))))
  }

  /** Only the first partner's codes and affiliates are listed, all of them, in order. */
  lemma ListingIsFirstPartners(partners: seq<Partner>, codes: seq<Code>, affiliates: seq<Affiliate>)
    ensures MyListing(partners, codes, affiliates).None? <==> partners == []
    ensures partners != [] ==>
              var l := MyListing(partners, codes, affiliates).value;
              var id := partners[0].id;
              && (forall c :: c in l.codes <==> c in codes && CodeOfPartner(c, id))
              && (forall a :: a in l.affiliates <==> a in affiliates && AffiliateOfPartner(a, id))
  {
    if partners != [] {
      var l := MyListing(partners, codes, affiliates).value;
      var id := partners[0].id;
      forall c | c in l.codes ensures CodeOfPartner(c, id) {
        var i :| 0 <= i < |l.codes| && l.codes[i] == c;
      }
      forall c | c in codes && CodeOfPartner(c, id) ensures c in l.codes {
        var i :| 0 <= i < |codes| && codes[i] == c;
      }
      forall a | a in l.affiliates ensures AffiliateOfPartner(a, id) {
        var i :| 0 <= i < |l.affiliates| && l.affiliates[i] == a;
      }
      forall a | a in affiliates && AffiliateOfPartner(a, id) ensures a in l.affiliates {
        var i :| 0 <= i < |affiliates| && affiliates[i] == a;
      }
    }
  }
}
