// The executive's payments view: invoice totals per partner, largest first,
// and the most recently created invoices.

module ExecutivePayments {
  import opened Js
  import opened Records
  import opened Sorting
  import opened AdminPayments

  /** The key an invoice is grouped under: its partner id as text, `unknown` when missing. */
  function PartnerKey(inv: Invoice): (k: string)
    ensures inv.partnerRef.Missing? ==> k == "unknown"
    ensures inv.partnerRef.Str? ==> k == inv.partnerRef.s
  {
    JsString(Coalesce(inv.partnerRef, Str("unknown")))
  }

  /** The partner keys in the order they are first seen. */
  function KeysOf(invs: seq<Invoice>): (r: seq<string>)
    ensures forall i, j :: 0 <= i < j < |r| ==> r[i] != r[j]
    ensures forall k :: k in r <==> exists i :: 0 <= i < |invs| && PartnerKey(invs[i]) == k
  {
    if invs == [] then []
    else
      var init := invs[..|invs| - 1];
      var k := PartnerKey(invs[|invs| - 1]);
      assert forall i :: 0 <= i < |init| ==> init[i] == invs[i];
      if k in KeysOf(init) then KeysOf(init) else KeysOf(init) + [k]
  }

  /** A partner's invoices, in order. */
  function Of(invs: seq<Invoice>, k: string): (r: seq<Invoice>)
    ensures |r| <= |invs|
    ensures forall x :: x in r <==> x in invs && PartnerKey(x) == k
  {
    if invs == [] then []
    else
      var init := invs[..|invs| - 1];
      var x := invs[|invs| - 1];
      assert invs == init + [x];
      if PartnerKey(x) == k then Of(init, k) + [x] else Of(init, k)
  }

  /** The paid amounts added left to right; a non-finite amount absorbs. */
  function PaidAmount(invs: seq<Invoice>): JsNum
  {
    if invs == [] then Fin(0.0)
    else
      var x := invs[|invs| - 1];
      var rest := PaidAmount(invs[..|invs| - 1]);
      if IsPaid(x) then Add(rest, AmountOf(x)) else rest
  }

  /** The amounts of the invoices that are not paid, added left to right. */
  function PendingAmount(invs: seq<Invoice>): JsNum
  {
    if invs == [] then Fin(0.0)
    else
      var x := invs[|invs| - 1];
      var rest := PendingAmount(invs[..|invs| - 1]);
      if IsPaid(x) then rest else Add(rest, AmountOf(x))
  }

  /** The name a partner's bucket shows: that of the partner's first invoice, else the key. */
  function NameOf(invs: seq<Invoice>, k: string): Value
  {
    if invs == [] then Str(k)
    else
      var init := invs[..|invs| - 1];
      var x := invs[|invs| - 1];
      if k in KeysOf(init) then NameOf(init, k)
      else if PartnerKey(x) == k then Coalesce(x.partnerName, Str(k))
      else Str(k)
  }

  /** A partner's figures. */
  datatype PartnerBucket = PartnerBucket(
    partnerId: string,
    partnerName: Value,
    pendingAmount: JsNum,
    paidAmount: JsNum,
    totalAmount: JsNum,
    pendingCount: nat,
    paidCount: nat)

  /** What the view shows for a partner, stated over all the partner's invoices. */
  function BucketFor(invs: seq<Invoice>, k: string): PartnerBucket
  {
    var mine := Of(invs, k);
    PartnerBucket(k, NameOf(invs, k), PendingAmount(mine), PaidAmount(mine), AmountTotal(mine),
                  |mine| - PaidCount(mine), PaidCount(mine))
  }

  /** One bucket per partner key, in first-seen order. */
  function Buckets(invs: seq<Invoice>): (r: seq<PartnerBucket>)
    ensures |r| == |KeysOf(invs)|
    ensures forall j :: 0 <= j < |r| ==> r[j] == BucketFor(invs, KeysOf(invs)[j])
  {
    var keys := KeysOf(invs);
    seq(|keys|, j requires 0 <= j < |keys| => BucketFor(invs, keys[j]))
  }

  /** The sort key of a total; a non-finite total sorts as 0. */
  function TotalKey(b: PartnerBucket): real
  {
    if b.totalAmount.Fin? then b.totalAmount.r else 0.0
  }

  /** `(a, b) => b.totalAmount - a.totalAmount`: larger totals first. */
  predicate TotalDesc(a: PartnerBucket, b: PartnerBucket)
  {
    TotalKey(a) >= TotalKey(b)
  }

  lemma TotalDescTotalPreorder()
    ensures TotalPreorder(TotalDesc)
  {
  }

  /** The empty bucket the view opens for a partner it has not seen yet. */
  function Opened(inv: Invoice): PartnerBucket
  {
    PartnerBucket(PartnerKey(inv), Coalesce(inv.partnerName, Str(PartnerKey(inv))), Fin(0.0), Fin(0.0), Fin(0.0), 0, 0)
  }

  /** A bucket after one more of its partner's invoices. */
  function Accumulate(b: PartnerBucket, inv: Invoice): PartnerBucket
  {
    var amount := AmountOf(inv);
    var counted :=
      if IsPaid(inv) then b.(paidAmount := Add(b.paidAmount, amount), paidCount := b.paidCount + 1)
      else b.(pendingAmount := Add(b.pendingAmount, amount), pendingCount := b.pendingCount + 1);
    counted.(totalAmount := Add(counted.totalAmount, amount))
  }

  /** A partner key has a bucket exactly when the partner has an invoice. */
  lemma OfEmpty(invs: seq<Invoice>, k: string)
    ensures Of(invs, k) == [] <==> k !in KeysOf(invs)
  {
    if Of(invs, k) != [] {
      assert Of(invs, k)[0] in Of(invs, k);
      var x := Of(invs, k)[0];
      var i :| 0 <= i < |invs| && invs[i] == x;
    }
    if k in KeysOf(invs) {
      var i :| 0 <= i < |invs| && PartnerKey(invs[i]) == k;
      assert invs[i] in Of(invs, k);
    }
  }

  lemma KeysSnoc(invs: seq<Invoice>, x: Invoice)
    ensures KeysOf(invs + [x]) ==
              if PartnerKey(x) in KeysOf(invs) then KeysOf(invs) else KeysOf(invs) + [PartnerKey(x)]
  {
    assert (invs + [x])[..|invs|] == invs;
  }

  lemma OfSnoc(invs: seq<Invoice>, x: Invoice, k: string)
    ensures Of(invs + [x], k) == if PartnerKey(x) == k then Of(invs, k) + [x] else Of(invs, k)
  {
    assert (invs + [x])[..|invs|] == invs;
  }

  lemma NameSnoc(invs: seq<Invoice>, x: Invoice, k: string)
    ensures NameOf(invs + [x], k) ==
              if k in KeysOf(invs) then NameOf(invs, k)
              else if PartnerKey(x) == k then Coalesce(x.partnerName, Str(k))
              else Str(k)
  {
    assert (invs + [x])[..|invs|] == invs;
  }

  /** One more invoice leaves every other partner's bucket as it was. */
  lemma BucketOther(invs: seq<Invoice>, x: Invoice, k: string)
    requires k in KeysOf(invs) && k != PartnerKey(x)
    ensures BucketFor(invs + [x], k) == BucketFor(invs, k)
  {
    OfSnoc(invs, x, k);
    NameSnoc(invs, x, k);
  }

  /** One more invoice of a partner already seen accumulates into that partner's bucket. */
  lemma BucketExtend(invs: seq<Invoice>, x: Invoice)
    requires PartnerKey(x) in KeysOf(invs)
    ensures BucketFor(invs + [x], PartnerKey(x)) == Accumulate(BucketFor(invs, PartnerKey(x)), x)
  {
    hide KeysOf, Of, NameOf, AmountOf, PartnerKey, PaidCount, PaidAmount, PendingAmount, AmountTotal, IsPaid;
    var k := PartnerKey(x);
    OfSnoc(invs, x, k);
    NameSnoc(invs, x, k);
    FiguresSnoc(Of(invs, k), x);
  }

  /** What one more invoice adds to a partner's counts and amounts. */
  lemma FiguresSnoc(mine: seq<Invoice>, x: Invoice)
    ensures PaidCount(mine + [x]) == PaidCount(mine) + (if IsPaid(x) then 1 else 0)
    ensures PaidAmount(mine + [x]) == if IsPaid(x) then Add(PaidAmount(mine), AmountOf(x)) else PaidAmount(mine)
    ensures PendingAmount(mine + [x]) == if IsPaid(x) then PendingAmount(mine) else Add(PendingAmount(mine), AmountOf(x))
    ensures AmountTotal(mine + [x]) == Add(AmountTotal(mine), AmountOf(x))
  {
    hide AmountOf, IsPaid;
    assert (mine + [x])[..|mine|] == mine;
  }

  /** The first invoice of a partner opens the partner's bucket and accumulates into it. */
  lemma BucketOpen(invs: seq<Invoice>, x: Invoice)
    requires PartnerKey(x) !in KeysOf(invs)
    ensures BucketFor(invs + [x], PartnerKey(x)) == Accumulate(Opened(x), x)
  {
    var k := PartnerKey(x);
    OfEmpty(invs, k);
    OfSnoc(invs, x, k);
    NameSnoc(invs, x, k);
    assert Of(invs + [x], k) == [x];
    assert [x][..0] == [];
    assert PaidCount([x]) == if IsPaid(x) then 1 else 0;
    assert PaidAmount([x]) == if IsPaid(x) then Add(Fin(0.0), AmountOf(x)) else Fin(0.0);
    assert PendingAmount([x]) == if IsPaid(x) then Fin(0.0) else Add(Fin(0.0), AmountOf(x));
    assert AmountTotal([x]) == Add(Fin(0.0), AmountOf(x));
    hide KeysOf, Of, NameOf, AmountOf, PartnerKey, PaidCount, PaidAmount, PendingAmount, AmountTotal, IsPaid;
  }

  /** The buckets and the bucket index after some of the invoices: one bucket per partner
    * seen so far, in first-seen order, and the index giving each partner's position. */
  ghost predicate Grouped(invs: seq<Invoice>, buckets: seq<PartnerBucket>, index: map<string, nat>)
  {
    var keys := KeysOf(invs);
    && |buckets| == |keys|
    && (forall j :: 0 <= j < |buckets| ==> buckets[j] == BucketFor(invs, keys[j]))
    && (forall k :: k in index <==> k in keys)
    && (forall k :: k in index ==> index[k] < |keys| && keys[index[k]] == k)
  }

  /** One step of the grouping: the invoice's partner bucket is opened if needed and
    * accumulates the invoice. */
  method AddInvoice(ghost pre: seq<Invoice>, inv: Invoice, buckets: seq<PartnerBucket>, index: map<string, nat>)
    returns (buckets': seq<PartnerBucket>, index': map<string, nat>)
    requires Grouped(pre, buckets, index)
    ensures Grouped(pre + [inv], buckets', index')
  {
    hide BucketFor, KeysOf, Accumulate, Opened, PartnerKey, Of, NameOf;
    ghost var keys := KeysOf(pre);
    var key := PartnerKey(inv);
    KeysSnoc(pre, inv);
    buckets', index' := buckets, index;
    if key !in index {
      BucketOpen(pre, inv);
      index' := index[key := |buckets|];
      buckets' := buckets + [Opened(inv)];
      keys := keys + [key];
    } else {
      BucketExtend(pre, inv);
    }
    var j := index'[key];
    buckets' := buckets'[j := Accumulate(buckets'[j], inv)];
    forall m | 0 <= m < |buckets'|
      ensures buckets'[m] == BucketFor(pre + [inv], keys[m])
    {
      if m != j {
        BucketOther(pre, inv, keys[m]);
      }
    }
  }

  /** `aggregateByPartner`: the invoices are grouped by partner into buckets of paid and
    * pending counts and amounts, and the buckets sorted by total, largest first. */
  method AggregateByPartner(invoices: seq<Invoice>) returns (r: seq<PartnerBucket>)
    ensures r == SortBy(Buckets(invoices), TotalDesc)
  {
    var buckets: seq<PartnerBucket> := [];
    var index: map<string, nat> := map[];
    assert KeysOf(invoices[..0]) == [];
    var i := 0;
    while i < |invoices|
      invariant 0 <= i <= |invoices|
      invariant Grouped(invoices[..i], buckets, index)
    {
      assert invoices[..i + 1] == invoices[..i] + [invoices[i]];
      buckets, index := AddInvoice(invoices[..i], invoices[i], buckets, index);
      i := i + 1;
    }
    assert invoices[..i] == invoices;
    assert buckets == Buckets(invoices);
    r := SortBy(buckets, TotalDesc);
  }

  /** Adding amounts in any grouping gives the same sum. */
  lemma AddRegroup(a: JsNum, b: JsNum, c: JsNum)
    ensures Add(Add(a, b), c) == Add(Add(a, c), b)
    ensures Add(Add(a, b), c) == Add(a, Add(b, c))
  {
  }

  /** The total is the paid amount plus the pending amount. */
  lemma {:induction false} TotalIsPaidPlusPending(invs: seq<Invoice>)
    ensures AmountTotal(invs) == Add(PaidAmount(invs), PendingAmount(invs))
  {
    if invs != [] {
      var init := invs[..|invs| - 1];
      var x := invs[|invs| - 1];
      TotalIsPaidPlusPending(init);
      AddRegroup(PaidAmount(init), PendingAmount(init), AmountOf(x));
      AddRegroup(PaidAmount(init), AmountOf(x), PendingAmount(init));
    }
  }

  /** Each bucket is its partner's: the counts add up to the partner's invoices and the
    * paid and pending amounts to the total. */
  lemma BucketsConsistent(invs: seq<Invoice>)
    ensures forall j :: 0 <= j < |Buckets(invs)| ==>
              var b := Buckets(invs)[j];
              && b.partnerId == KeysOf(invs)[j]
              && b.paidCount + b.pendingCount == |Of(invs, b.partnerId)|
              && b.totalAmount == Add(b.paidAmount, b.pendingAmount)
  {
    forall j | 0 <= j < |Buckets(invs)| {
      TotalIsPaidPlusPending(Of(invs, KeysOf(invs)[j]));
    }
  }

  /** Every bucket is that of a partner with invoices, one per partner; in each bucket the
    * paid and pending counts add up to the partner's invoices and the paid and pending
    * amounts to the total; the buckets come out largest total first. */
  lemma AggregateFacts(invoices: seq<Invoice>)
    ensures var r := SortBy(Buckets(invoices), TotalDesc);
            && SortedBy(r, TotalDesc)
            && multiset(r) == multiset(Buckets(invoices))
            && (forall b :: b in r ==>
                  (&& b.paidCount + b.pendingCount == |Of(invoices, b.partnerId)|
                   && b.totalAmount == Add(b.paidAmount, b.pendingAmount)
                   && b.partnerId in KeysOf(invoices)))
            && (forall i, j :: 0 <= i < j < |r| ==> r[i].partnerId != r[j].partnerId)
  {
    hide Buckets, SortBy, BucketFor, Of, KeysOf;
    var bs := Buckets(invoices);
    TotalDescTotalPreorder();
    SortBySorted(bs, TotalDesc);
    BucketsConsistent(invoices);
    var r := SortBy(bs, TotalDesc);
    forall b | b in r
      ensures b.paidCount + b.pendingCount == |Of(invoices, b.partnerId)|
      ensures b.totalAmount == Add(b.paidAmount, b.pendingAmount)
      ensures b.partnerId in KeysOf(invoices)
    {
      assert b in multiset(bs);
    }
    assert forall p, q :: 0 <= p < q < |bs| ==> bs[p].partnerId != bs[q].partnerId;
    forall i, j | 0 <= i < j < |r| ensures r[i].partnerId != r[j].partnerId {
      DistinctIds(r, bs, i, j);
    }
  }

  /** A bucket occurs at most once among buckets with distinct keys. */
  lemma {:induction false} MultiplicityOne(bs: seq<PartnerBucket>, b: PartnerBucket)
    requires forall p, q :: 0 <= p < q < |bs| ==> bs[p].partnerId != bs[q].partnerId
    ensures multiset(bs)[b] <= 1
  {
    if bs != [] {
      var rest := bs[1..];
      assert bs == [bs[0]] + rest;
      MultiplicityOne(rest, b);
      if bs[0] == b {
        assert forall q :: 0 <= q < |rest| ==> rest[q] == bs[q + 1];
      }
    }
  }

  /** A reordering of buckets with distinct keys still has distinct keys. */
  lemma DistinctIds(r: seq<PartnerBucket>, bs: seq<PartnerBucket>, i: nat, j: nat)
    requires multiset(r) == multiset(bs)
    requires forall p, q :: 0 <= p < q < |bs| ==> bs[p].partnerId != bs[q].partnerId
    requires i < j < |r|
    ensures r[i].partnerId != r[j].partnerId
  {
    assert r[i] in multiset(bs) && r[j] in multiset(bs);
    var p :| 0 <= p < |bs| && bs[p] == r[i];
    var q :| 0 <= q < |bs| && bs[q] == r[j];
    if p == q {
      assert r == r[..j] + r[j..];
      assert multiset(r) == multiset(r[..j]) + multiset(r[j..]);
      assert r[i] in multiset(r[..j]) by { assert r[..j][i] == r[i]; }
      assert r[j] in multiset(r[j..]) by { assert r[j..][0] == r[j]; }
      MultiplicityOne(bs, r[i]);
      assert false;
    }
  }

  // ---------------------------------------------------------------- recent invoices

  /** `new Date(created_at ?? 0).getTime()`; an unparsable date is taken as 0. */
  function CreatedTime(inv: Invoice): int
  {
    match inv.createdAt
    case At(t) => t.millis
    case _ => 0
  }

  /** `(a, b) => bDate - aDate`: newer first. */
  predicate NewerFirst(a: Invoice, b: Invoice)
  {
    CreatedTime(a) >= CreatedTime(b)
  }

  /** The recent-invoices list: the invoices newest first, at most five of them. */
  function Recent(invoices: seq<Invoice>): seq<Invoice>
  {
    var sorted := SortBy(invoices, NewerFirst);
    sorted[..if |sorted| < 5 then |sorted| else 5]
  }

  /** In a sorted sequence every element of a prefix comes before every element after it. */
  lemma SortedPrefixFirst(s: seq<Invoice>, n: nat)
    requires SortedBy(s, NewerFirst) && n <= |s|
    ensures forall x, y :: x in s[..n] && y in multiset(s[n..]) ==> CreatedTime(x) >= CreatedTime(y)
  {
    forall x, y | x in s[..n] && y in multiset(s[n..]) ensures CreatedTime(x) >= CreatedTime(y) {
      var i :| 0 <= i < n && s[..n][i] == x;
      var j :| 0 <= j < |s| - n && s[n..][j] == y;
      assert s[i] == x && s[n + j] == y;
    }
  }

  /** A prefix is part of the whole, and what it leaves out is the rest. */
  lemma PrefixLeavesRest(s: seq<Invoice>, n: nat)
    requires n <= |s|
    ensures multiset(s[..n]) <= multiset(s)
    ensures multiset(s) - multiset(s[..n]) == multiset(s[n..])
  {
    assert s == s[..n] + s[n..];
  }

  /** The list holds five invoices, or all of them when there are fewer, newest first, and
    * none left out is newer than one shown. */
  lemma RecentIsNewest(invoices: seq<Invoice>)
    ensures var r := Recent(invoices);
            && |r| == (if |invoices| < 5 then |invoices| else 5)
            && SortedBy(r, NewerFirst)
            && multiset(r) <= multiset(invoices)
            && forall x, y :: x in r && y in multiset(invoices) - multiset(r) ==> CreatedTime(x) >= CreatedTime(y)
  {
    hide SortBy, CreatedTime;
    var sorted := SortBy(invoices, NewerFirst);
    SortBySorted(invoices, NewerFirst);
    var n := if |sorted| < 5 then |sorted| else 5;
    SortedPrefixFirst(sorted, n);
    PrefixLeavesRest(sorted, n);
  }
}
