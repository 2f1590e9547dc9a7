// The invoice engine: one invoice per partner and billing period, the
// filtered invoice listing and the in-place status change.

module Invoices {
  import opened Js
  import opened Records
  import opened Payouts
  import opened Sorting
  import opened Summaries

  const DefaultCutoffDay := 15

  // ---------------------------------------------------------------- numbers

  /** `toNumber` of the invoice engine: `null`, `undefined` and `''` are no number,
    * anything else is `Number(v)` when that is finite. */
  function NumberOrNull(v: Value): (r: Option<real>)
    ensures v.Missing? || v == Str("") ==> r == None
    ensures v.Num? ==> r == Some(v.n)
    ensures v.Str? && v.s != "" ==> (r.Some? <==> NumberOfString(v.s).Fin?)
  {
    if v.Missing? || v == Str("") then None
    else match JsNumber(v)
      case Fin(x) => Some(x)
      case NotFinite => None
  }

  /** `roundCurrency`: a non-finite number is 0, any other is rounded to whole cents. */
  function RoundCurrency(x: JsNum): real
  {
    match x
    case Fin(v) => Round2(v)
    case NotFinite => 0.0
  }

  /** A rounded amount is a whole number of cents within half a cent of the input, keeps
    * the sign of a non-negative input, and leaves an amount already in cents alone. */
  lemma RoundCurrencyProperties(x: JsNum)
    ensures IsCents(RoundCurrency(x))
    ensures x.Fin? ==> x.r - 0.005 < RoundCurrency(x) <= x.r + 0.005
    ensures x.Fin? && x.r >= 0.0 ==> RoundCurrency(x) >= 0.0
    ensures x.Fin? && IsCents(x.r) ==> RoundCurrency(x) == x.r
    ensures x.NotFinite? ==> RoundCurrency(x) == 0.0
  {
    if x.Fin? {
      Round2Properties(x.r);
      if IsCents(x.r) { Round2OfCents(x.r); }
    }
  }

  // ---------------------------------------------------------------- cutoff day

  /** A cutoff-day candidate is usable when it reads as a number in [1, 31]. */
  predicate UsableCutoff(v: Value)
  {
    var x := NumberOrNull(v);
    x.Some? && 1.0 <= x.value <= 31.0
  }

  /** `selectCutoffDay`: the floor of the first usable candidate, else 15. */
  function SelectCutoffDay(candidates: seq<Value>): (d: int)
    ensures 1 <= d <= 31
    ensures (forall c :: c in candidates ==> !UsableCutoff(c)) ==> d == DefaultCutoffDay
  {
    if candidates == [] then DefaultCutoffDay
    else if UsableCutoff(candidates[0]) then NumberOrNull(candidates[0]).value.Floor
    else SelectCutoffDay(candidates[1..])
  }

  /** The first usable candidate decides, whatever follows it. */
  lemma {:induction false} FirstUsableCutoffWins(candidates: seq<Value>, i: nat)
    requires i < |candidates| && UsableCutoff(candidates[i])
    requires forall j :: 0 <= j < i ==> !UsableCutoff(candidates[j])
    ensures SelectCutoffDay(candidates) == NumberOrNull(candidates[i]).value.Floor
  {
    if i > 0 {
      assert !UsableCutoff(candidates[0]);
      FirstUsableCutoffWins(candidates[1..], i - 1);
    }
  }

  // ---------------------------------------------------------------- due date

  predicate LeapYear(y: int)
  {
    (y % 4 == 0 && y % 100 != 0) || y % 400 == 0
  }

  function DaysInMonth(y: int, m: int): (n: int)
    requires 1 <= m <= 12
    ensures 28 <= n <= 31
  {
    if m == 2 then (if LeapYear(y) then 29 else 28)
    else if m == 4 || m == 6 || m == 9 || m == 11 then 30
    else 31
  }

  /** `Date.UTC(year, monthIndex, day)` read back as a calendar date, for a day in [1, 31]:
    * years 0 to 99 mean 1900 to 1999, the month index carries into the year, and a day
    * past the end of its month runs into the next one. */
  function UtcDate(year: int, monthIndex: int, day: int): (d: Date)
    requires 1 <= day <= 31
    ensures 1 <= d.month <= 12 && 1 <= d.day <= DaysInMonth(d.year, d.month)
  {
    var y := (if 0 <= year <= 99 then 1900 + year else year) + monthIndex / 12;
    var m := monthIndex % 12 + 1;
    if day <= DaysInMonth(y, m) then Date(y, m, day)
    else if m == 12 then Date(y + 1, 1, day - DaysInMonth(y, m))
    else Date(y, m + 1, day - DaysInMonth(y, m))
  }

  /** `^[0-9]{4}-[0-9]{2}$` */
  predicate PeriodShaped(p: string)
  {
    |p| == 7 && AllDigits(p[..4]) && p[4] == '-' && AllDigits(p[5..])
  }

  /** `calculateDueDate(period, cutoffDay)`: the cutoff day of the month after the period,
    * and today when the period is not `YYYY-MM`. */
  function DueDate(period: string, cutoffDay: int, now: Instant): (d: Date)
    requires 1 <= cutoffDay <= 31
    ensures !PeriodShaped(period) ==> d == now.local
  {
    if !PeriodShaped(period) then now.local
    else
      var year := DigitsValue(period[..4]);
      var monthIndex := DigitsValue(period[5..]) - 1;
      UtcDate(year, monthIndex + 1, cutoffDay)
  }

  lemma DigitOfChar(d: nat)
    requires d < 10
    ensures IsDigit(DigitChar(d)) && DigitChar(d) as int - '0' as int == d
  {
  }

  lemma DigitsValueSnoc(s: string, d: nat)
    requires AllDigits(s) && d < 10
    ensures AllDigits(s + [DigitChar(d)])
    ensures DigitsValue(s + [DigitChar(d)]) == DigitsValue(s) * 10 + d
  {
    DigitOfChar(d);
    assert (s + [DigitChar(d)])[..|s|] == s;
  }

  /** The four digits of a four-digit year, read back. */
  lemma FourDigits(n: nat)
    requires 1000 <= n <= 9999
    ensures |NatText(n)| == 4 && DigitsValue(NatText(n)) == n
  {
    NatTextRoundTrip(n);
    assert NatText(n) == NatText(n / 10) + [DigitChar(n % 10)];
    assert NatText(n / 10) == NatText(n / 10 / 10) + [DigitChar(n / 10 % 10)];
    assert NatText(n / 10 / 10) == NatText(n / 10 / 10 / 10) + [DigitChar(n / 10 / 10 % 10)];
    assert n / 10 / 10 / 10 < 10;
  }

  lemma PadTwo(c: char)
    ensures PadStart([c], 2) == ['0', c]
  {
    assert "0" + [c] == ['0', c];
  }

  lemma TwoDigitsValue(a: nat, b: nat)
    requires a < 10 && b < 10
    ensures AllDigits([DigitChar(a), DigitChar(b)]) && DigitsValue([DigitChar(a), DigitChar(b)]) == a * 10 + b
  {
    DigitsValueSnoc([], a);
    assert [] + [DigitChar(a)] == [DigitChar(a)];
    DigitsValueSnoc([DigitChar(a)], b);
    assert [DigitChar(a)] + [DigitChar(b)] == [DigitChar(a), DigitChar(b)];
  }

  /** The month text of a month, as `monthKey` pads it, read back. */
  lemma MonthText(m: int)
    requires 1 <= m <= 12
    ensures var t := PadStart(IntText(m), 2);
            && |t| == 2 && AllDigits(t) && DigitsValue(t) == m
  {
    if m < 10 {
      assert IntText(m) == [DigitChar(m)];
      PadTwo(DigitChar(m));
      assert DigitChar(0) == '0';
      TwoDigitsValue(0, m);
    } else {
      assert m / 10 == 1 && m % 10 == m - 10;
      assert NatText(1) == [DigitChar(1)];
      assert IntText(m) == [DigitChar(1), DigitChar(m - 10)];
      TwoDigitsValue(1, m - 10);
    }
  }

  /** A month key of a four-digit year has the `YYYY-MM` shape and reads back as its year and month. */
  lemma MonthKeyShape(d: Date)
    requires 1000 <= d.year <= 9999 && 1 <= d.month <= 12
    ensures var p := MonthKey(d);
            && PeriodShaped(p) && DigitsValue(p[..4]) == d.year && DigitsValue(p[5..]) == d.month
  {
    var p := MonthKey(d);
    var yt := IntText(d.year);
    var mt := PadStart(IntText(d.month), 2);
    FourDigits(d.year);
    MonthText(d.month);
    assert p == yt + "-" + mt;
    SplitAtDash(yt, mt);
    assert AllDigits(yt);
  }

  lemma SplitAtDash(a: string, b: string)
    requires |a| == 4
    ensures var p := a + "-" + b;
            && |p| == 5 + |b| && p[..4] == a && p[4] == '-' && p[5..] == b
  {
  }

  /** For a month key of a four-digit year, the due date is the cutoff day of the following
    * month, or the first days of the month after that when the cutoff day overruns it. */
  lemma DueDateOfMonthKey(d: Date, cutoffDay: int, now: Instant)
    requires 1000 <= d.year <= 9999 && 1 <= d.month <= 12 && 1 <= cutoffDay <= 31
    ensures var y := if d.month == 12 then d.year + 1 else d.year;
            var m := if d.month == 12 then 1 else d.month + 1;
            && DueDate(MonthKey(d), cutoffDay, now) == UtcDate(d.year, d.month, cutoffDay)
            && (cutoffDay <= DaysInMonth(y, m) ==> DueDate(MonthKey(d), cutoffDay, now) == Date(y, m, cutoffDay))
  {
    MonthKeyShape(d);
    DueDateOfShaped(MonthKey(d), d.year, d.month, cutoffDay, now);
    UtcNextMonth(d.year, d.month, cutoffDay);
  }

  lemma DueDateOfShaped(p: string, year: int, month: int, day: int, now: Instant)
    requires PeriodShaped(p) && DigitsValue(p[..4]) == year && DigitsValue(p[5..]) == month && 1 <= day <= 31
    ensures DueDate(p, day, now) == UtcDate(year, month, day)
  {
  }

  lemma UtcNextMonth(year: int, month: int, day: int)
    requires 1000 <= year && 1 <= month <= 12 && 1 <= day <= 31
    ensures var y := if month == 12 then year + 1 else year;
            var m := if month == 12 then 1 else month + 1;
            day <= DaysInMonth(y, m) ==> UtcDate(year, month, day) == Date(y, m, day)
  {
    if month == 12 {
      assert month / 12 == 1 && month % 12 == 0;
    } else {
      assert month / 12 == 0 && month % 12 == month;
    }
  }

  // ---------------------------------------------------------------- invoice ids

  /** A character `sanitiseInvoiceId` keeps: `[0-9A-Z-]`, letters in either case. */
  predicate IdChar(c: char)
  {
    IsDigit(c) || 'A' <= c <= 'Z' || 'a' <= c <= 'z' || c == '-'
  }

  /** A character of a sanitised id: `[0-9A-Z-]`. */
  predicate UpperIdChar(c: char)
  {
    IsDigit(c) || 'A' <= c <= 'Z' || c == '-'
  }

  /** `s.replace(/[^0-9A-Z-]/gi, '')` */
  function KeepIdChars(s: string): (r: string)
    ensures forall c :: c in r ==> IdChar(c)
    ensures forall i :: 0 <= i < |s| && IdChar(s[i]) ==> s[i] in r
    ensures |r| <= |s|
  {
    if s == [] then []
    else (if IdChar(s[0]) then [s[0]] else []) + KeepIdChars(s[1..])
  }

  lemma UpperOfIdChars(s: string)
    requires forall c :: c in s ==> IdChar(c)
    ensures forall c :: c in Upper(s) ==> UpperIdChar(c)
  {
    forall c | c in Upper(s) ensures UpperIdChar(c) {
      var i :| 0 <= i < |s| && Upper(s)[i] == c;
      assert IdChar(s[i]);
    }
  }

  lemma IntTextChars(n: int)
    ensures IntText(n) != [] && forall c :: c in IntText(n) ==> UpperIdChar(c)
  {
    var t := if n < 0 then NatText(-n) else NatText(n);
    assert forall c :: c in t ==> IsDigit(c) by {
      forall c | c in t ensures IsDigit(c) { var i :| 0 <= i < |t| && t[i] == c; }
    }
  }

  /** The partner segment of an invoice id: the sanitised text id upper-cased, the number
    * itself, or `PARTNER` when that is empty or zero. */
  function PartnerSegment(partnerId: Id): (r: string)
    ensures r != [] && forall c :: c in r ==> UpperIdChar(c)
  {
    match partnerId
    case IdStr(s) =>
      var kept := KeepIdChars(s);
      if kept == [] then "PARTNER" else UpperOfIdChars(kept); Upper(kept)
    case IdNum(n) =>
      IntTextChars(n);
      if n == 0 then "PARTNER" else IntText(n)
  }

  /** `sanitiseInvoiceId(period, partnerId)`: `INV-<PERIOD>-<PARTNER>` over `[0-9A-Z-]` only. */
  function SanitiseInvoiceId(period: string, partnerId: Id): (r: string)
    ensures StartsWith(r, "INV-")
    ensures forall c :: c in r ==> UpperIdChar(c)
  {
    var p := KeepIdChars(period);
    UpperOfIdChars(p);
    var r := "INV-" + Upper(p) + "-" + PartnerSegment(partnerId);
    assert r[..4] == "INV-";
    r
  }

  /** The id the `while` loop tries at `counter`: the base, then `base-2`, `base-3`, ... */
  function Candidate(base: string, counter: nat): string
  {
    if counter <= 1 then base else base + "-" + NatText(counter)
  }

  lemma CandidateInjective(base: string, j: nat, k: nat)
    requires 1 <= j && 1 <= k && Candidate(base, j) == Candidate(base, k)
    ensures j == k
  {
    if j >= 2 && k >= 2 {
      assert NatText(j) == Candidate(base, j)[|base| + 1..];
      assert NatText(k) == Candidate(base, k)[|base| + 1..];
      NatTextInjective(j, k);
    }
  }

  /** The ids tried by the first `n` rounds. */
  ghost function Tried(base: string, n: nat): set<Id>
  {
    set k | 1 <= k <= n :: IdStr(Candidate(base, k))
  }

  lemma {:induction false} TriedSize(base: string, n: nat)
    ensures |Tried(base, n)| == n
  {
    if n > 0 {
      TriedSize(base, n - 1);
      var c := IdStr(Candidate(base, n));
      assert Tried(base, n) == Tried(base, n - 1) + {c};
      if c in Tried(base, n - 1) {
        var k :| 1 <= k <= n - 1 && IdStr(Candidate(base, k)) == c;
        CandidateInjective(base, k, n);
      }
    }
  }

  lemma SubsetSize<T>(a: set<T>, b: set<T>)
    requires a <= b
    ensures |a| <= |b|
  {
    assert b == a + (b - a);
  }

  /** The loop cannot run longer than there are ids taken: each round's id is taken and new. */
  lemma TakenBound(base: string, taken: set<Id>, n: nat)
    requires forall k :: 1 <= k <= n ==> IdStr(Candidate(base, k)) in taken
    ensures n <= |taken|
  {
    TriedSize(base, n);
    SubsetSize(Tried(base, n), taken);
  }

  /** The counter at which the `while` loop stops: the first round whose id is not taken. */
  function FreshCounter(base: string, taken: set<Id>, counter: nat): (c: nat)
    requires counter >= 1
    requires forall k :: 1 <= k < counter ==> IdStr(Candidate(base, k)) in taken
    ensures c >= counter && IdStr(Candidate(base, c)) !in taken
    ensures forall k :: 1 <= k < c ==> IdStr(Candidate(base, k)) in taken
    decreases |taken| + 1 - counter
  {
    TakenBound(base, taken, counter - 1);
    if IdStr(Candidate(base, counter)) !in taken then counter
    else FreshCounter(base, taken, counter + 1)
  }

  /** The first free id of the `base`, `base-2`, `base-3`, ... series. */
  function FreshId(base: string, taken: set<Id>): (id: string)
    ensures IdStr(id) !in taken
    ensures exists c :: c >= 1 && id == Candidate(base, c) && forall k :: 1 <= k < c ==> IdStr(Candidate(base, k)) in taken
  {
    Candidate(base, FreshCounter(base, taken, 1))
  }

  /** The `while (existingIds.has(invoiceId))` loop of `generateInvoices`. */
  method FreshInvoiceId(base: string, taken: set<Id>) returns (id: string)
    ensures id == FreshId(base, taken)
  {
    id := base;
    var counter := 1;
    while IdStr(id) in taken
      invariant counter >= 1 && id == Candidate(base, counter)
      invariant forall k :: 1 <= k < counter ==> IdStr(Candidate(base, k)) in taken
      invariant FreshCounter(base, taken, counter) == FreshCounter(base, taken, 1)
      decreases |taken| + 1 - counter
    {
      TakenBound(base, taken, counter);
      counter := counter + 1;
      id := base + "-" + NatText(counter);
    }
  }

  // ---------------------------------------------------------------- partner statistics

  /** The users billed to a partner for a period: the partner's users created in that month. */
  function BilledUsers(users: seq<User>, partnerId: Id, period: string, now: Instant): (r: seq<User>)
    ensures forall u :: u in r <==>
      u in users && NormaliseId(u.partnerRef) == Some(partnerId) && SafeMonthKey(u.createdAt, now) == period
    ensures |r| <= |users|
  {
    if users == [] then []
    else
      var u := users[0];
      (if NormaliseId(u.partnerRef) == Some(partnerId) && SafeMonthKey(u.createdAt, now) == period then [u] else [])
      + BilledUsers(users[1..], partnerId, period, now)
  }

  /** What `collectPartnerStats` returns. */
  datatype Stats = Stats(
    directUsers: nat,
    affiliateUsers: nat,
    totalUsers: nat,
    directPartnerPayout: real,
    affiliatePartnerPayout: real,
    affiliateAffiliatePayout: real,
    amount: real)

  /** The statistics of a run of billed users, from their partner totals. */
  function StatsOf(es: seq<PartnerEntry>): Stats
  {
    var t := PartnerFold(es);
    var d := CountDirect(es);
    Stats(d, |es| - d, |es|,
          RoundCurrency(Fin(t.direct.partner)),
          RoundCurrency(Fin(t.fromAffiliates.partner)),
          RoundCurrency(Fin(t.fromAffiliates.affiliate)),
          RoundCurrency(Fin(t.direct.partner + t.fromAffiliates.partner)))
  }

  /** The billed users of a partner, each with its payout and whether it came through the partner's affiliates. */
  function BilledEntries(users: seq<User>, partnerId: Id, period: string, ctx: Ctx, now: Instant): seq<PartnerEntry>
  {
    PartnerEntries(BilledUsers(users, partnerId, period, now), RosterIds(Roster(ctx.affiliates, Some(partnerId))), ctx, now)
  }

  /** The invoice amount is every billed user's partner payout, rounded to cents, and the user
    * counts split the billed users. */
  lemma StatsFacts(es: seq<PartnerEntry>)
    ensures var s := StatsOf(es);
            && s.totalUsers == |es| && s.directUsers + s.affiliateUsers == s.totalUsers
            && s.amount == Round2(SumReal(es, PEPartner))
  {
    hide Round2, PartnerFold, CountDirect, SumReal;
    PartnerFoldTotals(es);
    var t := PartnerFold(es);
    var x := t.direct.partner + t.fromAffiliates.partner;
    assert x == SumReal(es, PEPartner);
    assert StatsOf(es).amount == RoundCurrency(Fin(x));
  }

  /** `collectPartnerStats(partnerId, period, db)` */
  method CollectPartnerStats(partnerId: Id, period: string, users: seq<User>, ctx: Ctx, now: Instant) returns (s: Stats)
    ensures s == StatsOf(BilledEntries(users, partnerId, period, ctx, now))
  {
    var roster := Roster(ctx.affiliates, Some(partnerId));
    var ids := RosterIds(roster);
    var billed := BilledUsers(users, partnerId, period, now);
    var directUsers, affiliateUsers, directPartner, affiliatePartner, affiliateAffiliate :=
      TallyBilledUsers(billed, ids, ctx, now);
    var amount := RoundCurrency(Fin(directPartner + affiliatePartner));
    s := Stats(directUsers, affiliateUsers, directUsers + affiliateUsers,
               RoundCurrency(Fin(directPartner)), RoundCurrency(Fin(affiliatePartner)),
               RoundCurrency(Fin(affiliateAffiliate)), amount);
    ghost var es := PartnerEntries(billed, ids, ctx, now);
    StatsOfFigures(es, PartnerFold(es), directUsers, affiliateUsers, directPartner, affiliatePartner, affiliateAffiliate);
  }

  /** The `for (const user of users)` loop of `collectPartnerStats`: a user whose affiliate id is
    * on the partner's roster counts as affiliate-sourced, any other as direct. */
  method TallyBilledUsers(billed: seq<User>, ids: set<Id>, ctx: Ctx, now: Instant)
    returns (directUsers: nat, affiliateUsers: nat, directPartner: real, affiliatePartner: real, affiliateAffiliate: real)
    ensures var es := PartnerEntries(billed, ids, ctx, now);
            && directUsers == CountDirect(es) && affiliateUsers == |es| - directUsers
            && directPartner == PartnerFold(es).direct.partner
            && affiliatePartner == PartnerFold(es).fromAffiliates.partner
            && affiliateAffiliate == PartnerFold(es).fromAffiliates.affiliate
  {
    hide PartnerEntries, PayoutForUser, NormaliseId, PartnerEntryOf;
    assert PartnerFold([]) == NoPartnerTotals && CountDirect([]) == 0;
    hide PartnerFold, CountDirect;
    directUsers, affiliateUsers := 0, 0;
    directPartner, affiliatePartner, affiliateAffiliate := 0.0, 0.0, 0.0;
    for i := 0 to |billed|
      invariant var es := PartnerEntries(billed[..i], ids, ctx, now);
                && directUsers == CountDirect(es) && directUsers + affiliateUsers == i
                && directPartner == PartnerFold(es).direct.partner
                && affiliatePartner == PartnerFold(es).fromAffiliates.partner
                && affiliateAffiliate == PartnerFold(es).fromAffiliates.affiliate
    {
      var user := billed[i];
      var payout := PayoutForUser(Some(user), ctx);
      var affiliateId := NormaliseId(user.affiliateRef);
      var isAffiliate := affiliateId.Some? && affiliateId.value in ids;
      BilledStep(billed, i, ids, ctx, now);
      if isAffiliate {
        affiliateUsers := affiliateUsers + 1;
        affiliatePartner := affiliatePartner + payout.partner;
        affiliateAffiliate := affiliateAffiliate + payout.affiliate;
      } else {
        directUsers := directUsers + 1;
        directPartner := directPartner + payout.partner;
      }
    }
    assert billed[..|billed|] == billed;
  }

  lemma StatsOfFigures(es: seq<PartnerEntry>, t: PartnerTotals, d: nat, a: nat, dp: real, ap: real, aa: real)
    requires t == PartnerFold(es) && d == CountDirect(es) && a == |es| - d
    requires dp == t.direct.partner && ap == t.fromAffiliates.partner && aa == t.fromAffiliates.affiliate
    ensures StatsOf(es) == Stats(d, a, d + a, RoundCurrency(Fin(dp)), RoundCurrency(Fin(ap)),
                                 RoundCurrency(Fin(aa)), RoundCurrency(Fin(dp + ap)))
  {
  }

  /** What the `i`-th billed user adds to the running figures. */
  lemma BilledStep(billed: seq<User>, i: nat, ids: set<Id>, ctx: Ctx, now: Instant)
    requires i < |billed|
    ensures var es, es' := PartnerEntries(billed[..i], ids, ctx, now), PartnerEntries(billed[..i + 1], ids, ctx, now);
            var p := PayoutForUser(Some(billed[i]), ctx);
            var direct := IsDirect(billed[i], ids);
            var t, t' := PartnerFold(es), PartnerFold(es');
            && CountDirect(es') == CountDirect(es) + (if direct then 1 else 0)
            && t'.direct.partner == t.direct.partner + (if direct then p.partner else 0.0)
            && t'.fromAffiliates.partner == t.fromAffiliates.partner + (if direct then 0.0 else p.partner)
            && t'.fromAffiliates.affiliate == t.fromAffiliates.affiliate + (if direct then 0.0 else p.affiliate)
  {
    PartnerEntriesSnoc(billed, i, ids, ctx, now);
    StatsStep(PartnerEntries(billed[..i], ids, ctx, now), PartnerEntryOf(billed[i], ids, ctx, now));
  }

  /** What one more billed user adds to the running figures. */
  lemma StatsStep(es: seq<PartnerEntry>, e: PartnerEntry)
    ensures CountDirect(es + [e]) == CountDirect(es) + (if e.direct then 1 else 0)
    ensures var t, t' := PartnerFold(es), PartnerFold(es + [e]);
            && t'.direct.partner == t.direct.partner + (if e.direct then e.payout.partner else 0.0)
            && t'.fromAffiliates.partner == t.fromAffiliates.partner + (if e.direct then 0.0 else e.payout.partner)
            && t'.fromAffiliates.affiliate == t.fromAffiliates.affiliate + (if e.direct then 0.0 else e.payout.affiliate)
  {
    assert (es + [e])[..|es|] == es;
  }

  // ---------------------------------------------------------------- generateInvoices

  /** `buildInvoiceKey(period, partnerId)` */
  function InvoiceKey(period: string, partner: Option<Id>): string
  {
    period + "::" + (if partner.Some? then IdText(partner.value) else "unknown")
  }

  /** The period an invoice is billed for: its `period` field, else the month of its cutoff
    * or creation date. */
  function InvoicePeriod(inv: Invoice, now: Instant): Value
  {
    if inv.period.Missing? then Str(SafeMonthKey(CoalesceDate(inv.cutoffDate, inv.createdAt), now)) else inv.period
  }

  /** The (period, partner) key an invoice already in the store occupies. */
  function KeyOf(inv: Invoice, now: Instant): string
  {
    InvoiceKey(JsString(InvoicePeriod(inv, now)), NormaliseId(inv.partnerRef))
  }

  function ExistingKeys(invoices: seq<Invoice>, now: Instant): set<string>
  {
    set inv | inv in invoices :: KeyOf(inv, now)
  }

  function ExistingIds(invoices: seq<Invoice>): set<Id>
  {
    set inv | inv in invoices && NormaliseId(inv.id).Some? :: NormaliseId(inv.id).value
  }

  /** What one call of `generateInvoices` bills with: the period and cutoff date taken from
    * its input, the cutoff day and due date, the clock, and the store it reads. */
  datatype Billing = Billing(
    period: string,
    cutoff: Instant,
    cutoffDay: int,
    dueDate: Date,
    now: Instant,
    users: seq<User>,
    ctx: Ctx)

  function BillingFor(cutoff: Instant, now: Instant, users: seq<User>, ctx: Ctx): (b: Billing)
    ensures b.period == MonthKey(cutoff.local) && 1 <= b.cutoffDay <= 31
  {
    var period := MonthKey(cutoff.local);
    var day := SelectCutoffDay(ctx.config.cutoffDays);
    Billing(period, cutoff, day, DueDate(period, day, now), now, users, ctx)
  }

  /** The invoice billed to a partner. */
  function NewInvoice(b: Billing, p: Partner, pid: Id, id: string): Invoice
  {
    var s := StatsOf(BilledEntries(b.users, pid, b.period, b.ctx, b.now));
    Invoice(Str(id), IdValue(pid), p.name, Str(b.period), At(b.cutoff), At(b.now), Str(Ymd(b.dueDate)),
            Num(b.cutoffDay as real), Num(s.amount), Num(s.directPartnerPayout), Num(s.affiliatePartnerPayout),
            Num(s.affiliateAffiliatePayout), Num(s.totalUsers as real), Str("pending"), Unset)
  }

  lemma NewInvoiceFields(b: Billing, p: Partner, pid: Id, id: string, s: Stats)
    requires s == StatsOf(BilledEntries(b.users, pid, b.period, b.ctx, b.now))
    ensures NewInvoice(b, p, pid, id)
         == Invoice(Str(id), IdValue(pid), p.name, Str(b.period), At(b.cutoff), At(b.now), Str(Ymd(b.dueDate)),
                    Num(b.cutoffDay as real), Num(s.amount), Num(s.directPartnerPayout), Num(s.affiliatePartnerPayout),
                    Num(s.affiliateAffiliatePayout), Num(s.totalUsers as real), Str("pending"), Unset)
  {
  }

  /** The keys and ids taken so far, and the invoices created so far. */
  datatype Progress = Progress(keys: set<string>, ids: set<Id>, created: seq<Invoice>)

  function Start(invoices: seq<Invoice>, now: Instant): Progress
  {
    Progress(ExistingKeys(invoices, now), ExistingIds(invoices), [])
  }

  /** One round of the partner loop: a partner without an id, or whose key is taken, is
    * skipped; any other is billed under the first free id. */
  function Bill(b: Billing, st: Progress, p: Partner): Progress
  {
    var pid := NormaliseId(p.id);
    if pid.None? then st
    else
      var key := InvoiceKey(b.period, pid);
      if key in st.keys then st
      else
        var id := FreshId(SanitiseInvoiceId(b.period, pid.value), st.ids);
        Progress(st.keys + {key}, st.ids + {IdStr(id)}, st.created + [NewInvoice(b, p, pid.value, id)])
  }

  function BillAll(b: Billing, st: Progress, partners: seq<Partner>): Progress
  {
    if partners == [] then st else Bill(b, BillAll(b, st, partners[..|partners| - 1]), partners[|partners| - 1])
  }

  /** The invoices one call of `generateInvoices` creates, in partner order. */
  function Generate(b: Billing, invoices: seq<Invoice>): seq<Invoice>
  {
    BillAll(b, Start(invoices, b.now), b.ctx.partners).created
  }

  lemma BillSkip(b: Billing, st: Progress, p: Partner)
    requires NormaliseId(p.id).None? || InvoiceKey(b.period, NormaliseId(p.id)) in st.keys
    ensures Bill(b, st, p) == st
  {
  }

  lemma BillNew(b: Billing, st: Progress, p: Partner, id: string)
    requires NormaliseId(p.id).Some? && InvoiceKey(b.period, NormaliseId(p.id)) !in st.keys
    requires id == FreshId(SanitiseInvoiceId(b.period, NormaliseId(p.id).value), st.ids)
    ensures Bill(b, st, p) == Progress(st.keys + {InvoiceKey(b.period, NormaliseId(p.id))}, st.ids + {IdStr(id)},
                                       st.created + [NewInvoice(b, p, NormaliseId(p.id).value, id)])
  {
  }

  lemma BillAllSnoc(b: Billing, st: Progress, partners: seq<Partner>, i: nat)
    requires i < |partners|
    ensures BillAll(b, st, partners[..i + 1]) == Bill(b, BillAll(b, st, partners[..i]), partners[i])
  {
    assert partners[..i + 1][..i] == partners[..i];
  }

  /** The body of the partner loop for a partner that is billed: its figures, the first
    * free invoice id, and the invoice record. */
  method BillPartner(ghost b: Billing, partner: Partner, pid: Id, period: string, cutoff: Instant, cutoffDay: int,
                     now: Instant, users: seq<User>, ctx: Ctx, ids: set<Id>) returns (id: string, invoice: Invoice)
    requires 1 <= cutoffDay <= 31
    requires b == Billing(period, cutoff, cutoffDay, DueDate(period, cutoffDay, now), now, users, ctx)
    ensures id == FreshId(SanitiseInvoiceId(period, pid), ids)
    ensures invoice == NewInvoice(b, partner, pid, id)
  {
    var stats := CollectPartnerStats(pid, period, users, ctx, now);
    id := FreshInvoiceId(SanitiseInvoiceId(period, pid), ids);
    invoice := Invoice(Str(id), IdValue(pid), partner.name, Str(period), At(cutoff), At(now),
                       Str(Ymd(DueDate(period, cutoffDay, now))), Num(cutoffDay as real), Num(stats.amount),
                       Num(stats.directPartnerPayout), Num(stats.affiliatePartnerPayout),
                       Num(stats.affiliateAffiliatePayout), Num(stats.totalUsers as real), Str("pending"), Unset);
    NewInvoiceFields(b, partner, pid, id, stats);
  }

  /** `generateInvoices(cutoffDate, db)`: a cutoff date that does not parse throws; otherwise
    * the partners are billed in order and the new invoices appended to the store. */
  method GenerateInvoices(db: Store, cutoffInput: DateInput, now: Instant) returns (r: Result<seq<Invoice>>)
    modifies db`invoices
    ensures cutoffInput.Invalid? ==> r.Failure? && db.invoices == old(db.invoices)
    ensures !cutoffInput.Invalid? ==>
      var t := if cutoffInput.At? then cutoffInput.t else now;
      var b := BillingFor(t, now, db.users, db.PayoutCtx());
      && r == Success(Generate(b, old(db.invoices)))
      && db.invoices == old(db.invoices) + r.value
  {
    // The proof needs none of these bodies; hiding them keeps the solver's search small.
    hide DueDate, SelectCutoffDay, MonthKey, Ymd, NewInvoice, Bill, FreshId, SanitiseInvoiceId, ExistingKeys, ExistingIds, InvoiceKey, NormaliseId;
    if cutoffInput.Invalid? {
      return Failure("invalid cutoff date");
    }
    var cutoff := if cutoffInput.At? then cutoffInput.t else now;
    var users := db.users;
    var ctx := db.PayoutCtx();
    var period := MonthKey(cutoff.local);
    var cutoffDay := SelectCutoffDay(ctx.config.cutoffDays);
    ghost var b := Billing(period, cutoff, cutoffDay, DueDate(period, cutoffDay, now), now, users, ctx);
    assert b == BillingFor(cutoff, now, users, ctx);
    var existingKeys := ExistingKeys(db.invoices, now);
    var existingIds := ExistingIds(db.invoices);
    ghost var start := Start(db.invoices, now);
    var created: seq<Invoice> := [];
    var partners := ctx.partners;
    for i := 0 to |partners|
      invariant BillAll(b, start, partners[..i]) == Progress(existingKeys, existingIds, created)
      invariant db.invoices == old(db.invoices) + created
    {
      var partner := partners[i];
      BillAllSnoc(b, start, partners, i);
      ghost var st := Progress(existingKeys, existingIds, created);
      var partnerId := NormaliseId(partner.id);
      if partnerId.None? {
        BillSkip(b, st, partner);
        continue;
      }
      var key := InvoiceKey(period, partnerId);
      if key in existingKeys {
        BillSkip(b, st, partner);
        continue;
      }
      var invoiceId, invoice := BillPartner(b, partner, partnerId.value, period, cutoff, cutoffDay, now, users, ctx, existingIds);
      BillNew(b, st, partner, invoiceId);
      existingIds := existingIds + {IdStr(invoiceId)};
      existingKeys := existingKeys + {key};
      assert old(db.invoices) + (created + [invoice]) == db.invoices + [invoice];
      db.invoices := db.invoices + [invoice];
      created := created + [invoice];
    }
    assert partners[..|partners|] == partners;
    r := Success(created);
  }

  // ---------------------------------------------------------------- what generation promises

  /** The ids a list of created invoices carries. */
  function CreatedIds(created: seq<Invoice>): set<Id>
  {
    set inv | inv in created :: IdStr(JsString(inv.id))
  }

  /** What the rounds so far have recorded, relative to the state `st0` they started from: the
    * taken keys and ids are the starting ones plus those of the created invoices, and every
    * created invoice is pending, with a key and an id that were free when it was made. */
  ghost predicate Recorded(b: Billing, st0: Progress, st: Progress)
  {
    && st.keys == st0.keys + ExistingKeys(st.created, b.now)
    && st.ids == st0.ids + CreatedIds(st.created)
    && CreatedFresh(b, st0, st.created)
  }

  ghost predicate CreatedFresh(b: Billing, st0: Progress, c: seq<Invoice>)
  {
    && (forall i :: 0 <= i < |c| ==> c[i].status == Str("pending") && c[i].id.Str?)
    && (forall i :: 0 <= i < |c| ==> KeyOf(c[i], b.now) !in st0.keys && IdStr(JsString(c[i].id)) !in st0.ids)
    && (forall i, j :: 0 <= i < j < |c| ==> KeyOf(c[i], b.now) != KeyOf(c[j], b.now) && c[i].id != c[j].id)
  }

  lemma ExistingKeysAppend(invoices: seq<Invoice>, more: seq<Invoice>, now: Instant)
    ensures ExistingKeys(invoices + more, now) == ExistingKeys(invoices, now) + ExistingKeys(more, now)
  {
  }

  /** The key a new invoice occupies is its partner's key for the billed period, whatever the
    * clock reads later. */
  lemma KeyOfNew(b: Billing, p: Partner, id: string, now: Instant)
    requires NormaliseId(p.id).Some?
    ensures KeyOf(NewInvoice(b, p, NormaliseId(p.id).value, id), now) == InvoiceKey(b.period, NormaliseId(p.id))
  {
    var pid := NormaliseId(p.id).value;
    NormaliseIdOfIdValue(pid);
  }

  /** An invoice's key depends on the clock only through the current month. */
  lemma KeyOfClock(inv: Invoice, n1: Instant, n2: Instant)
    requires MonthKey(n1.local) == MonthKey(n2.local)
    ensures KeyOf(inv, n1) == KeyOf(inv, n2)
  {
  }

  lemma ExistingKeysClock(invoices: seq<Invoice>, n1: Instant, n2: Instant)
    requires MonthKey(n1.local) == MonthKey(n2.local)
    ensures ExistingKeys(invoices, n1) == ExistingKeys(invoices, n2)
  {
    forall inv | inv in invoices ensures KeyOf(inv, n1) == KeyOf(inv, n2) {
      KeyOfClock(inv, n1, n2);
    }
  }

  lemma NewInvoiceShape(b: Billing, p: Partner, pid: Id, id: string)
    ensures var inv := NewInvoice(b, p, pid, id);
            inv.id == Str(id) && inv.partnerRef == IdValue(pid) && inv.period == Str(b.period) && inv.status == Str("pending")
  {
  }

  lemma FreshOne(b: Billing, st0: Progress, st: Progress, inv: Invoice, key: string, id: string)
    requires Recorded(b, st0, st)
    requires key !in st.keys && IdStr(id) !in st.ids
    requires KeyOf(inv, b.now) == key && inv.id == Str(id) && JsString(inv.id) == id && inv.status == Str("pending")
    ensures CreatedFresh(b, st0, st.created + [inv])
  {
    hide KeyOf, JsString;
    var c := st.created + [inv];
    forall i | 0 <= i < |st.created|
      ensures KeyOf(c[i], b.now) != key && c[i].id != inv.id
    {
      assert c[i] in st.created;
      assert IdStr(JsString(c[i].id)) in CreatedIds(st.created);
    }
  }

  /** Recording one more invoice, under a key and an id that were free. */
  lemma RecordOne(b: Billing, st0: Progress, st: Progress, inv: Invoice, key: string, id: string)
    requires Recorded(b, st0, st)
    requires key !in st.keys && IdStr(id) !in st.ids
    requires KeyOf(inv, b.now) == key && inv.id == Str(id) && inv.status == Str("pending")
    ensures Recorded(b, st0, Progress(st.keys + {key}, st.ids + {IdStr(id)}, st.created + [inv]))
  {
    assert JsString(inv.id) == id;
    FreshOne(b, st0, st, inv, key, id);
    hide KeyOf, JsString, CreatedFresh;
    ExistingKeysAppend(st.created, [inv], b.now);
    assert CreatedIds(st.created + [inv]) == CreatedIds(st.created) + {IdStr(id)};
  }

  lemma BillRecorded(b: Billing, st0: Progress, st: Progress, p: Partner)
    requires Recorded(b, st0, st)
    ensures Recorded(b, st0, Bill(b, st, p))
  {
    var pid := NormaliseId(p.id);
    if pid.Some? && InvoiceKey(b.period, pid) !in st.keys {
      var id := FreshId(SanitiseInvoiceId(b.period, pid.value), st.ids);
      BillNew(b, st, p, id);
      KeyOfNew(b, p, id, b.now);
      NewInvoiceShape(b, p, pid.value, id);
      RecordOne(b, st0, st, NewInvoice(b, p, pid.value, id), InvoiceKey(b.period, pid), id);
    } else {
      BillSkip(b, st, p);
    }
  }

  lemma {:induction false} BillAllRecorded(b: Billing, st0: Progress, partners: seq<Partner>)
    requires st0.created == []
    ensures Recorded(b, st0, BillAll(b, st0, partners))
  {
    if partners == [] {
      assert ExistingKeys([], b.now) == {};
      assert CreatedIds([]) == {};
    } else {
      var pre := partners[..|partners| - 1];
      BillAllRecorded(b, st0, pre);
      BillRecorded(b, st0, BillAll(b, st0, pre), partners[|partners| - 1]);
    }
  }

  /** Generation creates pending invoices whose (period, partner) keys differ from one another
    * and from every key already in the store, and whose ids differ from one another and from
    * every id already in the store. */
  lemma GenerateFresh(b: Billing, invoices: seq<Invoice>)
    ensures var g := Generate(b, invoices);
            && (forall i :: 0 <= i < |g| ==> g[i].status == Str("pending"))
            && (forall i :: 0 <= i < |g| ==> KeyOf(g[i], b.now) !in ExistingKeys(invoices, b.now))
            && (forall i :: 0 <= i < |g| ==> g[i].id.Str? && IdStr(g[i].id.s) !in ExistingIds(invoices))
            && (forall i, j :: 0 <= i < j < |g| ==> KeyOf(g[i], b.now) != KeyOf(g[j], b.now) && g[i].id != g[j].id)
  {
    BillAllRecorded(b, Start(invoices, b.now), b.ctx.partners);
  }

  /** Every partner with an id has its key taken once the rounds are over. */
  lemma {:induction false} BillAllCovers(b: Billing, st: Progress, partners: seq<Partner>)
    ensures st.keys <= BillAll(b, st, partners).keys
    ensures forall p :: p in partners && NormaliseId(p.id).Some? ==> InvoiceKey(b.period, NormaliseId(p.id)) in BillAll(b, st, partners).keys
  {
    if partners != [] {
      var pre := partners[..|partners| - 1];
      BillAllCovers(b, st, pre);
      forall p | p in partners ensures p in pre || p == partners[|partners| - 1] {
        var i :| 0 <= i < |partners| && partners[i] == p;
        if i < |partners| - 1 { assert pre[i] == p; }
      }
    }
  }

  /** Rounds over partners whose keys are all taken change nothing. */
  lemma {:induction false} NothingToBill(b: Billing, st: Progress, partners: seq<Partner>)
    requires forall p :: p in partners && NormaliseId(p.id).Some? ==> InvoiceKey(b.period, NormaliseId(p.id)) in st.keys
    ensures BillAll(b, st, partners) == st
  {
    if partners != [] {
      var pre := partners[..|partners| - 1];
      assert forall p :: p in pre ==> p in partners;
      NothingToBill(b, st, pre);
      BillSkip(b, st, partners[|partners| - 1]);
    }
  }

  /** A second generation for the same period, partners and month creates nothing: generation
    * is idempotent per (period, partner). */
  lemma GenerateIdempotent(b: Billing, b2: Billing, invoices: seq<Invoice>)
    requires b2.period == b.period && b2.ctx.partners == b.ctx.partners
    requires MonthKey(b2.now.local) == MonthKey(b.now.local)
    ensures Generate(b2, invoices + Generate(b, invoices)) == []
  {
    var start := Start(invoices, b.now);
    var fin := BillAll(b, start, b.ctx.partners);
    BillAllRecorded(b, start, b.ctx.partners);
    BillAllCovers(b, start, b.ctx.partners);
    ExistingKeysAppend(invoices, fin.created, b.now);
    ExistingKeysClock(invoices + fin.created, b.now, b2.now);
    NothingToBill(b2, Start(invoices + fin.created, b2.now), b2.ctx.partners);
  }

  /** The figures of a new invoice: the amount is the billed users' partner payouts summed and
    * rounded to cents, the user count is the number of billed users, and it is pending. */
  lemma NewInvoiceFigures(b: Billing, p: Partner, pid: Id, id: string)
    ensures var inv := NewInvoice(b, p, pid, id);
            var es := BilledEntries(b.users, pid, b.period, b.ctx, b.now);
            && inv.amount == Num(Round2(SumReal(es, PEPartner)))
            && inv.usersCount == Num(|BilledUsers(b.users, pid, b.period, b.now)| as real)
            && inv.cutoffDay == Num(b.cutoffDay as real)
            && inv.status == Str("pending")
  {
    StatsFacts(BilledEntries(b.users, pid, b.period, b.ctx, b.now));
  }

  /** Every invoice created is the invoice of one of the partners, billed under that partner's id. */
  ghost predicate FromPartners(b: Billing, partners: seq<Partner>, c: seq<Invoice>)
  {
    forall i :: 0 <= i < |c| ==>
      exists p, id :: p in partners && NormaliseId(p.id).Some? && c[i] == NewInvoice(b, p, NormaliseId(p.id).value, id)
  }

  lemma {:induction false} BillAllFromPartners(b: Billing, st0: Progress, partners: seq<Partner>)
    requires st0.created == []
    ensures FromPartners(b, partners, BillAll(b, st0, partners).created)
  {
    hide NewInvoice, FreshId, SanitiseInvoiceId, InvoiceKey;
    if partners != [] {
      var pre := partners[..|partners| - 1];
      var p := partners[|partners| - 1];
      var st := BillAll(b, st0, pre);
      assert BillAll(b, st0, partners) == Bill(b, st, p);
      assert forall q :: q in pre ==> q in partners;
      BillAllFromPartners(b, st0, pre);
      var pid := NormaliseId(p.id);
      if pid.Some? && InvoiceKey(b.period, pid) !in st.keys {
        var id := FreshId(SanitiseInvoiceId(b.period, pid.value), st.ids);
        BillNew(b, st, p, id);
        var c := st.created + [NewInvoice(b, p, pid.value, id)];
        forall i | 0 <= i < |c|
          ensures exists q, qid :: q in partners && NormaliseId(q.id).Some? && c[i] == NewInvoice(b, q, NormaliseId(q.id).value, qid)
        {
          if i < |st.created| {
            assert c[i] == st.created[i];
            var q, qid :| q in pre && NormaliseId(q.id).Some? && st.created[i] == NewInvoice(b, q, NormaliseId(q.id).value, qid);
            assert q in partners;
          } else {
            assert c[i] == NewInvoice(b, p, NormaliseId(p.id).value, id);
          }
        }
      } else {
        BillSkip(b, st, p);
        forall i | 0 <= i < |st.created|
          ensures exists q, qid :: q in partners && NormaliseId(q.id).Some? && st.created[i] == NewInvoice(b, q, NormaliseId(q.id).value, qid)
        {
          var q, qid :| q in pre && NormaliseId(q.id).Some? && st.created[i] == NewInvoice(b, q, NormaliseId(q.id).value, qid);
          assert q in partners;
        }
      }
    }
  }

  /** The invoices one generation creates all belong to listed partners with an id. */
  lemma GenerateFromPartners(b: Billing, invoices: seq<Invoice>)
    ensures FromPartners(b, b.ctx.partners, Generate(b, invoices))
  {
    BillAllFromPartners(b, Start(invoices, b.now), b.ctx.partners);
  }

  // ---------------------------------------------------------------- listing

  /** The `status` member of a listing filter: absent, one value, or an array of values. */
  datatype StatusQuery = NoStatus | OneStatus(v: Value) | StatusList(vs: seq<Value>)

  /** The filter `listInvoices` reads: status, partner id and period. */
  datatype InvoiceFilter = InvoiceFilter(status: StatusQuery, partner: Value, period: Value)

  /** The wanted statuses: each string trimmed and lower-cased, blanks and non-strings dropped. */
  function WantedStatuses(vs: seq<Value>): (r: set<string>)
    ensures forall t :: t in r <==> t != "" && exists v :: v in vs && v.Str? && Lower(Trim(v.s)) == t
  {
    if vs == [] then {}
    else
      var rest := WantedStatuses(vs[1..]);
      assert forall v :: v in vs <==> v == vs[0] || v in vs[1..];
      if vs[0].Str? && Lower(Trim(vs[0].s)) != "" then {Lower(Trim(vs[0].s))} + rest else rest
  }

  /** The status filter: none when the query is absent or names no usable status. */
  function StatusFilter(q: StatusQuery): (r: Option<set<string>>)
    ensures r.Some? ==> r.value != {}
    ensures q.StatusList? && q.vs == [] ==> r == None
  {
    var wanted := match q
      case NoStatus => {}
      case OneStatus(v) => WantedStatuses([v])
      case StatusList(vs) => WantedStatuses(vs);
    if q.NoStatus? || wanted == {} then None else Some(wanted)
  }

  /** The partner filter: applied only when the given id is truthy and normalises to a truthy id. */
  function PartnerFilter(v: Value): (r: Option<Id>)
    ensures r.Some? ==> IdTruthy(r.value) && NormaliseId(v) == r
  {
    if !Truthy(v) then None
    else
      var id := NormaliseId(v);
      if id.Some? && IdTruthy(id.value) then id else None
  }

  /** The period filter: a string period, trimmed, unless that leaves nothing. */
  function PeriodFilter(v: Value): (r: Option<string>)
    ensures r.Some? ==> r.value != "" && v.Str? && r.value == Trim(v.s)
  {
    if v.Str? && Trim(v.s) != "" then Some(Trim(v.s)) else None
  }

  /** An invoice's status as the listing compares it: lower-cased but not trimmed; "" when it is
    * not a string. */
  function ListedStatus(inv: Invoice): string
  {
    if inv.status.Str? then Lower(inv.status.s) else ""
  }

  predicate StatusPasses(q: StatusQuery, inv: Invoice)
  {
    StatusFilter(q).Some? ==> ListedStatus(inv) in StatusFilter(q).value
  }

  predicate PartnerPasses(v: Value, inv: Invoice)
  {
    PartnerFilter(v).Some? ==> NormaliseId(inv.partnerRef) == PartnerFilter(v)
  }

  predicate PeriodPasses(v: Value, inv: Invoice, now: Instant)
  {
    PeriodFilter(v).Some? ==> InvoicePeriod(inv, now) == Str(PeriodFilter(v).value)
  }

  /** Whether an invoice passes every filter the listing applies. */
  predicate Passes(f: InvoiceFilter, inv: Invoice, now: Instant)
  {
    StatusPasses(f.status, inv) && PartnerPasses(f.partner, inv) && PeriodPasses(f.period, inv, now)
  }

  /** `listInvoices(filter, db)`: the invoices that pass the filter, in store order. */
  function ListInvoices(invoices: seq<Invoice>, f: InvoiceFilter, now: Instant): (r: seq<Invoice>)
    ensures forall inv :: inv in r <==> inv in invoices && Passes(f, inv, now)
    ensures |r| <= |invoices|
  {
    if invoices == [] then []
    else (if Passes(f, invoices[0], now) then [invoices[0]] else []) + ListInvoices(invoices[1..], f, now)
  }

  /** The listing keeps store order: listing a concatenation concatenates the listings. */
  lemma {:induction false} ListInvoicesAppend(a: seq<Invoice>, b: seq<Invoice>, f: InvoiceFilter, now: Instant)
    ensures ListInvoices(a + b, f, now) == ListInvoices(a, f, now) + ListInvoices(b, f, now)
  {
    hide Passes;
    if a != [] {
      assert (a + b)[0] == a[0];
      assert (a + b)[1..] == a[1..] + b;
      ListInvoicesAppend(a[1..], b, f, now);
    } else {
      assert a + b == b;
    }
  }

  /** A filter that names no usable status, partner or period lists every invoice. */
  lemma {:induction false} ListInvoicesUnfiltered(invoices: seq<Invoice>, f: InvoiceFilter, now: Instant)
    requires StatusFilter(f.status).None? && PartnerFilter(f.partner).None? && PeriodFilter(f.period).None?
    ensures ListInvoices(invoices, f, now) == invoices
  {
    hide StatusFilter, PartnerFilter, PeriodFilter;
    if invoices != [] {
      ListInvoicesUnfiltered(invoices[1..], f, now);
    }
  }

  lemma LowerUpperChar(c: char)
    ensures LowerChar(UpperChar(c)) == LowerChar(c)
  {
  }

  lemma LowerOfUpper(s: string)
    ensures Lower(Upper(s)) == Lower(s)
  {
    forall i | 0 <= i < |s| ensures Lower(Upper(s))[i] == Lower(s)[i] {
      LowerUpperChar(s[i]);
    }
  }

  /** Status matching is case-insensitive: a status written in capitals is listed by the same
    * filters as the same status in any other case, and a wanted status matches exactly the
    * stored statuses that lower-case to its trimmed, lower-cased text. */
  lemma StatusMatchIgnoresCase(f: InvoiceFilter, inv: Invoice, t: string, w: string, now: Instant)
    requires inv.status == Str(t)
    requires f.status == OneStatus(Str(w)) && Trim(w) != ""
    ensures Passes(f, inv, now) == Passes(f, inv.(status := Str(Upper(t))), now)
    ensures StatusFilter(f.status) == Some({Lower(Trim(w))})
  {
    hide NormaliseId, PartnerFilter, PeriodFilter, SafeMonthKey, CoalesceDate, StatusFilter, Lower, Upper, Trim;
    LowerOfUpper(t);
    OneStatusFilter(w);
  }

  /** A single usable wanted status filters on its trimmed, lower-cased text. */
  lemma OneStatusFilter(w: string)
    requires Trim(w) != ""
    ensures StatusFilter(OneStatus(Str(w))) == Some({Lower(Trim(w))})
  {
    hide Trim;
    var l := Lower(Trim(w));
    assert |l| == |Trim(w)|;
    assert WantedStatuses([Str(w)]) == {l} by {
      assert Str(w) in [Str(w)];
    }
  }

  // ---------------------------------------------------------------- status updates

  /** The first invoice whose normalised id is the target id. */
  function FindInvoice(invoices: seq<Invoice>, target: Option<Id>): (r: Option<nat>)
    ensures r.Some? ==> r.value < |invoices| && target.Some? && NormaliseId(invoices[r.value].id) == target
    ensures r.Some? ==> forall j :: 0 <= j < r.value ==> NormaliseId(invoices[j].id) != target
    ensures r.None? ==> forall j :: 0 <= j < |invoices| ==> target.None? || NormaliseId(invoices[j].id) != target
  {
    hide NormaliseId;
    if target.None? || invoices == [] then None
    else if NormaliseId(invoices[0].id) == target then Some(0)
    else
      var r := FindInvoice(invoices[1..], target);
      assert forall j :: 1 <= j < |invoices| ==> invoices[j] == invoices[1..][j - 1];
      if r.Some? then Some(r.value + 1) else None
  }

  /** The status text `setInvoiceStatus` stores: the input (stringified unless it is a string), trimmed. */
  function NextStatus(statusInput: Value): string
  {
    Trim(if statusInput.Str? then statusInput.s else JsString(statusInput))
  }

  /** The error `setInvoiceStatus` throws before touching the store, if any. */
  function StatusUpdateError(idInput: Value, statusInput: Value): Option<string>
  {
    if idInput.Missing? then Some("An invoice id is required to update status.")
    else if statusInput.Missing? || (statusInput.Str? && Trim(statusInput.s) == "") then Some("A valid status value is required.")
    else if NextStatus(statusInput) == "" then Some("A valid status value is required.")
    else None
  }

  /** The invoice list after a status update, and the updated invoice if one matched. */
  function StatusUpdate(invoices: seq<Invoice>, idInput: Value, statusInput: Value, now: Instant): Result<(seq<Invoice>, Option<Invoice>)>
  {
    if StatusUpdateError(idInput, statusInput).Some? then Failure(StatusUpdateError(idInput, statusInput).value)
    else
      var k := FindInvoice(invoices, NormaliseId(idInput));
      if k.None? then Success((invoices, None))
      else
        var u := invoices[k.value].(status := Str(NextStatus(statusInput)), updatedAt := At(now));
        Success((invoices[k.value := u], Some(u)))
  }

  /** A status update changes at most one invoice: the first whose id matches, and in it only the
    * status (now the trimmed text) and the update time; a blank status or a missing id changes
    * nothing. */
  lemma StatusUpdateChangesOne(invoices: seq<Invoice>, idInput: Value, statusInput: Value, now: Instant)
    ensures var r := StatusUpdate(invoices, idInput, statusInput, now);
            && (r.Failure? <==> idInput.Missing? || statusInput.Missing? || NextStatus(statusInput) == "")
            && (r.Success? ==> |r.value.0| == |invoices|)
            && (r.Success? && r.value.1.None? ==>
                  && r.value.0 == invoices
                  && forall inv :: inv in invoices ==> NormaliseId(inv.id) != NormaliseId(idInput) || NormaliseId(idInput).None?)
            && (r.Success? && r.value.1.Some? ==>
                  exists k :: 0 <= k < |invoices|
                    && NormaliseId(invoices[k].id) == NormaliseId(idInput)
                    && (forall j :: 0 <= j < k ==> NormaliseId(invoices[j].id) != NormaliseId(idInput))
                    && r.value.1.value == invoices[k].(status := Str(NextStatus(statusInput)), updatedAt := At(now))
                    && r.value.0 == invoices[k := r.value.1.value])
  {
    hide JsString, Trim, NormaliseId;
    if statusInput.Str? && Trim(statusInput.s) == "" {
      assert NextStatus(statusInput) == "";
    }
    var r := StatusUpdate(invoices, idInput, statusInput, now);
    if r.Success? && r.value.1.Some? {
      var k := FindInvoice(invoices, NormaliseId(idInput)).value;
      assert r.value.0 == invoices[k := r.value.1.value];
    }
  }

  /** An invoice whose status is the stored form of a status input passes the status filter
    * built from that same input. */
  lemma NextStatusPasses(statusInput: Value, inv: Invoice)
    requires inv.status == Str(NextStatus(statusInput))
    ensures StatusPasses(OneStatus(statusInput), inv)
  {
    hide JsString;
    var w := WantedStatuses([statusInput]);
    assert StatusFilter(OneStatus(statusInput)) == if w == {} then None else Some(w);
    if statusInput.Str? {
      var t := Lower(Trim(statusInput.s));
      TrimIdempotent(statusInput.s);
      assert t == ListedStatus(inv);
      assert statusInput in [statusInput];
      if Trim(statusInput.s) == "" {
        assert WantedStatuses([statusInput]) == {};
      } else {
        assert |t| == |Trim(statusInput.s)|;
        assert t in WantedStatuses([statusInput]);
      }
    } else {
      assert WantedStatuses([statusInput]) == {};
    }
  }

  /** After an update the invoice is listed under its new status, whatever case the status was
    * written in. */
  lemma StatusUpdateIsListed(invoices: seq<Invoice>, idInput: Value, statusInput: Value, now: Instant, listNow: Instant)
    requires StatusUpdate(invoices, idInput, statusInput, now).Success?
    requires StatusUpdate(invoices, idInput, statusInput, now).value.1.Some?
    ensures var u := StatusUpdate(invoices, idInput, statusInput, now).value.1.value;
            var f := InvoiceFilter(OneStatus(statusInput), Missing, Missing);
            u in ListInvoices(StatusUpdate(invoices, idInput, statusInput, now).value.0, f, listNow)
  {
    hide StatusUpdate, StatusPasses, NextStatus, JsString, NormaliseId, InvoicePeriod;
    var r := StatusUpdate(invoices, idInput, statusInput, now);
    StatusUpdateChangesOne(invoices, idInput, statusInput, now);
    var u := r.value.1.value;
    var k :| 0 <= k < |invoices| && u == invoices[k].(status := Str(NextStatus(statusInput)), updatedAt := At(now))
             && r.value.0 == invoices[k := u];
    NextStatusPasses(statusInput, u);
    assert r.value.0[k] == u;
    assert Passes(InvoiceFilter(OneStatus(statusInput), Missing, Missing), u, listNow);
  }

  /** `setInvoiceStatus(id, status, db)`: finds the first invoice with that id and stores the
    * trimmed status and the update time in it; returns the updated invoice, or nothing when no
    * invoice has that id. */
  method SetInvoiceStatus(db: Store, idInput: Value, statusInput: Value, now: Instant) returns (r: Result<Option<Invoice>>)
    modifies db`invoices
    ensures var expected := StatusUpdate(old(db.invoices), idInput, statusInput, now);
            && (expected.Failure? ==> r.Failure? && db.invoices == old(db.invoices))
            && (expected.Success? ==> r == Success(expected.value.1) && db.invoices == expected.value.0)
  {
    var err := StatusUpdateError(idInput, statusInput);
    if err.Some? {
      return Failure(err.value);
    }
    var targetId := NormaliseId(idInput);
    var nextStatus := NextStatus(statusInput);
    var k := FindInvoice(db.invoices, targetId);
    if k.None? {
      return Success(None);
    }
    var invoice := db.invoices[k.value].(status := Str(nextStatus), updatedAt := At(now));
    db.invoices := db.invoices[k.value := invoice];
    r := Success(Some(invoice));
  }
}
