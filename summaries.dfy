// The summary aggregator (js/biz/summaries.js): per-user payouts folded into
// totals and into month, app and region buckets, and a partner's users split
// into direct and affiliate-sourced ones.
//
// A `Map` of bucket objects becomes a sequence of bucket values in insertion
// order, which is the order `Array.from(map.values())` yields.

module Summaries {
  import opened Js
  import opened Records
  import opened Payouts
  import opened Sorting

  datatype Totals = Totals(partner: real, affiliate: real, total: real)

  const Zero: Totals := Totals(0.0, 0.0, 0.0)

  predicate Balanced(t: Totals)
  {
    t.total == t.partner + t.affiliate
  }

  /** `accumulatePayout` */
  function Accumulate(t: Totals, p: Payout): (r: Totals)
    ensures Balanced(r)
    ensures r.partner == t.partner + p.partner && r.affiliate == t.affiliate + p.affiliate
  {
    Totals(t.partner + p.partner, t.affiliate + p.affiliate, (t.partner + p.partner) + (t.affiliate + p.affiliate))
  }

  // ---------------------------------------------------------------- keyed buckets

  /** One user as a bucketing step sees it: the bucket key, the name a new bucket takes, the payout. */
  datatype Entry<K> = Entry(key: K, name: Value, payout: Payout)

  /** `createBucket(...)` after some accumulations. */
  datatype Bucket<K> = Bucket(key: K, name: Value, users: nat, payout: Totals)

  function EPartner<K>(e: Entry<K>): real { e.payout.partner }
  function EAffiliate<K>(e: Entry<K>): real { e.payout.affiliate }
  function BUsers<K>(b: Bucket<K>): int { b.users }
  function BPartner<K>(b: Bucket<K>): real { b.payout.partner }
  function BAffiliate<K>(b: Bucket<K>): real { b.payout.affiliate }

  /** The totals of a run of payouts. */
  function TotalOf<K>(es: seq<Entry<K>>): (t: Totals)
    ensures Balanced(t)
  {
    var p := SumReal(es, EPartner);
    var a := SumReal(es, EAffiliate);
    Totals(p, a, p + a)
  }

  lemma TotalOfSnoc<K>(es: seq<Entry<K>>, e: Entry<K>)
    ensures TotalOf(es + [e]) == Accumulate(TotalOf(es), e.payout)
  {
    SumRealAppend(es, [e], EPartner);
    SumRealAppend(es, [e], EAffiliate);
    assert [e][1..] == [];
  }

  /** Where the bucket for `key` sits, or `|bs|` when there is none (`map.has` / `map.get`). */
  function IndexOfKey<K(==)>(bs: seq<Bucket<K>>, key: K): (i: nat)
    ensures i <= |bs|
    ensures i < |bs| ==> bs[i].key == key
    ensures forall j :: 0 <= j < i ==> bs[j].key != key
  {
    KeyIndex(bs, (b: Bucket<K>) => b.key, key)
  }

  /** One step of the bucketing loop: bump the entry's bucket, creating it on first sight. */
  function Tally<K(==)>(bs: seq<Bucket<K>>, e: Entry<K>): seq<Bucket<K>>
  {
    var i := IndexOfKey(bs, e.key);
    if i < |bs| then bs[i := bs[i].(users := bs[i].users + 1, payout := Accumulate(bs[i].payout, e.payout))]
    else bs + [Bucket(e.key, e.name, 1, Accumulate(Zero, e.payout))]
  }

  /** The buckets after the loop has seen `es`, in first-seen order. */
  function Group<K(==)>(es: seq<Entry<K>>): seq<Bucket<K>>
  {
    if es == [] then [] else Tally(Group(es[..|es| - 1]), es[|es| - 1])
  }

  lemma GroupSnoc<K>(es: seq<Entry<K>>, e: Entry<K>)
    ensures Group(es + [e]) == Tally(Group(es), e)
  {
    assert (es + [e])[..|es|] == es;
  }

  predicate DistinctKeys<K(==)>(bs: seq<Bucket<K>>)
  {
    forall i, j :: 0 <= i < j < |bs| ==> bs[i].key != bs[j].key
  }

  /** How many of `es` fall under `key`. */
  function CountKey<K(==)>(es: seq<Entry<K>>, key: K): nat
  {
    if es == [] then 0
    else CountKey(es[..|es| - 1], key) + (if es[|es| - 1].key == key then 1 else 0)
  }

  /** The payout totals of the entries under `key`. */
  function KeyTotal<K(==)>(es: seq<Entry<K>>, key: K): (t: Totals)
    ensures Balanced(t)
    ensures CountKey(es, key) == 0 ==> t == Zero
  {
    if es == [] then Zero
    else if es[|es| - 1].key == key then Accumulate(KeyTotal(es[..|es| - 1], key), es[|es| - 1].payout)
    else KeyTotal(es[..|es| - 1], key)
  }

  /** What the bucketing loop keeps true after seeing `es`: one bucket per key, holding the
    * count and the totals of that key's entries, and a bucket for every key seen. */
  ghost predicate GroupInv<K(!new)>(bs: seq<Bucket<K>>, es: seq<Entry<K>>)
  {
    && DistinctKeys(bs)
    && (forall i :: 0 <= i < |bs| ==> bs[i].users == CountKey(es, bs[i].key) && bs[i].payout == KeyTotal(es, bs[i].key))
    && (forall k {:trigger IndexOfKey(bs, k)} :: IndexOfKey(bs, k) < |bs| <==> CountKey(es, k) > 0)
  }

  lemma SnocCounts<K>(es: seq<Entry<K>>, e: Entry<K>)
    ensures forall k :: CountKey(es + [e], k) == CountKey(es, k) + (if e.key == k then 1 else 0)
    ensures forall k :: KeyTotal(es + [e], k) == if e.key == k then Accumulate(KeyTotal(es, k), e.payout) else KeyTotal(es, k)
  {
    assert (es + [e])[..|es|] == es;
  }

  lemma TallyKeepsInv<K(!new)>(bs: seq<Bucket<K>>, es: seq<Entry<K>>, e: Entry<K>)
    requires GroupInv(bs, es)
    ensures GroupInv(Tally(bs, e), es + [e])
  {
    hide CountKey, KeyTotal, IndexOfKey;
    SnocCounts(es, e);
    var i := IndexOfKey(bs, e.key);
    var r := Tally(bs, e);
    if i < |bs| {
      assert forall j :: 0 <= j < |r| ==> r[j].key == bs[j].key;
      forall k ensures IndexOfKey(r, k) < |r| <==> CountKey(es + [e], k) > 0 {
        var ik := IndexOfKey(bs, k);
        if ik < |bs| { assert r[ik].key == k; }
        var jk := IndexOfKey(r, k);
        if jk < |r| { assert bs[jk].key == k; }
      }
    } else {
      assert forall j :: 0 <= j < |bs| ==> r[j] == bs[j];
      forall k ensures IndexOfKey(r, k) < |r| <==> CountKey(es + [e], k) > 0 {
        var ik := IndexOfKey(bs, k);
        if ik < |bs| { assert r[ik].key == k; }
        if k == e.key { assert r[|bs|].key == k; }
        var jk := IndexOfKey(r, k);
        if jk < |bs| { assert bs[jk].key == k; }
      }
    }
  }

  /** Each key gets exactly one bucket, and a bucket holds the count and the totals of its key's entries. */
  lemma {:induction false} GroupContents<K(!new)>(es: seq<Entry<K>>)
    ensures GroupInv(Group(es), es)
  {
    if es != [] {
      var pre := es[..|es| - 1];
      GroupContents(pre);
      TallyKeepsInv(Group(pre), pre, es[|es| - 1]);
      assert pre + [es[|es| - 1]] == es;
    }
  }

  lemma TallySums<K>(bs: seq<Bucket<K>>, e: Entry<K>)
    ensures SumInt(Tally(bs, e), BUsers) == SumInt(bs, BUsers) + 1
    ensures SumReal(Tally(bs, e), BPartner) == SumReal(bs, BPartner) + e.payout.partner
    ensures SumReal(Tally(bs, e), BAffiliate) == SumReal(bs, BAffiliate) + e.payout.affiliate
  {
    var i := IndexOfKey(bs, e.key);
    if i < |bs| {
      var b := bs[i].(users := bs[i].users + 1, payout := Accumulate(bs[i].payout, e.payout));
      SumIntUpdate(bs, i, b, BUsers);
      SumRealUpdate(bs, i, b, BPartner);
      SumRealUpdate(bs, i, b, BAffiliate);
    } else {
      var b := Bucket(e.key, e.name, 1, Accumulate(Zero, e.payout));
      SumIntSnoc(bs, b, BUsers);
      SumRealSnoc(bs, b, BPartner);
      SumRealSnoc(bs, b, BAffiliate);
    }
  }

  /** The buckets share out the users and the payouts: nothing is lost or counted twice. */
  lemma {:induction false} GroupSums<K>(es: seq<Entry<K>>)
    ensures SumInt(Group(es), BUsers) == |es|
    ensures SumReal(Group(es), BPartner) == SumReal(es, EPartner)
    ensures SumReal(Group(es), BAffiliate) == SumReal(es, EAffiliate)
  {
    if es != [] {
      var pre := es[..|es| - 1];
      var e := es[|es| - 1];
      GroupSums(pre);
      TallySums(Group(pre), e);
      assert es == pre + [e];
      SumRealSnoc(pre, e, EPartner);
      SumRealSnoc(pre, e, EAffiliate);
    }
  }

  // ---------------------------------------------------------------- orderings

  /** The month comparator: `'unknown'` after everything, other keys by `localeCompare`. */
  predicate MonthKeyLe(a: string, b: string)
  {
    b == "unknown" || (a != "unknown" && StrLe(a, b))
  }

  /** On every pair of keys except two `'unknown'` ones, which a month map never holds,
    * `MonthKeyLe` is exactly "the comparator does not put `a` after `b`". */
  lemma MonthKeyLeIsComparator(a: string, b: string)
    requires a != "unknown" || b != "unknown"
    ensures MonthKeyLe(a, b) <==> (if a == "unknown" then 1 else if b == "unknown" then -1 else if StrLe(a, b) then 0 else 1) <= 0
  {
  }

  lemma MonthKeyLeTotalPreorder()
    ensures forall a, b :: MonthKeyLe(a, b) || MonthKeyLe(b, a)
    ensures forall a, b, c :: MonthKeyLe(a, b) && MonthKeyLe(b, c) ==> MonthKeyLe(a, c)
  {
    forall a, b ensures MonthKeyLe(a, b) || MonthKeyLe(b, a) {
      StrLeTotal(a, b);
    }
    forall a, b, c | MonthKeyLe(a, b) && MonthKeyLe(b, c) ensures MonthKeyLe(a, c) {
      if c != "unknown" {
        StrLeTransitive(a, b, c);
      }
    }
  }

  predicate MonthLe(a: Bucket<string>, b: Bucket<string>)
  {
    MonthKeyLe(a.key, b.key)
  }

  lemma MonthLeTotalPreorder()
    ensures TotalPreorder(MonthLe)
  {
    MonthKeyLeTotalPreorder();
  }

  /** The label `sortByUsersDesc` compares on ties. */
  function Label<K>(b: Bucket<K>): string
  {
    match b.name
    case Str(s) => s
    case _ => JsString(b.name)
  }

  /** `sortByUsersDesc`: more users first; equal counts by label. */
  predicate UsersDescLe<K>(a: Bucket<K>, b: Bucket<K>)
  {
    a.users > b.users || (a.users == b.users && StrLe(Label(a), Label(b)))
  }

  lemma UsersDescTotalPreorder<K(!new)>()
    ensures TotalPreorder(UsersDescLe<K>)
  {
    forall a: Bucket<K>, b: Bucket<K> ensures UsersDescLe(a, b) || UsersDescLe(b, a) {
      StrLeTotal(Label(a), Label(b));
    }
    forall a: Bucket<K>, b: Bucket<K>, c: Bucket<K> | UsersDescLe(a, b) && UsersDescLe(b, c)
      ensures UsersDescLe(a, c)
    {
      if a.users == b.users == c.users {
        StrLeTransitive(Label(a), Label(b), Label(c));
      }
    }
  }

  /** Sorting keeps the buckets, their sums and what holds of each of them. */
  lemma SortedBuckets<K(!new)>(bs: seq<Bucket<K>>, le: (Bucket<K>, Bucket<K>) -> bool)
    requires TotalPreorder(le)
    ensures SortedBy(SortBy(bs, le), le)
    ensures multiset(SortBy(bs, le)) == multiset(bs)
    ensures SumInt(SortBy(bs, le), BUsers) == SumInt(bs, BUsers)
    ensures SumReal(SortBy(bs, le), BPartner) == SumReal(bs, BPartner)
    ensures SumReal(SortBy(bs, le), BAffiliate) == SumReal(bs, BAffiliate)
  {
    SortBySorted(bs, le);
    SumIntSortBy(bs, le, BUsers);
    SumRealSortBy(bs, le, BPartner);
    SumRealSortBy(bs, le, BAffiliate);
  }

  // ---------------------------------------------------------------- summariseUsers

  /** The month a user counts under: `createdAt`, read as the current month when absent. */
  function MonthEntry(u: User, ctx: Ctx, now: Instant): Entry<string>
  {
    var m := SafeMonthKey(u.createdAt, now);
    Entry(m, Str(m), PayoutForUser(Some(u), ctx))
  }

  function MonthEntries(users: seq<User>, ctx: Ctx, now: Instant): (es: seq<Entry<string>>)
    ensures |es| == |users|
  {
    if users == [] then [] else MonthEntries(users[..|users| - 1], ctx, now) + [MonthEntry(users[|users| - 1], ctx, now)]
  }

  lemma MonthEntriesSnoc(users: seq<User>, i: nat, ctx: Ctx, now: Instant)
    requires i < |users|
    ensures MonthEntries(users[..i + 1], ctx, now) == MonthEntries(users[..i], ctx, now) + [MonthEntry(users[i], ctx, now)]
  {
    assert users[..i + 1][..i] == users[..i];
  }

  /** The monthly series: sorted with `'unknown'` last, summing to the totals, one bucket per month. */
  lemma MonthSeriesFacts(es: seq<Entry<string>>)
    ensures var r := SortBy(Group(es), MonthLe);
            && SortedBy(r, MonthLe)
            && (forall i, j :: 0 <= i < j < |r| && r[i].key == "unknown" ==> r[j].key == "unknown")
            && SumInt(r, BUsers) == |es|
            && SumReal(r, BPartner) == SumReal(es, EPartner) && SumReal(r, BAffiliate) == SumReal(es, EAffiliate)
            && (forall b :: b in r ==> Balanced(b.payout) && b.users == CountKey(es, b.key) && b.users > 0)
  {
    hide CountKey, KeyTotal, Balanced, IndexOfKey;
    var bs := Group(es);
    var r := SortBy(bs, MonthLe);
    MonthLeTotalPreorder();
    SortedBuckets(bs, MonthLe);
    GroupSums(es);
    forall b | b in r ensures Balanced(b.payout) && b.users == CountKey(es, b.key) && b.users > 0 {
      assert b in multiset(bs);
      GroupBucket(es, b);
    }
  }

  /** Every bucket of a grouping is balanced and counts the entries of its key, at least one. */
  lemma GroupBucket<K(!new)>(es: seq<Entry<K>>, b: Bucket<K>)
    requires b in Group(es)
    ensures Balanced(b.payout) && b.users == CountKey(es, b.key) && b.users > 0
  {
    GroupContents(es);
    var bs := Group(es);
    var k :| 0 <= k < |bs| && bs[k] == b;
    assert IndexOfKey(bs, b.key) < |bs|;
  }

  datatype UserSummary = UserSummary(users: nat, payout: Totals, monthly: seq<Bucket<string>>)

  /** `summariseUsers` */
  method SummariseUsers(users: seq<User>, ctx: Ctx, now: Instant) returns (s: UserSummary)
    ensures s.users == |users|
    ensures s.payout == TotalOf(MonthEntries(users, ctx, now))
    ensures s.monthly == SortBy(Group(MonthEntries(users, ctx, now)), MonthLe)
    ensures SortedBy(s.monthly, MonthLe)
    ensures forall i, j :: 0 <= i < j < |s.monthly| && s.monthly[i].key == "unknown" ==> s.monthly[j].key == "unknown"
    ensures SumInt(s.monthly, BUsers) == s.users
    ensures SumReal(s.monthly, BPartner) == s.payout.partner && SumReal(s.monthly, BAffiliate) == s.payout.affiliate
    ensures forall b :: b in s.monthly ==> Balanced(b.payout) && b.users == CountKey(MonthEntries(users, ctx, now), b.key)
  {
    var count := 0;
    var total := Zero;
    var buckets: seq<Bucket<string>> := [];
    for i := 0 to |users|
      invariant count == i
      invariant total == TotalOf(MonthEntries(users[..i], ctx, now))
      invariant buckets == Group(MonthEntries(users[..i], ctx, now))
    {
      var e := MonthEntry(users[i], ctx, now);
      ghost var pre := MonthEntries(users[..i], ctx, now);
      MonthEntriesSnoc(users, i, ctx, now);
      GroupSnoc(pre, e);
      TotalOfSnoc(pre, e);
      count := count + 1;
      total := Accumulate(total, e.payout);
      buckets := Tally(buckets, e);
    }
    assert users[..|users|] == users;
    MonthSeriesFacts(MonthEntries(users, ctx, now));
    s := UserSummary(count, total, SortBy(buckets, MonthLe));
  }

  // ---------------------------------------------------------------- metricsGlobal

  /** `findAppById` */
  function FindApp(apps: seq<App>, id: Id): (r: Option<App>)
    ensures r.Some? ==> r.value in apps && NormaliseId(r.value.id) == Some(id)
    ensures r.None? ==> forall a :: a in apps ==> NormaliseId(a.id) != Some(id)
  {
    if apps == [] then None
    else if NormaliseId(apps[0].id) == Some(id) then Some(apps[0])
    else FindApp(apps[1..], id)
  }

  /** The app bucket of a user: keyed by its app id (`'unknown'` without one), named after the app. */
  function AppEntry(u: User, apps: seq<App>, ctx: Ctx): Entry<Id>
  {
    var appId := NormaliseId(u.appId);
    var key := appId.GetOr(IdStr("unknown"));
    var app := if appId.Some? then FindApp(apps, appId.value) else None;
    var name := if app.Some? && !app.value.name.Missing? then app.value.name else IdValue(key);
    Entry(key, name, PayoutForUser(Some(u), ctx))
  }

  /** A trimmed region, `'Unknown'` when missing, blank or not text. */
  function RegionKey(region: Value): (r: string)
    ensures r != []
    ensures region.Str? && Trim(region.s) != [] ==> r == Trim(region.s)
    ensures !region.Str? || Trim(region.s) == [] ==> r == "Unknown"
  {
    if region.Str? && Trim(region.s) != [] then Trim(region.s) else "Unknown"
  }

  function RegionEntry(u: User, ctx: Ctx): Entry<string>
  {
    var r := RegionKey(u.region);
    Entry(r, Str(r), PayoutForUser(Some(u), ctx))
  }

  function AppEntries(users: seq<User>, apps: seq<App>, ctx: Ctx): (es: seq<Entry<Id>>)
    ensures |es| == |users|
  {
    if users == [] then [] else AppEntries(users[..|users| - 1], apps, ctx) + [AppEntry(users[|users| - 1], apps, ctx)]
  }

  function RegionEntries(users: seq<User>, ctx: Ctx): (es: seq<Entry<string>>)
    ensures |es| == |users|
  {
    if users == [] then [] else RegionEntries(users[..|users| - 1], ctx) + [RegionEntry(users[|users| - 1], ctx)]
  }

  lemma AppEntriesSnoc(users: seq<User>, i: nat, apps: seq<App>, ctx: Ctx)
    requires i < |users|
    ensures AppEntries(users[..i + 1], apps, ctx) == AppEntries(users[..i], apps, ctx) + [AppEntry(users[i], apps, ctx)]
  {
    assert users[..i + 1][..i] == users[..i];
  }

  lemma RegionEntriesSnoc(users: seq<User>, i: nat, ctx: Ctx)
    requires i < |users|
    ensures RegionEntries(users[..i + 1], ctx) == RegionEntries(users[..i], ctx) + [RegionEntry(users[i], ctx)]
  {
    assert users[..i + 1][..i] == users[..i];
  }

  datatype Metrics = Metrics(
    users: nat,
    payout: Totals,
    byApp: seq<Bucket<Id>>,
    byMonth: seq<Bucket<string>>,
    byRegion: seq<Bucket<string>>,
    partnersCount: nat,
    affiliatesCount: nat)

  /** An app or region ranking: most users first, summing to the totals. */
  lemma RankingFacts<K(!new)>(es: seq<Entry<K>>)
    ensures var r := SortBy(Group(es), UsersDescLe);
            && SortedBy(r, UsersDescLe)
            && SumInt(r, BUsers) == |es|
            && SumReal(r, BPartner) == SumReal(es, EPartner) && SumReal(r, BAffiliate) == SumReal(es, EAffiliate)
  {
    UsersDescTotalPreorder<K>();
    SortedBuckets(Group(es), UsersDescLe);
    GroupSums(es);
  }

  /** `metricsGlobal` */
  method MetricsGlobal(db: Store, now: Instant) returns (m: Metrics)
    ensures m.users == |db.users|
    ensures m.payout == TotalOf(MonthEntries(db.users, db.PayoutCtx(), now))
    ensures m.byApp == SortBy(Group(AppEntries(db.users, db.apps, db.PayoutCtx())), UsersDescLe)
    ensures m.byMonth == SortBy(Group(MonthEntries(db.users, db.PayoutCtx(), now)), MonthLe)
    ensures m.byRegion == SortBy(Group(RegionEntries(db.users, db.PayoutCtx())), UsersDescLe)
    ensures SortedBy(m.byApp, UsersDescLe) && SortedBy(m.byRegion, UsersDescLe) && SortedBy(m.byMonth, MonthLe)
    ensures SumInt(m.byApp, BUsers) == m.users && SumInt(m.byRegion, BUsers) == m.users && SumInt(m.byMonth, BUsers) == m.users
    ensures SumReal(m.byApp, BPartner) == m.payout.partner && SumReal(m.byRegion, BPartner) == m.payout.partner
    ensures SumReal(m.byMonth, BPartner) == m.payout.partner
    ensures SumReal(m.byApp, BAffiliate) == m.payout.affiliate && SumReal(m.byRegion, BAffiliate) == m.payout.affiliate
    ensures SumReal(m.byMonth, BAffiliate) == m.payout.affiliate
    ensures m.partnersCount == |db.partners| && m.affiliatesCount == |db.affiliates|
  {
    var users := db.users;
    var ctx := db.PayoutCtx();
    var count := 0;
    var total := Zero;
    var apps: seq<Bucket<Id>> := [];
    var months: seq<Bucket<string>> := [];
    var regions: seq<Bucket<string>> := [];
    for i := 0 to |users|
      invariant count == i
      invariant total == TotalOf(MonthEntries(users[..i], ctx, now))
      invariant apps == Group(AppEntries(users[..i], db.apps, ctx))
      invariant months == Group(MonthEntries(users[..i], ctx, now))
      invariant regions == Group(RegionEntries(users[..i], ctx))
    {
      var u := users[i];
      count := count + 1;

      var em := MonthEntry(u, ctx, now);
      MonthEntriesSnoc(users, i, ctx, now);
      GroupSnoc(MonthEntries(users[..i], ctx, now), em);
      TotalOfSnoc(MonthEntries(users[..i], ctx, now), em);
      total := Accumulate(total, em.payout);
      months := Tally(months, em);

      var ea := AppEntry(u, db.apps, ctx);
      AppEntriesSnoc(users, i, db.apps, ctx);
      GroupSnoc(AppEntries(users[..i], db.apps, ctx), ea);
      apps := Tally(apps, ea);

      var er := RegionEntry(u, ctx);
      RegionEntriesSnoc(users, i, ctx);
      GroupSnoc(RegionEntries(users[..i], ctx), er);
      regions := Tally(regions, er);
    }
    assert users[..|users|] == users;
    ghost var em := MonthEntries(users, ctx, now);
    ghost var ea := AppEntries(users, db.apps, ctx);
    ghost var er := RegionEntries(users, ctx);
    EntrySums(users, db.apps, ctx, now);
    MonthSeriesFacts(em);
    RankingFacts(ea);
    RankingFacts(er);
    m := Metrics(count, total, SortBy(apps, UsersDescLe), SortBy(months, MonthLe), SortBy(regions, UsersDescLe),
                 |db.partners|, |db.affiliates|);
  }

  /** The app, month and region entries of the users carry the same payouts. */
  lemma {:induction false} EntrySums(users: seq<User>, apps: seq<App>, ctx: Ctx, now: Instant)
    ensures SumReal(AppEntries(users, apps, ctx), EPartner) == SumReal(MonthEntries(users, ctx, now), EPartner)
    ensures SumReal(AppEntries(users, apps, ctx), EAffiliate) == SumReal(MonthEntries(users, ctx, now), EAffiliate)
    ensures SumReal(RegionEntries(users, ctx), EPartner) == SumReal(MonthEntries(users, ctx, now), EPartner)
    ensures SumReal(RegionEntries(users, ctx), EAffiliate) == SumReal(MonthEntries(users, ctx, now), EAffiliate)
  {
    if users != [] {
      var pre := users[..|users| - 1];
      var u := users[|users| - 1];
      EntrySums(pre, apps, ctx, now);
      SumRealSnoc(AppEntries(pre, apps, ctx), AppEntry(u, apps, ctx), EPartner);
      SumRealSnoc(AppEntries(pre, apps, ctx), AppEntry(u, apps, ctx), EAffiliate);
      SumRealSnoc(RegionEntries(pre, ctx), RegionEntry(u, ctx), EPartner);
      SumRealSnoc(RegionEntries(pre, ctx), RegionEntry(u, ctx), EAffiliate);
      SumRealSnoc(MonthEntries(pre, ctx, now), MonthEntry(u, ctx, now), EPartner);
      SumRealSnoc(MonthEntries(pre, ctx, now), MonthEntry(u, ctx, now), EAffiliate);
    }
  }

  // ---------------------------------------------------------------- summaryForCode

  /** The values a code row is looked up by: its value and its id, trimmed when text, when present. */
  function CodeKeys(c: Code): seq<Value>
  {
    var trim := (v: Value) => if v.Str? then Str(Trim(v.s)) else v;
    (if c.value.Missing? then [] else [trim(c.value)]) + (if c.id.Missing? then [] else [trim(c.id)])
  }

  /** The first code row one of whose keys equals the trimmed lookup value. */
  function FindCodeRow(codes: seq<Code>, key: Value): (r: Option<Code>)
    ensures r.Some? ==> r.value in codes && key in CodeKeys(r.value)
    ensures r.None? ==> forall c :: c in codes ==> key !in CodeKeys(c)
  {
    if codes == [] then None
    else if key in CodeKeys(codes[0]) then Some(codes[0])
    else FindCodeRow(codes[1..], key)
  }

  /** The users a code summary covers: those whose code id matches the row's id, or, with no row id,
    * those whose code text is the trimmed lookup text. */
  predicate UsesCode(u: User, codeId: Option<Id>, key: Value)
  {
    if codeId.Some? then NormaliseId(Coalesce(u.codeRef, u.code)) == codeId
    else key.Str? && u.code.Str? && Trim(u.code.s) == key.s
  }

  function CodeUsers(users: seq<User>, codeId: Option<Id>, key: Value): (r: seq<User>)
    ensures forall u :: u in r <==> u in users && UsesCode(u, codeId, key)
    ensures |r| <= |users|
  {
    if users == [] then []
    else (if UsesCode(users[0], codeId, key) then [users[0]] else []) + CodeUsers(users[1..], codeId, key)
  }

  datatype CodeSummary = CodeSummary(
    code: Value,
    codeId: Option<Id>,
    summary: UserSummary,
    partnerId: Option<Id>,
    affiliateId: Option<Id>)

  /** The first of two ids that is present. */
  function FirstId(a: Option<Id>, b: Option<Id>): Option<Id>
  {
    if a.Some? then a else b
  }

  /** `summaryForCode` */
  method SummaryForCode(code: Value, db: Store, now: Instant) returns (r: CodeSummary)
    ensures var key := if code.Str? then Str(Trim(code.s)) else code;
            var row := FindCodeRow(db.codes, key);
            && r.codeId == (if row.Some? then NormaliseId(row.value.id) else None)
            && r.summary.users == |CodeUsers(db.users, r.codeId, key)|
            && r.summary.payout == TotalOf(MonthEntries(CodeUsers(db.users, r.codeId, key), db.PayoutCtx(), now))
            && r.summary.monthly == SortBy(Group(MonthEntries(CodeUsers(db.users, r.codeId, key), db.PayoutCtx(), now)), MonthLe)
            && r.code == (if row.Some? && !row.value.value.Missing? then row.value.value else if key.Missing? then Missing else key)
            && (row.None? ==> r.partnerId == None && r.affiliateId == None)
            && (row.Some? ==> (r.partnerId == FirstId(NormaliseId(row.value.partnerRef), NormaliseId(row.value.parentPartnerRef))
                               && r.affiliateId == NormaliseId(row.value.affiliateRef)))
    ensures SumInt(r.summary.monthly, BUsers) == r.summary.users
    ensures SumReal(r.summary.monthly, BPartner) == r.summary.payout.partner
    ensures SumReal(r.summary.monthly, BAffiliate) == r.summary.payout.affiliate
    ensures r.summary.payout.total == r.summary.payout.partner + r.summary.payout.affiliate
  {
    var key := if code.Str? then Str(Trim(code.s)) else code;
    var row := FindCodeRow(db.codes, key);
    var codeId := if row.Some? then NormaliseId(row.value.id) else None;
    var users := CodeUsers(db.users, codeId, key);
    var s := SummariseUsers(users, db.PayoutCtx(), now);
    var shown := if row.Some? && !row.value.value.Missing? then row.value.value else if key.Missing? then Missing else key;
    var pid := if row.Some? then FirstId(NormaliseId(row.value.partnerRef), NormaliseId(row.value.parentPartnerRef)) else None;
    var aid := if row.Some? then NormaliseId(row.value.affiliateRef) else None;
    r := CodeSummary(shown, codeId, s, pid, aid);
  }

  // ---------------------------------------------------------------- summaryForPartner

  /** `{direct, fromAffiliates, overall}` */
  datatype PartnerTotals = PartnerTotals(direct: Totals, fromAffiliates: Totals, overall: Totals)

  /** What `accumulatePartnerTotals` keeps true: `overall` is the direct plus the affiliate-sourced
    * partner payout, and only the affiliate-sourced affiliate payout. */
  predicate PartnerConsistent(t: PartnerTotals)
  {
    && Balanced(t.direct) && Balanced(t.fromAffiliates) && Balanced(t.overall)
    && t.overall.partner == t.direct.partner + t.fromAffiliates.partner
    && t.overall.affiliate == t.fromAffiliates.affiliate
  }

  const NoPartnerTotals: PartnerTotals := PartnerTotals(Zero, Zero, Zero)

  /** `accumulatePartnerTotals(totals, payout, type)` */
  function AccumulatePartnerTotals(t: PartnerTotals, p: Payout, direct: bool): (r: PartnerTotals)
    ensures PartnerConsistent(t) ==> PartnerConsistent(r)
    ensures direct ==> r.direct == Accumulate(t.direct, p) && r.fromAffiliates == t.fromAffiliates
    ensures !direct ==> r.fromAffiliates == Accumulate(t.fromAffiliates, p) && r.direct == t.direct
  {
    var d := if direct then Accumulate(t.direct, p) else t.direct;
    var f := if direct then t.fromAffiliates else Accumulate(t.fromAffiliates, p);
    var op := d.partner + f.partner;
    PartnerTotals(d, f, Totals(op, f.affiliate, op + f.affiliate))
  }

  /** A monthly bucket of `summaryForPartner`. */
  datatype PartnerMonth = PartnerMonth(month: string, direct: nat, affiliates: nat, total: nat, payouts: PartnerTotals)

  predicate MonthConsistent(b: PartnerMonth)
  {
    b.total == b.direct + b.affiliates && PartnerConsistent(b.payouts)
  }

  /** `accumulateMonthlyPartnerBucket(bucket, payout, type)` */
  function AccumulateMonthlyPartnerBucket(b: PartnerMonth, p: Payout, direct: bool): (r: PartnerMonth)
    ensures MonthConsistent(b) ==> MonthConsistent(r)
    ensures r.month == b.month && r.total == r.direct + r.affiliates
    ensures direct ==> r.direct == b.direct + 1 && r.affiliates == b.affiliates
    ensures !direct ==> r.affiliates == b.affiliates + 1 && r.direct == b.direct
    ensures r.payouts == AccumulatePartnerTotals(b.payouts, p, direct)
  {
    var d := if direct then b.direct + 1 else b.direct;
    var a := if direct then b.affiliates else b.affiliates + 1;
    PartnerMonth(b.month, d, a, d + a, AccumulatePartnerTotals(b.payouts, p, direct))
  }

  /** One user of the partner: month, payout, and whether it is direct. */
  datatype PartnerEntry = PartnerEntry(month: string, payout: Payout, direct: bool)

  /** Where the month's bucket sits, or `|bs|` when there is none (`monthly.get(month)`). */
  function IndexOfMonth(bs: seq<PartnerMonth>, month: string): (i: nat)
    ensures i <= |bs|
    ensures i < |bs| ==> bs[i].month == month
    ensures forall j :: 0 <= j < i ==> bs[j].month != month
  {
    KeyIndex(bs, (b: PartnerMonth) => b.month, month)
  }

  function TallyMonth(bs: seq<PartnerMonth>, e: PartnerEntry): seq<PartnerMonth>
  {
    var i := IndexOfMonth(bs, e.month);
    if i < |bs| then bs[i := AccumulateMonthlyPartnerBucket(bs[i], e.payout, e.direct)]
    else bs + [AccumulateMonthlyPartnerBucket(PartnerMonth(e.month, 0, 0, 0, NoPartnerTotals), e.payout, e.direct)]
  }

  function GroupMonths(es: seq<PartnerEntry>): seq<PartnerMonth>
  {
    if es == [] then [] else TallyMonth(GroupMonths(es[..|es| - 1]), es[|es| - 1])
  }

  function PartnerFold(es: seq<PartnerEntry>): PartnerTotals
  {
    if es == [] then NoPartnerTotals
    else AccumulatePartnerTotals(PartnerFold(es[..|es| - 1]), es[|es| - 1].payout, es[|es| - 1].direct)
  }

  function CountDirect(es: seq<PartnerEntry>): (n: nat)
    ensures n <= |es|
  {
    if es == [] then 0 else CountDirect(es[..|es| - 1]) + (if es[|es| - 1].direct then 1 else 0)
  }

  function PEPartner(e: PartnerEntry): real { e.payout.partner }
  function PEAffiliate(e: PartnerEntry): real { e.payout.affiliate }
  function PMTotal(b: PartnerMonth): int { b.total }

  /** The partner totals keep their invariant, the partner column adds up every user's partner payout,
    * and the affiliate payout of a direct user is kept under `direct` but never reaches `overall`. */
  lemma {:induction false} PartnerFoldTotals(es: seq<PartnerEntry>)
    ensures PartnerConsistent(PartnerFold(es))
    ensures PartnerFold(es).overall.partner == SumReal(es, PEPartner)
    ensures PartnerFold(es).overall.affiliate + PartnerFold(es).direct.affiliate == SumReal(es, PEAffiliate)
  {
    if es != [] {
      var pre := es[..|es| - 1];
      var e := es[|es| - 1];
      PartnerFoldTotals(pre);
      PartnerStep(PartnerFold(pre), e.payout, e.direct);
      SumRealLast(es, PEPartner);
      SumRealLast(es, PEAffiliate);
    }
  }

  /** One step of `accumulatePartnerTotals`: the partner column of `overall` grows by the partner
    * payout, and `overall` plus `direct` grows by the affiliate payout. */
  lemma PartnerStep(t: PartnerTotals, p: Payout, direct: bool)
    requires PartnerConsistent(t)
    ensures var r := AccumulatePartnerTotals(t, p, direct);
            && PartnerConsistent(r)
            && r.overall.partner == t.overall.partner + p.partner
            && r.overall.affiliate + r.direct.affiliate == t.overall.affiliate + t.direct.affiliate + p.affiliate
  {
  }

  /** Every monthly bucket keeps its invariant, and the buckets count every user once. */
  lemma {:induction false} GroupMonthsTotals(es: seq<PartnerEntry>)
    ensures forall b :: b in GroupMonths(es) ==> MonthConsistent(b)
    ensures SumInt(GroupMonths(es), PMTotal) == |es|
  {
    if es != [] {
      var pre := es[..|es| - 1];
      var e := es[|es| - 1];
      GroupMonthsTotals(pre);
      var bs0 := GroupMonths(pre);
      var i := IndexOfMonth(bs0, e.month);
      if i < |bs0| {
        var b := AccumulateMonthlyPartnerBucket(bs0[i], e.payout, e.direct);
        assert bs0[i] in bs0;
        SumIntUpdate(bs0, i, b, PMTotal);
        forall c | c in bs0[i := b] ensures MonthConsistent(c) {
          var k :| 0 <= k < |bs0[i := b]| && bs0[i := b][k] == c;
          if k != i { assert c == bs0[k] && bs0[k] in bs0; }
        }
      } else {
        var b := AccumulateMonthlyPartnerBucket(PartnerMonth(e.month, 0, 0, 0, NoPartnerTotals), e.payout, e.direct);
        SumIntAppend(bs0, [b], PMTotal);
        assert [b][1..] == [];
      }
    }
  }

  predicate MonthBucketLe(a: PartnerMonth, b: PartnerMonth)
  {
    MonthKeyLe(a.month, b.month)
  }

  lemma MonthBucketLeTotalPreorder()
    ensures TotalPreorder(MonthBucketLe)
  {
    MonthKeyLeTotalPreorder();
  }

  /** The affiliates that answer to the partner. */
  function Roster(afs: seq<Affiliate>, partnerId: Option<Id>): (r: seq<Affiliate>)
    ensures forall a :: a in r <==> a in afs && partnerId.Some? && NormaliseId(a.partnerRef) == partnerId
  {
    if afs == [] then []
    else (if partnerId.Some? && NormaliseId(afs[0].partnerRef) == partnerId then [afs[0]] else [])
         + Roster(afs[1..], partnerId)
  }

  /** The roster's truthy affiliate ids. */
  function RosterIds(roster: seq<Affiliate>): (ids: set<Id>)
    ensures forall id :: id in ids <==> IdTruthy(id) && exists a :: a in roster && NormaliseId(a.id) == Some(id)
  {
    set a, id | a in roster && id == NormaliseId(a.id).GetOr(IdStr("")) && NormaliseId(a.id).Some? && IdTruthy(id) :: id
  }

  /** The users whose partner id is the partner's. */
  function PartnerUsers(users: seq<User>, partnerId: Option<Id>): (r: seq<User>)
    ensures forall u :: u in r <==> u in users && partnerId.Some? && NormaliseId(u.partnerRef) == partnerId
    ensures |r| <= |users|
  {
    if users == [] then []
    else (if partnerId.Some? && NormaliseId(users[0].partnerRef) == partnerId then [users[0]] else [])
         + PartnerUsers(users[1..], partnerId)
  }

  /** A user is affiliate-sourced iff its affiliate id is one of the roster's ids. */
  predicate IsDirect(u: User, ids: set<Id>)
  {
    !(NormaliseId(u.affiliateRef).Some? && NormaliseId(u.affiliateRef).value in ids)
  }

  function PartnerEntryOf(u: User, ids: set<Id>, ctx: Ctx, now: Instant): PartnerEntry
  {
    PartnerEntry(SafeMonthKey(u.createdAt, now), PayoutForUser(Some(u), ctx), IsDirect(u, ids))
  }

  function PartnerEntries(users: seq<User>, ids: set<Id>, ctx: Ctx, now: Instant): (es: seq<PartnerEntry>)
    ensures |es| == |users|
  {
    if users == [] then [] else PartnerEntries(users[..|users| - 1], ids, ctx, now) + [PartnerEntryOf(users[|users| - 1], ids, ctx, now)]
  }

  lemma PartnerEntriesSnoc(users: seq<User>, i: nat, ids: set<Id>, ctx: Ctx, now: Instant)
    requires i < |users|
    ensures var es := PartnerEntries(users[..i], ids, ctx, now);
            var e := PartnerEntryOf(users[i], ids, ctx, now);
            && PartnerEntries(users[..i + 1], ids, ctx, now) == es + [e]
            && CountDirect(es + [e]) == CountDirect(es) + (if e.direct then 1 else 0)
            && PartnerFold(es + [e]) == AccumulatePartnerTotals(PartnerFold(es), e.payout, e.direct)
            && GroupMonths(es + [e]) == TallyMonth(GroupMonths(es), e)
  {
    assert users[..i + 1][..i] == users[..i];
    var es := PartnerEntries(users[..i], ids, ctx, now);
    var e := PartnerEntryOf(users[i], ids, ctx, now);
    assert (es + [e])[..|es|] == es;
  }

  datatype PartnerSummary = PartnerSummary(
    partner: Option<Partner>,
    partnerId: Option<Id>,
    usersDirect: nat,
    usersAffiliates: nat,
    usersTotal: nat,
    payouts: PartnerTotals,
    monthly: seq<PartnerMonth>,
    affiliates: seq<Affiliate>)

  /** The monthly series of a partner: sorted with `'unknown'` last, each bucket consistent,
    * together counting every user once. */
  lemma PartnerSeriesFacts(es: seq<PartnerEntry>)
    ensures var r := SortBy(GroupMonths(es), MonthBucketLe);
            && SortedBy(r, MonthBucketLe)
            && (forall i, j :: 0 <= i < j < |r| && r[i].month == "unknown" ==> r[j].month == "unknown")
            && (forall b :: b in r ==> MonthConsistent(b))
            && SumInt(r, PMTotal) == |es|
  {
    var bs := GroupMonths(es);
    GroupMonthsTotals(es);
    MonthBucketLeTotalPreorder();
    SortBySorted(bs, MonthBucketLe);
    SumIntSortBy(bs, MonthBucketLe, PMTotal);
    forall b | b in SortBy(bs, MonthBucketLe) ensures MonthConsistent(b) {
      assert b in multiset(bs);
    }
  }

  /** What `summaryForPartner` reports for the partner given, over the users, partners and
    * affiliates of the store. */
  function PartnerSummaryOf(partnerInput: Value, users: seq<User>, partners: seq<Partner>, affiliates: seq<Affiliate>,
                            ctx: Ctx, now: Instant): PartnerSummary
  {
    var partnerId := NormaliseId(partnerInput);
    var roster := Roster(affiliates, partnerId);
    var es := PartnerEntries(PartnerUsers(users, partnerId), RosterIds(roster), ctx, now);
    PartnerSummary(if partnerId.Some? then FindPartner(partners, partnerId.value) else None, partnerId,
                   CountDirect(es), |es| - CountDirect(es), |es|, PartnerFold(es), SortBy(GroupMonths(es), MonthBucketLe), roster)
  }

  /** A partner summary counts each of the partner's users once, direct or through an
    * affiliate; its totals are consistent and add up the users' payouts; its monthly series
    * is sorted with `'unknown'` last, each bucket consistent, together counting every user. */
  lemma PartnerSummaryFacts(partnerInput: Value, users: seq<User>, partners: seq<Partner>, affiliates: seq<Affiliate>,
                            ctx: Ctx, now: Instant)
    ensures var r := PartnerSummaryOf(partnerInput, users, partners, affiliates, ctx, now);
            var es := PartnerEntries(PartnerUsers(users, r.partnerId), RosterIds(r.affiliates), ctx, now);
            && r.partnerId == NormaliseId(partnerInput) && r.affiliates == Roster(affiliates, r.partnerId)
            && r.usersTotal == |PartnerUsers(users, r.partnerId)| == r.usersDirect + r.usersAffiliates
            && r.usersDirect == CountDirect(es)
            && PartnerConsistent(r.payouts)
            && r.payouts.overall.partner == SumReal(es, PEPartner)
            && r.payouts.overall.affiliate + r.payouts.direct.affiliate == SumReal(es, PEAffiliate)
            && SortedBy(r.monthly, MonthBucketLe)
            && (forall i, j :: 0 <= i < j < |r.monthly| && r.monthly[i].month == "unknown" ==> r.monthly[j].month == "unknown")
            && (forall b :: b in r.monthly ==> MonthConsistent(b))
            && SumInt(r.monthly, PMTotal) == r.usersTotal
  {
    var partnerId := NormaliseId(partnerInput);
    var es := PartnerEntries(PartnerUsers(users, partnerId), RosterIds(Roster(affiliates, partnerId)), ctx, now);
    PartnerFoldTotals(es);
    PartnerSeriesFacts(es);
  }

  /** The loop of `summaryForPartner`: the partner's users counted direct or through an
    * affiliate, their payouts folded, and their months tallied. */
  method TallyPartnerUsers(users: seq<User>, ids: set<Id>, ctx: Ctx, now: Instant)
    returns (direct: nat, affiliates: nat, payouts: PartnerTotals, monthly: seq<PartnerMonth>)
    ensures var es := PartnerEntries(users, ids, ctx, now);
            && direct == CountDirect(es) && direct + affiliates == |users|
            && payouts == PartnerFold(es) && monthly == GroupMonths(es)
  {
    direct, affiliates := 0, 0;
    payouts := NoPartnerTotals;
    monthly := [];
    for i := 0 to |users|
      invariant direct == CountDirect(PartnerEntries(users[..i], ids, ctx, now))
      invariant direct + affiliates == i
      invariant payouts == PartnerFold(PartnerEntries(users[..i], ids, ctx, now))
      invariant monthly == GroupMonths(PartnerEntries(users[..i], ids, ctx, now))
    {
      var e := PartnerEntryOf(users[i], ids, ctx, now);
      PartnerEntriesSnoc(users, i, ids, ctx, now);
      if e.direct {
        direct := direct + 1;
      } else {
        affiliates := affiliates + 1;
      }
      payouts := AccumulatePartnerTotals(payouts, e.payout, e.direct);
      monthly := TallyMonth(monthly, e);
    }
    assert users[..|users|] == users;
  }

  /** `summaryForPartner` */
  method SummaryForPartner(partnerInput: Value, db: Store, now: Instant) returns (r: PartnerSummary)
    ensures r == PartnerSummaryOf(partnerInput, db.users, db.partners, db.affiliates, db.PayoutCtx(), now)
  {
    hide PartnerEntries, CountDirect, PartnerFold, GroupMonths, SortBy, NormaliseId, FindPartner, Roster, RosterIds,
      PartnerUsers, PartnerEntryOf;
    var partnerId := NormaliseId(partnerInput);
    var partner := if partnerId.Some? then FindPartner(db.partners, partnerId.value) else None;
    var roster := Roster(db.affiliates, partnerId);
    var users := PartnerUsers(db.users, partnerId);
    var direct, affiliates, payouts, monthly := TallyPartnerUsers(users, RosterIds(roster), db.PayoutCtx(), now);
    r := PartnerSummary(partner, partnerId, direct, affiliates, |users|, payouts, SortBy(monthly, MonthBucketLe), roster);
  }
}
