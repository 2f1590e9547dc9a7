# partner_codes referral billing, in Dafny

This project models the referral-billing engine of the partner_codes dashboard.
Partners and their affiliates hold referral codes (`PT-…` and `AF-…`). Users register against a code.
Every referred user earns a payout for the partner and, through an affiliate, for the affiliate.
Once per billing period each partner receives exactly one invoice.
Admin, finance, executive and partner views summarise the invoices and users.

The model follows the JavaScript modules one to one:

- `js.dfy`: loosely typed JavaScript values (`null`/`undefined`, numbers, `NaN`, infinities, strings, booleans, objects) and the string, number and date helpers the engine applies to them.
- `records.dfy`: the records of the browser store (users, codes, partners, affiliates, invoices, history entries, payout tables), and the store itself as a class with sequence fields.
- `sorting.dfy`: `Array.prototype.sort` with a comparator, as a stable insertion sort.
- `validators.dfy`: the server-side code validators.
- `payouts.dfy`: the payout resolver.
- `summaries.dfy`: the summary aggregator.
- `invoices.dfy`: the invoice engine. It covers idempotent generation, the filtered listing and the status change.
- `http.dfy`, `routes_users.dfy`, `routes_codes.dfy`, `routes_invoices.dfy`, `routes_reports.dfy`, `api_fetch.dfy`: the in-browser API, meaning its handlers, role gates and request dispatcher.
- `router.dfy`: the role-based view registry.
- `admin_*.dfy`, `finance_*.dfy`, `executive_*.dfy`, `partner_*.dfy`: the computations inside the views, without their DOM.

Code that mutates the store or loops over records is written as methods with loop invariants. Each method is proved against a specification function. What the engine promises is proved about those functions as lemmas. Examples: one invoice per partner and period, generation being idempotent, code usage never exceeding its limit, summaries adding up, and sort orders being total preorders.

Clocks and randomness are parameters. A `now: Instant` stands for `new Date()`. A sequence of picks stands for `Math.random()`.

## Model

| member | source | states |
|---|---|---|
| Js.Trim | referral-system-web/src/js/biz/summaries.js:180 | `trim`: neither end of the result is white space |
| Js.TrimCutsOnlySpace | referral-system-web/src/js/biz/summaries.js:180 | `trim` returns a slice of its input, and everything it cuts before and after that slice is white space |
| Js.KeyIndex | referral-system-web/src/js/biz/summaries.js:70-73 | a `Map` lookup over entries in insertion order: the position found holds the key and no earlier entry does; the length when no entry holds it |
| Js.MonthKey | referral-system-web/src/utils/dates.js:48-53 | a date's month key, `YYYY-MM` |
| Js.Ymd | referral-system-web/src/utils/dates.js:35-41 | a date as `YYYY-MM-DD`: its month key, a hyphen and the two-digit day |
| Js.NormaliseId | referral-system-web/src/js/biz/summaries.js:27-38 | a string id is its trimmed text, and anything but a string or a number has no id |
| Js.NormaliseIdOfIdValue | referral-system-web/src/js/biz/summaries.js:27-38 | normalising an id that is already normalised gives it back |
| Validators.IsValidCode | src/validators.js:1-10 | a code is valid when it is a string whose trimmed, upper-cased text is `PT` or `AF` and five letters or digits; ValidCodeIgnoresCase and ValidCodeHasNoHyphen state what that admits |
| Validators.ValidCodeIgnoresCase | src/validators.js:3-10 | a seven-character `pt`/`af` code in lower case is valid, and so is the same code padded with a space on each side |
| Validators.ValidCodeHasNoHyphen | src/validators.js:1-10 | a valid code trims to exactly seven characters, none of them a hyphen |
| Validators.PresentUses | src/validators.js:31 | the use count field read is missing exactly when `uses`, `use_count` and `current_uses` are all missing |
| Validators.CanUseCode | src/validators.js:12-39 | usability of a code row: not an object, a blocking status or an unusable limit refuse it; CanUseCodeRejects and CanUseCodeAtLimit state each branch |
| Validators.CanUseCodeRejects | src/validators.js:12-39 | a status other than `active` in any case blocks use; with an open status and no limit the code is usable; a non-numeric, NaN or negative limit blocks; a non-finite or negative count blocks; no object is never usable |
| Validators.CanUseCodeAtLimit | src/validators.js:23-38 | with an open status and a numeric limit a code is usable exactly while its count is below the limit: one below is usable, at the limit is not |
| Validators.ActiveStatusAnyCase | src/validators.js:19-21 | any spelling of `active` that lower-cases to `active` does not block |
| Validators.UsesPriority | src/validators.js:31-32 | the count comes from `uses`, else `use_count`, else `current_uses`, else 0 |
| Validators.RequireParentForAffiliate | src/validators.js:41-63 | as written: success always returns `true`, and only for a payload whose code is valid |
| Validators.ParentCheckSkippedForPaddedCode | src/validators.js:48-56 | as written, `" AF12345"` is a valid affiliate code yet passes without any parent partner, because the affiliate test reads the untrimmed code |
| Validators.RequireParentForAffiliateTrimmed | src/validators.js:41-63 | the intended check: the affiliate test reads the trimmed, upper-cased code; success returns `true` |
| Validators.TrimmedParentCheckHolds | src/validators.js:41-63 | with the intended check a payload is accepted exactly when it is present, its code is valid, and, when the trimmed upper-cased code starts with `AF`, its parent partner id is a positive integer |
| Validators.ParentChecksAgreeOnTrimmed | src/validators.js:41-63 | the code as written and the intended check agree on every code written without surrounding white space |
| Payouts.ToNumber | referral-system-web/src/js/biz/payouts.js:4-23 | a number reads as itself; null, undefined, NaN, infinities, objects and blank strings read as no number |
| Payouts.PercentSuffixIgnored | referral-system-web/src/js/biz/payouts.js:14-17 | a trailing `%` after a trimmed number text does not change what it reads as |
| Payouts.DigitsReadBack | referral-system-web/src/js/biz/payouts.js:9-18 | a decimal digit string reads as its value, with or without a trailing `%` |
| Payouts.NormaliseMoney | referral-system-web/src/js/biz/payouts.js:25-34 | the result is a non-negative amount in whole cents; no number and any non-positive number give 0; a non-negative amount already in cents is kept |
| Payouts.MoneyMonotone | referral-system-web/src/js/biz/payouts.js:31-33 | clamping to 0 and rounding to cents never reverses the order of two amounts |
| Payouts.PickNumber | referral-system-web/src/js/biz/payouts.js:131-139 | the result is the reading of the first value that reads as a number, and none only when no value does |
| Payouts.NormaliseAccountType | referral-system-web/src/js/biz/payouts.js:36-50 | never empty; `standard` when the type is not text or blank; otherwise the trimmed, lower-cased type |
| Payouts.FirstEntry | referral-system-web/src/js/biz/payouts.js:118-128 | none exactly when no key is present with a numeric value; otherwise the value under the first key that is |
| Payouts.ExactKeyWins | referral-system-web/src/js/biz/payouts.js:102-129 | a numeric entry under the trimmed lower-case account type wins over its other spellings and the defaults |
| Payouts.DefaultWhenKeyAbsent | referral-system-web/src/js/biz/payouts.js:102-129 | when a table holds only the default keys and the type is a plain lower-case word other than `default`, the `default` entry is used |
| Payouts.NormaliseCut | referral-system-web/src/js/biz/payouts.js:141-159 | a cut lies in [0, 1]; none exactly for no number, a negative one or one above 100; a value in (1, 100] is read as a percentage, one in [0, 1] as a share |
| Payouts.FindPartner | referral-system-web/src/js/biz/payouts.js:177-187 | a partner found is in the list with the normalised id; none found means no partner has it |
| Payouts.FindAffiliate | referral-system-web/src/js/biz/payouts.js:189-201 | an affiliate found is in the list with the normalised id; none found means no affiliate has it |
| Payouts.FirstCut | referral-system-web/src/js/biz/payouts.js:250-257 | the result is in [0, 1]: the first candidate that normalises to a cut, else 0.25 |
| Payouts.ExtractPartnerCut | referral-system-web/src/js/biz/payouts.js:203-258 | the partner's cut is always a share in [0, 1] |
| Payouts.UserCutWins | referral-system-web/src/js/biz/payouts.js:230-255 | a usable cut on the user wins over the partner's, the affiliate's and the configured one |
| Payouts.DefaultCut | referral-system-web/src/js/biz/payouts.js:250-257 | with no usable cut anywhere the partner keeps 0.25 |
| Payouts.ExtractOverride | referral-system-web/src/js/biz/payouts.js:260-298 | an override found is the reading of one of the user's direct override fields or of a key variant in the override object |
| Payouts.DirectOverrideWins | referral-system-web/src/js/biz/payouts.js:280-297 | a numeric `<key>PayoutOverride` field beats everything in the override object |
| Payouts.IsAffiliateUser | referral-system-web/src/js/biz/payouts.js:316-346 | an explicit affiliate role makes an affiliate user and a partner role does not; with neither, the user is an affiliate exactly when it has an affiliate id other than `''` and 0 or its code marks it as one |
| Payouts.PayoutForUser | referral-system-web/src/js/biz/payouts.js:351-384 | both payouts are non-negative whole cents; a non-object user earns nothing; a direct user pays no affiliate; the partner gets the rounded override or default, the affiliate the rounded override or table entry |
| Payouts.PartnerShareBounded | referral-system-web/src/js/biz/payouts.js:374-383 | without a partner override, the partner's share of an affiliate user never exceeds the affiliate's payout |
| Payouts.ScaledDown | referral-system-web/src/js/biz/payouts.js:377 | a share in [0, 1] of an amount never rounds to more than the amount |
| Payouts.DirectUserPayout | referral-system-web/src/js/biz/payouts.js:365-372 | a user with a partner role and no partner override earns the partner the partner table's entry for its account type, and the affiliate nothing |
| Summaries.Accumulate | referral-system-web/src/js/biz/summaries.js:14-19 | adding a payout adds its partner and affiliate parts, and the total stays partner plus affiliate |
| Summaries.TotalOf | referral-system-web/src/js/biz/summaries.js:64-67 | the running totals of a run of payouts stay balanced (total = partner + affiliate) |
| Summaries.IndexOfKey | referral-system-web/src/js/biz/summaries.js:70-73 | the position found holds the key and no earlier bucket does; the length when no bucket holds it |
| Summaries.KeyTotal | referral-system-web/src/js/biz/summaries.js:73-75 | the totals of a key's entries are balanced, and zero for a key without entries |
| Summaries.TallyKeepsInv | referral-system-web/src/js/biz/summaries.js:70-75 | one more entry keeps the grouping right: distinct keys, each bucket with its key's count and totals, a bucket exactly for the keys seen |
| Summaries.Group | referral-system-web/src/js/biz/summaries.js:62-76 | the buckets of a grouping loop in first-seen order; GroupContents, GroupSums and GroupBucket state their contents |
| Summaries.GroupContents | referral-system-web/src/js/biz/summaries.js:62-76 | grouping gives one bucket per key, holding that key's count of entries and payout totals, and a bucket exactly for each key that occurs |
| Summaries.GroupSums | referral-system-web/src/js/biz/summaries.js:62-76 | the buckets share out the users and both payout columns: nothing is lost or counted twice |
| Summaries.MonthKeyLeIsComparator | referral-system-web/src/js/biz/summaries.js:78-82 | the order used for months is exactly "the comparator does not put a after b" on every pair except two `unknown` keys, which a map never holds |
| Sorting.SortBy | referral-system-web/src/js/biz/summaries.js:189-197 | `Array.prototype.sort` with a comparator: the result is a permutation of the input |
| Sorting.SortBySorted | referral-system-web/src/js/biz/summaries.js:189-197 | under a total preorder the result of the sort is sorted |
| Sorting.InsertKeepsEquivalents | referral-system-web/src/js/biz/summaries.js:189-197 | inserting an element puts it in front of every element that compares equal to it |
| Sorting.SortByStable | referral-system-web/src/js/biz/summaries.js:189-197 | the sort is stable: elements that compare equal keep their input order |
| Summaries.MonthKeyLeTotalPreorder | referral-system-web/src/js/biz/summaries.js:78-82 | the month order is total and transitive, so sorting by it is well defined |
| Summaries.Label | referral-system-web/src/js/biz/summaries.js:192-193 | the label compared on tied counts: the bucket's name, or its text when it is not a string |
| Summaries.UsersDescLe | referral-system-web/src/js/biz/summaries.js:189-197 | more users first, equal counts in label order; UsersDescTotalPreorder states that it is a total preorder |
| Summaries.UsersDescTotalPreorder | referral-system-web/src/js/biz/summaries.js:189-197 | the most-users-first, then by label order is total and transitive |
| Summaries.SortedBuckets | referral-system-web/src/js/biz/summaries.js:78-82 | sorting keeps the buckets (as a multiset) and their sums, and leaves them sorted |
| Summaries.MonthSeriesFacts | referral-system-web/src/js/biz/summaries.js:60-85 | the monthly series is sorted with `unknown` last, sums to the number of entries and to both payout totals, and each bucket is balanced and counts its month's entries, at least one |
| Summaries.GroupBucket | referral-system-web/src/js/biz/summaries.js:70-75 | every bucket of a grouping is balanced and counts the entries of its key, at least one |
| Summaries.SummariseUsers | referral-system-web/src/js/biz/summaries.js:60-85 | counts every user; the totals are the payouts' totals; the monthly series is the month grouping sorted with `unknown` last and sums back to the user count and payout totals |
| Summaries.FindApp | referral-system-web/src/js/biz/summaries.js:48-58 | an app found is in the list with the normalised id; none found means no app has it |
| Summaries.RegionKey | referral-system-web/src/js/biz/summaries.js:179-180 | a region key is never empty: the trimmed region when it is a non-blank string, `Unknown` otherwise |
| Summaries.RankingFacts | referral-system-web/src/js/biz/summaries.js:189-200 | an app or region ranking is sorted most users first and sums to the user count and both payout totals |
| Summaries.MetricsGlobal | referral-system-web/src/js/biz/summaries.js:143-231 | counts every user; the app, month and region lists are the groupings sorted as the source sorts them; each list sums back to the user count and both payout totals; the partner and affiliate counts are the list lengths |
| Summaries.EntrySums | referral-system-web/src/js/biz/summaries.js:150-187 | the app, month and region entries of the same users carry the same payouts |
| Summaries.FindCodeRow | referral-system-web/src/js/biz/summaries.js:236-244 | a row found is in the list and has the key among its trimmed values; none found means no row has it |
| Summaries.CodeUsers | referral-system-web/src/js/biz/summaries.js:247-257 | the users kept are exactly those that use the code (by its id when the row has one, else by the trimmed code text), never more than all users |
| Summaries.SummaryForCode | referral-system-web/src/js/biz/summaries.js:233-278 | the code id is the found row's; the users counted are the code's users; the monthly series is theirs and sums to their number; partner and affiliate ids come only from a found row; the payout is the total over the code's users this month, the monthly partner and affiliate amounts sum to its two parts and its total is their sum |
| Summaries.AccumulatePartnerTotals | referral-system-web/src/js/biz/summaries.js:290-304 | the partner totals stay consistent (overall partner = direct + affiliates, overall affiliate = affiliates', each total balanced), and only the chosen column grows |
| Summaries.AccumulateMonthlyPartnerBucket | referral-system-web/src/js/biz/summaries.js:324-343 | a monthly bucket stays consistent, keeps its month, counts one more direct or affiliate user with the total their sum, and folds the payout as the partner totals do |
| Summaries.IndexOfMonth | referral-system-web/src/js/biz/summaries.js:392-395 | the position found holds the month and no earlier bucket does |
| Summaries.PartnerFoldTotals | referral-system-web/src/js/biz/summaries.js:377-397 | the folded partner totals are consistent, the overall partner column is every user's partner payout, and the affiliate payout of a direct user is kept under `direct` but never reaches `overall` |
| Summaries.PartnerStep | referral-system-web/src/js/biz/summaries.js:290-304 | one fold step keeps the totals consistent, adds the payout's partner part to the overall partner column and its affiliate part to overall plus direct |
| Summaries.GroupMonthsTotals | referral-system-web/src/js/biz/summaries.js:391-397 | every monthly bucket stays consistent and the buckets count every user once |
| Summaries.MonthBucketLeTotalPreorder | referral-system-web/src/js/biz/summaries.js:399-403 | the order of the partner's months is total and transitive |
| Summaries.Roster | referral-system-web/src/js/biz/summaries.js:352-355 | an affiliate is on the roster exactly when its partner id is the normalised partner id |
| Summaries.RosterIds | referral-system-web/src/js/biz/summaries.js:356 | an id is in the set exactly when it is truthy and some roster affiliate has it |
| Summaries.PartnerUsers | referral-system-web/src/js/biz/summaries.js:358-364 | a user is kept exactly when its normalised partner id is the partner's; never more than all users |
| Summaries.PartnerSeriesFacts | referral-system-web/src/js/biz/summaries.js:399-403 | the partner's monthly series is sorted with `unknown` last, each bucket consistent, and together counts every user once |
| Summaries.PartnerSummaryFacts | referral-system-web/src/js/biz/summaries.js:345-434 | a partner summary counts each of the partner's users once, direct or through an affiliate; its totals are consistent and add up the users' payouts; its monthly series is sorted with `unknown` last, each bucket consistent, summing to the user count |
| Summaries.TallyPartnerUsers | referral-system-web/src/js/biz/summaries.js:377-397 | the loop counts the direct users, the affiliate users make up the rest, and the totals and monthly buckets are the folds of the users' entries |
| Summaries.SummaryForPartner | referral-system-web/src/js/biz/summaries.js:345-434 | the summary is the partner summary of the store's users, partners and affiliates, whose properties the facts lemma states |
| Invoices.NumberOrNull | referral-system-web/src/js/biz/invoices.js:6-12 | missing values and the empty string give no number; a number is kept; a non-empty string gives a number exactly when it parses to a finite one |
| Invoices.RoundCurrency | referral-system-web/src/js/biz/invoices.js:14-20 | a non-finite amount is 0 and any other is rounded to whole cents; RoundCurrencyProperties states the bounds |
| Invoices.RoundCurrencyProperties | referral-system-web/src/js/biz/invoices.js:14-20 | rounding gives whole cents within half a cent of a finite input, keeps non-negative amounts non-negative, leaves whole cents unchanged, and turns a non-finite value into 0 |
| Invoices.SelectCutoffDay | referral-system-web/src/js/biz/invoices.js:72-96 | the cutoff day is always between 1 and 31, and 15 when no candidate is a usable number |
| Invoices.FirstUsableCutoffWins | referral-system-web/src/js/biz/invoices.js:88-93 | the first candidate that is a number from 1 to 31 decides the day, floored |
| Invoices.DueDate | referral-system-web/src/js/biz/invoices.js:98-108 | a period not shaped `YYYY-MM` gets today's date |
| Invoices.DueDateOfMonthKey | referral-system-web/src/js/biz/invoices.js:98-108 | for a period made by the month key of a date, the due date is the cutoff day of the next month (rolling into January of the next year), normalised as `Date.UTC` does when the day overflows the month, read on a host whose local time is UTC |
| Invoices.MonthKeyShape | referral-system-web/src/js/biz/invoices.js:172 | a month key of a four-digit year is shaped `YYYY-MM` and reads back as that year and month |
| Invoices.KeepIdChars | referral-system-web/src/js/biz/invoices.js:66-67 | only letters, digits and dashes are kept, and every one of them is kept |
| Invoices.PartnerSegment | referral-system-web/src/js/biz/invoices.js:67-68 | the partner segment is never empty and holds only upper-case letters, digits and dashes (`PARTNER` when nothing is left) |
| Invoices.SanitiseInvoiceId | referral-system-web/src/js/biz/invoices.js:65-70 | an invoice id starts with `INV-` and holds only upper-case letters, digits and dashes |
| Invoices.CandidateInjective | referral-system-web/src/js/biz/invoices.js:207-213 | different counters give different candidate ids |
| Invoices.TakenBound | referral-system-web/src/js/biz/invoices.js:210-213 | the set of taken ids holds at least as many ids as candidates found taken, so the search for a free id ends |
| Invoices.FreshId | referral-system-web/src/js/biz/invoices.js:207-213 | the id chosen is not taken, and is the first candidate (base, then base-2, base-3, ...) that is not |
| Invoices.FreshInvoiceId | referral-system-web/src/js/biz/invoices.js:207-213 | the loop finds exactly the first free candidate |
| Invoices.BilledUsers | referral-system-web/src/js/biz/invoices.js:117-124 | a user is billed exactly when its normalised partner id is the partner's and its month is the period |
| Invoices.StatsFacts | referral-system-web/src/js/biz/invoices.js:126-157 | the statistics count every billed user once, direct plus affiliate make the total, and the amount is the rounded sum of the partner payouts |
| Invoices.CollectPartnerStats | referral-system-web/src/js/biz/invoices.js:110-158 | the statistics are those of the billed users' entries |
| Invoices.TallyBilledUsers | referral-system-web/src/js/biz/invoices.js:132-145 | the loop counts the direct users, the rest are affiliate users, and the three payout sums are the folds of the entries |
| Invoices.BillPartner | referral-system-web/src/js/biz/invoices.js:205-233 | a partner's new invoice gets the first free id and the figures of its billed users |
| Invoices.Generate | referral-system-web/src/js/biz/invoices.js:169-240 | the invoices one generation run creates, in partner order; GenerateFresh, GenerateIdempotent and GenerateFromPartners state what they are |
| Invoices.GenerateInvoices | referral-system-web/src/js/biz/invoices.js:169-240 | an invalid cutoff date fails and changes nothing; otherwise the created invoices are those the billing function defines, appended to the store |
| Invoices.KeyOfNew | referral-system-web/src/js/biz/invoices.js:200-220 | a new invoice has the key of its period and partner |
| Invoices.GenerateFresh | referral-system-web/src/js/biz/invoices.js:176-237 | every created invoice is pending, has a key and an id not already in the store, and no two created invoices share a key or an id |
| Invoices.BillAllCovers | referral-system-web/src/js/biz/invoices.js:194-216 | after the loop every partner with an id has its key recorded, and no key is lost |
| Invoices.NothingToBill | referral-system-web/src/js/biz/invoices.js:200-203 | when every partner already has an invoice for the period, nothing changes |
| Invoices.GenerateIdempotent | referral-system-web/src/js/biz/invoices.js:169-240 | generating a second time for the same period and partners creates nothing |
| Invoices.NewInvoiceFigures | referral-system-web/src/js/biz/invoices.js:218-233 | a new invoice's amount is the rounded sum of its billed users' partner payouts, its user count is the number of billed users, and it is pending |
| Invoices.GenerateFromPartners | referral-system-web/src/js/biz/invoices.js:194-237 | every created invoice belongs to a partner of the store |
| Invoices.WantedStatuses | referral-system-web/src/js/biz/invoices.js:247-250 | a status is wanted exactly when it is non-empty and is the trimmed, lower-cased form of a string given |
| Invoices.StatusFilter | referral-system-web/src/js/biz/invoices.js:245-255 | a status filter is never empty, and an empty list gives no filter |
| Invoices.PartnerFilter | referral-system-web/src/js/biz/invoices.js:257-262 | a partner filter is a truthy normalised id of the value given |
| Invoices.PeriodFilter | referral-system-web/src/js/biz/invoices.js:264 | a period filter is the non-empty trimmed string given |
| Invoices.ListInvoices | referral-system-web/src/js/biz/invoices.js:242-294 | an invoice is listed exactly when it is in the store and passes every filter, in store order |
| Invoices.ListInvoicesAppend | referral-system-web/src/js/biz/invoices.js:266-293 | listing distributes over concatenation of invoice lists |
| Invoices.ListInvoicesUnfiltered | referral-system-web/src/js/biz/invoices.js:266-293 | with no filter everything is listed |
| Invoices.StatusMatchIgnoresCase | referral-system-web/src/js/biz/invoices.js:268-270 | a status filter matches regardless of the invoice status's case |
| Invoices.OneStatusFilter | referral-system-web/src/js/biz/invoices.js:245-255 | a single status filters on its trimmed, lower-cased form |
| Invoices.FindInvoice | referral-system-web/src/js/biz/invoices.js:314-317 | the position found is the first invoice whose normalised id is the target; none found means no invoice has it |
| Invoices.StatusUpdate | referral-system-web/src/js/biz/invoices.js:296-327 | the invoice list after a status update and the updated invoice, or the error; StatusUpdateChangesOne states which invoice changes and how |
| Invoices.StatusUpdateChangesOne | referral-system-web/src/js/biz/invoices.js:296-327 | an update fails exactly for a missing id, a missing or blank status; otherwise it changes only the first invoice with that id (new trimmed status, stamped time), or nothing when there is none |
| Invoices.NextStatusPasses | referral-system-web/src/js/biz/invoices.js:308 | an invoice given a status passes a filter on that same status |
| Invoices.StatusUpdateIsListed | referral-system-web/src/js/biz/invoices.js:296-327 | the updated invoice is listed when filtering on the status it was given |
| Invoices.SetInvoiceStatus | referral-system-web/src/js/biz/invoices.js:296-327 | a failure changes nothing; a success stores and returns the update's result |
| Http.ApiNumber | referral-system-web/src/js/api/routes.codes.js:6-12 | a number reads as itself; missing values and the empty string give none; any number given reads back as that finite number |
| Http.NormaliseString | referral-system-web/src/js/api/routes.codes.js:14-19 | the result is trimmed, and empty for anything that is not a string |
| Http.FirstAccepted | referral-system-web/src/js/api/routes.codes.js:41-46 | none exactly when no candidate is accepted; otherwise the first accepted candidate |
| Http.GetRole | referral-system-web/src/js/api/routes.codes.js:35-47 | no role exactly when no candidate is a non-blank string; otherwise the first such candidate, trimmed and lower-cased |
| Http.RoleIsNormal | referral-system-web/src/js/api/routes.codes.js:35-47 | a resolved role is already trimmed and lower-case: resolving it again gives it back |
| Http.RoleIgnoresCaseAndPadding | referral-system-web/src/js/api/routes.codes.js:49-52 | any upper-cased, space-padded spelling of an allowed role passes the role check |
| Http.IdTextOf | referral-system-web/src/js/api/routes.codes.js:21-33 | an id text exists exactly for a number or a non-blank string |
| Http.ExtractPartnerId | referral-system-web/src/js/api/routes.invoices.js:31-52 | no partner id exactly when no candidate is a number or a non-blank string; otherwise the first such candidate, as text |
| Http.PartnerIdNonEmpty | referral-system-web/src/js/api/routes.invoices.js:31-52 | an extracted partner id is never empty, so `!partnerId` only rejects a missing one |
| Http.PartnerIdNotBlank | referral-system-web/src/js/api/routes.invoices.js:31-52 | an extracted partner id is not blank, so a listing filtered by it does filter |
| RoutesUsers.NormaliseCodeValue | referral-system-web/src/js/api/routes.users.js:32-41 | no key exactly for a missing value or a blank string; a key is never empty, and a string's key is its trimmed text |
| RoutesUsers.FindCode | referral-system-web/src/js/api/routes.users.js:52-69 | none exactly when no row answers to the key by id or value; otherwise the first row that does |
| RoutesUsers.MaxUsesFor | referral-system-web/src/js/api/routes.users.js:86-92 | a limit, when there is one, is never negative |
| RoutesUsers.Admit | referral-system-web/src/js/api/routes.users.js:154-186 | an admitted registration names a row of the code list and comes from a well-formed body |
| RoutesUsers.RegisterUser | referral-system-web/src/js/api/routes.users.js:154-223 | a refusal replies with the guard's status and changes nothing; an admission raises the user counter by one, appends the user record built with that id, consumes the found code and replies 201 with the user's public view; ids stay within the counter |
| RoutesUsers.ClampIsConsume | referral-system-web/src/js/api/routes.users.js:205-211 | the count written back (one more use, clamped to the limit) is exactly the consumed code |
| RoutesUsers.UserIdIsNext | referral-system-web/src/js/api/routes.users.js:190-202 | appending the record built with the next id keeps every user id within the counter |
| RoutesUsers.BadRequestBeforeStore | referral-system-web/src/js/api/routes.users.js:156-170 | a malformed body gets 400 whatever the store holds; a well-formed one is refused only with 404 or 409 |
| RoutesUsers.NotFoundIff | referral-system-web/src/js/api/routes.users.js:172-176 | 404 exactly when no code row answers to the normalised key |
| RoutesUsers.AdmitIff | referral-system-web/src/js/api/routes.users.js:172-186 | a registration passes exactly when the first matching row is active and below its limit |
| RoutesUsers.OnlyBlockedStatusesRefuse | referral-system-web/src/js/api/routes.users.js:94-102 | a code is inactive exactly when its status is a string that trims and lower-cases to one of the five blocked names |
| RoutesUsers.PausedCodeDisagrees | referral-system-web/src/js/api/routes.users.js:94-102 | a `paused` code is active for registration, yet the code validator refuses it |
| RoutesUsers.NegativeMaxIsUnlimited | referral-system-web/src/js/api/routes.users.js:86-92 | a negative limit is no limit, so the code is never at capacity |
| RoutesUsers.Consume | referral-system-web/src/js/api/routes.users.js:205-211 | a code row after one use; ConsumeWithinLimit states the count rises within the limit |
| RoutesUsers.ConsumeWithinLimit | referral-system-web/src/js/api/routes.users.js:205-211 | consuming an admitted code raises its count, never above the limit (by exactly one without a limit), keeps its limit and status, and leaves it at capacity exactly when the new count reaches the limit |
| RoutesUsers.RecordRefersToCode | referral-system-web/src/js/api/routes.users.js:104-133 | the new user carries the code's id or value, so looking it up again finds the code, and takes the code's partner and affiliate |
| RoutesUsers.NewUserIsFresh | referral-system-web/src/js/api/routes.users.js:167-202 | a registered user's id differs from every earlier user's id, and the e-mail address it stores contains `@` |
| RoutesCodes.ParseMaxUses | referral-system-web/src/js/api/routes.codes.js:87-96 | a limit exactly for a number that reads as finite and non-negative, and then it is that number's floor |
| RoutesCodes.NormaliseStatus | referral-system-web/src/js/api/routes.codes.js:82-85 | a status is never empty and is trimmed: the trimmed input, or `active` when that is blank |
| RoutesCodes.Currency | referral-system-web/src/js/api/routes.codes.js:186 | the currency is never empty (`USD` when none is given) |
| RoutesCodes.CodeType | referral-system-web/src/js/api/routes.codes.js:159-160 | a code type is `AF` or `PT` |
| RoutesCodes.UsersCount | referral-system-web/src/js/api/routes.codes.js:110-120 | a code's user count never exceeds the number of users; it is zero exactly when no user counts towards the code and equals the number of users exactly when every user does |
| RoutesCodes.UsersCountAppend | referral-system-web/src/js/api/routes.codes.js:110-120 | the count over two concatenated user lists is the sum of their counts, so it adds one per user that counts towards the code |
| RoutesCodes.RequireAdmin | referral-system-web/src/js/api/routes.codes.js:141-146 | refusal exactly when the caller is not an admin, and then with 403 |
| RoutesCodes.CreateGuard | referral-system-web/src/js/api/routes.codes.js:148-192 | a creation passes the guards only with a body and an admin caller |
| RoutesCodes.CreateCode | referral-system-web/src/js/api/routes.codes.js:148-255 | a guard refusal replies with its status and changes nothing; a taken id or value replies 409 and leaves the codes and the counter as they were; otherwise the new code is appended, the counter rises by one and the reply is 201 with the code's view |
| RoutesCodes.FindById | referral-system-web/src/js/api/routes.codes.js:274 | none exactly when no code has the target id; otherwise the first code that does |
| RoutesCodes.UpdateCode | referral-system-web/src/js/api/routes.codes.js:257-308 | a non-admin gets 403 and a missing id 400, changing nothing; an unknown id gets 404; otherwise only the first code with the id is replaced by its update, and the reply is 200 with its view |
| RoutesCodes.NewCodeFacts | referral-system-web/src/js/api/routes.codes.js:197-239 | a created code's id and value differ from every existing code's, it has no uses yet, it is `active` unless the body names a status, and its limit reads back as parsed |
| RoutesCodes.NumberTextOfInt | referral-system-web/src/js/api/routes.codes.js:87-96 | a whole non-negative limit reads back as itself |
| RoutesCodes.CreateGuardOrder | referral-system-web/src/js/api/routes.codes.js:141-182 | 403 comes before any other check; then 400 for a missing partner, then 400 for an affiliate code without a parent; an `AF` code carries the body's affiliate and a `PT` code none |
| RoutesCodes.NormalisedTrimmed | referral-system-web/src/js/api/routes.codes.js:14-33 | a trimmed text normalises to itself and, when non-empty, is its own id |
| RoutesCodes.CodeTypeDefaultsToPT | referral-system-web/src/js/api/routes.codes.js:159-160 | a missing or non-string type makes a `PT` code |
| RoutesCodes.LowerCaseAfIsAffiliate | referral-system-web/src/js/api/routes.codes.js:159-160 | lower-case `af` makes an affiliate code |
| RoutesCodes.CodeTypeIgnoresPadding | referral-system-web/src/js/api/routes.codes.js:159-160 | surrounding white space does not change the type |
| RoutesCodes.RemainingFacts | referral-system-web/src/js/api/routes.codes.js:99-101 | no remaining count exactly without a limit; otherwise it is never negative, zero exactly when the uses reach the limit, and the gap to the limit when they do not exceed it |
| RoutesCodes.PadDigits | referral-system-web/src/js/api/routes.codes.js:78 | zero padding keeps a digit string's value |
| RoutesCodes.GeneratedValueReadsBack | referral-system-web/src/js/api/routes.codes.js:76-80 | a generated value is `AF-` or `PT-` followed by at least four digits that spell the counter |
| RoutesCodes.GeneratedValueFailsValidator | referral-system-web/src/js/api/routes.codes.js:76-80 | a generated value never passes the code validator |
| RoutesCodes.UpdateKeepsIdentity | referral-system-web/src/js/api/routes.codes.js:271-297 | an update keeps the code's id, value, type, partner, affiliate and uses and stamps the time; an empty update changes only the time; applying the same update twice is the same as once |
| RoutesInvoices.ParseDate | referral-system-web/src/js/api/routes.invoices.js:54-63 | a given valid date is kept; a missing, empty or unparsable one becomes the current time |
| RoutesInvoices.Sanitise | referral-system-web/src/js/api/routes.invoices.js:65-86 | the reply shows the stored invoice unchanged except a missing amount, shown as 0 |
| RoutesInvoices.SanitiseAll | referral-system-web/src/js/api/routes.invoices.js:106 | every invoice of a reply is the sanitised stored one, in order |
| RoutesInvoices.RequireFinanceRole | referral-system-web/src/js/api/routes.invoices.js:88-93 | refusal exactly when the caller is neither admin nor finance, and then with 403 |
| RoutesInvoices.GenerateHandler | referral-system-web/src/js/api/routes.invoices.js:95-111 | a caller without the finance role gets 403 and nothing changes; otherwise the invoices the generator creates for the parsed cutoff are appended and returned with 201 |
| RoutesInvoices.GenerateTwiceCreatesNothing | referral-system-web/src/js/api/routes.invoices.js:95-111 | a second generate call for a cutoff in the same month, made in the same month, creates nothing |
| RoutesInvoices.ListingFilter | referral-system-web/src/js/api/routes.invoices.js:121-129 | the listing keeps the query's status and period filters |
| RoutesInvoices.ListingGate | referral-system-web/src/js/api/routes.invoices.js:113-133 | a listing is refused exactly for a caller outside admin, finance and owner (403) or an owner without a partner id; admin and finance get the listing of the query unchanged |
| RoutesInvoices.OwnerListingIsOwn | referral-system-web/src/js/api/routes.invoices.js:123-131 | an owner gets the same listing whatever partner the query names, and only invoices of the owner's own partner id |
| RoutesInvoices.UpdateStatusHandler | referral-system-web/src/js/api/routes.invoices.js:135-161 | 403 for a caller without the finance role, 400 for a missing id or a blank status, each changing nothing; otherwise the status update is stored and the reply is 404 when no invoice has the id, else 200 with the updated invoice |
| RoutesInvoices.AcceptedUpdateChangesOne | referral-system-web/src/js/api/routes.invoices.js:141-158 | an accepted update never fails, keeps the number of invoices, changes nothing when the id is unknown, and otherwise gives exactly one invoice with that id the trimmed status |
| RoutesReports.AdminGate | referral-system-web/src/js/api/routes.reports.js:110-114 | only a caller whose role is `admin` passes; others get 403 |
| RoutesReports.OwnerGate | referral-system-web/src/js/api/routes.reports.js:120-127 | 403 exactly when the role is not `owner`, 400 exactly for an owner without a partner id; a pass gives the owner's non-empty partner id |
| RoutesReports.GlobalReport | referral-system-web/src/js/api/routes.reports.js:110-118 | a non-admin gets 403; an admin gets 200 with the global metrics: every user counted, the app, region and month lists summing to the user count and sorted as the metrics sort them |
| RoutesReports.SanitiseCode | referral-system-web/src/js/api/routes.reports.js:56-77 | the reply code keeps the id, value and affiliate, with the partner falling back to the parent partner |
| RoutesReports.OwnerCode | referral-system-web/src/js/api/routes.reports.js:120-145 | the owner's code reply; OwnerCodeFacts and OwnerCodeIgnoresParent state its guards and result |
| RoutesReports.OwnerCodeFacts | referral-system-web/src/js/api/routes.reports.js:120-145 | the guards answer first; then the reply is 200 with the first code that is the owner's, and `null` exactly when no code is |
| RoutesReports.AffiliateCodeIsNeverTheOwners | referral-system-web/src/js/api/routes.reports.js:134-140 | a code typed `AF` in any case is never an owner's code |
| RoutesReports.OwnerCodeIgnoresParent | referral-system-web/src/js/api/routes.reports.js:136-141 | a code whose own partner is someone else is not the owner's, whatever its parent partner |
| RoutesReports.OwnerSummary | referral-system-web/src/js/api/routes.reports.js:147-158 | the guards answer first; then 200 with the partner summary of the owner's id: its users counted, direct plus affiliate, totals consistent, months sorted and summing to the users, and the owner's affiliate roster |
| RoutesReports.OwnerReport | referral-system-web/src/js/api/routes.reports.js:160-176 | the guards answer first; then 200 with the owner's totals and monthly series, with the same counts and sums |
| RoutesReports.NumericPartnerIdIsNotMatched | referral-system-web/src/js/api/routes.reports.js:151-156 | the partner id reaches the summary as text, so users stored with a numeric partner id are never counted |
| ApiFetch.NormaliseMethod | referral-system-web/src/js/api/apiFetch.js:18-23 | a non-blank string is trimmed and upper-cased; anything else is `GET`; the result is never empty and already upper-case |
| ApiFetch.MethodIsNormal | referral-system-web/src/js/api/apiFetch.js:18-23 | a normalised method normalises to itself |
| ApiFetch.CollapseSlashes | referral-system-web/src/js/api/apiFetch.js:36 | the result has no double slash, only characters of the input, and keeps its first and last character |
| ApiFetch.CollapseKeepsCollapsed | referral-system-web/src/js/api/apiFetch.js:36 | a text without a double slash is left as it is |
| ApiFetch.PathCore | referral-system-web/src/js/api/apiFetch.js:35-36 | the part before the first `?`, without a double slash, keeping its first character |
| ApiFetch.NormalisePath | referral-system-web/src/js/api/apiFetch.js:27-44 | a normalised path is never empty, has no `?` and no double slash, and ends in a slash only when it is `/`; a non-string or blank input is `/` |
| ApiFetch.LeadingSlashKept | referral-system-web/src/js/api/apiFetch.js:27-44 | a path that starts with a slash keeps it |
| ApiFetch.TrailingSlashSkipsLeadingSlash | referral-system-web/src/js/api/apiFetch.js:37-42 | a clean path with a trailing slash and no leading slash comes back without its trailing slash and still without a leading slash |
| ApiFetch.NormalisePathRooted | referral-system-web/src/js/api/apiFetch.js:27-44 | the intended normalisation: the same guarantees, and the result always starts with a slash |
| ApiFetch.RootedAgreesOnRootedPaths | referral-system-web/src/js/api/apiFetch.js:27-44 | the intended and the written normalisation agree on every path that already starts with a slash |
| ApiFetch.RootedIgnoresMissingSlash | referral-system-web/src/js/api/apiFetch.js:37-42 | with the intended order, a path without its leading slash normalises as the same path with it |
| ApiFetch.Split | referral-system-web/src/js/api/apiFetch.js:49 | splitting gives at least one part, none holding a slash, and an empty first part exactly for an empty or rooted text |
| ApiFetch.JoinSplit | referral-system-web/src/js/api/apiFetch.js:49 | joining the parts of a split with slashes gives the text back |
| ApiFetch.SplitJoin | referral-system-web/src/js/api/apiFetch.js:49 | splitting the join of slash-free parts gives the parts back |
| ApiFetch.SegmentOf | referral-system-web/src/js/api/apiFetch.js:50-60 | a literal segment is the part itself; a placeholder has a non-empty name (`param` when blank) |
| ApiFetch.Template | referral-system-web/src/js/api/apiFetch.js:46-60 | a template has one segment per part of the normalised pattern, each that part's segment |
| ApiFetch.MatchPath | referral-system-web/src/js/api/apiFetch.js:61-74 | a route template applied to a normalised path: no match, or the parameters bound; MatchParts states it |
| ApiFetch.MatchParts | referral-system-web/src/js/api/apiFetch.js:61-74 | a path matches exactly when it has as many parts as the template and each part is accepted by its segment; the parameters bound are exactly the template's placeholder names |
| ApiFetch.MatchBindsPositionally | referral-system-web/src/js/api/apiFetch.js:69-73 | a placeholder holds the path part at its own position, unless the same name comes again further right |
| ApiFetch.UnrootedTemplateNeverMatches | referral-system-web/src/js/api/apiFetch.js:46-68 | a template whose normalised pattern lacks a leading slash never matches a rooted path |
| ApiFetch.EnsureStatus | referral-system-web/src/js/api/apiFetch.js:138-143 | a status is at least 100: an integer status of at least 100 is kept, otherwise 200 or 500 by outcome |
| ApiFetch.EnsureResponseShape | referral-system-web/src/js/api/apiFetch.js:145-168 | no result is a bare 200; a plain value is 200 with that data; a shaped reply keeps its truthiness, data and presence of a message, with its status made proper |
| ApiFetch.HandlerReplyPassesThrough | referral-system-web/src/js/api/apiFetch.js:145-157 | a handler's own reply with a proper status passes through unchanged |
| ApiFetch.FormatError | referral-system-web/src/js/api/apiFetch.js:170-179 | an error reply is not ok, has no data and a non-empty message; an integer status is kept (even below 100), else 500; a non-blank message is kept |
| ApiFetch.CompileAll | referral-system-web/src/js/api/apiFetch.js:78-86 | one compiled route per definition, in order |
| ApiFetch.Respond | referral-system-web/src/js/api/apiFetch.js:181-215 | the reply to a request; RespondNotFound and RespondPicksFirst state which route answers and how |
| ApiFetch.RespondNotFound | referral-system-web/src/js/api/apiFetch.js:181-215 | with no route that answers, the reply is 404 naming the method and path |
| ApiFetch.RespondPicksFirst | referral-system-web/src/js/api/apiFetch.js:186-207 | the route that runs is the first that answers, with the parameters its template binds; its reply is shaped, or its error formatted |
| ApiFetch.RouteTable.RegisterRoute | referral-system-web/src/js/api/apiFetch.js:94-100 | a non-object throws and registers nothing; a route is appended after every route already known |
| ApiFetch.RouteTable.ResetExtraRoutes | referral-system-web/src/js/api/apiFetch.js:102-105 | no extra route is left |
| ApiFetch.RouteTable.Fetch | referral-system-web/src/js/api/apiFetch.js:181-215 | the reply is that of the first compiled route answering the normalised method and path |
| ApiFetch.BuiltinRoutesComeFirst | referral-system-web/src/js/api/apiFetch.js:88-99 | a route registered later never shadows a built-in one that answers |
| Router.LabelFor | referral-system-web/src/js/router.js:62 | a truthy label is kept; otherwise the view key is the label |
| Router.Register | referral-system-web/src/js/router.js:57-64 | a new view key goes last, a known one keeps its place, and the entry under the key is replaced |
| Router.Resolve | referral-system-web/src/js/router.js:106-110 | the view opened is registered: the requested one when it is non-blank and registered, else the first one |
| Router.RegisterAt | referral-system-web/src/js/router.js:9-15 | registering under a role creates its bucket when needed, leaves other roles alone and loses no view already registered |
| Router.RegisterIn | referral-system-web/src/js/router.js:43-65 | registration throws exactly for a blank role, a blank view key or a missing render; otherwise the view is registered under the normalised role with its label |
| Router.DefRole | referral-system-web/src/js/router.js:72 | a definition that carries its own role is registered under that role, which overrides the argument; otherwise under the argument |
| Router.RegisterAll | referral-system-web/src/js/router.js:67-74 | registering definitions in turn, each under its own role when it carries one, keeps the registry well formed |
| Router.Router.SetContentContainer | referral-system-web/src/js/router.js:36-41 | only an element is accepted; anything else throws and changes nothing |
| Router.Router.RegisterRoute | referral-system-web/src/js/router.js:43-65 | throws exactly for a blank role, a blank view key or a missing render, changing nothing; otherwise the registry is the one registration gives |
| Router.Router.RegisterRoutes | referral-system-web/src/js/router.js:67-74 | the definitions are registered in turn, each under its own role when it carries one; the first refused one stops the rest and is reported |
| Router.Router.AvailableViews | referral-system-web/src/js/router.js:76-89 | a role's views in registration order with their labels; none for an unknown role |
| Router.Router.Navigate | referral-system-web/src/js/router.js:93-127 | without a container it throws and changes nothing; a role without views becomes the current route with no view; otherwise the current route is the role and the resolved view |
| Router.ReRegisterKeepsPlace | referral-system-web/src/js/router.js:57-64 | registering the same key twice keeps one place for it, at its first position, and the later entry wins |
| Router.RegisterKeepsOrder | referral-system-web/src/js/router.js:57-64 | registering a view never reorders or changes the other views |
| Router.NormaliseRole | referral-system-web/src/js/router.js:1 | a role as text, trimmed and lower-cased; RoleCaseAndPaddingIgnored states what that makes equal |
| Router.ViewKey | referral-system-web/src/js/router.js:3 | a view key as text, trimmed; ViewKeyPaddingIgnored states what that makes equal |
| Router.RoleCaseAndPaddingIgnored | referral-system-web/src/js/router.js:1 | roles are found whatever their case and padding |
| Router.ViewKeyPaddingIgnored | referral-system-web/src/js/router.js:3 | view keys are found whatever their padding |
| Router.RegisterAllRegistersEach | referral-system-web/src/js/router.js:67-74 | when no definition is refused, every definition's view is registered under its role (its own, else the argument) and no earlier view is lost |
| AdminPayments.PaidCount | referral-system-web/src/js/views/admin/admin.payments.js:36-42 | the number of paid invoices never exceeds the number of invoices |
| AdminPayments.SummarizeInvoices | referral-system-web/src/js/views/admin/admin.payments.js:29-46 | every invoice counts once, as paid or as pending; the paid count is the number of paid invoices; the amount is the sum of the amounts read as numbers, a missing one as 0 |
| AdminPayments.PaidCountExtremes | referral-system-web/src/js/views/admin/admin.payments.js:36-42 | every invoice is paid exactly when the paid count is the total, and none is exactly when it is 0 |
| AdminPayments.AmountOfNumber | referral-system-web/src/js/views/admin/admin.payments.js:43 | a finite amount counts as itself and a missing one as 0 |
| AdminPayments.AmountTotalFinite | referral-system-web/src/js/views/admin/admin.payments.js:36-44 | when every amount is a finite number or missing, the summary amount is their exact sum, a missing one counting 0 |
| AdminPayments.StatusChangeHistory | referral-system-web/src/js/views/admin/admin.payments.js:183-204 | a change fails exactly for a missing id or a blank status; otherwise earlier history entries stay, one entry is appended exactly when an invoice was updated to `paid`, recording its id, amount, partner and time, and an unknown id changes nothing |
| AdminPayments.ApplyStatusChange | referral-system-web/src/js/views/admin/admin.payments.js:183-212 | the invoices and the payment history become what the status change gives, and a failure changes neither |
| AdminPayments.HandleGeneration | referral-system-web/src/js/views/admin/admin.payments.js:214-238 | without a cutoff date nothing is generated; an unparsable date fails and changes nothing; otherwise the invoices generated for the date are appended |
| AdminPayments.SelectInvoice | referral-system-web/src/js/views/admin/admin.payments.js:244-246 | the current selection is kept when it is set and still listed; otherwise it becomes the first listed invoice's id, or `null` |
| AdminPayments.SelectionIsListed | referral-system-web/src/js/views/admin/admin.payments.js:244-246 | the selection is always `null` or the id of a listed invoice |
| FinancePayments.FilterFor | referral-system-web/src/js/views/finance/finance.payments.js:183 | the listing filter only filters on status, and filters nothing exactly for `all` |
| FinancePayments.AllListsEverything | referral-system-web/src/js/views/finance/finance.payments.js:183-184 | `all` lists every invoice, in store order |
| FinancePayments.SingleStatusWanted | referral-system-web/src/js/views/finance/finance.payments.js:183-184 | a single non-blank status asks for exactly that status, trimmed and lower-cased |
| FinancePayments.OtherFilterListsThatStatus | referral-system-web/src/js/views/finance/finance.payments.js:183-184 | any other status lists exactly the invoices whose lower-cased status is that status, trimmed and lower-cased |
| FinancePayments.ReviewLeavesHistory | referral-system-web/src/js/views/finance/finance.payments.js:30-51 | putting an invoice under review never fails, records nothing in the payment history and changes only that invoice's status |
| ExecutivePayments.PartnerKey | referral-system-web/src/js/views/executive/executive.payments.js:29 | an invoice without a partner is grouped under `unknown`, and one with a text partner id under that text |
| ExecutivePayments.KeysOf | referral-system-web/src/js/views/executive/executive.payments.js:28-41 | the partner keys are distinct and are exactly the keys of the invoices |
| ExecutivePayments.Of | referral-system-web/src/js/views/executive/executive.payments.js:42 | a partner's invoices are exactly the invoices with its key |
| ExecutivePayments.Buckets | referral-system-web/src/js/views/executive/executive.payments.js:26-53 | one bucket per partner key, in first-seen order |
| ExecutivePayments.TotalDescTotalPreorder | referral-system-web/src/js/views/executive/executive.payments.js:54 | the largest-total-first order is total and transitive |
| ExecutivePayments.OfEmpty | referral-system-web/src/js/views/executive/executive.payments.js:31-41 | a partner key has a bucket exactly when the partner has an invoice |
| ExecutivePayments.BucketOther | referral-system-web/src/js/views/executive/executive.payments.js:42-52 | one more invoice leaves every other partner's bucket as it was |
| ExecutivePayments.BucketExtend | referral-system-web/src/js/views/executive/executive.payments.js:42-52 | one more invoice of a partner already seen accumulates into that partner's bucket |
| ExecutivePayments.BucketOpen | referral-system-web/src/js/views/executive/executive.payments.js:31-52 | the first invoice of a partner opens the partner's bucket and accumulates into it |
| ExecutivePayments.FiguresSnoc | referral-system-web/src/js/views/executive/executive.payments.js:43-52 | one more invoice adds one to the paid count and its amount to the paid amount when paid, to the pending amount otherwise, and always to the total |
| ExecutivePayments.AddInvoice | referral-system-web/src/js/views/executive/executive.payments.js:28-53 | one step of the grouping keeps the buckets and their index those of the invoices seen |
| ExecutivePayments.AggregateByPartner | referral-system-web/src/js/views/executive/executive.payments.js:26-55 | the result is the partner buckets sorted by total amount, largest first |
| ExecutivePayments.TotalIsPaidPlusPending | referral-system-web/src/js/views/executive/executive.payments.js:45-52 | a total amount is the paid amount plus the pending amount |
| ExecutivePayments.BucketsConsistent | referral-system-web/src/js/views/executive/executive.payments.js:26-53 | each bucket is its partner's: the paid and pending counts add up to the partner's invoices and the paid and pending amounts to the total |
| ExecutivePayments.AggregateFacts | referral-system-web/src/js/views/executive/executive.payments.js:26-55 | the sorted buckets are a permutation of the buckets, sorted largest total first, one per partner with invoices, each consistent |
| ExecutivePayments.RecentIsNewest | referral-system-web/src/js/views/executive/executive.payments.js:128-133 | the recent list holds five invoices (all when there are fewer), newest first, taken from the invoices, and none left out is newer than one shown |
| PartnerPayments.PartnerIdOf | referral-system-web/src/js/views/partner/partner.payments.js:38-40 | a cleaned partner id is a non-empty trimmed text, and none exactly for a missing or blank one |
| PartnerPayments.SanitiseInvoice | referral-system-web/src/js/views/partner/partner.payments.js:28-57 | an invoice is dropped exactly when it has no id; otherwise its id, status and period are kept and its partner id cleaned |
| PartnerPayments.PartnerIdRoundTrip | referral-system-web/src/js/views/partner/partner.payments.js:38-40 | cleaning a cleaned partner id gives it back |
| PartnerPayments.PartnerIdOfString | referral-system-web/src/js/views/partner/partner.payments.js:38-40 | a text partner id is kept trimmed unless it is blank, which gives none |
| PartnerPayments.FiniteOrZeroFacts | referral-system-web/src/js/views/partner/partner.payments.js:41-53 | numbers are kept as they are; a missing value and a non-finite number show as 0; a boolean as 1 or 0 |
| PartnerPayments.Sanitised | referral-system-web/src/js/views/partner/partner.payments.js:164-166 | the cleaned list is never longer than the listing |
| PartnerPayments.SanitisedFacts | referral-system-web/src/js/views/partner/partner.payments.js:164-166 | the cleaned list holds the cleaned form of every invoice with an id and nothing else |
| PartnerPayments.SanitisedAppend | referral-system-web/src/js/views/partner/partner.payments.js:164-166 | cleaning keeps store order: cleaning a concatenation concatenates the cleaned parts |
| PartnerPayments.Summarise | referral-system-web/src/js/views/partner/partner.payments.js:59-73 | the summary counts every invoice, sums their amounts, and splits the sum into paid and pending |
| PartnerPayments.AmountSplits | referral-system-web/src/js/views/partner/partner.payments.js:62-69 | every amount lands in exactly one of paid and pending, which add up to the total |
| PartnerPayments.AllOrNothingPaid | referral-system-web/src/js/views/partner/partner.payments.js:62-69 | with no invoice paid the pending figure is the whole amount, and with all paid the paid figure is |
| PartnerPayments.OnlyFirstPartner | referral-system-web/src/js/views/partner/partner.payments.js:154-168 | nothing is shown exactly when there are no partners; otherwise exactly the first partner's invoices that have an id are shown, cleaned; when the first partner has no usable id the filter is off and every invoice with an id is shown |
| AdminCodes.Drawn | referral-system-web/src/js/views/admin/admin.codes.js:7-15 | the drawn text has one character per pick, each from the code alphabet |
| AdminCodes.AlphabetChars | referral-system-web/src/js/views/admin/admin.codes.js:8 | every alphabet character is an upper-case letter or digit, and none is `I`, `O`, `0` or `1` |
| AdminCodes.RandomCode | referral-system-web/src/js/views/admin/admin.codes.js:7-15 | the loop writes exactly the alphabet characters the picks select, one per position |
| AdminCodes.FirstFreeStep | referral-system-web/src/js/views/admin/admin.codes.js:24-29 | an attempt returns its candidate when it is free and otherwise moves on to the next attempt |
| AdminCodes.NextCodeValue | referral-system-web/src/js/views/admin/admin.codes.js:17-32 | the loop returns what the attempt sequence gives: the first free candidate, or the exhaustion error |
| AdminCodes.CandidateShape | referral-system-web/src/js/views/admin/admin.codes.js:25 | a candidate is the prefix, a dash and five code characters |
| AdminCodes.FirstFreeFacts | referral-system-web/src/js/views/admin/admin.codes.js:24-31 | the search fails exactly when every remaining attempt's candidate is taken, with the exhaustion error; otherwise it returns the first free candidate |
| AdminCodes.NextCodeFacts | referral-system-web/src/js/views/admin/admin.codes.js:17-32 | a new code value fails exactly when all 25 attempts are taken; otherwise it is not taken, has the dashed shape, and starts `AF` exactly for the affiliate role |
| AdminCodes.GeneratedFailsValidator | referral-system-web/src/js/views/admin/admin.codes.js:5 | a value with the dashed shape never passes the code validator |
| AdminCodes.NormaliseCodeRecord | referral-system-web/src/js/views/admin/admin.codes.js:34-54 | a row keeps its raw record; a missing role becomes `affiliate` exactly when the code text starts with `AF`, else `partner`; a missing status is `active` and missing uses 0; an id is missing only when the id and the code are |
| AdminCodes.ChangesFrom | referral-system-web/src/js/views/admin/admin.codes.js:255-264 | only an affiliate's edit carries a parent partner; a falsy limit becomes none; name, owner and status are always set |
| AdminCodes.EditKeepsIdentity | referral-system-web/src/js/views/admin/admin.codes.js:160-169 | an edit keeps the code's id, value, role, uses, creation time and partner, so it still answers to the same id, and editing twice is editing once |
| AdminCodes.UpdateCode | referral-system-web/src/js/views/admin/admin.codes.js:156-175 | found exactly when some code has the id; every code with the id is edited and every other is kept, and the number of codes does not change |
| AdminCodes.SubmitCreate | referral-system-web/src/js/views/admin/admin.codes.js:380-429 | the codes become what creation gives: unchanged on a refusal, one record appended on success |
| AdminCodes.CreationFacts | referral-system-web/src/js/views/admin/admin.codes.js:380-424 | no role and an affiliate without a parent are refused with their messages; a created code has its value as id, a value not taken with the dashed shape and the role's prefix, no uses, status `active`, and a parent partner exactly for an affiliate |
| PartnerMyCode.ShownValue | referral-system-web/src/js/views/partner/partner.myCode.js:22 | the value a code is shown by: its code text, else its id |
| PartnerMyCode.GroupCodes | referral-system-web/src/js/views/partner/partner.myCode.js:19-35 | the two groups are the partner's codes shown as `PT` and as `AF`, each in order |
| PartnerMyCode.GroupsPartition | referral-system-web/src/js/views/partner/partner.myCode.js:19-35 | the two groups together hold every code with a text value, and such a code is in exactly one of them |
| PartnerMyCode.GroupsKeepOrder | referral-system-web/src/js/views/partner/partner.myCode.js:19-35 | grouping keeps the order of the codes |
| PartnerMyCode.UsesSumAppend | referral-system-web/src/js/views/partner/partner.myCode.js:78 | the uses of two runs of codes add up |
| PartnerMyCode.UsesSumNonNegative | referral-system-web/src/js/views/partner/partner.myCode.js:78 | when every code's uses are a non-negative number or missing, the total is a non-negative number |
| PartnerMyCode.AffiliateRowFor | referral-system-web/src/js/views/partner/partner.myCode.js:74-85 | an affiliate's row: the number of its codes and their uses; AffiliateRowFacts states it |
| PartnerMyCode.AffiliateRowFacts | referral-system-web/src/js/views/partner/partner.myCode.js:74-85 | an affiliate's row counts its codes, never more than all codes, zero exactly when none is the affiliate's, and adds up over concatenated code lists |
| PartnerMyCode.MyListing | referral-system-web/src/js/views/partner/partner.myCode.js:98-114 | the first partner's codes and affiliates, or nothing without a partner; ListingIsFirstPartners states it |
| PartnerMyCode.ListingIsFirstPartners | referral-system-web/src/js/views/partner/partner.myCode.js:98-114 | nothing is listed exactly when there are no partners; otherwise exactly the first partner's codes and affiliates |
| FinanceHistory.LastMatchIndex | referral-system-web/src/js/views/finance/finance.history.js:27-30 | the index found holds an invoice with the id and no later invoice has it |
| FinanceHistory.InvoiceById | referral-system-web/src/js/views/finance/finance.history.js:27-36 | none exactly when no invoice has the id; otherwise the last invoice that does, as a map keeps the last write |
| FinanceHistory.NewerChangeTotalPreorder | referral-system-web/src/js/views/finance/finance.history.js:33 | the newest-change-first order is total and transitive |
| FinanceHistory.SortedByChange | referral-system-web/src/js/views/finance/finance.history.js:33 | sorting the history leaves it newest change first |
| FinanceHistory.EnrichHistory | referral-system-web/src/js/views/finance/finance.history.js:26-38 | the paid history entries, newest change first, each with its invoice; EnrichedEntries and EnrichHistoryFacts state it |
| FinanceHistory.EnrichedEntries | referral-system-web/src/js/views/finance/finance.history.js:31-37 | each enriched entry is the sorted paid entry at its place, with the invoice found for its id |
| FinanceHistory.PaidEntriesSorted | referral-system-web/src/js/views/finance/finance.history.js:32-33 | the kept entries are exactly the paid ones of the history, newest first |
| FinanceHistory.EnrichHistoryFacts | referral-system-web/src/js/views/finance/finance.history.js:26-38 | the enriched history holds exactly the paid entries, newest change first, each with the invoice found for its id |
| AdminDashboard.RegionTotalSnoc | referral-system-web/src/js/views/admin/admin.dashboard.js:31-35 | one more user adds one to exactly its own region's total |
| AdminDashboard.CountInSnoc | referral-system-web/src/js/views/admin/admin.dashboard.js:36-38 | one more user adds one to exactly its own region and month count |
| AdminDashboard.MonthIndex | referral-system-web/src/js/views/admin/admin.dashboard.js:37-38 | the month lookup finds the first bucket of that month, or reports none |
| AdminDashboard.RegionIndex | referral-system-web/src/js/views/admin/admin.dashboard.js:33-34 | the region lookup finds the first bucket of that region, or reports none |
| AdminDashboard.CellsUntouched | referral-system-web/src/js/views/admin/admin.dashboard.js:31-38 | a user of another region leaves a region's month counts correct |
| AdminDashboard.BumpKeepsInv | referral-system-web/src/js/views/admin/admin.dashboard.js:36-38 | bumping the user's month keeps its region's month buckets distinct and equal to the counts of the users seen |
| AdminDashboard.HitDistinct | referral-system-web/src/js/views/admin/admin.dashboard.js:38 | overwriting an existing month bucket keeps the months distinct |
| AdminDashboard.HitCounts | referral-system-web/src/js/views/admin/admin.dashboard.js:38 | incrementing an existing month bucket keeps every count equal to the users seen |
| AdminDashboard.HitMonths | referral-system-web/src/js/views/admin/admin.dashboard.js:38 | incrementing an existing month bucket keeps the months present exactly those with users |
| AdminDashboard.MissDistinct | referral-system-web/src/js/views/admin/admin.dashboard.js:38 | appending a new month bucket keeps the months distinct |
| AdminDashboard.MissCounts | referral-system-web/src/js/views/admin/admin.dashboard.js:38 | a new month bucket starting at one keeps every count equal to the users seen |
| AdminDashboard.MissMonths | referral-system-web/src/js/views/admin/admin.dashboard.js:38 | a new month bucket keeps the months present exactly those with users |
| AdminDashboard.NoRegionNoCount | referral-system-web/src/js/views/admin/admin.dashboard.js:31-38 | a region with no users has no users in any month |
| AdminDashboard.EmptyCells | referral-system-web/src/js/views/admin/admin.dashboard.js:33-35 | a fresh region bucket is correct for a region with no users yet |
| AdminDashboard.RecordKeepsInv | referral-system-web/src/js/views/admin/admin.dashboard.js:31-39 | recording a user keeps the region map exactly the per-region, per-month counts of the users seen |
| AdminDashboard.RecordHit | referral-system-web/src/js/views/admin/admin.dashboard.js:33-38 | recording into an existing region keeps the region map correct |
| AdminDashboard.RecordMiss | referral-system-web/src/js/views/admin/admin.dashboard.js:33-38 | recording into a new region keeps the region map correct |
| AdminDashboard.RecordStep | referral-system-web/src/js/views/admin/admin.dashboard.js:31-39 | each step of the user loop keeps the region map correct for the users read so far |
| AdminDashboard.RowsOf | referral-system-web/src/js/views/admin/admin.dashboard.js:41-46 | there is one row per region |
| AdminDashboard.MoreUsersTotalPreorder | referral-system-web/src/js/views/admin/admin.dashboard.js:47 | the more-users-first order is total and transitive |
| AdminDashboard.TopRows | referral-system-web/src/js/views/admin/admin.dashboard.js:41-48 | at most five rows, and no more than the regions |
| AdminDashboard.RowFacts | referral-system-web/src/js/views/admin/admin.dashboard.js:42-46 | each row's total is its region's user count, which is positive, and its buckets are its region's counts |
| AdminDashboard.CellForCount | referral-system-web/src/js/views/admin/admin.dashboard.js:50 | a matrix cell is the number of the region's users in that month, zero when none |
| AdminDashboard.TopRowsCounted | referral-system-web/src/js/views/admin/admin.dashboard.js:41-48 | every top row is a region with users, with its true total and counts |
| AdminDashboard.TopRowsOrdered | referral-system-web/src/js/views/admin/admin.dashboard.js:47 | top rows go from most users to fewest |
| AdminDashboard.TopRowsComplete | referral-system-web/src/js/views/admin/admin.dashboard.js:41-48 | a region with users left out of the top rows means five rows, each with at least as many users |
| AdminDashboard.HeatmapOf | referral-system-web/src/js/views/admin/admin.dashboard.js:41-53 | the heatmap labels and matrix of the busiest regions; HeatmapShape and HeatmapFacts state their shape and cells |
| AdminDashboard.HeatmapShape | referral-system-web/src/js/views/admin/admin.dashboard.js:50-53 | one label and one matrix row per top region, one column per requested month, each cell that region's count |
| AdminDashboard.HeatmapFacts | referral-system-web/src/js/views/admin/admin.dashboard.js:41-53 | the labels and matrix are at most five regions with users, most first, each cell the users of that region joined that month |
| AdminDashboard.BuildHeatmapMatrix | referral-system-web/src/js/views/admin/admin.dashboard.js:29-54 | fails with the invalid-date error exactly when some user's join date cannot be parsed; otherwise returns the heatmap of the users |
| ExecutiveDashboard.InvoiceTotals | referral-system-web/src/js/views/executive/executive.dashboard.js:21-37 | the totals are the unpaid amount sum, the paid amount sum and the set of partner references; empty invoices give zeros and no partners |
| ExecutiveDashboard.PaidTotal | referral-system-web/src/js/views/executive/executive.dashboard.js:21-29 | the amounts of the paid invoices added in order; ToPayPlusPaid relates it to the amounts to pay |
| ExecutiveDashboard.ToPayTotal | referral-system-web/src/js/views/executive/executive.dashboard.js:21-29 | the amounts of the invoices not paid added in order; ToPayPlusPaid states that both totals add up to all amounts |
| ExecutiveDashboard.PartnersOf | referral-system-web/src/js/views/executive/executive.dashboard.js:30-33 | the set of truthy partner references of the invoices; PartnersAreTruthyRefs and PartnersAtMostInvoices state it |
| ExecutiveDashboard.ToPayPlusPaid | referral-system-web/src/js/views/executive/executive.dashboard.js:21-29 | to-pay plus paid is the sum of all invoice amounts |
| ExecutiveDashboard.AllOrNonePaid | referral-system-web/src/js/views/executive/executive.dashboard.js:24-29 | when every invoice is paid nothing is to pay, and when none is paid nothing is paid |
| ExecutiveDashboard.PartnersAreTruthyRefs | referral-system-web/src/js/views/executive/executive.dashboard.js:30-33 | a value is an active partner exactly when it is truthy and some invoice references it |
| ExecutiveDashboard.PartnersAtMostInvoices | referral-system-web/src/js/views/executive/executive.dashboard.js:30-33 | there are never more active partners than invoices |
| AdminReports.TypeOf | referral-system-web/src/js/views/admin/admin.reports.js:33 | the type a user counts under; TypeOfFacts states it is never blank and always trimmed |
| AdminReports.TypeCounts | referral-system-web/src/js/views/admin/admin.reports.js:30-37 | one bar per type seen, in first-seen order, each with that type's users; TypeCountsSnoc states how one more user changes it |
| AdminReports.TypeOfFacts | referral-system-web/src/js/views/admin/admin.reports.js:33 | the account type is the trimmed text type when non-blank, otherwise `Sin clasificar`; never empty, always trimmed |
| AdminReports.FirstUse | referral-system-web/src/js/views/admin/admin.reports.js:34-36 | the first index of a user of that type, or none |
| AdminReports.LabelIndex | referral-system-web/src/js/views/admin/admin.reports.js:34 | the bucket lookup finds the first bucket of that type, or reports none |
| AdminReports.CountSnoc | referral-system-web/src/js/views/admin/admin.reports.js:32-35 | one more user adds one to exactly its own type's count |
| AdminReports.CountedIffPresent | referral-system-web/src/js/views/admin/admin.reports.js:32-35 | a type is counted exactly when some user has it, and never more than the users |
| AdminReports.SeenFacts | referral-system-web/src/js/views/admin/admin.reports.js:31-36 | bucket labels are distinct and are exactly the types that occur |
| AdminReports.FirstUseSnoc | referral-system-web/src/js/views/admin/admin.reports.js:34 | a later user does not move a type's first occurrence |
| AdminReports.SeenInFirstUseOrder | referral-system-web/src/js/views/admin/admin.reports.js:36 | bucket labels come in the order of each type's first user |
| AdminReports.TypeCountsSnoc | referral-system-web/src/js/views/admin/admin.reports.js:34 | one more user increments its type's existing bucket or appends a new bucket with one |
| AdminReports.CountsSumToUsers | referral-system-web/src/js/views/admin/admin.reports.js:30-37 | the bucket values add up to the number of users |
| AdminReports.BarsPositiveDistinct | referral-system-web/src/js/views/admin/admin.reports.js:30-37 | every bucket is at least one, labels are distinct, and every user's type has a bucket |
| AdminReports.CountByType | referral-system-web/src/js/views/admin/admin.reports.js:30-37 | the loop yields the type buckets of the users |

## Left out

- Rendering: DOM construction, charts, KPI cards, toasts, modals and `Intl` formatting (including `formatMonthLabel` and `toLocaleDateString`) are presentation only, so they are not modelled.
- Persistence: `db.js` (`getDB`, `setDB`, `loadDB`, localStorage) is not part of this model. The store is a `Records.Store` object passed in, and the asynchronous save/load race is not modelled.
- Asynchrony: `async` handlers and promises are modelled as direct calls.
- The clock: `new Date()` is one `now` parameter per operation, so two reads of the clock in one call see the same instant.
- Randomness: `Math.random()` is a sequence of picks given as a parameter.
- Numbers: money is a mathematical real, so IEEE-754 rounding error is not modelled. `Math.round` is floor of x + 0.5.
- `NaN` comparators: comparators are modelled on finite keys. A non-finite total in the executive view sorts as zero, so a comparator returning `NaN` is not modelled.
- String order: `localeCompare` is code-point lexicographic order. Case mapping is ASCII only. `trim` removes ASCII white space, NBSP and the BOM.
- Values: `null` and `undefined` are both `Missing`. Any object is the single value `Obj`, with no contents and no identity. Only the payout resolver takes a user that may not be an object, and that user is `None`.
- PartnerPayments.SanitiseInvoice: an invoice that is not an object is not modelled. The store holds invoice records, so only the missing-id case returns nothing.
- Js.NormaliseId: a non-integer number gives no id, whereas the source keeps the number as it is. The model's ids are integers or strings.
- Js.NumberOfString: a decimal numeral with optional sign, digits and fraction, around white space, is parsed. Exponent, hexadecimal, binary and octal numerals give `NaN` here, where JavaScript's `Number` gives a number.
- Payouts.ToNumber: `Number` of a string is parsed as a decimal numeral only, so exponent (`"1e2"`), hexadecimal (`"0x10"`), binary (`"0b1"`) and octal (`"0o7"`) numerals give no number here where JavaScript gives one.
- Invoices.NumberOrNull: for the same reason, a string in exponent, hexadecimal, binary or octal notation gives no number here where the source gives one.
- Http.ApiNumber: for the same reason, a string in exponent, hexadecimal, binary or octal notation gives no number here where the source gives one.
- Js.NumberText: a non-integer number is not rendered digit for digit (`String(1.5)` is written `"1.~"`). Only whole numbers get their exact JavaScript text.
- Summaries.UsersDescTotalPreorder: on tied counts the source calls `localeCompare` on the first bucket's label. That label is a number for an app id with no named app, and a number has no `localeCompare`, so the source can throw. The model compares the labels' text and always sorts. Whether the source throws depends on which pairs the engine's sort compares, and in which order, so it is not modelled.
- Summaries.MetricsGlobal: for the same reason, the model returns sorted app buckets where the source may throw a `TypeError` on tied counts with an unnamed numeric app id.
- RoutesReports.GlobalReport: for the same reason, the model answers 200 where the source may answer 500 after `metricsGlobal` throws.
- Invoices.DueDate: the date is read in UTC. The source reads it with local-time getters, so the model assumes the host's local time is UTC.
- Invoices.DueDateOfMonthKey: the due date is the UTC calendar date. On a host whose local time is behind UTC, the source's local getters would give the day before.
- Field aliases: a chain like `a ?? b ?? c` is collapsed into one field of the record, except where the model keeps the chain because the engine's behaviour depends on its order.
- Adding a string `uses` value with `+` concatenates in JavaScript. The model treats such a value as not a number.
- Dates: a month key is only modelled for a date that parses. A date that does not parse makes `monthKey` throw, which the model returns as an error.
- Sorting: `Array.prototype.sort` is modelled as a stable insertion sort. Comparators that are not total preorders are not modelled.
- URLs: `URL`, `URLSearchParams` and `decodeURIComponent` in the dispatcher are treated as opaque text.
- Code handlers: `listCodesHandler` and `codeSummaryHandler` in `referral-system-web/src/js/api/routes.codes.js` are not part of this model.
- Server routes: `src/routes/codes.js` and the code service are not part of this model. Only `src/validators.js` is modelled on the server side.

## Findings

| source | as written | input that shows it | evidently intended | confidence | as-written member | corrected member |
|---|---|---|---|---|---|---|
| src/validators.js:52 | the affiliate test upper-cases the code without trimming it, while the format check trims it | the code `" AF12345"` with no parent partner passes both checks, so an affiliate code is accepted without a parent | test the trimmed code for the `AF` prefix, so every valid affiliate code needs a positive parent id | not executed | Validators.ParentCheckSkippedForPaddedCode | Validators.TrimmedParentCheckHolds |
| referral-system-web/src/js/api/apiFetch.js:37-42 | the trailing slash is dropped and the function returns before the leading slash is added | `"api/users/"` normalises to `"api/users"`, while `"api/users"` normalises to `"/api/users"`, so the route no longer matches | every normalised path starts with `/` | not executed | ApiFetch.TrailingSlashSkipsLeadingSlash | ApiFetch.RootedIgnoresMissingSlash |
