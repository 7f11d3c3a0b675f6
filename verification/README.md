# Stokvel savings app — a Dafny model of its core logic

This project models the decision logic of a stokvel (rotating savings group) application. It covers a
Node/Express backend and a React Native client. Each piece is a pure function over immutable
state. A state-changing operation returns the new state together with its response.

- **Stokvel store** (`StokvelStore`, backend `routes/stokvels.js`). The in-memory list of
  stokvels and its five routes:
  - create: validation, defaults, the creator as first member, id `length + 1`;
  - join: rejections in the route's order, which are not found, wrong invite code, full, already a
    member;
  - contribute: the member's running total and the balance move together;
  - list the caller's stokvels, each with `myContribution` and `progress`;
  - details, with its 404/403 checks.
- **Client stokvel service** (`StokvelService`, `frontend/services/stokvelService.ts`).
  - `castVote` is a one-shot per vote. It counts a yes when the lower-cased option mentions "yes"
    or "approve".
  - `createStokvel` appends a card filled with fixed defaults.
- **User registry** (`Auth`, `routes/auth.js`).
  - Registration validates the request, keeps phone numbers unique and assigns sequential ids.
  - Login gives the same 401 for an unknown phone and for a wrong PIN.
  - Phone verification accepts exactly the codes whose JavaScript `length` is 4. The code is any
    JSON value: a string counts UTF-16 code units, an array its items, and a number has no length.
  - bcrypt's hash and compare and JWT signing are function-valued fields of a `Crypto` value.
- **Mobile-money client** (`MoMo`, `services/momoService.js`).
  - The access-token cache is a two-field state machine with a strict `now < expiry` test.
  - `requestToPay` and `transfer` share one result shape, the EUR currency default and their own
    error messages.
  - The status and balance queries are modelled.
  - `setupRecurringPayment` and `calculateNextPaymentDate` use ECMAScript calendar arithmetic.
  - The provider's endpoints are oracles passed as parameters. A parameter is either the reply the
    endpoint gives or its failure.
- **Education routes** (`Education`, `routes/education.js`).
  - The module catalogue per language falls back to English.
  - The rotational-stokvel calculator is modelled with its payout schedule.
  - The savings calculator is modelled, with its zero-rate outcome.
- **Client utilities**:
  - `Currency`: `calculatePercentage`, the `parseCurrency` cleaning and reading, and the
    `timeUntilDate` buckets and labels.
  - `Localization`: the language choice of `initI18n`.

Shared modules support the above:
- `Js` models JavaScript's `value || fallback` and its truthiness.
- `Numeric` models `Math.round` and `Math.ceil` on ratios of integers.
- `Decimal` models number-to-string conversion.
- `Text` models ASCII `toLowerCase`, `startsWith` and `includes`.
- `Calendar` models the day arithmetic of ECMA-262, 15th edition (ECMAScript 2024): DayFromYear in
  section 21.4.1.6, the year, month and date of a time value, and MakeDay in section 21.4.1.28.
  Its day numbers count from 1 January 1970. `DayFromYear` is defined year by year and proved
  equal to the standard's closed formula.

Values that come from outside the program are parameters:
- the clock (`Date.now()`, `new Date().toISOString()`) and the local time-zone offset;
- generated ids (`uuidv4`, `Date.now()` transaction ids) and the random invite code;
- bcrypt's salt and the device locale;
- the stored language.

Where a JavaScript number turns into `NaN` or `Infinity`, JSON sends `null`. The model returns
`None` in those cases:
- `progress` of a stokvel whose `targetAmount` is 0;
- the savings calculator's future value at a zero interest rate, and over a negative number of
  months at a rate of -1200 percent.

Three behaviours of the code differ from what a reader of the app would expect. The model follows the code in each case:
- **Joining a full stokvel you are already in.** A stokvel has room for two, and the invitee tries to
  join a second time. The second attempt is refused as *full*, not as *already a member*: the route
  checks capacity before membership (`StokvelStore.SecondJoinOfPairIsFull`). The
  already-a-member answer appears only while there is room (`SecondJoinWithRoomIsDuplicate`).
- **The savings calculator at rate 0.** The calculator divides 0 by 0 there, so its future value is
  null, not the plain sum of the deposits (`Education.ZeroRateHasNoFutureValue`).
- **Balance is not the sum of the contributions.** `balance == sum(contributions)` does not hold
  for the seed data (45000 against 27500). What every route keeps is `balance - sum`
  (`StokvelStore.RunKeepsBooks`). Every stokvel created through the routes therefore keeps
  `balance == sum`.

## Model

| member | source | states |
|---|---|---|
| StokvelStore.FindStokvel | backend/routes/stokvels.js:152 | the position of the first stokvel with the id; None exactly when no stokvel has it |
| StokvelStore.FindMember | backend/routes/stokvels.js:269 | the position of the first member with the user id; None exactly when the user is not a member |
| StokvelStore.SeedWellFormed | backend/routes/stokvels.js:7-32 | the seed collection has positional ids, distinct member ids and room to spare; its balance exceeds its members' contributions by 17500 |
| StokvelStore.FindInWellFormed | backend/routes/stokvels.js:92 | since ids are assigned as `length + 1`, the stokvel with id k is the one at position k - 1, and ids outside 1..length are not found |
| StokvelStore.TargetAmount | backend/routes/stokvels.js:97 | a supplied non-zero target is kept; a missing or zero one becomes contribution × maxMembers × 12 |
| StokvelStore.RulesOf | backend/routes/stokvels.js:111-116 | maxMembers and minContribution come from the request; a supplied non-zero penalty rate is kept and a missing or zero one becomes 0.05, so the rate is never 0; early withdrawal is allowed only when the request says true |
| StokvelStore.CreateErrors | backend/routes/stokvels.js:61-67 | no message exactly when the request is valid; each of the name, type, frequency and maxMembers messages appears exactly when its own check fails |
| StokvelStore.Create | backend/routes/stokvels.js:61-120 | an invalid request gives a 400 carrying the failed validators' messages and changes nothing; a valid request always succeeds; a valid one appends exactly one stokvel with id length + 1, balance 0, the creator as its only member with 0 contributions, createdBy the creator, the defaulted description, end date, target and rules, and the invite code |
| StokvelStore.CreatePreservesWellFormed | backend/routes/stokvels.js:91-120 | creation keeps ids positional, member ids distinct and every stokvel within capacity; a new stokvel's balance equals its members' contributions |
| StokvelStore.Join | backend/routes/stokvels.js:136-189 | an empty code gives a 400 with "Invite code is required", then not found, wrong invite code, full (members ≥ maxMembers) and already a member, in that order; every rejection leaves the store unchanged; success appends one member "New Member" with 0 contributions and the join time, and replaces only that stokvel |
| StokvelStore.JoinPreservesWellFormed | backend/routes/stokvels.js:167-189 | a join keeps the store well formed and its length; every stokvel keeps its balance, its surplus over contributions and its existing members as a prefix |
| StokvelStore.JoinGrantsAccess | backend/routes/stokvels.js:182-189 | after a successful join the new member passes the details route's access check for that stokvel |
| StokvelStore.Contribute | backend/routes/stokvels.js:244-300 | an empty payment reference gives a 400 with "Payment reference is required", an unknown id 404, a non-member 403, each with no change; a contribution succeeds exactly when the reference is non-empty and the caller is a member of a stokvel with that id; a member's contribution adds the amount to that member's total and to the balance, leaves every other member and stokvel alone, and reports the new balance, the new total and a completed transaction |
| StokvelStore.ContributePreservesSurplus | backend/routes/stokvels.js:277-279 | a contribution keeps every stokvel's balance minus the sum of its members' contributions, and keeps the store well formed |
| StokvelStore.MyContribution | backend/routes/stokvels.js:48 | the caller's member total, or 0 when the caller is not a member |
| StokvelStore.Progress | backend/routes/stokvels.js:49 | the percentage of the target reached, rounded half up; null (None) exactly when the target is 0 |
| StokvelStore.ListFor | backend/routes/stokvels.js:35-51 | the listing holds exactly the stokvels of which the caller is a member or the creator, each annotated with the caller's total and the progress |
| StokvelStore.ListForAppend | backend/routes/stokvels.js:39-51 | the listing keeps collection order: listing a concatenation lists each part in turn |
| StokvelStore.GetDetails | backend/routes/stokvels.js:205-234 | unknown id gives 404; a caller who is neither member nor creator gets 403; otherwise the annotated stokvel |
| StokvelStore.DetailsAgreeWithList | backend/routes/stokvels.js:210-225 | in a well-formed store the details route answers exactly for the stokvels the listing shows, with the same annotated record |
| StokvelStore.ProgressEndpoints | backend/routes/stokvels.js:49 | a balance equal to the target shows 100 and an empty balance 0 |
| StokvelStore.ApplyKeepsBooks | backend/routes/stokvels.js:120 | any one create, join or contribute keeps the store well formed, never shrinks it, keeps every existing surplus and gives new stokvels surplus 0 |
| StokvelStore.RunKeepsBooks | backend/routes/stokvels.js:278-279 | after any sequence of creates, joins and contributions, old stokvels keep their surplus and every stokvel created through the routes has balance equal to the sum of its members' contributions |
| StokvelStore.SecondJoinOfPairIsFull | backend/routes/stokvels.js:167-179 | with maxMembers 2, the invitee's first join succeeds with two members and a second attempt is refused as full |
| StokvelStore.SecondJoinWithRoomIsDuplicate | backend/routes/stokvels.js:174-179 | with room to spare, the second attempt is refused as already a member |
| StokvelService.FindVote | frontend/services/stokvelService.ts:89 | the position of the first vote with the id; None exactly when no vote has it |
| StokvelService.CastVote | frontend/services/stokvelService.ts:88-103 | the cast succeeds exactly when the vote exists and has not been voted on; a refused cast changes nothing; a successful one sets hasVoted, adds one to totalVotes and one to yesVotes if the option is a yes, else to noVotes, and leaves every other vote unchanged |
| StokvelService.CastKeepsDiscrepancy | frontend/services/stokvelService.ts:94-100 | every vote's yesVotes + noVotes − totalVotes is the same after a cast |
| StokvelService.CastIsOneShot | frontend/services/stokvelService.ts:90-100 | after a successful cast, any further cast on that vote returns false and changes nothing |
| StokvelService.YesClassification | frontend/services/stokvelService.ts:93 | an option is a yes exactly when "yes" or "approve" occurs at some position of its lower-cased text |
| StokvelService.LeadingYesIsYes | frontend/services/stokvelService.ts:93 | an option that begins with "yes" in any case, such as the seed vote's "Yes, proceed with investment", is a yes |
| StokvelService.WithoutYOrAIsNo | frontend/services/stokvelService.ts:93-97 | an option without the letters y and a in any case, such as "No, keep funds in savings", counts as a no |
| StokvelService.CreateStokvel | frontend/services/stokvelService.ts:62-81 | appends exactly one card and leaves the votes alone; the card has balance 0, myContribution 0, one member, progress 0, status active, createdBy "currentUser", the clock's id and date, and name "", type "Savings", next payout "" and contribution 0 for absent or falsy fields |
| StokvelService.OperationsAreIndependent | frontend/services/stokvelService.ts:79 | creating a card does not change the outcome of any cast, and keeps the earlier cards as a prefix |
| Auth.FindByPhone | backend/routes/auth.js:30 | the position of the first user with the phone number; None exactly when no user has it |
| Auth.RegistrationFailures | backend/routes/auth.js:11-16 | no validator fails exactly when the request is valid; each of the phone, first name, last name, PIN length and language validators fails exactly when its own condition does |
| Auth.RegistrationErrors | backend/routes/auth.js:11-21 | the 400's error list is empty exactly when the request is valid, and holds a validator's message exactly when that validator fails |
| Auth.Register | backend/routes/auth.js:11-75 | an invalid request gives 400 with the failed validators' messages and a known phone "user exists", both with no change; success happens exactly for a valid request with a new phone; it appends one user with id length + 1, the hashed PIN, language defaulting to "en", active, trust score 100, and returns a token signed over id and phone |
| Auth.RegisterPreservesRegistry | backend/routes/auth.js:30-54 | one registration keeps phone numbers unique and ids sequential |
| Auth.RegisterAll | backend/routes/auth.js:54 | a run of registrations only appends to the user list, at most one user per request |
| Auth.RegisterAllPreservesRegistry | backend/routes/auth.js:30-54 | phone numbers stay unique and ids sequential after any run of registrations |
| Auth.LoginErrors | backend/routes/auth.js:85-88 | no message exactly when the phone is a mobile number and the PIN is non-empty; each message appears exactly when its own check fails |
| Auth.Login | backend/routes/auth.js:86-138 | invalid input gives 400 with the failed validators' messages; an unknown phone and a PIN the hash comparison rejects both give "Invalid credentials"; otherwise a token and the profile of the user with that phone |
| Auth.LoginSucceedsIff | backend/routes/auth.js:102-117 | with unique phones, login succeeds exactly when some user has the phone and the comparison accepts the PIN against that user's hash |
| Auth.LoginFailuresIndistinguishable | backend/routes/auth.js:102-117 | an unknown phone and a wrong PIN produce the same response, status 401 |
| Auth.RegisterThenLogin | backend/routes/auth.js:39-111 | if compare accepts a PIN against its own hash, a freshly registered user logs in with that PIN and gets the new id |
| Auth.VerifyPhone | backend/routes/auth.js:149-176 | a missing or null code gives the 500 "Verification failed", since `.length` throws; otherwise the code is accepted exactly when its `length` is the number 4 and refused with 400 "Invalid verification code" if not: a string of 4 UTF-16 code units, an array of 4 items, an object whose `length` field is 4; a number or boolean is always refused |
| Auth.PlainCodeAcceptedIffFourChars | backend/routes/auth.js:158 | a code of characters below U+10000 is accepted exactly when it has four characters |
| Auth.TwoWideCharsAccepted | backend/routes/auth.js:158 | a code of two characters beyond U+FFFF is accepted, since each counts as two code units |
| MoMo.GetAccessToken | backend/services/momoService.js:21-48 | a truthy cached token whose truthy expiry is strictly in the future is returned with no endpoint call; otherwise exactly one call, after which a grant caches (token, the grant's arrival time + expires_in × 1000) and a failure leaves the cache unchanged with "Failed to authenticate with MoMo API" |
| MoMo.CachedTokenReused | backend/services/momoService.js:22-40 | a granted token serves a later call before its expiry, counted from the grant's arrival, without another endpoint call |
| MoMo.ExpiredTokenRefreshed | backend/services/momoService.js:22 | at or after the expiry instant the next call goes to the endpoint |
| MoMo.TokenCalls | backend/services/momoService.js:21-48 | a run of n calls makes at most n endpoint calls |
| MoMo.FreshTokenServesRun | backend/services/momoService.js:22-24 | while the cached token stays fresh, a whole run of calls makes no endpoint call and keeps the cache |
| MoMo.OneRefreshPerWindow | backend/services/momoService.js:22-40 | a run whose first call is granted a token outliving the run makes exactly one endpoint call |
| MoMo.SendMoney | backend/services/momoService.js:50-91 | success exactly when the token was obtained and the provider accepted; success returns the reference id with status PENDING; every failure, the token's included, is the operation's own error; the body carries the currency or EUR when falsy and an MSISDN party with the phone |
| MoMo.RequestToPay | backend/services/momoService.js:50-91 | a collection whose failures all read "Payment request failed" |
| MoMo.Transfer | backend/services/momoService.js:148-189 | a disbursement whose failures all read "Transfer failed" |
| MoMo.TokenFailureSurfacesAsOwnError | backend/services/momoService.js:52 | a refused token sends nothing, keeps the cache and surfaces as the money call's own error, never the authentication message |
| MoMo.GetPaymentStatus | backend/services/momoService.js:93-120 | succeeds exactly when the token is obtained and the provider answers, passing its record on; otherwise "Failed to get payment status" |
| MoMo.GetAccountBalance | backend/services/momoService.js:122-146 | succeeds exactly when the token is obtained and the provider answers; otherwise "Failed to get account balance" |
| MoMo.LocalMidnight | backend/services/momoService.js:217 | the instant is a local midnight and falls on the given local day |
| MoMo.AddCalendarMonths | backend/services/momoService.js:217-219 | `new Date(year, month + k, date)` is a local midnight on day MakeDay(year, month + k, date) |
| MoMo.NextPaymentDate | backend/services/momoService.js:211-223 | weekly is now + 7 days; monthly and quarterly are local midnights one and three calendar months on; anything else is now + 30 days |
| MoMo.LocalDateAfterMonths | backend/services/momoService.js:217-219 | the local date of the computed instant is the date of the day MakeDay gives |
| MoMo.SameDayOfMonth | backend/services/momoService.js:216-219 | when the day exists in the target month, the payment falls on that day, with the month carried into the year |
| MoMo.EarlyDayKept | backend/services/momoService.js:216-219 | a day of the month up to the 28th is always kept |
| MoMo.ShortMonthSpillsOver | backend/services/momoService.js:216-219 | when the target month is too short, the excess days spill into the month after it (31 January plus a month is 2 or 3 March) |
| MoMo.SetupRecurringPayment | backend/services/momoService.js:191-209 | status ACTIVE, the amount, frequency and id echoed, and the next payment date computed by calculateNextPaymentDate from the same clock |
| Calendar.MakeDayReadsBack | backend/services/momoService.js:217 | when the date, with the month index carried into the year, exists, the day number reads back as that date |
| Calendar.DaysInMonth | backend/services/momoService.js:217 | every month has 28 to 31 days |
| Calendar.DayFromYearClosedForm | backend/services/momoService.js:217 | the year-by-year day count agrees with the closed formula of DayFromYear, section 21.4.1.6 of ECMA-262 (15th edition) |
| Calendar.YearFromDay | backend/services/momoService.js:217 | the year found contains the day: its first day is at most d and the next year's first day is after d |
| Calendar.DateOfDay | backend/services/momoService.js:217 | the date read from a day number is a valid date whose day number is that day |
| Calendar.DayNumberInjective | backend/services/momoService.js:217 | distinct valid dates have distinct day numbers |
| Calendar.DateOfDayNumber | backend/services/momoService.js:217 | reading back the day number of a valid date gives that date |
| Calendar.SpillOver | backend/services/momoService.js:217 | a date past its month's end names the same day as the excess days of the following month |
| Calendar.DateOfMonthsLater | backend/services/momoService.js:217-219 | MakeDay k months on lands on the same day of the month when that day exists |
| Calendar.DateOfMonthsLaterSpill | backend/services/momoService.js:217-219 | otherwise it lands in the following month on the excess day |
| Education.ModulesFor | backend/routes/education.js:109-110 | the list for the given language when the catalogue has it, the English list for a missing, empty or unknown language |
| Education.FindModule | backend/routes/education.js:124 | the first module with the id; None exactly when no module has it |
| Education.ModuleById | backend/routes/education.js:119-137 | NotFound exactly when the chosen language's list has no module with the id; otherwise a module of that list with that id |
| Education.UnknownLanguageFallsBack | backend/routes/education.js:121-122 | a language the catalogue lacks is served the English list, for listing and lookup alike |
| Education.NoPerModuleFallback | backend/routes/education.js:73-88 | isiZulu has no module 2 although English does: the fallback is per language, not per module |
| Education.PayoutSchedule | backend/routes/education.js:203-207 | no schedule (the RangeError of `Array.from`) exactly when the member count is 2^32 or more; otherwise one entry per member (none for a negative count), entry i paying member i + 1 in month i + 1 the rotation amount |
| Education.ProjectStokvel | backend/routes/education.js:190-210 | fails (a 500, as the route has no `try/catch`) exactly when the member count is 2^32 or more; otherwise rotation = members × contribution, individual total = contribution × duration, total pool = rotation × duration = members × individual total, and the schedule is the payout schedule for the rotation amount |
| Education.ScheduleTotal | backend/routes/education.js:203-207 | the schedule's slots pay out members × rotation amount in all |
| Education.RotationPaysOutPool | backend/routes/education.js:193-207 | for a group below 2^32 members and a duration equal to the group size, the projection succeeds and its schedule pays out exactly the total pool |
| Education.CalculateSavings | backend/routes/education.js:171-188 | for any month count, negative included: total contributions = monthly amount × months; interest earned = future value − total contributions; the future value is null exactly when the rate is missing or 0, or the month count is negative at a rate of -1200 percent |
| Education.MonthlyRate | backend/routes/education.js:174 | the monthly rate is a twelve-hundredth of the annual percentage, 0 when none is given |
| Education.IntPower | backend/routes/education.js:176 | `x ** n` for an integer n: undefined exactly for 0 to a negative power; a negative power is the reciprocal of the positive one |
| Education.FutureValue | backend/routes/education.js:176 | the formula is finite exactly when the rate is non-zero and not a zero growth factor raised to a negative power |
| Education.ClosedFormIsAnnuitySum | backend/routes/education.js:176 | ((1 + r)^n − 1) / r equals the sum of (1 + r)^k for k below n |
| Education.FutureValueIsAnnuity | backend/routes/education.js:174-176 | at a non-zero rate the future value is the monthly amount times the annuity sum at a twelfth of the annual percentage |
| Education.NegativeMonthsDiscount | backend/routes/education.js:174-176 | over -n months the future value is minus the annuity sum of n months divided by n months' growth |
| Education.FutureValueOfNegativeMonths | backend/routes/education.js:176 | at a monthly rate, the formula over -n months is the discounted annuity sum |
| Education.ZeroRateHasNoFutureValue | backend/routes/education.js:174-176 | 1000 a month over 12 months with no rate or a zero rate totals 12000 contributions but has no future value and no interest figure |
| Currency.CalculatePercentage | frontend/utils/currency.ts:19-22 | 0 for a zero total; otherwise within one half of 100 × part / total, rounding halves up |
| Currency.PercentageInRange | frontend/utils/currency.ts:19-22 | a part between 0 and a positive total gives a percentage between 0 and 100 |
| Currency.PercentageExample | frontend/utils/currency.ts:21 | 45000 of 60000 gives 75 |
| Currency.Clean | frontend/utils/currency.ts:12 | the result is no longer than the input and holds only digits and dots |
| Currency.CleanCounts | frontend/utils/currency.ts:12 | every digit and dot is kept as often as it occurs, and every other character is dropped |
| Currency.CleanAppend | frontend/utils/currency.ts:12 | cleaning a concatenation cleans each part, so the kept characters stay in order |
| Currency.CleanIdempotent | frontend/utils/currency.ts:12 | cleaning twice is cleaning once |
| Currency.ParseCurrency | frontend/utils/currency.ts:11-14 | the result is never negative and is 0 when the cleaned string holds no digit |
| Currency.ParseCurrencyReadsWholeNumber | frontend/utils/currency.ts:11-14 | a string whose digits and dots spell a whole number reads back as that number |
| Currency.TimeUntil | frontend/utils/currency.ts:38-51 | Expired exactly for a negative difference; 0 days exactly at 0; "1 day" up to one day; days up to six days; 1 to 5 weeks beyond that up to 29 days, the least number of weeks covering the difference; months beyond that, the least number of 30-day months covering it |
| Currency.Render | frontend/utils/currency.ts:43-50 | "Expired" exactly for the expired bucket; "1 day" for one day; otherwise the label ends in " days", " weeks" or " months" after its bucket |
| Currency.RenderShowsCount | frontend/utils/currency.ts:47-50 | the number a rendered label shows reads back as the label's count |
| Currency.TimeUntilLabelReadsBack | frontend/utils/currency.ts:38-51 | for a date not yet passed, the label's number reads back as the bucket's count |
| Localization.ChooseLanguage | frontend/services/i18n.ts:222-232 | a truthy saved language is used unchanged; otherwise the result is one of the bundled en, zu, xh, af |
| Localization.LocalePrefixSelects | frontend/services/i18n.ts:226-230 | with nothing saved, a locale beginning with zu, xh or af selects that code |
| Localization.EnglishOtherwise | frontend/services/i18n.ts:226-231 | with nothing saved, English is chosen exactly when the locale begins with none of the other codes |
| Numeric.RoundRatio | frontend/utils/currency.ts:21 | `Math.round(a / b)`: the integer within one half of the ratio, halves rounding up |
| Numeric.CeilDiv | frontend/utils/currency.ts:45 | `Math.ceil(a / b)` for a positive divisor: the least r with a ≤ r × b |
| Decimal.NatToString | frontend/utils/currency.ts:48-50 | the decimal digits of a number: non-empty, digits only, no leading zero |
| Decimal.DigitsValueOfNatToString | frontend/utils/currency.ts:48-50 | reading the digits back gives the number |
| Js.FindIndex | backend/routes/stokvels.js:152 | `find`/`findIndex`: the first position whose element satisfies the test; None exactly when none does |
| Text.ContainsIffOccurs | frontend/services/stokvelService.ts:93 | `includes` holds exactly when the needle occurs at some position |

## Left out

- Floating point is not modelled. Amounts are whole numbers, and percentages and ratios are exact
  rationals or reals. `toString` of fractional amounts, `parseFloat`'s binary rounding and
  `toLocaleString`/`toLocaleDateString` formatting are omitted. A JSON amount of 10^21 or more
  prints as "1e+21", which `isNumeric` refuses with a 400; the integer model accepts it.
- The create and contribute routes accept numeric strings (express-validator's `isNumeric`).
  With a string `amount`, `contributions += amount` concatenates in JavaScript. The model takes
  amounts as integers only.
- `parseInt(req.params.id)` is not modelled. Ids are integers already, and a non-numeric id is
  represented by any id no stokvel has.
- Object lookups with prototype keys are not modelled. For example, `educationContent['constructor']`
  is left out, because the catalogue is a finite map.
- `MoMo.LocalDate`, `MoMo.AddCalendarMonths`: the local time zone is a fixed offset. Daylight-saving
  changes within a month and the ±8.64e15 ms range limit of `Date` are not modelled.
- MoMo.AddCalendarMonths: the `Date` constructor maps a year of 0 to 99 to 1900 to 1999
  (MakeFullYear); the model uses the year as given, so it differs for a clock in the first century.
- Auth.RegistrationFailures: express-validator's `isLength` also leaves U+FE0E and U+FE0F out of a
  PIN's length; the model counts every character.
- A `payer`/`payee` object without a `phoneNumber` sends `partyId: undefined`, which JSON omits;
  the model always has a phone number. Only a missing `payer`/`payee` object would throw, and
  both routes pass `{ phoneNumber }`.
- Axios transport, headers, base64 credentials, environment variables and winston logging are
  left out. Each endpoint is an oracle parameter.
- The 500 branches of the routes' `try/catch` are left out where nothing in the modelled logic
  throws. Two throws are modelled: verify-phone's missing or null code, and the projection's
  `Array.from` RangeError for 2^32 or more members, which has no `try/catch` around it.
- `Text.ToLower` lower-cases ASCII letters only. `toLowerCase` on other scripts is not modelled.
- The education progress routes (`POST`/`GET /progress`) are left out: they store nothing and return
  fixed data. The lesson contents are represented by module ids, titles and descriptions.
- `getStokvels`, `getVotes`, `setupMoMoDebitOrder`, `inviteMembers` and `getRecentActivity` of the
  client service are left out. They return fixed data or `true` after a delay.
- The i18next setup call and the translation tables are left out. Only the language choice and the
  fallback constant "en" are modelled.
- The JWT payload's expiry (`JWT_EXPIRES_IN`) and the secret are left out: signing is an abstract
  function of the id and the phone number.
- Concurrency between requests is not modelled. Every route is one sequential transition.
