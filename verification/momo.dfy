/**
 The mobile-money payment client: a cached access token obtained from the
 provider's token endpoint, the request-to-pay and transfer calls that share
 one result shape, the status and balance queries, and the locally computed
 recurring-payment record with its next payment date.

 The provider's endpoints are oracles: each call takes the reply the
 endpoint gives (or its failure) as a parameter. The clock (`now`, in
 milliseconds since the epoch), the local time-zone offset and the generated
 reference ids are parameters too.
 */
module MoMo {
  import opened Js
  import opened Decimal
  import opened Calendar

  // ---------------------------------------------------------------------------
  // Errors

  /** The errors the service throws; each is a fixed message. */
  datatype Failure =
    | AuthenticationFailed
    | PaymentRequestFailed
    | PaymentStatusFailed
    | BalanceFailed
    | TransferFailed

  function Message(f: Failure): string {
    match f
    case AuthenticationFailed => "Failed to authenticate with MoMo API"
    case PaymentRequestFailed => "Payment request failed"
    case PaymentStatusFailed => "Failed to get payment status"
    case BalanceFailed => "Failed to get account balance"
    case TransferFailed => "Transfer failed"
  }

  datatype Result<T> = Ok(value: T) | Err(failure: Failure)

  // ---------------------------------------------------------------------------
  // Access token

  /** The service's two cache fields, `accessToken` and `tokenExpiry` (both null at start). */
  datatype TokenCache = TokenCache(accessToken: Option<string>, tokenExpiry: Option<int>)

  const InitialCache: TokenCache := TokenCache(None, None)

  /**
   What the token endpoint does when it is called: grant a token for
   `expiresIn` seconds, or fail. `receivedAt` is the clock reading taken once
   the grant has arrived, from which the expiry is counted.
   */
  datatype TokenReply = Granted(accessToken: string, expiresIn: int, receivedAt: int) | Refused

  /** The cached token may be used: both fields are truthy and the expiry is strictly in the future. */
  predicate TokenFresh(cache: TokenCache, now: int) {
    StrTruthy(cache.accessToken) && IntTruthy(cache.tokenExpiry) && now < cache.tokenExpiry.value
  }

  /** One call of getAccessToken: the cache afterwards, the token or error, and the number of token-endpoint calls made. */
  datatype TokenStep = TokenStep(cache: TokenCache, token: Result<string>, remoteCalls: nat)

  /**
   `getAccessToken()`, with `now` the clock reading of the freshness test and
   `reply` the token endpoint's answer should it be called. A new expiry is
   counted from the grant's own clock reading, which the source takes again
   after the request returns.
   */
  function GetAccessToken(cache: TokenCache, now: int, reply: TokenReply): (s: TokenStep)
    ensures TokenFresh(cache, now) ==> s == TokenStep(cache, Ok(cache.accessToken.value), 0)
    ensures !TokenFresh(cache, now) ==> s.remoteCalls == 1
    ensures !TokenFresh(cache, now) && reply.Granted? ==>
      && s.cache == TokenCache(Some(reply.accessToken), Some(reply.receivedAt + reply.expiresIn * 1000))
      && s.token == Ok(reply.accessToken)
    ensures !TokenFresh(cache, now) && reply.Refused? ==>
      s.cache == cache && s.token == Err(AuthenticationFailed)
  {
    if TokenFresh(cache, now) then TokenStep(cache, Ok(cache.accessToken.value), 0)
    else match reply
      case Granted(token, expiresIn, receivedAt) =>
        TokenStep(TokenCache(Some(token), Some(receivedAt + expiresIn * 1000)), Ok(token), 1)
      case Refused => TokenStep(cache, Err(AuthenticationFailed), 1)
  }

  /** A granted token serves every later call strictly before its expiry without another endpoint call. */
  lemma CachedTokenReused(cache: TokenCache, t1: int, reply1: TokenReply, t2: int, reply2: TokenReply)
    requires !TokenFresh(cache, t1)
    requires reply1.Granted? && reply1.accessToken != ""
    requires var expiry := reply1.receivedAt + reply1.expiresIn * 1000;
      t2 < expiry && expiry != 0
    ensures var s1 := GetAccessToken(cache, t1, reply1);
      var s2 := GetAccessToken(s1.cache, t2, reply2);
      s2.remoteCalls == 0 && s2.token == Ok(reply1.accessToken) && s2.cache == s1.cache
  {
  }

  /** Once the expiry instant is reached, the next call goes to the endpoint exactly once. */
  lemma ExpiredTokenRefreshed(cache: TokenCache, now: int, reply: TokenReply)
    requires cache.tokenExpiry.Some? && now >= cache.tokenExpiry.value
    ensures GetAccessToken(cache, now, reply).remoteCalls == 1
  {
  }

  /** getAccessToken over a run of calls at `times`, the i-th call answered by `replies[i]` if it reaches the endpoint. */
  function TokenCalls(cache: TokenCache, times: seq<int>, replies: seq<TokenReply>): (r: (TokenCache, nat))
    requires |times| == |replies|
    ensures r.1 <= |times|
    decreases |times|
  {
    if times == [] then (cache, 0)
    else
      var s := GetAccessToken(cache, times[0], replies[0]);
      var rest := TokenCalls(s.cache, times[1..], replies[1..]);
      (rest.0, s.remoteCalls + rest.1)
  }

  /** While a cached token stays fresh, a whole run of calls makes no endpoint call and keeps the cache. */
  lemma {:induction false} FreshTokenServesRun(cache: TokenCache, times: seq<int>, replies: seq<TokenReply>)
    requires |times| == |replies|
    requires forall i :: 0 <= i < |times| ==> TokenFresh(cache, times[i])
    ensures TokenCalls(cache, times, replies) == (cache, 0)
  {
    if times != [] {
      FreshTokenServesRun(cache, times[1..], replies[1..]);
    }
  }

  /** A run whose first call is granted a token outliving the whole run makes exactly one endpoint call. */
  lemma OneRefreshPerWindow(cache: TokenCache, times: seq<int>, replies: seq<TokenReply>)
    requires |times| == |replies| && |times| > 0
    requires !TokenFresh(cache, times[0])
    requires replies[0].Granted? && replies[0].accessToken != ""
    requires var expiry := replies[0].receivedAt + replies[0].expiresIn * 1000;
      expiry != 0 && forall i :: 1 <= i < |times| ==> times[i] < expiry
    ensures TokenCalls(cache, times, replies).1 == 1
  {
    var s := GetAccessToken(cache, times[0], replies[0]);
    assert forall i :: 0 <= i < |times[1..]| ==> times[1..][i] == times[i + 1];
    FreshTokenServesRun(s.cache, times[1..], replies[1..]);
  }

  // ---------------------------------------------------------------------------
  // Request to pay and transfer

  /** The two money-moving calls: collecting from a payer, and disbursing to a payee. */
  datatype Direction = Collection | Disbursement

  /** The MSISDN party of a request body (`payer` for a collection, `payee` for a disbursement). */
  datatype Party = Party(partyIdType: string, partyId: string)

  /** The JSON body posted to the provider. */
  datatype MoneyBody = MoneyBody(
    amount: string,
    currency: string,
    externalId: string,
    party: Party,
    payerMessage: Option<string>,
    payeeNote: Option<string>)

  /** A money call as the provider receives it: its endpoint, its X-Reference-Id header and its body. */
  datatype Outbound = Outbound(direction: Direction, referenceId: string, body: MoneyBody)

  /** The result both calls return on success: `{success: true, referenceId, status: 'PENDING'}`. */
  datatype Pending = Pending(referenceId: string, status: string)

  /** One money call: the cache afterwards, the request the provider received (if any), and the result. */
  datatype MoneyStep = MoneyStep(cache: TokenCache, sent: Option<Outbound>, result: Result<Pending>)

  const DefaultCurrency: string := "EUR"

  /** The error a failed call of each direction reports, whatever went wrong inside it. */
  function FailureOf(direction: Direction): Failure {
    match direction
    case Collection => PaymentRequestFailed
    case Disbursement => TransferFailed
  }

  /**
   The shared body of `requestToPay` and `transfer`: obtain a token, build the
   body (the currency defaults to EUR when falsy), post it under a fresh
   reference id; `accepted` is whether the provider answered the post with
   success. Any failure, the token's included, is reported as the
   operation's own error.
   */
  function SendMoney(
    direction: Direction, cache: TokenCache, now: int, tokenReply: TokenReply, referenceId: string,
    amount: int, currency: Option<string>, externalId: string, phoneNumber: string,
    payerMessage: Option<string>, payeeNote: Option<string>, accepted: bool): (s: MoneyStep)
    ensures s.result.Err? ==> s.result.failure == FailureOf(direction)
    ensures s.result.Ok? <==> GetAccessToken(cache, now, tokenReply).token.Ok? && accepted
    ensures s.result.Ok? ==> s.result.value == Pending(referenceId, "PENDING")
    ensures s.cache == GetAccessToken(cache, now, tokenReply).cache
    ensures s.sent.Some? <==> GetAccessToken(cache, now, tokenReply).token.Ok?
    ensures s.sent.Some? ==>
      && s.sent.value.direction == direction
      && s.sent.value.referenceId == referenceId
      && s.sent.value.body.currency == StrOr(currency, DefaultCurrency)
      && s.sent.value.body.party == Party("MSISDN", phoneNumber)
      && s.sent.value.body.amount == IntToString(amount)
      && s.sent.value.body.externalId == externalId
      && s.sent.value.body.payerMessage == payerMessage
      && s.sent.value.body.payeeNote == payeeNote
  {
    var t := GetAccessToken(cache, now, tokenReply);
    if t.token.Err? then MoneyStep(t.cache, None, Err(FailureOf(direction)))
    else
      var body := MoneyBody(IntToString(amount), StrOr(currency, DefaultCurrency), externalId,
                            Party("MSISDN", phoneNumber), payerMessage, payeeNote);
      var sent := Outbound(direction, referenceId, body);
      if accepted then MoneyStep(t.cache, Some(sent), Ok(Pending(referenceId, "PENDING")))
      else MoneyStep(t.cache, Some(sent), Err(FailureOf(direction)))
  }

  /** `requestToPay(amount, currency, externalId, payer, payerMessage, payeeNote)`. */
  function RequestToPay(
    cache: TokenCache, now: int, tokenReply: TokenReply, referenceId: string,
    amount: int, currency: Option<string>, externalId: string, payerPhone: string,
    payerMessage: Option<string>, payeeNote: Option<string>, accepted: bool): (s: MoneyStep)
    ensures s.result.Err? ==> Message(s.result.failure) == "Payment request failed"
    ensures s.sent.Some? ==> s.sent.value.direction == Collection
  {
    SendMoney(Collection, cache, now, tokenReply, referenceId, amount, currency, externalId,
              payerPhone, payerMessage, payeeNote, accepted)
  }

  /** `transfer(amount, currency, externalId, payee, payerMessage, payeeNote)`. */
  function Transfer(
    cache: TokenCache, now: int, tokenReply: TokenReply, referenceId: string,
    amount: int, currency: Option<string>, externalId: string, payeePhone: string,
    payerMessage: Option<string>, payeeNote: Option<string>, accepted: bool): (s: MoneyStep)
    ensures s.result.Err? ==> Message(s.result.failure) == "Transfer failed"
    ensures s.sent.Some? ==> s.sent.value.direction == Disbursement
  {
    SendMoney(Disbursement, cache, now, tokenReply, referenceId, amount, currency, externalId,
              payeePhone, payerMessage, payeeNote, accepted)
  }

  /** A token failure inside a money call sends nothing, keeps the cache, and surfaces as the call's own error. */
  lemma TokenFailureSurfacesAsOwnError(
    direction: Direction, cache: TokenCache, now: int, referenceId: string,
    amount: int, currency: Option<string>, externalId: string, phoneNumber: string,
    payerMessage: Option<string>, payeeNote: Option<string>, accepted: bool)
    requires !TokenFresh(cache, now)
    ensures var s := SendMoney(direction, cache, now, Refused, referenceId, amount, currency, externalId,
                               phoneNumber, payerMessage, payeeNote, accepted);
      s == MoneyStep(cache, None, Err(FailureOf(direction))) && FailureOf(direction) != AuthenticationFailed
  {
  }

  // ---------------------------------------------------------------------------
  // Status and balance queries

  /** The provider's record of a payment request, as `getPaymentStatus` passes it on. */
  datatype PaymentStatus = PaymentStatus(
    status: string, amount: string, currency: string, financialTransactionId: string, externalId: string)

  /** `getPaymentStatus(referenceId)`: `record` is the provider's answer, None when the query fails. */
  function GetPaymentStatus(cache: TokenCache, now: int, tokenReply: TokenReply, record: Option<PaymentStatus>)
    : (r: (TokenCache, Result<PaymentStatus>))
    ensures r.0 == GetAccessToken(cache, now, tokenReply).cache
    ensures r.1.Ok? <==> GetAccessToken(cache, now, tokenReply).token.Ok? && record.Some?
    ensures r.1.Ok? ==> r.1.value == record.value
    ensures r.1.Err? ==> r.1.failure == PaymentStatusFailed
  {
    var t := GetAccessToken(cache, now, tokenReply);
    if t.token.Err? || record.None? then (t.cache, Err(PaymentStatusFailed))
    else (t.cache, Ok(record.value))
  }

  /** The collection account's balance as the provider reports it. */
  datatype Balance = Balance(availableBalance: string, currency: string)

  /** `getAccountBalance()`: `record` is the provider's answer, None when the query fails. */
  function GetAccountBalance(cache: TokenCache, now: int, tokenReply: TokenReply, record: Option<Balance>)
    : (r: (TokenCache, Result<Balance>))
    ensures r.0 == GetAccessToken(cache, now, tokenReply).cache
    ensures r.1.Ok? <==> GetAccessToken(cache, now, tokenReply).token.Ok? && record.Some?
    ensures r.1.Ok? ==> r.1.value == record.value
    ensures r.1.Err? ==> r.1.failure == BalanceFailed
  {
    var t := GetAccessToken(cache, now, tokenReply);
    if t.token.Err? || record.None? then (t.cache, Err(BalanceFailed))
    else (t.cache, Ok(record.value))
  }

  // ---------------------------------------------------------------------------
  // Recurring payments

  /** The local day number of the instant `t` (milliseconds) in a zone `offset` milliseconds ahead of UTC. */
  function LocalDay(t: int, offset: int): int {
    (t + offset) / MsPerDay
  }

  /** The local calendar date of the instant `t`: getFullYear(), getMonth() and getDate(). */
  function LocalDate(t: int, offset: int): Date {
    DateOfDay(LocalDay(t, offset))
  }

  /** The instant of local midnight starting day `day`. */
  function LocalMidnight(day: int, offset: int): (t: int)
    ensures (t + offset) % MsPerDay == 0 && LocalDay(t, offset) == day
  {
    DivUnique(day * MsPerDay, MsPerDay, day, 0);
    day * MsPerDay - offset
  }

  /** `new Date(now.getFullYear(), now.getMonth() + months, now.getDate())`: local midnight, `months` later. */
  function AddCalendarMonths(now: int, offset: int, months: int): (t: int)
    ensures (t + offset) % MsPerDay == 0
    ensures var c := LocalDate(now, offset);
      LocalDay(t, offset) == MakeDay(c.year, c.month + months, c.day)
  {
    var c := LocalDate(now, offset);
    LocalMidnight(MakeDay(c.year, c.month + months, c.day), offset)
  }

  /** `calculateNextPaymentDate(frequency)` at the instant `now`. */
  function NextPaymentDate(frequency: string, now: int, offset: int): (t: int)
    ensures frequency == "weekly" ==> t == now + 7 * MsPerDay
    ensures frequency == "monthly" ==> t == AddCalendarMonths(now, offset, 1)
    ensures frequency == "quarterly" ==> t == AddCalendarMonths(now, offset, 3)
    ensures frequency !in ["weekly", "monthly", "quarterly"] ==> t == now + 30 * MsPerDay
    ensures frequency in ["monthly", "quarterly"] ==> (t + offset) % MsPerDay == 0
  {
    if frequency == "weekly" then now + 7 * MsPerDay
    else if frequency == "monthly" then AddCalendarMonths(now, offset, 1)
    else if frequency == "quarterly" then AddCalendarMonths(now, offset, 3)
    else now + 30 * MsPerDay
  }


  /** The local date of the instant `AddCalendarMonths` returns is the date of the day MakeDay computes. */
  lemma LocalDateAfterMonths(now: int, offset: int, months: int)
    ensures var c := LocalDate(now, offset);
      LocalDate(AddCalendarMonths(now, offset, months), offset) == DateOfDay(MakeDay(c.year, c.month + months, c.day))
  {
    var t := AddCalendarMonths(now, offset, months);
    assert LocalDate(t, offset) == DateOfDay(LocalDay(t, offset));
  }

  /** When the day of the month exists in the target month, the payment falls on that day, `months` later. */
  lemma SameDayOfMonth(now: int, offset: int, months: int)
    ensures var target := MonthsLater(LocalDate(now, offset), months);
      target.day <= DaysInMonth(target.year, target.month) ==>
        LocalDate(AddCalendarMonths(now, offset, months), offset) == target
  {
    var c := LocalDate(now, offset);
    var target := MonthsLater(c, months);
    var t := AddCalendarMonths(now, offset, months);
    var day := MakeDay(c.year, c.month + months, c.day);
    assert LocalDate(t, offset) == DateOfDay(day) by {
      LocalDateAfterMonths(now, offset, months);
    }
    if target.day <= DaysInMonth(target.year, target.month) {
      assert DateOfDay(day) == target by {
        assert ValidDate(c);
        DateOfMonthsLater(c, months);
      }
    }
  }

  /** A day of the month up to the 28th is always kept. */
  lemma EarlyDayKept(now: int, offset: int, months: int)
    ensures LocalDate(now, offset).day <= 28 ==>
      LocalDate(AddCalendarMonths(now, offset, months), offset) == MonthsLater(LocalDate(now, offset), months)
  {
    SameDayOfMonth(now, offset, months);
  }

  /**
   When the target month is too short for the day (the 31st a month ahead of
   January 31st, say), the excess days spill into the month after it.
   */
  lemma ShortMonthSpillsOver(now: int, offset: int, months: int)
    requires var target := MonthsLater(LocalDate(now, offset), months);
      target.day > DaysInMonth(target.year, target.month)
    ensures var target := MonthsLater(LocalDate(now, offset), months);
      var (ny, nm) := NextMonth(target.year, target.month);
      LocalDate(AddCalendarMonths(now, offset, months), offset)
        == Date(ny, nm, target.day - DaysInMonth(target.year, target.month))
  {
    LocalDateAfterMonths(now, offset, months);
    DateOfMonthsLaterSpill(LocalDate(now, offset), months);
  }

  /** `setupRecurringPayment`'s result: a local record, made without calling the provider. */
  datatype RecurringPayment = RecurringPayment(
    recurringPaymentId: string, status: string, amount: int, frequency: string, nextPaymentDate: int)

  /** `setupRecurringPayment(stokvelId, userId, amount, frequency)`; the token cache is neither read nor changed. */
  function SetupRecurringPayment(recurringPaymentId: string, amount: int, frequency: string, now: int, offset: int)
    : (r: RecurringPayment)
    ensures r.status == "ACTIVE" && r.amount == amount && r.frequency == frequency
    ensures r.recurringPaymentId == recurringPaymentId
    ensures r.nextPaymentDate == NextPaymentDate(frequency, now, offset)
  {
    RecurringPayment(recurringPaymentId, "ACTIVE", amount, frequency, NextPaymentDate(frequency, now, offset))
  }
}
