/** The backend's local logic (backend/server.js): the rate-limit message
    builder, the bearer-token check of the authentication middleware, and the
    `save-transactions` route that validates a batch of Plaid records, turns
    them into transaction rows and hands them to the database. */
module Server {
  import opened Seqs
  import opened Ledger

  // ---------------------------------------------------------------------------
  // Decimal rendering of naturals (template-literal interpolation)

  function DigitChar(d: nat): char
    requires d < 10
  {
    ('0' as int + d) as char
  }

  predicate IsDigit(c: char) {
    '0' <= c <= '9'
  }

  /** `${n}` for a natural number: its decimal digits, most significant first. */
  function Decimal(n: nat): (r: string)
    ensures |r| >= 1
    ensures forall i :: 0 <= i < |r| ==> IsDigit(r[i])
    ensures |r| > 1 ==> r[0] != '0'
    ensures n < 10 <==> |r| == 1
  {
    if n < 10 then [DigitChar(n)] else Decimal(n / 10) + [DigitChar(n % 10)]
  }

  function DigitValue(c: char): nat
    requires IsDigit(c)
  {
    c as int - '0' as int
  }

  /** Reading a digit string back as a number. */
  function DecimalValue(s: string): nat
    requires forall i :: 0 <= i < |s| ==> IsDigit(s[i])
  {
    if s == [] then 0 else DecimalValue(s[..|s| - 1]) * 10 + DigitValue(s[|s| - 1])
  }

  /** The rendering loses nothing: reading the digits back gives the number. */
  lemma {:induction false} DecimalRoundTrip(n: nat)
    ensures DecimalValue(Decimal(n)) == n
  {
    if n >= 10 {
      DecimalRoundTrip(n / 10);
      var s := Decimal(n);
      assert s[..|s| - 1] == Decimal(n / 10);
    }
  }

  // ---------------------------------------------------------------------------
  // Rate-limit message (createRateLimitMessage)

  /** `Math.ceil(a / b)` for naturals. */
  function CeilDiv(a: nat, b: nat): (q: nat)
    requires b > 0
    ensures q * b >= a
    ensures q == 0 || (q - 1) * b < a
  {
    (a + b - 1) / b
  }

  datatype RateLimitBody = RateLimitBody(error: string, message: string, retryAfter: nat)

  /** `${windowMinutes} minute${windowMinutes > 1 ? 's' : ''}` */
  function WindowText(minutes: nat): string {
    Decimal(minutes) + " minute" + (if minutes > 1 then "s" else "")
  }

  /** The body a limiter sends when `kind` requests exceed `limit` within
      `windowMs` milliseconds. */
  function RateLimitMessage(kind: string, limit: nat, windowMs: nat): RateLimitBody {
    var windowMinutes := CeilDiv(windowMs, 60000);
    RateLimitBody(
      "Too many " + kind + " requests",
      "You have exceeded the " + Decimal(limit) + " requests per " + WindowText(windowMinutes) + " limit.",
      CeilDiv(windowMs, 1000))
  }

  /** The window is stated in whole minutes rounded up, the retry hint in
      whole seconds rounded up, and the message closes with the window text,
      whose unit word is plural exactly when the minute count exceeds one. */
  lemma RateLimitMessageSpec(kind: string, limit: nat, windowMs: nat)
    ensures var r, minutes := RateLimitMessage(kind, limit, windowMs), CeilDiv(windowMs, 60000);
      var tail := WindowText(minutes) + " limit.";
      && r.retryAfter * 1000 >= windowMs
      && (r.retryAfter == 0 || (r.retryAfter - 1) * 1000 < windowMs)
      && minutes * 60000 >= windowMs
      && (minutes == 0 || (minutes - 1) * 60000 < windowMs)
      && |tail| <= |r.message| && r.message[|r.message| - |tail|..] == tail
      && (tail[|tail| - 8] == 's' <==> minutes > 1)
  {
    var minutes := CeilDiv(windowMs, 60000);
    var w := WindowText(minutes);
    WindowTextSpec(minutes);
    var head := "You have exceeded the " + Decimal(limit) + " requests per ";
    var message := RateLimitMessage(kind, limit, windowMs).message;
    assert message == head + (w + " limit.");
    assert (w + " limit.")[|w| - 1] == w[|w| - 1];
  }

  /** The window text starts with the minute count, which reads back as that
      number, and the unit word is plural exactly when the count exceeds one. */
  lemma WindowTextSpec(minutes: nat)
    ensures var w, d := WindowText(minutes), Decimal(minutes);
      && |d| < |w| && w[..|d|] == d && DecimalValue(d) == minutes
      && (w[|w| - 1] == 's' <==> minutes > 1)
  {
    DecimalRoundTrip(minutes);
    var w, d := WindowText(minutes), Decimal(minutes);
    if minutes > 1 {
      assert w == (d + " minute") + "s";
    } else {
      assert w == d + " minute";
    }
  }

  lemma SmallDecimals()
    ensures Decimal(1) == "1" && Decimal(5) == "5" && Decimal(15) == "15"
  {
    assert Decimal(15) == Decimal(1) + [DigitChar(5)];
  }

  lemma WindowExamples()
    ensures CeilDiv(15 * 60 * 1000, 60000) == 15 && CeilDiv(15 * 60 * 1000, 1000) == 900
    ensures CeilDiv(60 * 1000, 60000) == 1 && CeilDiv(60 * 1000, 1000) == 60
  {
  }

  /** The general limiter (100 API requests per 15 minutes) speaks of
      "15 minutes" and asks to retry after 900 seconds. */
  lemma GlobalLimiterWindow()
    ensures WindowText(CeilDiv(15 * 60 * 1000, 60000)) == "15 minutes"
    ensures RateLimitMessage("API", 100, 15 * 60 * 1000).retryAfter == 900
  {
    SmallDecimals();
    WindowExamples();
  }

  /** The database limiter (5 writes per minute) speaks of "1 minute" and
      asks to retry after 60 seconds. */
  lemma DatabaseLimiterWindow()
    ensures WindowText(CeilDiv(60 * 1000, 60000)) == "1 minute"
    ensures RateLimitMessage("database operation", 5, 60 * 1000).retryAfter == 60
  {
    SmallDecimals();
    WindowExamples();
  }

  // ---------------------------------------------------------------------------
  // Authentication middleware (authenticateUser)

  /** The Bearer token in an Authorization header, if the header is present
      and starts with "Bearer "; the token is what follows those 7 characters. */
  function BearerToken(header: Option<string>): Option<string> {
    if header.Some? && StartsWith(header.value, "Bearer ") then Some(header.value[7..]) else None
  }

  /** A token is extracted exactly from a header that is "Bearer " followed
      by that token. */
  lemma BearerTokenSpec(header: Option<string>, token: string)
    ensures BearerToken(header) == Some(token) <==> header == Some("Bearer " + token)
  {
    if header == Some("Bearer " + token) {
      assert ("Bearer " + token)[..7] == "Bearer ";
      assert ("Bearer " + token)[7..] == token;
    }
    if BearerToken(header) == Some(token) {
      assert header.value == header.value[..7] + header.value[7..];
    }
  }

  datatype User = User(id: Option<string>, email: Option<string>)

  /** What the identity provider's `getUser(token)` comes back with: a user
      and/or an error, or an exception thrown on the way. */
  datatype GetUserReply = Reply(user: Option<User>, failed: bool) | Threw

  /** The middleware either lets the request through as `user` (`next()`), or
      answers with a status and an error message. */
  datatype AuthOutcome = Proceed(user: User) | Reject(status: nat, error: string)

  /** `authenticateUser`. `testMode` is `TEST_MODE === 'true'`, `testUserId`
      is `TEST_USER_ID`, and `getUser` stands for the identity provider. */
  method AuthenticateUser(testMode: bool, testUserId: Option<string>, authorization: Option<string>,
                          getUser: string -> GetUserReply)
    returns (outcome: AuthOutcome)
    ensures testMode ==> outcome == Proceed(User(testUserId, Some("test@example.com")))
    ensures !testMode && BearerToken(authorization) == None ==>
      outcome == Reject(401, "Missing or invalid authorization header")
    ensures !testMode && BearerToken(authorization).Some? ==>
      match getUser(BearerToken(authorization).value)
      case Threw => outcome == Reject(401, "Authentication failed")
      case Reply(user, failed) =>
        if failed || user.None? then outcome == Reject(401, "Invalid token")
        else outcome == Proceed(user.value)
    ensures outcome.Proceed? && !testMode ==> authorization.Some? && StartsWith(authorization.value, "Bearer ")
    ensures outcome.Reject? ==> outcome.status == 401
  {
    if testMode {
      return Proceed(User(testUserId, Some("test@example.com")));
    }
    if authorization.None? || !StartsWith(authorization.value, "Bearer ") {
      return Reject(401, "Missing or invalid authorization header");
    }
    var token := authorization.value[7..];
    var reply := getUser(token);
    if reply.Threw? {
      return Reject(401, "Authentication failed");
    }
    if reply.failed || reply.user.None? {
      return Reject(401, "Invalid token");
    }
    return Proceed(reply.user.value);
  }

  // ---------------------------------------------------------------------------
  // Saving Plaid transactions (POST /api/plaid/save-transactions)

  /** The fields of a Plaid transaction record the route reads; `category`
      may be absent. */
  datatype PlaidTransaction = PlaidTransaction(
    date: string,
    name: string,
    amount: real,
    category: Option<seq<string>>,
    accountId: string)

  /** A row of the `transactions` table as the route inserts it. */
  datatype TransactionRow = TransactionRow(
    date: string,
    description: string,
    amount: real,
    txType: TxType,
    category: string,
    subcategory: string,
    accountId: string,
    userId: string)

  /** The amount with the sign its type gives it. */
  function SignedRowAmount(r: TransactionRow): real {
    if r.txType == Credit then r.amount else -r.amount
  }

  /** The `map` callback: one Plaid record to one row. The stored amount is
      never negative, and together with the type it gives back the Plaid
      amount, so a zero amount becomes a debit of zero. The category array is
      flattened into its first two entries, "Other" and "" standing in for the
      missing ones; the other fields are copied. */
  function ToRow(p: PlaidTransaction, userId: string): (r: TransactionRow)
    ensures r.amount >= 0.0
    ensures r.txType == Credit <==> p.amount > 0.0
    ensures SignedRowAmount(r) == p.amount
    ensures r.date == p.date && r.description == p.name && r.accountId == p.accountId && r.userId == userId
    ensures p.category.None? || p.category.value == [] ==> r.category == "Other" && r.subcategory == ""
    ensures p.category.Some? && |p.category.value| >= 2 ==> [r.category, r.subcategory] == p.category.value[..2]
    ensures p.category.Some? && |p.category.value| == 1 ==> [r.category] == p.category.value && r.subcategory == ""
  {
    TransactionRow(
      p.date,
      p.name,
      Abs(p.amount),
      if p.amount > 0.0 then Credit else Debit,
      if p.category.Some? && |p.category.value| > 0 then p.category.value[0] else "Other",
      if p.category.Some? && |p.category.value| > 1 then p.category.value[1] else "",
      p.accountId,
      userId)
  }

  /** `transactions.map(...)`: length and order are kept, each record is
      converted on its own, and every row carries the requesting user. */
  function TransformTransactions(txs: seq<PlaidTransaction>, userId: string): (rows: seq<TransactionRow>)
    ensures |rows| == |txs|
    ensures forall i :: 0 <= i < |txs| ==>
      && rows[i].userId == userId
      && rows[i].date == txs[i].date
      && rows[i].description == txs[i].name
      && rows[i].accountId == txs[i].accountId
      && rows[i].amount >= 0.0
      && SignedRowAmount(rows[i]) == txs[i].amount
  {
    seq(|txs|, i requires 0 <= i < |txs| => ToRow(txs[i], userId))
  }

  /** The request body: `transactions` and `userId` may be missing. */
  datatype SaveRequest = SaveRequest(transactions: Option<seq<PlaidTransaction>>, userId: Option<string>)

  datatype Body =
    | ErrorBody(error: string)
    | ErrorMessageBody(error: string, message: string)
    | ErrorDetailsBody(error: string, details: string)
    | SavedBody(success: bool, count: nat)

  datatype Response = Response(status: nat, body: Body)

  const MaxBatch: nat := 1000

  /** A JavaScript string is truthy when it is not empty. */
  predicate Present(userId: Option<string>) {
    userId.Some? && userId.value != ""
  }

  /** The route handler after authentication. `insertError` is what the
      database insert reports (`error.message`), or None when it succeeds;
      `inserted` is the batch handed to the insert, None when none is. */
  method SaveTransactions(req: SaveRequest, insertError: Option<string>)
    returns (resp: Response, inserted: Option<seq<TransactionRow>>)
    ensures req.transactions.None? || !Present(req.userId) ==>
      resp == Response(400, ErrorBody("Transactions and userId are required")) && inserted == None
    ensures req.transactions.Some? && Present(req.userId) && |req.transactions.value| > MaxBatch ==>
      && resp == Response(400, ErrorMessageBody("Too many transactions", "Maximum 1000 transactions allowed per request"))
      && inserted == None
    ensures req.transactions.Some? && Present(req.userId) && |req.transactions.value| <= MaxBatch ==>
      && inserted == Some(TransformTransactions(req.transactions.value, req.userId.value))
      && resp == if insertError.Some? then Response(500, ErrorDetailsBody("Unable to save transactions", insertError.value))
                 else Response(200, SavedBody(true, |req.transactions.value|))
    ensures inserted.Some? ==> |inserted.value| <= MaxBatch
    ensures resp.status == 200 <==> inserted.Some? && insertError.None?
  {
    if req.transactions.None? || !Present(req.userId) {
      return Response(400, ErrorBody("Transactions and userId are required")), None;
    }
    var txs, userId := req.transactions.value, req.userId.value;
    if |txs| > MaxBatch {
      return Response(400, ErrorMessageBody("Too many transactions", "Maximum 1000 transactions allowed per request")), None;
    }
    var rows := TransformTransactions(txs, userId);
    inserted := Some(rows);
    if insertError.Some? {
      return Response(500, ErrorDetailsBody("Unable to save transactions", insertError.value)), inserted;
    }
    resp := Response(200, SavedBody(true, |rows|));
  }
}
