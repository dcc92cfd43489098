/**
  `lambda_handler` (lambda_function.py, lines 18-85) with its I/O turned into
  parameters: the environment's two addresses, the function ARN, today's
  date, the `ResultsByTime` buckets the two cost queries returned, the
  forecast amount, and how the email service answered the send. Any exception
  inside the `try` block becomes status 500; otherwise the status is 200.
 */
module Handler {
  import opened Wrappers
  import opened Ledger
  import opened Aggregation
  import opened Report
  import opened Arn
  import opened Dates

  /** The optional `SENDER_EMAIL` and `RECIPIENT_EMAIL` variables of lines 25-26. */
  datatype Config = Config(sender: Option<string>, recipient: Option<string>)

  /** The message handed to the email service (lines 75-79, 172-184). */
  datatype Email = Email(source: Option<string>, to: Option<string>, subject: string, body: Body)

  /** How the email service answered: accepted, or rejected with an error message. */
  datatype Delivery = Delivered | Rejected(reason: string)

  /** The dictionary the handler returns. */
  datatype Response = Response(statusCode: int, body: string)

  /** The response, and the email the handler tried to send (if it got that far). */
  datatype Invocation = Invocation(response: Response, attempted: Option<Email>)

  const StatusOk: int := 200
  const StatusError: int := 500
  const SuccessMessage: string := "Email sent successfully!"
  const ErrorPrefix: string := "An error occurred: "
  const SubjectPrefix: string := "AWS Cost Summary for "

  /** `daily_cost` of lines 56-58: the first daily bucket, or 0.0 when there is none. */
  function DailyCost(buckets: seq<real>): (c: real)
    ensures |buckets| == 0 ==> c == 0.0
    ensures |buckets| > 0 ==> c == buckets[0]
  {
    if |buckets| > 0 then buckets[0] else 0.0
  }

  /**
    The subject line of line 75: the fixed prefix, the account id, a dash, and
    today's date, which can be read back from the tail.
   */
  function Subject(accountId: string, today: Date): (r: string)
    requires ValidDate(today)
    ensures var head := SubjectPrefix + accountId + " - ";
      && |r| == |head| + 10
      && r[..|head|] == head
      && ParseDate(r[|head|..]) == Some(today)
  {
    SubjectPrefix + accountId + " - " + EndOfPeriod(today)
  }

  /** The handler's response to an exception with message `message` (lines 83-85). */
  function Failure(message: string): (r: Response)
    ensures r.statusCode == StatusError
    ensures |r.body| >= |ErrorPrefix| && r.body[..|ErrorPrefix|] == ErrorPrefix && r.body[|ErrorPrefix|..] == message
  {
    Response(StatusError, ErrorPrefix + message)
  }

  /**
    One invocation. The ARN is split first (line 27); the date arithmetic of
    lines 31 and 35 overflows at the ends of the calendar; a breakdown without
    a first time bucket fails at line 62; the email is then built and sent,
    and only an accepted send yields status 200.
   */
  method Handle(config: Config, arn: string, today: Date, breakdown: seq<seq<Group>>,
                forecast: real, dailyBuckets: seq<real>, delivery: Delivery)
    returns (run: Invocation)
    requires ValidDate(today)
    ensures run.response.statusCode == StatusOk || run.response.statusCode == StatusError
    ensures run.response.statusCode == StatusOk <==>
      Count(arn, Separator) >= AccountField && ShiftsInRange(today) && |breakdown| > 0 && delivery.Delivered?
    ensures run.response.statusCode == StatusOk ==> run.response.body == SuccessMessage
    ensures run.attempted.Some? <==> Count(arn, Separator) >= AccountField && ShiftsInRange(today) && |breakdown| > 0
    ensures Count(arn, Separator) < AccountField ==> run.response == Failure(IndexErrorMessage)
    ensures Count(arn, Separator) >= AccountField && !ShiftsInRange(today) ==> run.response == Failure(DateRangeMessage)
    ensures Count(arn, Separator) >= AccountField && ShiftsInRange(today) && |breakdown| == 0 ==>
      run.response == Failure(IndexErrorMessage)
    ensures run.attempted.Some? && delivery.Rejected? ==> run.response == Failure(delivery.reason)
    ensures run.attempted.Some? ==>
      var email := run.attempted.value;
      var s := Summarize(breakdown[0]);
      && email.source == config.sender && email.to == config.recipient
      && email.subject == Subject(AccountId(arn).value, today)
      && email.body.total == s.total
      && email.body.daily == DailyCost(dailyBuckets)
      && email.body.forecast == forecast
      && |email.body.rows| == |s.services|
      && (forall i :: 0 <= i < |s.services| ==>
            && email.body.rows[i].service == s.services[i].service
            && email.body.rows[i].cost == s.services[i].cost
            && email.body.rows[i].barWidth == BarWidth(s.services[i].cost, s.maxCost)
            && 0.0 < email.body.rows[i].barWidth <= 100.0)
      && (|s.services| > 0 ==> email.body.rows[0].barWidth == 100.0)
  {
    var account := AccountId(arn);
    if account.Err? {
      return Invocation(Failure(account.message), None);
    }
    if !ShiftsInRange(today) {
      return Invocation(Failure(DateRangeMessage), None);
    }
    if |breakdown| == 0 {
      return Invocation(Failure(IndexErrorMessage), None);
    }
    var summary := Summarize(breakdown[0]);
    SummaryBarsBounded(breakdown[0]);
    var body := BuildBody(summary.total, forecast, DailyCost(dailyBuckets), summary.services, summary.maxCost);
    var email := Email(config.sender, config.recipient, Subject(account.value, today), body);
    match delivery {
      case Delivered =>
        run := Invocation(Response(StatusOk, SuccessMessage), Some(email));
      case Rejected(reason) =>
        run := Invocation(Failure(reason), Some(email));
    }
  }
}
