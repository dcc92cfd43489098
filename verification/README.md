# Daily AWS cost report: a Dafny model of its data step

The repository is a scheduled AWS Lambda function (`lambda_function.py`) that
queries Cost Explorer for the month-to-date cost per service, yesterday's cost
and a 30-day forecast, turns them into an HTML email and sends it with SES.
The only logic it holds is the data step inside `lambda_handler` and the row
loop of `build_html_body`. This project models those parts as pure Dafny
functions and a few short methods, and proves what they guarantee.

- `Ledger`: the breakdown groups `(service, amount)` and the `(service, cost)`
  entries derived from them. Amounts are `real`.
- `ServiceMap`: the `service_costs` dict as an insertion-ordered sequence of
  entries. `Put` is `d[k] = v`: an existing key is overwritten where it stands,
  and a new key is appended.
- `CostOrder`: `sorted(..., key=cost, reverse=True)` as a stable functional
  insertion sort. It is proved sorted, a permutation, stable, and the only
  arrangement with those three properties.
- `Aggregation`: the loop of lines 61-67 (`Collect`, `Total`), `max_cost`
  (`MaxCost`) and the whole data step (`Summarize`). Each is tied to an
  independent reference: `Positive` (the filter), `LastPositive` (last positive
  amount per service) and `Dedup` (names in order of first occurrence).
- `Report`: `bar_width`, and the row loop as the method `BuildBody`, which
  yields one `Row` record per service. `RowMarkup` is the text each such row
  is rendered as (lines 155-166); it shows that the service name is embedded
  as it is. `BuildBody` and `Handle` work on the `Row` records and do not
  render them.
- `Arn`: Python's `str.split(":")`, `join`, and the account id of line 27,
  including the `IndexError` for a short ARN.
- `Dates`: `strftime('%Y-%m-%d')` and `'%Y-%m-01'` on an abstract "today", with
  a parser and an order-preservation lemma, the day before today, and the
  range in which the date arithmetic of lines 31 and 35 does not overflow.
- `Handler`: `lambda_handler` with its I/O as parameters. Status 200 is returned
  exactly when the ARN has an account field, today is neither 0001-01-01 nor
  after 9999-12-01 (so yesterday and today + 30 days exist), the breakdown has
  a first time bucket and the send is accepted. Otherwise the status is 500.
  Failures raised inside the Cost Explorer client are not represented (see
  "Left out").

Three behaviours of the code are worth stating, because a reader might expect otherwise:

- Line 157 inserts service names into the HTML raw, with no escaping.
  `Report.RowMarkup` states that the name appears unchanged.
- A missing `SENDER_EMAIL` or `RECIPIENT_EMAIL` is read as `None` by
  `os.environ.get` (lines 25-26) and passed on to SES. Nothing checks it up
  front, so the run fails only when the send does. `Handler.Handle` carries
  the optional addresses into the email, and its `delivery` parameter is the
  send's outcome.
- A repeated service adds every positive amount to `total_cost` (line 67), but
  the dict keeps only the last one (line 66).
  `Aggregation.RepeatedServiceCountedTwice` shows the difference and
  `Aggregation.ListedCostsBelowTotal` bounds it.

## Model

| member | source | states |
|---|---|---|
| ServiceMap.Get | lambda_function.py:66 | lookup in the dict: absent exactly when the key is not among the keys; otherwise the value stored for the key |
| ServiceMap.Put | lambda_function.py:66 | `d[k] = v` adds one entry exactly when `k` is new, and every resulting entry is the new one or an entry of `d`; PutKeys, PutGet and PutDistinct pin it down |
| ServiceMap.PutKeys | lambda_function.py:66 | `d[k] = v` keeps the key order when `k` is present and appends `k` when it is new |
| ServiceMap.PutGet | lambda_function.py:66 | after `d[k] = v`, `d[k]` is `v` and every other key looks up as before |
| ServiceMap.PutDistinct | lambda_function.py:66 | assignment never creates a second entry for a key |
| ServiceMap.SumCostsPut | lambda_function.py:66 | overwriting replaces the old value in the sum of the dict's costs; a new key adds its value |
| CostOrder.SortByCostDesc | lambda_function.py:69-71 | the sorted entries are non-increasing by cost and a permutation of the dict's entries |
| CostOrder.SortIsStable | lambda_function.py:69-71 | for every cost value, the entries with that cost keep their dict order (Python's sort is stable, also with `reverse=True`) |
| CostOrder.SortedWithSameTiesIsSort | lambda_function.py:69-71 | any non-increasing arrangement with the same entries of each cost in the same order equals the sort's result |
| CostOrder.SortKeepsSum | lambda_function.py:69-71 | sorting does not change the sum of the costs |
| Aggregation.Positive | lambda_function.py:62-65 | the filter contains an entry exactly when a group with that name and amount occurs and the amount is positive |
| Aggregation.Total | lambda_function.py:61-67 | `total_cost` is never negative; TotalIsSumOfPositive equates it with the sum of the positive amounts |
| Aggregation.Collect | lambda_function.py:61-66 | the dict built by the loop has distinct keys and only positive costs |
| Aggregation.CollectLookup | lambda_function.py:62-66 | the dict maps each service to the last positive amount it had in the input, and holds no other service |
| Aggregation.CollectKeyOrder | lambda_function.py:62-66 | the dict's keys are the names of the positive groups, each at the position of its first positive occurrence |
| Aggregation.DedupMembers | lambda_function.py:62-66 | the first-occurrence reference loses no name, and its order is the order of first occurrence |
| Aggregation.CollectWithoutRepeats | lambda_function.py:62-66 | when no positive service name repeats, the dict is exactly the positive groups in input order |
| Aggregation.TotalIsSumOfPositive | lambda_function.py:61-67 | `total_cost` is the sum of exactly the positive amounts; a group with amount at most 0 never adds to it |
| Aggregation.ListedCostsBelowTotal | lambda_function.py:61-67 | an overwritten amount stays in `total_cost`, so the dict's costs never sum to more than the total |
| Aggregation.TotalMatchesListedCosts | lambda_function.py:61-71 | with distinct service names, the total equals the sum of the costs in the sorted list |
| Aggregation.RepeatedServiceCountedTwice | lambda_function.py:66-67 | a service reported twice with 1.0 and 2.0 contributes 3.0 to the total and only 2.0 to the list |
| Aggregation.MaxCost | lambda_function.py:72 | `max_cost` is 1.0 for an empty list; otherwise it is a listed cost, at least every cost of a sorted list, and positive when all costs are |
| Aggregation.Summarize | lambda_function.py:61-72 | the service list is sorted, a permutation of the dict and all positive; `max_cost` is positive and bounds every listed cost, and is 1.0 when the list is empty |
| Aggregation.SummaryIsStable | lambda_function.py:69-71 | in the summary, services of equal cost appear in dict order |
| Aggregation.NoSpend | lambda_function.py:61-72 | the list is empty exactly when no amount is positive, and then the total is 0 and `max_cost` is 1.0 |
| Aggregation.TypicalDay | lambda_function.py:61-72 | EC2 120.50, S3 0.00, Lambda 4.25 give total 124.75, list [EC2, Lambda] and `max_cost` 120.50 |
| Report.BarWidth | lambda_function.py:154 | the width is the cost as a percentage of the scale; it is 0 without a positive scale, lies in [0, 100] for a cost within the scale, is positive for a positive cost and is 100 for the maximum |
| Report.BuildBody | lambda_function.py:152-169 | one row per service, in the given order, with its name, cost and bar width; bars lie within [0, 100] when the scale bounds every cost; headline figures are passed through |
| Report.SummaryBarsBounded | lambda_function.py:152-154 | for the data step's output every bar is in (0, 100] and the first is exactly 100; the scale is positive, so the `else 0` branch is never taken |
| Report.RowMarkup | lambda_function.py:155-166 | a row's markup starts with the opening of the service cell, followed by the service name unescaped |
| Arn.Split | lambda_function.py:27 | `split(":")` returns one more field than there are separators, and no field contains a separator |
| Arn.JoinSplit | lambda_function.py:27 | joining the split fields with `:` gives back the string |
| Arn.SplitJoin | lambda_function.py:27 | splitting a join of `:`-free fields gives back the fields |
| Arn.AccountId | lambda_function.py:27 | the account id exists exactly when the ARN has at least four `:`, contains no `:`, and otherwise the error is `IndexError` |
| Arn.AccountIdOfFields | lambda_function.py:27 | for an ARN joined from five or more `:`-free fields, the account id is the fifth field |
| Dates.PadValue | lambda_function.py:32-33 | reading a zero-padded numeral back gives the number |
| Dates.ParseFormat | lambda_function.py:33 | parsing a `YYYY-MM-DD` rendering gives the date back |
| Dates.PadOrder | lambda_function.py:32-33 | zero-padded numerals of one width compare as strings exactly as their values compare |
| Dates.FormatKeepsOrder | lambda_function.py:32-33 | `YYYY-MM-DD` strings compare as strings exactly as the dates compare in time |
| Dates.StartOfMonth | lambda_function.py:32 | `start_of_month` is the rendering of the first day of today's month |
| Dates.EndOfPeriod | lambda_function.py:33 | `end_of_period` parses back to today |
| Dates.MonthToDateWindow | lambda_function.py:32-33 | the two ends share the `YYYY-MM-` prefix, the start is not after the end, and they are equal exactly on the first day of a month |
| Dates.PrevDay | lambda_function.py:31 | the day before is a valid date exactly when today is not 0001-01-01, and it comes strictly before today |
| Dates.PrevDayIsLatestBefore | lambda_function.py:31 | no valid date lies strictly between the day before and today |
| Handler.Subject | lambda_function.py:75 | the subject is "AWS Cost Summary for ", the account id and " - ", followed by a ten-character date that parses back to today |
| Handler.Handle | lambda_function.py:23-85 | status is 200 or 500; it is 200 exactly when the ARN has an account field, the date arithmetic stays in range, the breakdown has a first bucket and the send succeeds, and then the body is "Email sent successfully!"; a short ARN, or an empty breakdown (the `[0]` of line 62), gives the `IndexError` response; today 0001-01-01 or after 9999-12-01 gives the `OverflowError` response "date value out of range" of lines 31 and 35; a rejected send gives its message; every failure has the body "An error occurred: " followed by the message (lines 83-85, through the helper `Failure`); the attempted email carries the configured addresses, the subject with account id and date, the summary's total, yesterday's cost as the first daily bucket or 0.0 (lines 56-58, through the helper `DailyCost`), the forecast, and one row per sorted service with bar width `BarWidth(cost, max_cost)` in (0, 100], the first at 100 |

## Left out

- The boto3 Cost Explorer and SES clients and calls (lines 13-14, 39-58, 172-188) are network I/O. The handler takes their results as parameters: the `ResultsByTime` groups of the breakdown, the forecast amount, the daily buckets and the send outcome.
- Handler.Handle: an exception raised by one of the three Cost Explorer calls, or a response missing the expected keys, would also give status 500. The model does not represent these failures, because they come from the library, not from this code. The `OverflowError` of the date arithmetic (lines 31 and 35) is represented, through `Dates.ShiftsInRange`.
- Reading the clock (line 30) is left out; today is an abstract valid date. Of the `timedelta` arithmetic (lines 31, 34-36) the model keeps the day before (`Dates.PrevDay`) and the condition under which both shifts stay in range. The date 30 days ahead is not computed, because it only feeds the forecast request, whose answer is a parameter.
- Dates.FormatDate: the year is rendered as four zero-padded digits. For years below 1000, what `strftime('%Y')` does depends on the platform.
- Float parsing of the API's amount strings, and the `:,.2f` currency and percentage formatting (lines 50, 56-58, 64, 127-135, 158, 161), are left out. Amounts are exact `real`s, so the model has no rounding. `Report.RowMarkup` takes the two formatters as function parameters.
- Aggregation.Total: the code adds floats left to right, so the result is subject to rounding. The model's sum is exact.
- The static HTML/CSS template and the `format` call that fills it (lines 93-150, 167-169) are constant text. The report is modelled as a `Body` record of the three headline figures and the rows. Whitespace inside the row markup is dropped.
- The `print` calls are logging and are left out (lines 84, 185, 187).
- HTML escaping: the code does none, and the model claims none.
- The first of the month gives an empty month-to-date window, with start equal to end. How Cost Explorer answers such a request is outside this code.
