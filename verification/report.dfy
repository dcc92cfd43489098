/**
  `build_html_body` (lambda_function.py, lines 88-169): the three headline
  figures and one table row per service, in the order given, each with a
  bar whose width is the service's cost as a percentage of `max_cost`.
  The HTML/CSS template around the rows is constant text and is not
  modelled; currency and percentage formatting are passed in as functions.
 */
module Report {
  import opened Ledger
  import opened Aggregation

  /** One rendered table row: the service, its cost and its bar width in percent. */
  datatype Row = Row(service: string, cost: real, barWidth: real)

  /** The content of the report: the three headline figures and the service rows. */
  datatype Body = Body(total: real, daily: real, forecast: real, rows: seq<Row>)

  /** `bar_width` of line 154: the cost as a percentage of the scale, or 0 without a positive scale. */
  function BarWidth(cost: real, maxCost: real): (w: real)
    ensures maxCost > 0.0 ==> w * maxCost == cost * 100.0
    ensures maxCost <= 0.0 ==> w == 0.0
    ensures 0.0 <= cost <= maxCost ==> 0.0 <= w <= 100.0
    ensures 0.0 < cost == maxCost ==> w == 100.0
    ensures 0.0 < cost && 0.0 < maxCost ==> w > 0.0
  {
    if maxCost > 0.0 then
      var ratio := cost / maxCost;
      assert ratio * maxCost == cost;
      assert cost <= maxCost ==> ratio <= 1.0;
      assert cost > 0.0 ==> ratio > 0.0;
      ratio * 100.0
    else 0.0
  }

  /** The row loop of lines 152-166 together with the headline figures of lines 127-135. */
  method BuildBody(total: real, forecast: real, daily: real, services: seq<ServiceCost>, maxCost: real)
    returns (body: Body)
    ensures body.total == total && body.daily == daily && body.forecast == forecast
    ensures |body.rows| == |services|
    ensures forall i :: 0 <= i < |services| ==>
      body.rows[i] == Row(services[i].service, services[i].cost, BarWidth(services[i].cost, maxCost))
    ensures maxCost > 0.0 && (forall i :: 0 <= i < |services| ==> 0.0 <= services[i].cost <= maxCost) ==>
      forall i :: 0 <= i < |body.rows| ==> 0.0 <= body.rows[i].barWidth <= 100.0
  {
    var rows: seq<Row> := [];
    for i := 0 to |services|
      invariant |rows| == i
      invariant forall j :: 0 <= j < i ==>
        rows[j] == Row(services[j].service, services[j].cost, BarWidth(services[j].cost, maxCost))
    {
      var entry := services[i];
      var width := BarWidth(entry.cost, maxCost);
      rows := rows + [Row(entry.service, entry.cost, width)];
    }
    body := Body(total, daily, forecast, rows);
  }

  /**
    For the figures the data step produces, every bar lies within 0 and 100
    percent, the first bar is exactly full, and the scale is positive, so the
    `else 0` branch of line 154 is never taken.
   */
  lemma SummaryBarsBounded(groups: seq<Group>)
    ensures Summarize(groups).maxCost > 0.0
    ensures forall i :: 0 <= i < |Summarize(groups).services| ==>
      0.0 < BarWidth(Summarize(groups).services[i].cost, Summarize(groups).maxCost) <= 100.0
    ensures |Summarize(groups).services| > 0 ==>
      BarWidth(Summarize(groups).services[0].cost, Summarize(groups).maxCost) == 100.0
  {
    var s := Summarize(groups);
    if |s.services| > 0 {
      var k :| 0 <= k < |s.services| && s.services[k].cost == s.maxCost;
      assert s.services[0].cost >= s.services[k].cost;
    }
  }

  /** The opening markup of a row, up to the service cell's content. */
  const RowOpen: string := "<tr><td>"

  /**
    The markup of one row (lines 155-166, whitespace dropped). The service
    name is copied into the cell as it is: no HTML escaping is applied.
   */
  function RowMarkup(row: Row, money: real -> string, percent: real -> string): (html: string)
    ensures |html| > |RowOpen| + |row.service|
    ensures html[..|RowOpen|] == RowOpen
    ensures html[|RowOpen|..|RowOpen| + |row.service|] == row.service
  {
    RowOpen + row.service + "</td><td style=\"text-align: right;\">$" + money(row.cost)
    + "</td><td><div class=\"bar-container\"><div class=\"bar\" style=\"width: "
    + percent(row.barWidth) + "%; background-color: #5cb85c;\"></div></div></td></tr>"
  }
}
