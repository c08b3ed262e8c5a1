/**
 * The alarm display: one row per alarm record, each tagged with the alarm's
 * name (the row's `data-name`) and carrying a cancel button.
 */
module Display {
  import opened Scheduler

  /** A rendered `alarm-row`: its `data-name` and its text before the cancel button. */
  datatype Row = Row(name: string, text: string)

  /** `renderAlarm`: the serialised record, followed by `,` unless it is the last row. */
  function RenderRow(json: Alarm -> string, alarm: Alarm, isLast: bool): (row: Row)
    ensures row.name == alarm.name
    ensures isLast ==> row.text == json(alarm)
    ensures !isLast ==> row.text == json(alarm) + ","
  {
    Row(alarm.name, json(alarm) + (if isLast then "" else ","))
  }

  /** What `populateDisplay` appends for a listing: row `j` rendered with `isLast` iff `j` is the last index. */
  function Rendered(json: Alarm -> string, alarms: seq<Alarm>): (rows: seq<Row>)
    ensures |rows| == |alarms|
  {
    seq(|alarms|, j requires 0 <= j < |alarms| => RenderRow(json, alarms[j], j == |alarms| - 1))
  }

  /**
   * The rendered display has one row per record, in listing order, each
   * tagged with its record's name; every row but the last ends in `,`, and
   * a listing with unique names gives rows with unique names (no duplicates).
   */
  lemma RenderedRows(json: Alarm -> string, alarms: seq<Alarm>)
    ensures var rows := Rendered(json, alarms);
      && |rows| == |alarms|
      && (forall j :: 0 <= j < |rows| ==> rows[j].name == alarms[j].name)
      && (forall j :: 0 <= j < |rows| - 1 ==>
            rows[j].text == json(alarms[j]) + "," && rows[j].text[|rows[j].text| - 1] == ',')
      && (|rows| > 0 ==> rows[|rows| - 1].text == json(alarms[|alarms| - 1]))
      && (UniqueNames(alarms) ==> forall i, j :: 0 <= i < j < |rows| ==> rows[i].name != rows[j].name)
  {
  }

  /** Appending one more rendered row extends the rendered prefix by one. */
  lemma RenderedPrefix(json: Alarm -> string, alarms: seq<Alarm>, i: nat)
    requires i < |alarms|
    ensures Rendered(json, alarms)[..i + 1]
         == Rendered(json, alarms)[..i] + [RenderRow(json, alarms[i], i == |alarms| - 1)]
  {
  }
}
