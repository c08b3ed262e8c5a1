/**
 * The alarm manager of the demo page: it logs every action most recent
 * first, forwards creation and cancellation to the host scheduler, and
 * rebuilds the alarm display from a scheduler snapshot under a single-flight
 * refresh lock.
 */
module AlarmManager {
  import opened Wrappers
  import opened AlarmInfo
  import opened Scheduler
  import opened Display
  import opened LogFormat

  const INIT_MESSAGE := "Manager: initializing demo"
  const CANCEL_BUTTON_CLASS := "alarm-row__cancel-button"

  /** `s` in reverse order. */
  function Reversed<T>(s: seq<T>): (r: seq<T>)
    ensures |r| == |s|
  {
    if s == [] then [] else [s[|s| - 1]] + Reversed(s[..|s| - 1])
  }

  /** The `k`-th entry from the front of a reversed sequence is the `k`-th from the back of the original. */
  lemma {:induction false} ReversedAt<T>(s: seq<T>, k: nat)
    requires k < |s|
    ensures Reversed(s)[k] == s[|s| - 1 - k]
  {
    if k > 0 {
      ReversedAt(s[..|s| - 1], k - 1);
    }
  }

  /** The fired line: names the alarm, then its serialised record (with the stray `}` of the template). */
  function FiredMessage(name: string, json: string): (r: string)
    ensures |r| > 7 + |name| + |json| && r[..7] == "Alarm \"" && r[7..7 + |name|] == name
    ensures r[|r| - |json| - 1..] == json + "}"
  {
    "Alarm \"" + name + "\" fired\n" + json + "}"
  }

  /** The creation line: names the alarm, then its serialised schedule. */
  function CreatedMessage(name: string, json: string): (r: string)
    ensures |r| > 9 + |name| + |json| && r[..9] == "Created \"" && r[9..9 + |name|] == name
    ensures r[|r| - |json|..] == json
  {
    "Created \"" + name + "\"\n" + json
  }

  /** The cancel line: one text when the alarm was cleared, a different one when it was not. */
  function CancelMessage(name: Option<string>, wasCleared: bool): (r: string)
    ensures wasCleared ==> r == "Manager: canceled alarm \"" + TemplateText(name) + "\""
    ensures !wasCleared ==> r == "Manager: could not canceled alarm \"" + TemplateText(name) + "\""
  {
    if wasCleared then "Manager: canceled alarm \"" + TemplateText(name) + "\""
    else "Manager: could not canceled alarm \"" + TemplateText(name) + "\""
  }

  /** Whatever the name, the two cancel outcomes log different lines. */
  lemma CancelOutcomesDiffer(name: Option<string>)
    ensures CancelMessage(name, true) != CancelMessage(name, false)
  {
    assert CancelMessage(name, true)[10] == 'a';
    assert CancelMessage(name, false)[10] == 'o';
  }

  /** The cancel-all line, kept verbatim (stray `"` included); the two outcomes read differently. */
  function CancelAllMessage(wasCleared: bool): (r: string)
    ensures r == "Manager: could not canceled all alarms" <==> !wasCleared
  {
    if wasCleared then "Manager: canceled all alarms\"" else "Manager: could not canceled all alarms"
  }

  /** The element a click landed on: its class list and its parent's `data-name`, if any. */
  datatype Element = Element(classes: set<string>, parentName: Option<string>)

  /** A click on the display; `target` is absent when the event has none. */
  datatype ClickEvent = Click(target: Option<Element>)

  /** The cancel button inside a rendered row. */
  function CancelButton(row: Row): Element {
    Element({CANCEL_BUTTON_CLASS}, Some(row.name))
  }

  /**
   * The delegated click handler's decision: `None` when the click is ignored,
   * otherwise `Some(name)` with the (possibly undefined) name to cancel.
   */
  function CancelTarget(event: ClickEvent): (r: Option<Option<string>>)
    ensures r.None? <==> event.target.None? || CANCEL_BUTTON_CLASS !in event.target.value.classes
    ensures r.Some? ==> r.value == event.target.value.parentName
  {
    match event.target
    case None => None
    case Some(el) => if CANCEL_BUTTON_CLASS !in el.classes then None else Some(el.parentName)
  }

  /** Clicking the cancel button of a rendered row asks to cancel exactly that row's alarm. */
  lemma CancelButtonTargetsRow(json: Alarm -> string, alarms: seq<Alarm>, j: nat)
    requires j < |alarms|
    ensures CancelTarget(Click(Some(CancelButton(Rendered(json, alarms)[j])))) == Some(Some(alarms[j].name))
  {
  }

  class Manager {
    /** The host scheduler (`bro.alarms`). */
    const scheduler: Alarms
    /** `JSON.stringify` of an alarm record. */
    const alarmJson: Alarm -> string
    /** `JSON.stringify(info, null, 2)` with whitespace runs collapsed to one space. */
    const infoJson: AlarmInfo -> string

    /** The rows of the display element, top to bottom. */
    var display: seq<Row>
    /** The lines of the log element, top to bottom (newest first). */
    var log: seq<string>
    /** Every line ever logged, oldest first. */
    ghost var entries: seq<string>
    /** The line the constructor logged. */
    ghost const initLine: string
    /** The `#refreshing` lock. */
    var refreshing: bool

    /**
     * The log shows the logged lines newest first, the constructor's line
     * oldest of all; while a refresh is in
     * flight the display stays cleared, so no refresh can add to rows that
     * another refresh is still building.
     */
    ghost predicate Valid()
      reads this, scheduler
    {
      && scheduler.Valid()
      && log == Reversed(entries)
      && entries != [] && entries[0] == initLine
      && (refreshing ==> display == [])
    }

    /** Binds the manager to the page's empty display and log and logs the first line. */
    constructor (scheduler: Alarms, alarmJson: Alarm -> string, infoJson: AlarmInfo -> string, clock: Clock)
      requires scheduler.Valid()
      ensures Valid()
      ensures this.scheduler == scheduler && this.alarmJson == alarmJson && this.infoJson == infoJson
      ensures initLine == LogLine(clock, INIT_MESSAGE)
      ensures entries == [initLine] && log == entries
      ensures display == [] && !refreshing
    {
      this.scheduler := scheduler;
      this.alarmJson := alarmJson;
      this.infoJson := infoJson;
      initLine := LogLine(clock, INIT_MESSAGE);
      display := [];
      refreshing := false;
      new;
      log := [];
      entries := [];
      LogMessage(INIT_MESSAGE, clock);
    }

    /** `logMessage`: the timestamped line goes in front of every existing line. */
    method LogMessage(message: string, clock: Clock)
      requires log == Reversed(entries)
      modifies this`log, this`entries
      ensures log == Reversed(entries)
      ensures log == [LogLine(clock, message)] + old(log)
      ensures entries == old(entries) + [LogLine(clock, message)]
    {
      var line := LogLine(clock, message);
      log := [line] + log;
      entries := entries + [line];
      assert entries[..|entries| - 1] == old(entries);
    }

    /** `clearDisplay`: empties the display. */
    method ClearDisplay()
      modifies this`display
      ensures display == []
    {
      display := [];
    }

    /** `renderAlarm`: appends the record's row. */
    method RenderAlarm(alarm: Alarm, isLast: bool)
      modifies this`display
      ensures display == old(display) + [RenderRow(alarmJson, alarm, isLast)]
    {
      display := display + [RenderRow(alarmJson, alarm, isLast)];
    }

    /** The body of `populateDisplay` once `getAll` has answered with `alarms`. */
    method PopulateDisplay(alarms: seq<Alarm>)
      modifies this`display
      ensures display == old(display) + Rendered(alarmJson, alarms)
    {
      var index := 0;
      while index < |alarms|
        invariant 0 <= index <= |alarms|
        invariant display == old(display) + Rendered(alarmJson, alarms)[..index]
      {
        RenderedPrefix(alarmJson, alarms, index);
        var isLast := index == |alarms| - 1;
        RenderAlarm(alarms[index], isLast);
        index := index + 1;
      }
    }

    /**
     * First half of `refreshDisplay`: bail out when a refresh is in flight,
     * otherwise take the lock and clear the display.
     */
    method BeginRefresh() returns (started: bool)
      requires Valid()
      modifies this`refreshing, this`display
      ensures Valid()
      ensures started == !old(refreshing)
      ensures refreshing
      ensures display == if started then [] else old(display)
    {
      if refreshing {
        return false;
      }
      refreshing := true;
      ClearDisplay();
      started := true;
    }

    /**
     * Second half of `refreshDisplay`: render the snapshot `getAll` answered
     * with (`None` when it failed) and release the lock on either path.
     */
    method FinishRefresh(snapshot: Option<seq<Alarm>>) returns (ok: bool)
      requires Valid() && refreshing
      modifies this`refreshing, this`display
      ensures Valid()
      ensures !refreshing
      ensures ok == snapshot.Some?
      ensures display == if ok then Rendered(alarmJson, snapshot.value) else []
    {
      ok := snapshot.Some?;
      if ok {
        PopulateDisplay(snapshot.value);
      }
      refreshing := false;
    }

    /**
     * `refreshDisplay` run to completion without interleaving: when a refresh
     * is in flight nothing changes; otherwise the display becomes exactly the
     * rows of the scheduler's current listing and the lock is released.
     */
    method RefreshDisplay()
      requires Valid()
      modifies this`refreshing, this`display
      ensures Valid()
      ensures old(refreshing) ==> display == old(display) && refreshing
      ensures !old(refreshing) ==> display == Rendered(alarmJson, scheduler.alarms) && !refreshing
      ensures !old(refreshing) ==> forall i, j :: 0 <= i < j < |display| ==> display[i].name != display[j].name
    {
      var started := BeginRefresh();
      if started {
        var snapshot := scheduler.GetAll();
        var _ := FinishRefresh(Some(snapshot));
        RenderedRows(alarmJson, snapshot);
      }
    }

    /**
     * Two `refreshDisplay` calls where the second arrives while the first
     * awaits the scheduler's listing: the second is dropped, and the display
     * ends with one row per alarm, none twice.
     */
    method OverlappingRefreshes()
      requires Valid() && !refreshing
      modifies this`refreshing, this`display
      ensures Valid() && !refreshing
      ensures display == Rendered(alarmJson, scheduler.alarms)
      ensures forall i, j :: 0 <= i < j < |display| ==> display[i].name != display[j].name
    {
      var first := BeginRefresh();
      var snapshot := scheduler.GetAll();
      var second := BeginRefresh();
      assert first && !second && display == [];
      var _ := FinishRefresh(Some(snapshot));
      RenderedRows(alarmJson, snapshot);
    }

    /** `handleAlarm`: logs the firing, then refreshes. */
    method HandleAlarm(alarm: Alarm, clock: Clock)
      requires Valid()
      modifies this
      ensures Valid()
      ensures entries == old(entries) + [LogLine(clock, FiredMessage(alarm.name, alarmJson(alarm)))]
      ensures old(refreshing) ==> display == old(display) && refreshing
      ensures !old(refreshing) ==> display == Rendered(alarmJson, scheduler.alarms) && !refreshing
    {
      LogMessage(FiredMessage(alarm.name, alarmJson(alarm)), clock);
      RefreshDisplay();
    }

    /** `cancelAlarm`: asks the scheduler to clear the alarm and logs which way it went. */
    method CancelAlarm(name: Option<string>, clock: Clock)
      requires Valid()
      modifies this, scheduler
      ensures Valid()
      ensures scheduler.alarms == Without(old(scheduler.alarms), ClearKey(name))
      ensures entries == old(entries)
        + [LogLine(clock, CancelMessage(name, HasAlarm(old(scheduler.alarms), ClearKey(name))))]
      ensures display == old(display) && refreshing == old(refreshing)
    {
      var wasCleared := scheduler.Clear(name);
      LogMessage(CancelMessage(name, wasCleared), clock);
    }

    /** `cancelAllAlarms`: clears every alarm and logs which way it went; it does not refresh. */
    method CancelAllAlarms(clock: Clock)
      requires Valid()
      modifies this, scheduler
      ensures Valid()
      ensures scheduler.alarms == []
      ensures entries == old(entries) + [LogLine(clock, CancelAllMessage(old(scheduler.alarms) != []))]
      ensures display == old(display) && refreshing == old(refreshing)
    {
      var wasCleared := scheduler.ClearAll();
      LogMessage(CancelAllMessage(wasCleared), clock);
    }

    /** `createAlarm`: creates the alarm, logs it with its schedule, then refreshes. */
    method CreateAlarm(name: string, info: AlarmInfo, clock: Clock)
      requires Valid()
      modifies this, scheduler
      ensures Valid()
      ensures scheduler.alarms == Without(old(scheduler.alarms), name) + [Alarm(name, info)]
      ensures entries == old(entries) + [LogLine(clock, CreatedMessage(name, infoJson(info)))]
      ensures old(refreshing) ==> display == old(display) && refreshing
      ensures !old(refreshing) ==> display == Rendered(alarmJson, scheduler.alarms) && !refreshing
    {
      scheduler.Create(name, info);
      LogMessage(CreatedMessage(name, infoJson(info)), clock);
      RefreshDisplay();
    }

    /**
     * `handleCancelAlarm`: a click off a cancel button changes nothing; a
     * click on one cancels the alarm its row names, then refreshes.
     */
    method HandleCancelAlarm(event: ClickEvent, clock: Clock)
      requires Valid()
      modifies this, scheduler
      ensures Valid()
      ensures CancelTarget(event).None? ==>
        && scheduler.alarms == old(scheduler.alarms) && entries == old(entries)
        && display == old(display) && refreshing == old(refreshing)
      ensures CancelTarget(event).Some? ==>
        var name := CancelTarget(event).value;
        && scheduler.alarms == Without(old(scheduler.alarms), ClearKey(name))
        && entries == old(entries)
           + [LogLine(clock, CancelMessage(name, HasAlarm(old(scheduler.alarms), ClearKey(name))))]
        && (old(refreshing) ==> display == old(display) && refreshing)
        && (!old(refreshing) ==> display == Rendered(alarmJson, scheduler.alarms) && !refreshing)
    {
      var target := CancelTarget(event);
      if target.Some? {
        CancelAlarm(target.value, clock);
        RefreshDisplay();
      }
    }
  }

  /**
   * The form's submit handler: translate the form values (`now` standing for
   * `Date.now()`) and hand the result to `createAlarm`.
   */
  method SubmitForm(manager: Manager, name: string, delay: Number, unit: string, period: Number,
                    now: int, clock: Clock)
    requires manager.Valid()
    modifies manager, manager.scheduler
    ensures manager.Valid()
    ensures var info := Translate(unit, delay, period, now);
      && manager.scheduler.alarms == Without(old(manager.scheduler.alarms), name) + [Alarm(name, info)]
      && manager.entries == old(manager.entries) + [LogLine(clock, CreatedMessage(name, manager.infoJson(info)))]
    ensures old(manager.refreshing) ==> manager.display == old(manager.display) && manager.refreshing
    ensures !old(manager.refreshing) ==>
      manager.display == Rendered(manager.alarmJson, manager.scheduler.alarms) && !manager.refreshing
  {
    manager.CreateAlarm(name, Translate(unit, delay, period, now), clock);
  }

  /**
   * The log reads the logged lines newest first: line `k` from the top is
   * the `k`-th logged line from the end, and the bottom line is the one the
   * constructor logged.
   */
  lemma LogOrder(m: Manager, k: nat)
    requires m.Valid() && k < |m.log|
    ensures m.log[k] == m.entries[|m.entries| - 1 - k]
    ensures m.log[|m.log| - 1] == m.initLine
  {
    ReversedAt(m.entries, k);
    ReversedAt(m.entries, |m.entries| - 1);
  }
}
