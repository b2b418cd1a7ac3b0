/**
 * The value side of the default-muster dialog: the muster windows as the
 * server stores them, the rows the dialog edits, and the pure transformations
 * its handlers perform on the row list (load, keyed edit, append, remove,
 * change detection, the save body and the error message of a failed save).
 */
module MusterWindows {
  import opened Wrappers
  import opened Weekdays

  /** A point in time as the time picker holds it (a JavaScript `Date`). */
  type Instant = int

  /** One muster window as the server stores and expects it. */
  datatype MusterConfiguration = MusterConfiguration(
    days: Mask,
    startTime: string,
    timezone: string,
    durationMinutes: real)

  /**
   * A window as the dialog edits it: the stored fields plus the hours shown in
   * the duration field, an ephemeral key that identifies the row while editing,
   * and the `Date` the time picker is bound to.
   */
  datatype MusterConfigurationRow = MusterConfigurationRow(
    days: Mask,
    startTime: string,
    timezone: string,
    durationMinutes: real,
    durationHours: real,
    rowKey: string,
    startTimeDate: Instant)
  {
    /** The row without `durationHours`, `rowKey` and `startTimeDate`. */
    function Configuration(): (c: MusterConfiguration)
    {
      MusterConfiguration(days, startTime, timezone, durationMinutes)
    }
  }

  /** What the time picker hands over: its `toDate()` and its `format('H:mm')`. */
  datatype PickedTime = PickedTime(date: Instant, formatted: string)

  /** The hours shown for a row agree with the minutes stored for it. */
  predicate HoursMatch(row: MusterConfigurationRow)
  {
    row.durationMinutes == row.durationHours * 60.0
  }

  /** Every row's hours agree with its minutes. */
  predicate HoursMatchMinutes(rows: seq<MusterConfigurationRow>)
  {
    forall j :: 0 <= j < |rows| ==> HoursMatch(rows[j])
  }

  /** Under the invariant, the duration field of every row shows its stored minutes in hours. */
  lemma ShownHoursAreStoredMinutes(rows: seq<MusterConfigurationRow>)
    requires HoursMatchMinutes(rows)
    ensures forall j :: 0 <= j < |rows| ==> rows[j].durationHours == rows[j].durationMinutes / 60.0
  {
  }

  // ---------------------------------------------------------------------
  // Load and change detection
  // ---------------------------------------------------------------------

  /** One stored window turned into an editable row. */
  function LoadRow(c: MusterConfiguration, key: string, date: Instant): (r: MusterConfigurationRow)
    ensures r.Configuration() == c
    ensures HoursMatch(r)
    ensures r.rowKey == key && r.startTimeDate == date
  {
    MusterConfigurationRow(c.days, c.startTime, c.timezone, c.durationMinutes,
                           c.durationMinutes / 60.0, key, date)
  }

  /**
   * `musterRows`: every stored window becomes a row with its hours derived from
   * its minutes, a fresh key (`keyOf(i)` stands for the i-th call of `uuidv4`)
   * and the picker date of its start time today (`timeOf` stands for the
   * `moment` parse). An absent configuration stays absent.
   */
  function MusterRows(configs: Option<seq<MusterConfiguration>>, keyOf: nat -> string,
                      timeOf: string -> Instant): (r: Option<seq<MusterConfigurationRow>>)
    ensures r.Some? <==> configs.Some?
    ensures r.Some? ==> |r.value| == |configs.value|
    ensures r.Some? ==> forall i :: 0 <= i < |r.value| ==>
              && r.value[i].Configuration() == configs.value[i]
              && r.value[i].durationHours == configs.value[i].durationMinutes / 60.0
              && r.value[i].rowKey == keyOf(i)
              && r.value[i].startTimeDate == timeOf(configs.value[i].startTime)
    ensures r.Some? ==> HoursMatchMinutes(r.value)
  {
    match configs
    case None => None
    case Some(cs) =>
      var rows := seq(|cs|, i requires 0 <= i < |cs| => LoadRow(cs[i], keyOf(i), timeOf(cs[i].startTime)));
      assert forall i :: 0 <= i < |rows| ==> rows[i] == LoadRow(cs[i], keyOf(i), timeOf(cs[i].startTime));
      Some(rows)
  }

  /**
   * The rows stripped of their view fields: what `hasChanges` compares and
   * what the save request carries, in the same order, one entry per row.
   */
  function Configurations(rows: seq<MusterConfigurationRow>): (r: seq<MusterConfiguration>)
    ensures |r| == |rows|
    ensures forall i :: 0 <= i < |rows| ==>
              && r[i].days == rows[i].days
              && r[i].startTime == rows[i].startTime
              && r[i].timezone == rows[i].timezone
              && r[i].durationMinutes == rows[i].durationMinutes
  {
    seq(|rows|, i requires 0 <= i < |rows| => rows[i].Configuration())
  }

  /**
   * `hasChanges`: the serialised original differs from the serialised stripped
   * rows. An absent original serialises to `undefined`, which differs from
   * every array.
   */
  predicate HasChanges(original: Option<seq<MusterConfiguration>>, rows: seq<MusterConfigurationRow>): (r: bool)
    ensures original.None? ==> r
    ensures original.Some? ==>
              (!r <==> |original.value| == |rows| &&
                       forall i :: 0 <= i < |rows| ==> original.value[i] == rows[i].Configuration())
  {
    original.None? || original.value != Configurations(rows)
  }

  /** Stripping the view fields from freshly loaded rows gives back the stored configuration. */
  lemma {:induction false} LoadRoundTrip(configs: seq<MusterConfiguration>, keyOf: nat -> string,
                                         timeOf: string -> Instant)
    ensures Configurations(MusterRows(Some(configs), keyOf, timeOf).value) == configs
  {
    var rows := MusterRows(Some(configs), keyOf, timeOf).value;
    forall i | 0 <= i < |configs|
      ensures Configurations(rows)[i] == configs[i]
    {
      assert rows[i].Configuration() == configs[i];
    }
  }

  /** Right after loading a present configuration there is nothing to save. */
  lemma NoChangesAfterLoad(configs: seq<MusterConfiguration>, keyOf: nat -> string,
                           timeOf: string -> Instant)
    ensures !HasChanges(Some(configs), MusterRows(Some(configs), keyOf, timeOf).value)
  {
    LoadRoundTrip(configs, keyOf, timeOf);
  }

  /** Without a stored configuration every row list, the empty one included, counts as changed. */
  lemma ChangedWithoutOriginal(rows: seq<MusterConfigurationRow>)
    ensures HasChanges(None, rows)
  {
  }

  /** Whether there are changes depends on the stripped rows only. */
  lemma HasChangesIsStructural(original: Option<seq<MusterConfiguration>>,
                               a: seq<MusterConfigurationRow>, b: seq<MusterConfigurationRow>)
    requires |a| == |b|
    requires forall i :: 0 <= i < |a| ==> a[i].Configuration() == b[i].Configuration()
    ensures HasChanges(original, a) == HasChanges(original, b)
  {
    assert Configurations(a) == Configurations(b);
  }

  // ---------------------------------------------------------------------
  // Locating a row and editing it
  // ---------------------------------------------------------------------

  /** `findIndex` on the row key: the first row with that key, or -1 when none has it. */
  function IndexOf(rows: seq<MusterConfigurationRow>, key: string): (i: int)
    ensures -1 <= i < |rows|
    ensures i >= 0 ==> rows[i].rowKey == key && forall j :: 0 <= j < i ==> rows[j].rowKey != key
    ensures i < 0 ==> forall j :: 0 <= j < |rows| ==> rows[j].rowKey != key
    decreases |rows|
  {
    if |rows| == 0 then -1
    else if rows[0].rowKey == key then 0
    else
      var k := IndexOf(rows[1..], key);
      if k < 0 then -1 else k + 1
  }

  /** The scan `findIndex` performs. */
  method FindIndex(rows: seq<MusterConfigurationRow>, key: string) returns (index: int)
    ensures index == IndexOf(rows, key)
  {
    index := 0;
    while index < |rows| && rows[index].rowKey != key
      invariant 0 <= index <= |rows|
      invariant forall j :: 0 <= j < index ==> rows[j].rowKey != key
    {
      index := index + 1;
    }
    if index == |rows| {
      index := -1;
    }
  }

  /** Lists with the same keys in the same places locate every key at the same index. */
  lemma SameKeysSameIndex(a: seq<MusterConfigurationRow>, b: seq<MusterConfigurationRow>, key: string)
    requires |a| == |b|
    requires forall j :: 0 <= j < |a| ==> a[j].rowKey == b[j].rowKey
    ensures IndexOf(a, key) == IndexOf(b, key)
  {
  }

  /** The four single-row edits of the dialog. */
  datatype Edit =
    | SetTimezone(timezone: string)
    | SetDuration(parsed: Option<real>)  // the `parseFloat` of the field, None for NaN
    | SetStartTime(time: PickedTime)
    | ToggleDay(day: Weekday)

  /**
   * The hours `setMusterDuration` stores: `Math.max(0.5, parsed)`, and 0.5
   * when the input is not a number.
   */
  function ClampHours(parsed: Option<real>): (h: real)
    ensures h >= 0.5
    ensures parsed.Some? && parsed.value >= 0.5 ==> h == parsed.value
    ensures parsed.None? || parsed.value <= 0.5 ==> h == 0.5
  {
    match parsed
    case None => 0.5
    case Some(v) => if v > 0.5 then v else 0.5
  }

  /**
   * A duration of "abc" (NaN) and one of "0.1" are both stored as 30 minutes;
   * the minutes are not rounded, so "0.51" is stored as 30.6 minutes.
   */
  lemma DurationExamples(row: MusterConfigurationRow)
    ensures Apply(row, SetDuration(None)).durationMinutes == 30.0
    ensures Apply(row, SetDuration(Some(0.1))).durationMinutes == 30.0
    ensures Apply(row, SetDuration(Some(0.51))).durationMinutes == 30.6
  {
  }

  /**
   * What one edit does to the row it targets. Every edit keeps the key, keeps
   * the hours in step with the minutes, and changes only its own fields.
   */
  function Apply(row: MusterConfigurationRow, e: Edit): (r: MusterConfigurationRow)
    ensures r.rowKey == row.rowKey
    ensures HoursMatch(row) ==> HoursMatch(r)
    ensures e.SetTimezone? ==> r.timezone == e.timezone && r.(timezone := row.timezone) == row
    ensures e.SetDuration? ==>
              && r.durationHours == ClampHours(e.parsed)
              && r.durationMinutes == r.durationHours * 60.0
              && r.durationMinutes >= 30.0
              && r.(durationHours := row.durationHours, durationMinutes := row.durationMinutes) == row
    ensures e.SetStartTime? ==>
              && r.startTime == e.time.formatted
              && r.startTimeDate == e.time.date
              && r.(startTime := row.startTime, startTimeDate := row.startTimeDate) == row
    ensures e.ToggleDay? ==> r.days == Toggle(row.days, e.day) && r.(days := row.days) == row
  {
    match e
    case SetTimezone(tz) => row.(timezone := tz)
    case SetDuration(parsed) =>
      var hours := ClampHours(parsed);
      row.(durationHours := hours, durationMinutes := hours * 60.0)
    case SetStartTime(t) => row.(startTimeDate := t.date, startTime := t.formatted)
    case ToggleDay(d) => row.(days := Toggle(row.days, d))
  }

  /**
   * A keyed edit: the first row with the key is edited, every other row stays
   * as it was, and a key that no row has leaves the list as it was.
   */
  function EditRow(rows: seq<MusterConfigurationRow>, key: string, e: Edit): (r: seq<MusterConfigurationRow>)
    ensures |r| == |rows|
    ensures forall j :: 0 <= j < |rows| && j != IndexOf(rows, key) ==> r[j] == rows[j]
    ensures IndexOf(rows, key) >= 0 ==> r[IndexOf(rows, key)] == Apply(rows[IndexOf(rows, key)], e)
    ensures (forall j :: 0 <= j < |rows| ==> rows[j].rowKey != key) ==> r == rows
    ensures forall j :: 0 <= j < |rows| ==> r[j].rowKey == rows[j].rowKey
  {
    var i := IndexOf(rows, key);
    if i >= 0 then rows[i := Apply(rows[i], e)] else rows
  }

  /** A keyed edit keeps the hours of every row in step with its minutes. */
  lemma EditKeepsHoursMatch(rows: seq<MusterConfigurationRow>, key: string, e: Edit)
    requires HoursMatchMinutes(rows)
    ensures HoursMatchMinutes(EditRow(rows, key, e))
  {
    var i := IndexOf(rows, key);
    if i >= 0 {
      assert HoursMatch(rows[i]);
    }
  }

  /** Toggling the same day of the same row twice gives back the list. */
  lemma {:induction false} ToggleTwiceRestores(rows: seq<MusterConfigurationRow>, key: string, day: Weekday)
    ensures EditRow(EditRow(rows, key, ToggleDay(day)), key, ToggleDay(day)) == rows
  {
    var once := EditRow(rows, key, ToggleDay(day));
    SameKeysSameIndex(once, rows, key);
    var i := IndexOf(rows, key);
    if i >= 0 {
      ToggleInvolutive(rows[i].days, day);
    }
  }

  /** Setting the timezone back to what it was gives back the list. */
  lemma {:induction false} TimezoneRevertRestores(rows: seq<MusterConfigurationRow>, key: string, timezone: string)
    requires IndexOf(rows, key) >= 0
    ensures EditRow(EditRow(rows, key, SetTimezone(timezone)), key,
                    SetTimezone(rows[IndexOf(rows, key)].timezone)) == rows
  {
    var once := EditRow(rows, key, SetTimezone(timezone));
    SameKeysSameIndex(once, rows, key);
  }

  /**
   * Starting from an unchanged list, an edit of an existing row is a change
   * exactly when it changes that row's stored fields.
   */
  lemma {:induction false} EditIsAChangeIff(original: Option<seq<MusterConfiguration>>,
                                            rows: seq<MusterConfigurationRow>, key: string, e: Edit)
    requires !HasChanges(original, rows)
    requires IndexOf(rows, key) >= 0
    ensures HasChanges(original, EditRow(rows, key, e)) <==>
            Apply(rows[IndexOf(rows, key)], e).Configuration() != rows[IndexOf(rows, key)].Configuration()
  {
    var i := IndexOf(rows, key);
    var edited := EditRow(rows, key, e);
    if Apply(rows[i], e).Configuration() != rows[i].Configuration() {
      assert Configurations(edited)[i] != Configurations(rows)[i];
    } else {
      HasChangesIsStructural(original, edited, rows);
    }
  }

  /** Starting from an unchanged list, toggling a day of an existing row is always a change. */
  lemma ToggleIsAChange(original: Option<seq<MusterConfiguration>>,
                        rows: seq<MusterConfigurationRow>, key: string, day: Weekday)
    requires !HasChanges(original, rows)
    requires IndexOf(rows, key) >= 0
    ensures HasChanges(original, EditRow(rows, key, ToggleDay(day)))
  {
    var i := IndexOf(rows, key);
    ToggleChanges(rows[i].days, day);
    EditIsAChangeIff(original, rows, key, ToggleDay(day));
  }

  // ---------------------------------------------------------------------
  // Adding and removing rows
  // ---------------------------------------------------------------------

  /**
   * The row `addMusterWindow` appends: no day selected, starting at 00:00,
   * two hours long, in the editor's guessed timezone.
   */
  function DefaultRow(timezone: string, key: string, midnight: Instant): (r: MusterConfigurationRow)
    ensures r.days == NONE && forall d :: !Has(r.days, d)
    ensures r.startTime == "00:00" && r.timezone == timezone
    ensures r.durationMinutes == 120.0 && r.durationHours == 2.0
    ensures HoursMatch(r)
    ensures r.rowKey == key && r.startTimeDate == midnight
  {
    MusterConfigurationRow(NONE, "00:00", timezone, 120.0, 2.0, key, midnight)
  }

  /** Appending a row keeps the hours of every row in step with its minutes. */
  lemma AppendKeepsHoursMatch(rows: seq<MusterConfigurationRow>, row: MusterConfigurationRow)
    requires HoursMatchMinutes(rows) && HoursMatch(row)
    ensures HoursMatchMinutes(rows + [row])
  {
  }

  /** Starting from an unchanged list, appending a row is always a change. */
  lemma AppendIsAChange(original: Option<seq<MusterConfiguration>>,
                        rows: seq<MusterConfigurationRow>, row: MusterConfigurationRow)
    requires !HasChanges(original, rows)
    ensures HasChanges(original, rows + [row])
  {
    assert |Configurations(rows + [row])| != |Configurations(rows)|;
  }

  /**
   * `splice(index, 1)` at the first row with the key: that row is gone, the
   * rows before and after it keep their order, and a key that no row has
   * leaves the list as it was.
   */
  function RemoveRow(rows: seq<MusterConfigurationRow>, key: string): (r: seq<MusterConfigurationRow>)
    ensures (forall j :: 0 <= j < |rows| ==> rows[j].rowKey != key) ==> r == rows
    ensures IndexOf(rows, key) >= 0 ==>
              && |r| == |rows| - 1
              && (forall j :: 0 <= j < IndexOf(rows, key) ==> r[j] == rows[j])
              && (forall j :: IndexOf(rows, key) <= j < |r| ==> r[j] == rows[j + 1])
              && multiset(r) + multiset{rows[IndexOf(rows, key)]} == multiset(rows)
  {
    var i := IndexOf(rows, key);
    if i >= 0 then
      SpliceMultiset(rows, i);
      rows[..i] + rows[i + 1..]
    else
      rows
  }

  /** Cutting one element out of a list takes exactly that element out of its multiset. */
  lemma SpliceMultiset(rows: seq<MusterConfigurationRow>, i: nat)
    requires i < |rows|
    ensures multiset(rows[..i] + rows[i + 1..]) + multiset{rows[i]} == multiset(rows)
  {
    assert rows == rows[..i] + [rows[i]] + rows[i + 1..];
  }

  /** Removing a row keeps the hours of every remaining row in step with its minutes. */
  lemma RemoveKeepsHoursMatch(rows: seq<MusterConfigurationRow>, key: string)
    requires HoursMatchMinutes(rows)
    ensures HoursMatchMinutes(RemoveRow(rows, key))
  {
    var i := IndexOf(rows, key);
    var r := RemoveRow(rows, key);
    if i >= 0 {
      forall j | 0 <= j < |r|
        ensures HoursMatch(r[j])
      {
        if j >= i {
          assert r[j] == rows[j + 1];
        }
      }
    }
  }

  /** Starting from an unchanged list, removing an existing row is always a change. */
  lemma RemoveIsAChange(original: Option<seq<MusterConfiguration>>,
                        rows: seq<MusterConfigurationRow>, key: string)
    requires !HasChanges(original, rows)
    requires IndexOf(rows, key) >= 0
    ensures HasChanges(original, RemoveRow(rows, key))
  {
    assert |Configurations(RemoveRow(rows, key))| != |Configurations(rows)|;
  }

  // ---------------------------------------------------------------------
  // Error messages, validation and save
  // ---------------------------------------------------------------------

  /** JavaScript truthiness of a nullable string: present and not empty. */
  predicate IsTruthy(m: Option<string>)
  {
    m.Some? && m.value != ""
  }

  /** `resetErrorMessage`: a shown message is cleared; null and '' stay as they are. */
  function ResetError(m: Option<string>): (r: Option<string>)
    ensures !IsTruthy(r)
    ensures r == m || r == None
    ensures !IsTruthy(m) ==> r == m
  {
    if IsTruthy(m) then None else m
  }

  /** `configuration.find(muster => muster.days === DaysOfTheWeek.None)` finds a row. */
  predicate HasEmptyDays(rows: seq<MusterConfigurationRow>): (r: bool)
    ensures r ==> exists j :: 0 <= j < |rows| && forall d :: !Has(rows[j].days, d)
    ensures !r ==> forall j :: 0 <= j < |rows| ==> rows[j].days != NONE
  {
    NoDayInNone();
    exists j :: 0 <= j < |rows| && rows[j].days == NONE
  }

  /** The request body of the save. */
  datatype SaveBody = SaveBody(defaultMusterConfiguration: seq<MusterConfiguration>)

  /** One entry of the `errors` list of a failed response. */
  datatype ServerError = ServerError(message: string)

  /** The outcome of the `PUT`: accepted, or rejected with the response's optional error list. */
  datatype PutResponse = Accepted | Rejected(errors: Option<seq<ServerError>>)

  /**
   * The message a failed save reports: the first server error's message when
   * the response carries a non-empty error list, otherwise the generic one.
   */
  function ServerMessage(errors: Option<seq<ServerError>>): (m: string)
    ensures errors.Some? && |errors.value| > 0 ==> m == errors.value[0].message
    ensures errors.None? || |errors.value| == 0 ==> m == "Internal Server Error"
  {
    if errors.Some? && |errors.value| > 0 then errors.value[0].message
    else "Internal Server Error"
  }
}
