/**
 * The editing session of the default-muster dialog: the row list, the error
 * message and the "form disabled" flag, with one method per event handler.
 * Each keyed handler copies the list, locates the row by key, changes that row
 * and stores the list back, as the component does.
 */
module MusterDialog {
  import opened Wrappers
  import opened Weekdays
  import opened MusterWindows

  /** The look of one day button. */
  datatype DayButton = DayButtonError | DayButtonOn | DayButtonOff

  /** What a save ends in: nothing sent, the dialog closed, or an error reported to the caller. */
  datatype SaveOutcome = NotSent | Closed | ErrorReported(message: string)

  class DefaultMusterDialog {
    /** The organisation's stored configuration, absent when it has none. */
    const original: Option<seq<MusterConfiguration>>
    /** `validateMusterConfiguration`: a message for the first problem, or none. */
    const validate: seq<MusterConfigurationRow> -> Option<string>

    var rows: seq<MusterConfigurationRow>
    var errorMessage: Option<string>
    var formDisabled: bool

    /** The hours each row shows agree with the minutes it stores. */
    ghost predicate Valid()
      reads this
    {
      HoursMatchMinutes(rows)
    }

    /** The value the duration field of row `j` shows: the stored minutes in hours. */
    function ShownDuration(j: nat): (h: real)
      reads this
      requires Valid() && j < |rows|
      ensures h == rows[j].durationMinutes / 60.0
    {
      ShownHoursAreStoredMinutes(rows);
      rows[j].durationHours
    }

    /** The dialog as it opens: `musterRows(defaultMusterConfiguration) || []`, no error, enabled. */
    constructor (original: Option<seq<MusterConfiguration>>,
                 validate: seq<MusterConfigurationRow> -> Option<string>,
                 keyOf: nat -> string, timeOf: string -> Instant)
      ensures this.original == original && this.validate == validate
      ensures rows == MusterRows(original, keyOf, timeOf).GetOr([])
      ensures errorMessage == None && !formDisabled
      ensures Valid()
      ensures original.Some? ==> Configurations(rows) == original.value && !CanSave()
    {
      this.original := original;
      this.validate := validate;
      rows := MusterRows(original, keyOf, timeOf).GetOr([]);
      errorMessage := None;
      formDisabled := false;
      new;
      if original.Some? {
        LoadRoundTrip(original.value, keyOf, timeOf);
      }
    }

    /** `addMusterWindow`: one default row appended after the existing ones. */
    method AddMusterWindow(guessedTimezone: string, freshKey: string, midnight: Instant)
      requires Valid()
      modifies this`rows
      ensures Valid()
      ensures rows == old(rows) + [DefaultRow(guessedTimezone, freshKey, midnight)]
      ensures |rows| == |old(rows)| + 1 && rows[..|old(rows)|] == old(rows)
      ensures !old(HasChanges(original, rows)) ==> HasChanges(original, rows)
    {
      var row := DefaultRow(guessedTimezone, freshKey, midnight);
      AppendKeepsHoursMatch(rows, row);
      if !HasChanges(original, rows) {
        AppendIsAChange(original, rows, row);
      }
      rows := rows + [row];
    }

    /** `resetErrorMessage`. */
    method ResetErrorMessage()
      modifies this`errorMessage
      ensures errorMessage == ResetError(old(errorMessage))
    {
      if IsTruthy(errorMessage) {
        errorMessage := None;
      }
    }

    /** `setMusterTimezone`. */
    method SetMusterTimezone(rowKey: string, timezone: string)
      requires Valid()
      modifies this`rows, this`errorMessage
      ensures Valid()
      ensures rows == EditRow(old(rows), rowKey, SetTimezone(timezone))
      ensures errorMessage == ResetError(old(errorMessage))
    {
      EditKeepsHoursMatch(rows, rowKey, SetTimezone(timezone));
      var configuration := rows;
      var index := FindIndex(configuration, rowKey);
      if index >= 0 {
        configuration := configuration[index := configuration[index].(timezone := timezone)];
      }
      rows := configuration;
      ResetErrorMessage();
    }

    /** `setMusterDuration`; `parsed` is the `parseFloat` of the field, None for NaN. */
    method SetMusterDuration(rowKey: string, parsed: Option<real>)
      requires Valid()
      modifies this`rows, this`errorMessage
      ensures Valid()
      ensures rows == EditRow(old(rows), rowKey, SetDuration(parsed))
      ensures IndexOf(old(rows), rowKey) >= 0 ==> rows[IndexOf(old(rows), rowKey)].durationMinutes >= 30.0
      ensures errorMessage == ResetError(old(errorMessage))
    {
      EditKeepsHoursMatch(rows, rowKey, SetDuration(parsed));
      // Math.max(0.5, NaN) is NaN
      var value: Option<real> := if parsed.None? then None
                                 else if parsed.value > 0.5 then parsed else Some(0.5);
      if value.None? {
        value := Some(0.5);
      }
      var configuration := rows;
      var index := FindIndex(configuration, rowKey);
      if index >= 0 {
        configuration := configuration[index := configuration[index].(durationHours := value.value)];
        configuration := configuration[index := configuration[index].(durationMinutes := value.value * 60.0)];
      }
      rows := configuration;
      ResetErrorMessage();
    }

    /** `setMusterStartTime`; a null picker value changes nothing at all. */
    method SetMusterStartTime(rowKey: string, date: Option<PickedTime>)
      requires Valid()
      modifies this`rows, this`errorMessage
      ensures Valid()
      ensures date.None? ==> rows == old(rows) && errorMessage == old(errorMessage)
      ensures date.Some? ==> rows == EditRow(old(rows), rowKey, SetStartTime(date.value))
      ensures date.Some? ==> errorMessage == ResetError(old(errorMessage))
    {
      if date.None? {
        return;
      }
      EditKeepsHoursMatch(rows, rowKey, SetStartTime(date.value));
      var configuration := rows;
      var index := FindIndex(configuration, rowKey);
      if index >= 0 {
        configuration := configuration[index := configuration[index].(startTimeDate := date.value.date)];
        configuration := configuration[index := configuration[index].(startTime := date.value.formatted)];
      }
      rows := configuration;
      ResetErrorMessage();
    }

    /**
     * `toggleMusterDay`: flips the day's bit in the row's mask; the error
     * message is cleared only when afterwards no row is left without days.
     */
    method ToggleMusterDay(rowKey: string, day: Weekday)
      requires Valid()
      modifies this`rows, this`errorMessage
      ensures Valid()
      ensures rows == EditRow(old(rows), rowKey, ToggleDay(day))
      ensures errorMessage == if HasEmptyDays(rows) then old(errorMessage) else ResetError(old(errorMessage))
      ensures IndexOf(old(rows), rowKey) >= 0 && !old(HasChanges(original, rows)) ==> HasChanges(original, rows)
    {
      EditKeepsHoursMatch(rows, rowKey, ToggleDay(day));
      if IndexOf(rows, rowKey) >= 0 && !HasChanges(original, rows) {
        ToggleIsAChange(original, rows, rowKey, day);
      }
      var configuration := rows;
      var index := FindIndex(configuration, rowKey);
      if index >= 0 {
        var row := configuration[index];
        configuration := configuration[index := row.(days := Toggle(row.days, day))];
        assert configuration[index] == Apply(row, ToggleDay(day));
      }
      assert configuration == EditRow(rows, rowKey, ToggleDay(day));
      if !HasEmptyDays(configuration) {
        ResetErrorMessage();
      }
      rows := configuration;
    }

    /** `removeMusterWindow`: splices out the first row with the key; the error message stays. */
    method RemoveMusterWindow(rowKey: string)
      requires Valid()
      modifies this`rows
      ensures Valid()
      ensures rows == RemoveRow(old(rows), rowKey)
      ensures IndexOf(old(rows), rowKey) >= 0 && !old(HasChanges(original, rows)) ==> HasChanges(original, rows)
    {
      RemoveKeepsHoursMatch(rows, rowKey);
      if IndexOf(rows, rowKey) >= 0 && !HasChanges(original, rows) {
        RemoveIsAChange(original, rows, rowKey);
      }
      var configuration := rows;
      var index := FindIndex(configuration, rowKey);
      if index >= 0 {
        configuration := configuration[..index] + configuration[index + 1..];
      }
      rows := configuration;
    }

    /** `validateMusterWindows`: shows the validator's message when there is one. */
    method ValidateMusterWindows() returns (ok: bool)
      modifies this`errorMessage
      ensures ok <==> !IsTruthy(validate(rows))
      ensures errorMessage == if ok then old(errorMessage) else validate(rows)
    {
      var validation := validate(rows);
      if IsTruthy(validation) {
        errorMessage := validation;
        return false;
      }
      return true;
    }

    /**
     * `onSave`. An invalid list only shows the validator's message. A valid
     * one disables the form and sends every row's stored fields, in order;
     * `response` is the outcome of that request. Acceptance closes the
     * dialog; a rejection reports the server's first message, or the generic
     * one, and enables the form again.
     */
    method OnSave(response: PutResponse) returns (request: Option<SaveBody>, outcome: SaveOutcome)
      modifies this`errorMessage, this`formDisabled
      ensures IsTruthy(validate(rows)) ==>
                && request == None && outcome == NotSent
                && errorMessage == validate(rows) && formDisabled == old(formDisabled)
      ensures !IsTruthy(validate(rows)) ==>
                && request == Some(SaveBody(Configurations(rows)))
                && errorMessage == old(errorMessage)
                && (response.Accepted? ==> outcome == Closed && formDisabled)
                && (response.Rejected? ==> outcome == ErrorReported(ServerMessage(response.errors)) && !formDisabled)
    {
      var valid := ValidateMusterWindows();
      if !valid {
        return None, NotSent;
      }
      formDisabled := true;
      var current := rows;
      var body := SaveBody(seq(|current|, i requires 0 <= i < |current| =>
        MusterConfiguration(current[i].days, current[i].startTime, current[i].timezone, current[i].durationMinutes)));
      assert body.defaultMusterConfiguration == Configurations(current);
      request := Some(body);
      match response {
        case Accepted =>
          outcome := Closed;
        case Rejected(errors) =>
          var message := "Internal Server Error";
          if errors.Some? && |errors.value| > 0 {
            message := errors.value[0].message;
          }
          outcome := ErrorReported(message);
          formDisabled := false;
      }
    }

    /**
     * `canSave`: enabled, valid and changed. A dialog that can save sends its
     * rows when saved, and never offers to save the stored list unchanged.
     */
    predicate CanSave(): (c: bool)
      reads this
      ensures c ==> !formDisabled && !IsTruthy(validate(rows))
      ensures c && original.Some? ==> Configurations(rows) != original.value
    {
      !formDisabled && !IsTruthy(validate(rows)) && HasChanges(original, rows)
    }

    /**
     * `dayButtonClass`: the error look for a row without days while an error is
     * shown; otherwise on when the day is selected, off when it is not.
     */
    function DayButtonClass(row: MusterConfigurationRow, day: Weekday): (c: DayButton)
      reads this
      ensures c == DayButtonError <==> IsTruthy(errorMessage) && row.days == NONE
      ensures c == DayButtonOn <==> Has(row.days, day)
    {
      NoneHasNoDay(day);
      if IsTruthy(errorMessage) && row.days == NONE then DayButtonError
      else if Has(row.days, day) then DayButtonOn
      else DayButtonOff
    }
  }

  /**
   * A dialog opened on a stored configuration and saved before any edit sends
   * exactly that configuration, when the validator accepts the loaded rows.
   */
  method SaveRightAfterLoad(configs: seq<MusterConfiguration>,
                            validate: seq<MusterConfigurationRow> -> Option<string>,
                            keyOf: nat -> string, timeOf: string -> Instant,
                            response: PutResponse)
    returns (request: Option<SaveBody>)
    ensures !IsTruthy(validate(MusterRows(Some(configs), keyOf, timeOf).value)) ==>
              request == Some(SaveBody(configs))
    ensures IsTruthy(validate(MusterRows(Some(configs), keyOf, timeOf).value)) ==> request == None
  {
    var dialog := new DefaultMusterDialog(Some(configs), validate, keyOf, timeOf);
    var outcome;
    request, outcome := dialog.OnSave(response);
  }
}
