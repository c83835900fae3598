/**
 * The battery readout of the default status line (`battery` in
 * stats.js): the charge level from the power-supply class's `capacity`
 * attribute, in brackets while the `status` attribute says the battery is
 * charging or full.
 */
module Battery {
  import opened Strings

  /** What the two attribute files held when read, untrimmed. */
  datatype Readings = Readings(capacity: string, status: string)

  /**
   * The values of the `status` attribute that the switch names, as the
   * Linux power-supply class ABI lists them, and every other text.
   */
  datatype ChargeStatus = Charging | Full | Discharging | NotCharging | Unknown | Unlisted

  function StatusOf(status: string): ChargeStatus
  {
    if status == "Charging" then Charging
    else if status == "Full" then Full
    else if status == "Discharging" then Discharging
    else if status == "Not charging" then NotCharging
    else if status == "Unknown" then Unknown
    else Unlisted
  }

  /** Whether the readout is bracketed for this status. */
  predicate IsCharging(s: ChargeStatus)
  {
    s == Charging || s == Full
  }

  /** The readout of a level: `[level%]` while charging, `level%` otherwise. */
  function Readout(level: string, charging: bool): string
  {
    if charging then "[" + level + "%]" else level + "%"
  }

  /** The readout for the two attribute values as read. */
  function BatteryText(capacity: string, status: string): string
  {
    Readout(Trim(capacity), IsCharging(StatusOf(Trim(status))))
  }

  /** A bracketed readout, `[...%]`. */
  predicate Bracketed(text: string)
  {
    |text| >= 3 && text[0] == '[' && text[|text| - 2..] == "%]"
  }

  /** The level a readout shows, with brackets and percent sign taken off. */
  function ShownLevel(text: string): string
  {
    if Bracketed(text) then text[1..|text| - 2]
    else if text != [] && text[|text| - 1] == '%' then text[..|text| - 1]
    else text
  }

  /** A numeric level reads back from its readout, and so does whether it was charging. */
  lemma {:induction false} ReadoutReadsBack(level: string, charging: bool)
    requires AllDigits(level)
    ensures Bracketed(Readout(level, charging)) <==> charging
    ensures ShownLevel(Readout(level, charging)) == level
  {
    var text := Readout(level, charging);
    if charging {
      assert text[1..|text| - 2] == level;
    } else {
      assert text[..|text| - 1] == level;
      if |text| >= 3 {
        assert text[|text| - 2] == level[|level| - 1];
      }
    }
  }

  /**
   * For a numeric capacity, as the ABI promises, the readout is bracketed
   * exactly when the status is "Charging" or "Full", and it shows the
   * capacity unchanged apart from trimming.
   */
  lemma {:induction false} BatteryTextReadsBack(capacity: string, status: string)
    requires AllDigits(Trim(capacity))
    ensures Bracketed(BatteryText(capacity, status)) <==> IsCharging(StatusOf(Trim(status)))
    ensures ShownLevel(BatteryText(capacity, status)) == Trim(capacity)
  {
    ReadoutReadsBack(Trim(capacity), IsCharging(StatusOf(Trim(status))));
  }

  /**
   * The attribute files end in a newline; trimming makes the readout the
   * same as for the bare values.
   */
  lemma {:induction false} TrailingNewlineIgnored(capacity: string, status: string)
    ensures BatteryText(capacity + "\n", status + "\n") == BatteryText(capacity, status)
  {
    TrimDropsLineFeed(capacity);
    TrimDropsLineFeed(status);
  }

  /** Every status other than "Charging" and "Full", listed or not, shows the bare level. */
  lemma {:induction false} OtherStatusesBare(capacity: string, status: string)
    requires Trim(status) != "Charging" && Trim(status) != "Full"
    ensures BatteryText(capacity, status) == Trim(capacity) + "%"
  {
    var st := Trim(status);
    assert !IsCharging(StatusOf(st));
  }
}
