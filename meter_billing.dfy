/** The electricity meter panel of a room (src/components/MeterDetailsModal.tsx):
    validating a new reading against the latest one, the units consumed
    since then, the bill returned by the `calculate_electricity_bill`
    database function, and the totals shown over the fetched readings.

    Dates are day numbers (the ISO `yyyy-MM-dd` strings compared through
    `new Date`). The `meter_readings` rows of one meter are kept newest
    first, which is the order the panel fetches them in. */
module MeterBilling {
  import opened Wrappers

  /** The panel fetches at most this many readings (`.limit(10)`). */
  const FetchLimit: nat := 10

  datatype Meter = Meter(id: string, startingReading: real)

  /** One row of `meter_readings`. */
  datatype MeterReading = MeterReading(
    readingValue: real,
    readingDate: int,
    unitsConsumed: real,
    billAmount: real,
    recordedBy: Option<string>)

  /** The three errors `validateReading` throws, in the order it checks them. */
  datatype ReadingError =
    | NonPositiveValue
    | BelowLastReading(lastValue: real)
    | BeforeLastDate

  /** What the bill RPC answers: an error, or its `data`, which may be null. */
  datatype BillRpc = RpcError | RpcData(data: Option<real>)

  /** Why adding a reading stopped. */
  datatype AddError = Invalid(reason: ReadingError) | InsertFailed

  // ------------------------------------------------------------ validation

  /** `validateReading`: the latest reading is `readings[0]`. */
  function ValidateReading(readings: seq<MeterReading>, value: real, date: int): (r: Outcome<ReadingError>)
    ensures r.Pass? <==>
      value > 0.0 && (|readings| == 0 || (readings[0].readingValue <= value && readings[0].readingDate <= date))
    ensures value <= 0.0 ==> r == Fail(NonPositiveValue)
    ensures r == Fail(NonPositiveValue) ==> value <= 0.0
    ensures r.Fail? && r.error.BelowLastReading? ==>
      value > 0.0 && |readings| > 0 && value < readings[0].readingValue && r.error.lastValue == readings[0].readingValue
    ensures r == Fail(BeforeLastDate) ==>
      value > 0.0 && |readings| > 0 && readings[0].readingValue <= value && date < readings[0].readingDate
  {
    if value <= 0.0 then Fail(NonPositiveValue)
    else if |readings| > 0 && value < readings[0].readingValue then Fail(BelowLastReading(readings[0].readingValue))
    else if |readings| > 0 && date < readings[0].readingDate then Fail(BeforeLastDate)
    else Pass
  }

  /** The latest reading, or the meter's starting reading when there is
      none yet: the "Current Reading" card, and the value a new reading's
      consumption is measured from. */
  function CurrentReading(meter: Meter, readings: seq<MeterReading>): (r: real)
    ensures |readings| == 0 ==> r == meter.startingReading
    ensures NewestFirst(readings) ==> forall i :: 0 <= i < |readings| ==> readings[i].readingValue <= r
  {
    if |readings| > 0 then readings[0].readingValue else meter.startingReading
  }

  /** Units consumed by a new reading. Validation compares only against the
      latest reading, so the result can be negative for a first reading
      below the starting reading. */
  function UnitsConsumed(meter: Meter, readings: seq<MeterReading>, value: real): (u: real)
    ensures u + CurrentReading(meter, readings) == value
    ensures |readings| > 0 && value >= readings[0].readingValue ==> u >= 0.0
  {
    value - CurrentReading(meter, readings)
  }

  /** A reading that passes validation against an existing latest reading
      never consumes a negative number of units. */
  lemma AcceptedReadingConsumesNonNegative(meter: Meter, readings: seq<MeterReading>, value: real, date: int)
    requires |readings| > 0
    requires ValidateReading(readings, value, date).Pass?
    ensures UnitsConsumed(meter, readings, value) >= 0.0
  {
  }

  /** The first reading of a meter is not compared with the starting reading:
      starting at 100 units, a first reading of 50 is accepted and records
      -50 units consumed. */
  lemma FirstReadingBelowStartIsAccepted()
    ensures ValidateReading([], 50.0, 0) == Pass
    ensures UnitsConsumed(Meter("m", 100.0), [], 50.0) == -50.0
  {
  }

  /** `calculateBill`: an RPC error, a null result and a zero result all
      give 0. */
  function CalculateBill(answer: BillRpc): (b: real)
    ensures answer.RpcError? ==> b == 0.0
    ensures answer == RpcData(None) ==> b == 0.0
    ensures answer.RpcData? && answer.data.Some? ==> b == answer.data.value
  {
    match answer
    case RpcError => 0.0
    case RpcData(None) => 0.0
    case RpcData(Some(v)) => v
  }

  /** The row `handleAddReading` inserts for an accepted reading. */
  function NewRow(meter: Meter, readings: seq<MeterReading>, value: real, date: int,
                  tariff: real -> BillRpc, user: Option<string>): (row: MeterReading)
    ensures row.readingValue == value && row.readingDate == date && row.recordedBy == user
    ensures row.unitsConsumed == UnitsConsumed(meter, readings, value)
    ensures row.billAmount == CalculateBill(tariff(row.unitsConsumed))
  {
    var units := UnitsConsumed(meter, readings, value);
    MeterReading(value, date, units, CalculateBill(tariff(units)), user)
  }

  // ---------------------------------------------------------------- totals

  /** `getTotalConsumption`: the sum of `units_consumed`. */
  function TotalConsumption(readings: seq<MeterReading>): (t: real)
    ensures (forall i :: 0 <= i < |readings| ==> readings[i].unitsConsumed >= 0.0) ==> t >= 0.0
  {
    if |readings| == 0 then 0.0 else readings[0].unitsConsumed + TotalConsumption(readings[1..])
  }

  /** `getTotalBill`: the sum of `bill_amount`. */
  function TotalBill(readings: seq<MeterReading>): (t: real)
    ensures (forall i :: 0 <= i < |readings| ==> readings[i].billAmount >= 0.0) ==> t >= 0.0
  {
    if |readings| == 0 then 0.0 else readings[0].billAmount + TotalBill(readings[1..])
  }

  /** Both totals are folds: the total of two runs of readings is the sum of
      their totals, and the total of no readings is 0. */
  lemma {:induction false} TotalsAppend(a: seq<MeterReading>, b: seq<MeterReading>)
    ensures TotalConsumption(a + b) == TotalConsumption(a) + TotalConsumption(b)
    ensures TotalBill(a + b) == TotalBill(a) + TotalBill(b)
    ensures TotalConsumption([]) == 0.0 && TotalBill([]) == 0.0
    decreases |a|
  {
    if |a| == 0 {
      assert a + b == b;
    } else {
      TotalsAppend(a[1..], b);
      assert (a + b)[1..] == a[1..] + b;
    }
  }

  // ---------------------------------------------------------------- ledger

  /** The readings the panel fetches: the newest `FetchLimit` rows. */
  function Latest(rows: seq<MeterReading>): (r: seq<MeterReading>)
    ensures |r| <= FetchLimit && r <= rows
    ensures |rows| <= FetchLimit ==> r == rows
    ensures |rows| > FetchLimit ==> |r| == FetchLimit
    ensures |rows| > 0 ==> |r| > 0 && r[0] == rows[0]
  {
    if |rows| <= FetchLimit then rows else rows[..FetchLimit]
  }

  /** Rows newest first: dates and values never increase down the list. */
  ghost predicate NewestFirst(rows: seq<MeterReading>) {
    forall i, j :: 0 <= i < j < |rows| ==>
      rows[j].readingDate <= rows[i].readingDate && rows[j].readingValue <= rows[i].readingValue
  }

  /** The reading each row was measured from: the row below it, or the
      starting reading for the oldest row. */
  function PreviousValue(rows: seq<MeterReading>, i: nat, start: real): real {
    if i + 1 < |rows| then rows[i + 1].readingValue else start
  }

  /** Every row's `units_consumed` is its value minus the reading before it. */
  ghost predicate Chained(rows: seq<MeterReading>, start: real) {
    forall i :: 0 <= i < |rows| ==> rows[i].unitsConsumed == rows[i].readingValue - PreviousValue(rows, i, start)
  }

  /** Accepting a reading keeps the rows newest first. */
  lemma AcceptedReadingKeepsOrder(rows: seq<MeterReading>, row: MeterReading)
    requires NewestFirst(rows)
    requires ValidateReading(Latest(rows), row.readingValue, row.readingDate).Pass?
    ensures NewestFirst([row] + rows)
  {
    var rs := [row] + rows;
    forall i, j | 0 <= i < j < |rs|
      ensures rs[j].readingDate <= rs[i].readingDate && rs[j].readingValue <= rs[i].readingValue
    {
      if i == 0 {
        assert rs[j] == rows[j - 1];
        assert rows[0] == Latest(rows)[0];
      } else {
        assert rs[i] == rows[i - 1] && rs[j] == rows[j - 1];
      }
    }
  }

  /** Accepting a reading keeps every row's consumption chained to the row
      before it. */
  lemma AcceptedReadingKeepsChain(meter: Meter, rows: seq<MeterReading>, row: MeterReading)
    requires Chained(rows, meter.startingReading)
    requires row.unitsConsumed == UnitsConsumed(meter, Latest(rows), row.readingValue)
    ensures Chained([row] + rows, meter.startingReading)
  {
    var rs := [row] + rows;
    forall i | 0 <= i < |rs|
      ensures rs[i].unitsConsumed == rs[i].readingValue - PreviousValue(rs, i, meter.startingReading)
    {
      if i > 0 {
        assert rs[i] == rows[i - 1];
        assert PreviousValue(rs, i, meter.startingReading) == PreviousValue(rows, i - 1, meter.startingReading);
      }
    }
  }

  /** Both halves of the ledger invariant survive an accepted reading. */
  lemma AcceptedReadingKeepsLedger(meter: Meter, rows: seq<MeterReading>, row: MeterReading)
    requires NewestFirst(rows) && Chained(rows, meter.startingReading)
    requires ValidateReading(Latest(rows), row.readingValue, row.readingDate).Pass?
    requires row.unitsConsumed == UnitsConsumed(meter, Latest(rows), row.readingValue)
    ensures NewestFirst([row] + rows) && Chained([row] + rows, meter.startingReading)
  {
    AcceptedReadingKeepsOrder(rows, row);
    AcceptedReadingKeepsChain(meter, rows, row);
  }

  /** The consumption of a chained run of rows telescopes: it is the newest
      value minus the value the oldest row was measured from. */
  lemma {:induction false} ConsumptionTelescopes(rows: seq<MeterReading>, start: real)
    requires Chained(rows, start)
    ensures TotalConsumption(rows) == if |rows| == 0 then 0.0 else rows[0].readingValue - start
    decreases |rows|
  {
    if |rows| > 0 {
      var tail := rows[1..];
      forall i | 0 <= i < |tail|
        ensures tail[i].unitsConsumed == tail[i].readingValue - PreviousValue(tail, i, start)
      {
        assert tail[i] == rows[i + 1];
        assert PreviousValue(tail, i, start) == PreviousValue(rows, i + 1, start);
      }
      ConsumptionTelescopes(tail, start);
    }
  }

  /** The "Total Consumption" card over the fetched rows is the current
      reading minus the reading just below the window: the starting reading
      while the meter has at most ten readings. */
  lemma WindowConsumption(meter: Meter, rows: seq<MeterReading>)
    requires Chained(rows, meter.startingReading)
    ensures TotalConsumption(Latest(rows)) ==
      CurrentReading(meter, Latest(rows)) -
        (if |rows| <= FetchLimit then meter.startingReading else rows[FetchLimit].readingValue)
  {
    if |rows| <= FetchLimit {
      ConsumptionTelescopes(rows, meter.startingReading);
    } else {
      var w := Latest(rows);
      var below := rows[FetchLimit].readingValue;
      forall i | 0 <= i < |w|
        ensures w[i].unitsConsumed == w[i].readingValue - PreviousValue(w, i, below)
      {
        assert w[i] == rows[i];
        assert PreviousValue(w, i, below) == PreviousValue(rows, i, meter.startingReading);
      }
      ConsumptionTelescopes(w, below);
    }
  }

  /** In a newest-first ledger the current reading is the largest value ever
      recorded. */
  lemma CurrentIsLargest(meter: Meter, rows: seq<MeterReading>)
    requires NewestFirst(rows)
    ensures forall i :: 0 <= i < |rows| ==> rows[i].readingValue <= CurrentReading(meter, Latest(rows))
  {
    forall i | 0 <= i < |rows|
      ensures rows[i].readingValue <= CurrentReading(meter, Latest(rows))
    {
      assert Latest(rows)[0] == rows[0];
    }
  }

  // ------------------------------------------------------------ the panel

  /** The panel's state: the meter's rows in the store, the fetched window,
      and the "Add New Reading" form. */
  class MeterPanel {
    const meter: Meter
    var stored: seq<MeterReading>
    var readings: seq<MeterReading>
    var formDate: int
    var formValue: string
    var addingReading: bool

    /** The panel shows the newest rows of the store. */
    ghost predicate Valid()
      reads this
    {
      readings == Latest(stored)
    }

    /** The store is a ledger: newest first, every row chained to the one
        below it and the oldest to the starting reading. Rows written
        elsewhere need not keep this; rows added through the panel do. */
    ghost predicate Ledger()
      reads this
    {
      NewestFirst(stored) && Chained(stored, meter.startingReading)
    }

    /** Opening the panel on a meter whose store holds `existing` (newest
        first) fetches the newest ten rows; the form's date is today. A
        meter with no readings yet is the case `existing == []`, whose
        store is a ledger. */
    constructor (meter: Meter, existing: seq<MeterReading>, today: int)
      ensures Valid()
      ensures this.meter == meter && stored == existing && readings == Latest(existing)
      ensures existing == [] ==> Ledger()
      ensures formDate == today && formValue == "" && !addingReading
    {
      this.meter := meter;
      stored := existing;
      readings := Latest(existing);
      formDate := today;
      formValue := "";
      addingReading := false;
    }

    /** The "Add Reading" button opens the form. */
    method StartAdding()
      modifies this`addingReading
      ensures addingReading
    {
      addingReading := true;
    }

    /** The form's "Cancel" button closes it and keeps what was typed. */
    method CancelAdding()
      modifies this`addingReading
      ensures !addingReading
    {
      addingReading := false;
    }

    /** Typing into the form's date and value inputs. */
    method EditForm(date: int, value: string)
      modifies this`formDate, this`formValue
      ensures formDate == date && formValue == value
    {
      formDate := date;
      formValue := value;
    }

    /** `handleAddReading`. `value` is `parseFloat` of the typed value (the
        "Save Reading" button is disabled while the input is empty);
        `tariff` is the `calculate_electricity_bill` database function;
        `insertOk` says whether the store accepted the insert; `today` is
        the date the form is reset to. After a successful insert the
        readings are fetched again. */
    method AddReading(value: real, tariff: real -> BillRpc, insertOk: bool, user: Option<string>, today: int)
      returns (result: Outcome<AddError>)
      requires Valid()
      requires addingReading && formValue != ""
      modifies this
      ensures Valid()
      ensures old(Ledger()) ==> Ledger()
      ensures ValidateReading(old(readings), value, old(formDate)).Fail? ==>
        && result == Fail(Invalid(ValidateReading(old(readings), value, old(formDate)).error))
        && stored == old(stored) && readings == old(readings)
        && formDate == old(formDate) && formValue == old(formValue) && addingReading
      ensures ValidateReading(old(readings), value, old(formDate)).Pass? && !insertOk ==>
        && result == Fail(InsertFailed)
        && stored == old(stored) && readings == old(readings)
        && formDate == old(formDate) && formValue == old(formValue) && addingReading
      ensures ValidateReading(old(readings), value, old(formDate)).Pass? && insertOk ==>
        && result == Pass
        && stored == [NewRow(meter, old(readings), value, old(formDate), tariff, user)] + old(stored)
        && readings == Latest(stored)
        && formDate == today && formValue == "" && !addingReading
    {
      ghost var wasLedger := Ledger();
      var check := ValidateReading(readings, value, formDate);
      if check.Fail? {
        result := Fail(Invalid(check.error));
        return;
      }
      var row := NewRow(meter, readings, value, formDate, tariff, user);
      if !insertOk {
        result := Fail(InsertFailed);
        return;
      }
      if wasLedger {
        AcceptedReadingKeepsLedger(meter, stored, row);
      }
      stored := [row] + stored;
      formDate, formValue := today, "";
      addingReading := false;
      readings := Latest(stored);
      result := Pass;
    }
  }
}
