/** The "Record Payment" dialog (src/components/PaymentEntryDialog.tsx): a
    form of eight text fields, pre-filled from today's date, whose tenant
    picker also fills in the tenant's room rent, and whose submit turns the
    text into a `payments` row and clears the form. */
module PaymentEntry {
  import opened Wrappers
  import Text

  /** The joined `rooms` row of a tenant; rents are whole rupees. */
  datatype RoomInfo = RoomInfo(roomNumber: string, rentAmount: nat)

  /** An active tenant the picker offers. */
  datatype Tenant = Tenant(id: string, fullName: string, roomId: string, rooms: RoomInfo)

  /** `formData`: every field is the text of its input. */
  datatype FormData = FormData(
    tenantId: string,
    paymentDate: string,
    paymentMonth: string,
    rentAmount: string,
    depositAmount: string,
    otherCharges: string,
    paymentMethod: string,
    remarks: string)

  /** The row `handleSubmit` inserts into `payments`. */
  datatype PaymentRow = PaymentRow(
    tenantId: string,
    ownerId: string,
    paymentDate: string,
    paymentMonth: string,
    rentAmount: ParsedReal,
    depositAmount: ParsedReal,
    otherCharges: ParsedReal,
    paymentMethod: string,
    remarks: Option<string>)

  // ------------------------------------------------------------ month field

  /** The month input's `onChange`: the `YYYY-MM` the browser gives, made the
      first day of that month. */
  function MonthValue(month: string): (date: string)
    ensures |month| == 7 ==> |date| == 10 && date[7..] == "-01" && MonthShown(date) == month
  {
    month + "-01"
  }

  /** What the month input displays: `payment_month.slice(0, 7)`. */
  function MonthShown(paymentMonth: string): (shown: string)
    ensures |shown| <= 7 && shown <= paymentMonth
  {
    Text.Take(paymentMonth, 7)
  }

  /** A month the user picks is displayed back unchanged. */
  lemma MonthRoundTrip(month: string)
    requires |month| == 7
    ensures MonthShown(MonthValue(month)) == month
  {
    assert MonthValue(month)[..7] == month;
  }

  /** A stored first-of-month date is rebuilt exactly from what the input
      shows. */
  lemma StoredMonthRoundTrip(paymentMonth: string)
    requires |paymentMonth| == 10 && paymentMonth[7..] == "-01"
    ensures MonthValue(MonthShown(paymentMonth)) == paymentMonth
  {
    assert paymentMonth == paymentMonth[..7] + paymentMonth[7..];
  }

  // ------------------------------------------------------------- the form

  /** The form as the dialog opens and after each successful submit. `today`
      is the ISO date `new Date().toISOString().split('T')[0]`. */
  function InitialForm(today: string): (f: FormData)
    ensures f.paymentDate == today
    ensures |today| >= 7 ==> MonthShown(f.paymentMonth) == today[..7] && f.paymentMonth[7..] == "-01"
    ensures f.tenantId == "" && f.rentAmount == "" && f.depositAmount == ""
    ensures f.otherCharges == "" && f.paymentMethod == "" && f.remarks == ""
  {
    FormData("", today, MonthValue(Text.Take(today, 7)), "", "", "", "", "")
  }

  /** The fields that a plain input copies its text into. */
  datatype Field = PaymentDate | RentAmount | DepositAmount | OtherCharges | PaymentMethod | Remarks

  function FieldValue(f: FormData, field: Field): string {
    match field
    case PaymentDate => f.paymentDate
    case RentAmount => f.rentAmount
    case DepositAmount => f.depositAmount
    case OtherCharges => f.otherCharges
    case PaymentMethod => f.paymentMethod
    case Remarks => f.remarks
  }

  /** `setFormData(prev => ({ ...prev, <field>: value }))`: the field takes
      the value and every other field keeps its text. */
  function WithField(f: FormData, field: Field, value: string): (g: FormData)
    ensures FieldValue(g, field) == value
    ensures forall other :: other != field ==> FieldValue(g, other) == FieldValue(f, other)
    ensures g.tenantId == f.tenantId && g.paymentMonth == f.paymentMonth
  {
    match field
    case PaymentDate => f.(paymentDate := value)
    case RentAmount => f.(rentAmount := value)
    case DepositAmount => f.(depositAmount := value)
    case OtherCharges => f.(otherCharges := value)
    case PaymentMethod => f.(paymentMethod := value)
    case Remarks => f.(remarks := value)
  }

  // --------------------------------------------------------- tenant picker

  /** `tenants.find(t => t.id === id)`. */
  function FindTenant(tenants: seq<Tenant>, id: string): (r: Option<Tenant>)
    ensures r.None? <==> forall k :: 0 <= k < |tenants| ==> tenants[k].id != id
    ensures r.Some? ==> r.value in tenants && r.value.id == id
  {
    if |tenants| == 0 then None
    else if tenants[0].id == id then Some(tenants[0])
    else FindTenant(tenants[1..], id)
  }

  /** `find` returns the first tenant with the id. */
  lemma {:induction false} FindTenantFirst(tenants: seq<Tenant>, id: string, k: nat)
    requires k < |tenants| && tenants[k].id == id
    requires forall j :: 0 <= j < k ==> tenants[j].id != id
    ensures FindTenant(tenants, id) == Some(tenants[k])
    decreases k
  {
    if k > 0 {
      FindTenantFirst(tenants[1..], id, k - 1);
    }
  }

  /** `selectedTenant?.rooms.rent_amount.toString() || ""`: the decimal
      digits of the tenant's room rent, or nothing for an unknown id. */
  function RentFor(tenants: seq<Tenant>, id: string): (r: string)
    ensures r == "" <==> FindTenant(tenants, id).None?
    ensures forall i :: 0 <= i < |r| ==> Text.IsDigit(r[i])
    ensures r != "" ==> Text.DigitsValue(r) == FindTenant(tenants, id).value.rooms.rentAmount
  {
    match FindTenant(tenants, id)
    case None => ""
    case Some(t) =>
      Text.NatToStringRoundTrip(t.rooms.rentAmount);
      Text.NatToString(t.rooms.rentAmount)
  }

  // ----------------------------------------------------------------- insert

  /** The object passed to `insert`: the text fields as they are, the rent
      through `parseFloat`, an empty deposit or other charge as 0, empty
      remarks as `null`, and the signed-in owner. */
  function BuildInsert(f: FormData, ownerId: string, parse: string -> ParsedReal): (row: PaymentRow)
    ensures row.ownerId == ownerId
    ensures row.tenantId == f.tenantId && row.paymentDate == f.paymentDate
    ensures row.paymentMonth == f.paymentMonth && row.paymentMethod == f.paymentMethod
    ensures row.rentAmount == parse(f.rentAmount)
    ensures f.depositAmount == "" ==> row.depositAmount == Real(0.0)
    ensures f.depositAmount != "" ==> row.depositAmount == parse(f.depositAmount)
    ensures f.otherCharges == "" ==> row.otherCharges == Real(0.0)
    ensures f.otherCharges != "" ==> row.otherCharges == parse(f.otherCharges)
    ensures row.remarks.None? <==> f.remarks == ""
  {
    PaymentRow(
      f.tenantId, ownerId, f.paymentDate, f.paymentMonth,
      parse(f.rentAmount),
      if f.depositAmount != "" then parse(f.depositAmount) else Real(0.0),
      if f.otherCharges != "" then parse(f.otherCharges) else Real(0.0),
      f.paymentMethod,
      if f.remarks != "" then Some(f.remarks) else None)
  }

  /** Remarks survive the insert: reading a missing remark back as empty
      text gives the form's remark. */
  lemma RemarksRoundTrip(f: FormData, ownerId: string, parse: string -> ParsedReal)
    ensures BuildInsert(f, ownerId, parse).remarks.GetOr("") == f.remarks
  {
  }

  // ------------------------------------------------------------------ dialog

  /** The dialog's state: the fetched tenants, the form, and the `payments`
      rows inserted so far. */
  class PaymentDialog {
    const tenants: seq<Tenant>
    var form: FormData
    var payments: seq<PaymentRow>

    constructor (fetched: seq<Tenant>, today: string)
      ensures tenants == fetched && form == InitialForm(today) && payments == []
    {
      tenants := fetched;
      form := InitialForm(today);
      payments := [];
    }

    /** `handleTenantChange`: sets the tenant and its rent, nothing else. */
    method SelectTenant(id: string)
      modifies this`form
      ensures form == old(form).(tenantId := id, rentAmount := RentFor(tenants, id))
      ensures form.rentAmount == "" <==> forall k :: 0 <= k < |tenants| ==> tenants[k].id != id
    {
      form := form.(tenantId := id, rentAmount := RentFor(tenants, id));
    }

    /** The month input: stores the first of the chosen month. */
    method PickMonth(month: string)
      modifies this`form
      ensures form == old(form).(paymentMonth := MonthValue(month))
      ensures |month| == 7 ==> MonthShown(form.paymentMonth) == month
    {
      form := form.(paymentMonth := MonthValue(month));
      if |month| == 7 {
        MonthRoundTrip(month);
      }
    }

    /** Typing into one of the plain inputs. */
    method TypeInto(field: Field, value: string)
      modifies this`form
      ensures form == WithField(old(form), field, value)
    {
      form := WithField(form, field, value);
    }

    /** `handleSubmit`. Without a signed-in user nothing happens. Otherwise
        the row is built from the form; when the insert succeeds it is
        stored and the form starts over from `today`, and when it fails the
        form is left for another try. */
    method Submit(user: Option<string>, parse: string -> ParsedReal, insertOk: bool, today: string)
      returns (inserted: Option<PaymentRow>)
      modifies this`form, this`payments
      ensures user.None? ==> inserted == None && form == old(form) && payments == old(payments)
      ensures user.Some? && insertOk ==>
        && inserted == Some(BuildInsert(old(form), user.value, parse))
        && payments == old(payments) + [inserted.value]
        && form == InitialForm(today)
      ensures user.Some? && !insertOk ==> inserted == None && form == old(form) && payments == old(payments)
      ensures inserted.Some? ==> inserted.value.ownerId == user.value
    {
      if user.None? {
        return None;
      }
      var row := BuildInsert(form, user.value, parse);
      if !insertOk {
        return None;
      }
      payments := payments + [row];
      form := InitialForm(today);
      inserted := Some(row);
    }
  }
}
