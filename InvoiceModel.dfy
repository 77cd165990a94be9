/** The invoice record of models/Invoice.js and the invoice-number format. */
module InvoiceModel {
  import opened Wrappers
  import opened Text
  import opened ObjectIds
  import opened Errors

  datatype InvoiceStatus = Unpaid | Paid | PartiallyPaid | Cancelled

  datatype PaymentMethod = Cash | Card | Upi | Insurance

  datatype LineItem = LineItem(description: string, amount: int)

  /** `status` is None once a handler has assigned an absent status to it. */
  datatype Invoice = Invoice(
    number: string,
    patient: Id,
    appointment: Id,
    items: seq<LineItem>,
    totalAmount: int,
    status: Option<InvoiceStatus>,
    paymentMethod: Option<PaymentMethod>)

  /** The consultation fee used whenever none (or zero) is given. */
  const DefaultFee := 500

  const StatusNames: seq<string> := ["Unpaid", "Paid", "Partially Paid", "Cancelled"]
  const MethodNames: seq<string> := ["Cash", "Card", "UPI", "Insurance"]

  function StatusName(s: InvoiceStatus): (r: string)
    ensures r in StatusNames
  {
    match s
    case Unpaid => "Unpaid"
    case Paid => "Paid"
    case PartiallyPaid => "Partially Paid"
    case Cancelled => "Cancelled"
  }

  /** The enum check on `status`. */
  function ParseStatus(name: string): (r: Option<InvoiceStatus>)
    ensures r.Some? <==> name in StatusNames
    ensures r.Some? ==> StatusName(r.value) == name
  {
    if name == "Unpaid" then Some(Unpaid)
    else if name == "Paid" then Some(Paid)
    else if name == "Partially Paid" then Some(PartiallyPaid)
    else if name == "Cancelled" then Some(InvoiceStatus.Cancelled)
    else None
  }

  lemma StatusNameRoundTrip(s: InvoiceStatus)
    ensures ParseStatus(StatusName(s)) == Some(s)
  {
  }

  /** `status || 'Unpaid'` on a new invoice, then the enum check. */
  function StatusOrUnpaid(status: Option<string>): (r: Outcome<InvoiceStatus>)
    ensures status.None? || status.value == "" ==> r == Ok(Unpaid)
    ensures status.Some? && status.value != "" ==>
      (r.Ok? <==> status.value in StatusNames) && (r.Ok? ==> StatusName(r.value) == status.value)
    ensures r.Fail? ==> r == Fail(ValidationFailed("status"))
  {
    if status.None? || status.value == "" then Ok(Unpaid)
    else match ParseStatus(status.value)
      case Some(s) => Ok(s)
      case None => Fail(ValidationFailed("status"))
  }

  /**
   * `invoice.status = status` on an existing invoice, then the enum check on save:
   * an absent status unsets the field, any other string must be one of the names.
   */
  function AssignedStatus(status: Option<string>): (r: Outcome<Option<InvoiceStatus>>)
    ensures status.None? ==> r == Ok(None)
    ensures status.Some? ==> (r.Ok? <==> status.value in StatusNames)
    ensures status.Some? && r.Ok? ==> r.value.Some? && StatusName(r.value.value) == status.value
    ensures r.Fail? ==> r == Fail(ValidationFailed("status"))
  {
    if status.None? then Ok(None)
    else match ParseStatus(status.value)
      case Some(s) => Ok(Some(s))
      case None => Fail(ValidationFailed("status"))
  }

  function MethodName(m: PaymentMethod): (r: string)
    ensures r in MethodNames
  {
    match m
    case Cash => "Cash"
    case Card => "Card"
    case Upi => "UPI"
    case Insurance => "Insurance"
  }

  /** The enum check on `paymentMethod`. */
  function ParseMethod(name: string): (r: Option<PaymentMethod>)
    ensures r.Some? <==> name in MethodNames
    ensures r.Some? ==> MethodName(r.value) == name
  {
    if name == "Cash" then Some(Cash)
    else if name == "Card" then Some(Card)
    else if name == "UPI" then Some(Upi)
    else if name == "Insurance" then Some(Insurance)
    else None
  }

  function Total(items: seq<LineItem>): int {
    if items == [] then 0 else items[0].amount + Total(items[1..])
  }

  /** `consultationFee || 500`: an absent or zero fee becomes the default. */
  function FinalFee(fee: Option<int>): (f: int)
    ensures fee.None? || fee.value == 0 ==> f == DefaultFee
    ensures fee.Some? && fee.value != 0 ==> f == fee.value
    ensures f != 0
  {
    if fee.None? || fee.value == 0 then DefaultFee else fee.value
  }

  /** An invoice billing one "Consultation Fee" line; its total is the sum of its lines. */
  function ConsultationInvoice(number: string, patient: Id, appointment: Id, fee: int, status: InvoiceStatus): (inv: Invoice)
    ensures inv.items == [LineItem("Consultation Fee", fee)]
    ensures inv.totalAmount == Total(inv.items) == fee
    ensures inv.status == Some(status) && inv.paymentMethod.None?
    ensures inv.number == number && inv.patient == patient && inv.appointment == appointment
  {
    Invoice(number, patient, appointment, [LineItem("Consultation Fee", fee)], fee, Some(status), None)
  }

  /** `INV-${Date.now()}-${Math.floor(Math.random() * 1000)}` for the clock `time` and the draw. */
  function InvoiceNumber(time: nat, draw: nat): (s: string)
    requires draw < 1000
    ensures |s| > 4 && s[..4] == "INV-"
  {
    "INV-" + Decimal(time) + "-" + Decimal(draw)
  }

  /** Reads a number of the form INV-<digits>-<digits> back into its two parts. */
  function ParseInvoiceNumber(s: string): (r: Option<(nat, nat)>)
  {
    if |s| < 4 || s[..4] != "INV-" then None
    else
      var rest := s[4..];
      match IndexOf(rest, '-')
      case None => None
      case Some(k) =>
        var a, b := rest[..k], rest[k + 1..];
        if a != [] && b != [] && AllDigits(a) && AllDigits(b) then Some((DecimalValue(a), DecimalValue(b)))
        else None
  }

  lemma {:induction false} InvoiceNumberRoundTrip(time: nat, draw: nat)
    requires draw < 1000
    ensures ParseInvoiceNumber(InvoiceNumber(time, draw)) == Some((time, draw))
  {
    var s := InvoiceNumber(time, draw);
    var t, d := Decimal(time), Decimal(draw);
    var rest := s[4..];
    assert rest == t + "-" + d;
    assert '-' !in t;
    assert rest[..|t|] == t;
    assert IndexOf(rest, '-') == Some(|t|);
    assert rest[|t| + 1..] == d;
    DecimalRoundTrip(time);
    DecimalRoundTrip(draw);
  }

  /**
   * Two invoice numbers coincide exactly when they were made in the same
   * millisecond with the same draw; the unique index then rejects the second.
   */
  lemma InvoiceNumberCollision(t1: nat, d1: nat, t2: nat, d2: nat)
    requires d1 < 1000 && d2 < 1000
    ensures InvoiceNumber(t1, d1) == InvoiceNumber(t2, d2) <==> t1 == t2 && d1 == d2
  {
    InvoiceNumberRoundTrip(t1, d1);
    InvoiceNumberRoundTrip(t2, d2);
  }
}
