/**
 * The records the importer and the store exchange. The structs follow the
 * C++ headers: an `id` of -1 means "none". The `*Columns` types are what a
 * table row stores besides its id, with `None` for SQL NULL.
 */
module Records {
  import opened Basics

  /** The "no id" value of every struct's id and foreign-id fields. */
  const NoId: int := -1

  datatype Payment = Payment(
    id: int,
    date: Bytes,
    docNumber: Bytes,
    paymentType: Bytes,
    amount: real,
    payer: Bytes,
    payerInn: Bytes,
    recipient: Bytes,
    recipientInn: Bytes,
    description: Bytes,
    counterpartyId: int,
    kosguId: int,
    contractId: int,
    invoiceId: int)

  datatype Counterparty = Counterparty(id: int, name: Bytes, inn: Bytes)

  datatype Contract = Contract(id: int, number: Bytes, date: Bytes, counterpartyId: int)

  datatype Invoice = Invoice(id: int, number: Bytes, date: Bytes, contractId: int)

  /** A budget-classification (KOSGU) entry. */
  datatype Kosgu = Kosgu(id: int, code: Bytes, name: Bytes)

  /** One apportioned part of a payment. */
  datatype PaymentDetail = PaymentDetail(
    id: int,
    paymentId: int,
    kosguId: int,
    contractId: int,
    invoiceId: int,
    amount: real)

  // Stored columns, id aside.

  datatype KosguColumns = KosguColumns(code: Bytes, name: Bytes)

  datatype CounterpartyColumns = CounterpartyColumns(name: Bytes, inn: Option<Bytes>)

  datatype ContractColumns = ContractColumns(number: Bytes, date: Bytes, counterpartyId: Option<int>)

  datatype InvoiceColumns = InvoiceColumns(number: Bytes, date: Bytes, contractId: Option<int>)

  datatype PaymentColumns = PaymentColumns(
    date: Bytes,
    docNumber: Bytes,
    paymentType: Bytes,
    amount: real,
    recipient: Bytes,
    description: Bytes,
    counterpartyId: Option<int>)

  datatype DetailColumns = DetailColumns(
    paymentId: int,
    kosguId: int,
    contractId: int,
    invoiceId: int,
    amount: real)

  /** How a foreign id is bound: -1 as NULL, anything else as the integer. */
  function NullIfNoId(id: int): (r: Option<int>)
    ensures r.None? <==> id == NoId
    ensures r.Some? ==> r.value == id
  {
    if id == NoId then None else Some(id)
  }

  /** How an inn is bound: the empty string as NULL. */
  function NullIfEmpty(s: Bytes): (r: Option<Bytes>)
    ensures r.None? <==> s == []
    ensures r.Some? ==> r.value == s
  {
    if s == [] then None else Some(s)
  }

  /** `addKosguEntry` and `updateKosguEntry` bind the code and the name as text. */
  function KosguRecord(e: Kosgu): (r: KosguColumns)
    ensures r.code == e.code && r.name == e.name
  {
    KosguColumns(e.code, e.name)
  }

  /** The name as text; an empty inn as NULL, any other as text. */
  function CounterpartyRecord(c: Counterparty): (r: CounterpartyColumns)
    ensures r.name == c.name
    ensures r.inn.None? <==> c.inn == []
    ensures r.inn.Some? ==> r.inn.value == c.inn
  {
    CounterpartyColumns(c.name, NullIfEmpty(c.inn))
  }

  /** Number and date as text; a counterparty id of -1 as NULL, any other as the integer. */
  function ContractRecord(c: Contract): (r: ContractColumns)
    ensures r.number == c.number && r.date == c.date
    ensures r.counterpartyId.None? <==> c.counterpartyId == NoId
    ensures r.counterpartyId.Some? ==> r.counterpartyId.value == c.counterpartyId
  {
    ContractColumns(c.number, c.date, NullIfNoId(c.counterpartyId))
  }

  /** Number and date as text; a contract id of -1 as NULL, any other as the integer. */
  function InvoiceRecord(i: Invoice): (r: InvoiceColumns)
    ensures r.number == i.number && r.date == i.date
    ensures r.contractId.None? <==> i.contractId == NoId
    ensures r.contractId.Some? ==> r.contractId.value == i.contractId
  {
    InvoiceColumns(i.number, i.date, NullIfNoId(i.contractId))
  }

  /** The columns `addPayment` and `updatePayment` bind; payer, inns and the per-payment kosgu, contract and invoice ids are not stored. */
  function PaymentRecord(p: Payment): (r: PaymentColumns)
    ensures && r.date == p.date && r.docNumber == p.docNumber && r.paymentType == p.paymentType
            && r.amount == p.amount && r.recipient == p.recipient && r.description == p.description
    ensures r.counterpartyId.None? <==> p.counterpartyId == NoId
    ensures r.counterpartyId.Some? ==> r.counterpartyId.value == p.counterpartyId
  {
    PaymentColumns(p.date, p.docNumber, p.paymentType, p.amount, p.recipient, p.description, NullIfNoId(p.counterpartyId))
  }

  /** `addPaymentDetail` binds every id as an integer, -1 included. */
  function DetailRecord(d: PaymentDetail): (r: DetailColumns)
    ensures && r.paymentId == d.paymentId && r.kosguId == d.kosguId && r.contractId == d.contractId
            && r.invoiceId == d.invoiceId && r.amount == d.amount
  {
    DetailColumns(d.paymentId, d.kosguId, d.contractId, d.invoiceId, d.amount)
  }
}
