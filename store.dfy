/**
 * What `DatabaseManager` does to the SQLite database, as functions on a
 * value `Db`: whether a connection is open and the rows of the six tables.
 * Every operation on a closed manager fails (-1 for lookups, false for
 * writes) and changes nothing; an INSERT fails exactly when a UNIQUE or CHECK
 * constraint of the schema would be broken; an UPDATE or DELETE whose id
 * matches no row succeeds and changes nothing. Foreign keys are not enforced
 * (the connection never turns them on), so no write checks a referenced row
 * and no delete cascades.
 */
module Store {
  import opened Basics
  import opened Records
  import opened Tables

  datatype Db = Db(
    isOpen: bool,
    kosgu: Table<KosguColumns>,
    counterparties: Table<CounterpartyColumns>,
    contracts: Table<ContractColumns>,
    invoices: Table<InvoiceColumns>,
    payments: Table<PaymentColumns>,
    details: Table<DetailColumns>)

  /** The result of a write that reports only success. */
  datatype Status = Status(db: Db, ok: bool)

  /** The result of an INSERT that writes the new id back into its argument. */
  datatype Added<T> = Added(db: Db, ok: bool, item: T)

  // ------------------------------------------------------------ invariants

  predicate IsPaymentType(t: Bytes) {
    t == Income || t == Expense
  }

  /** `code TEXT NOT NULL UNIQUE` */
  ghost predicate UniqueCodes(rows: seq<Row<KosguColumns>>) {
    forall i, j :: 0 <= i < j < |rows| ==> rows[i].fields.code != rows[j].fields.code
  }

  /** `inn TEXT UNIQUE`, and an empty inn is always stored as NULL. */
  ghost predicate InnsValid(rows: seq<Row<CounterpartyColumns>>) {
    && (forall i :: 0 <= i < |rows| && rows[i].fields.inn.Some? ==> rows[i].fields.inn.value != [])
    && (forall i, j :: 0 <= i < j < |rows| && rows[i].fields.inn.Some? ==> rows[i].fields.inn != rows[j].fields.inn)
  }

  /** `CHECK(type IN ('income', 'expense'))` */
  ghost predicate TypesValid(rows: seq<Row<PaymentColumns>>) {
    forall i :: 0 <= i < |rows| ==> IsPaymentType(rows[i].fields.paymentType)
  }

  /** The schema's constraints together with AUTOINCREMENT's id discipline. */
  ghost predicate Valid(db: Db) {
    && ValidTable(db.kosgu)
    && ValidTable(db.counterparties)
    && ValidTable(db.contracts)
    && ValidTable(db.invoices)
    && ValidTable(db.payments)
    && ValidTable(db.details)
    && UniqueCodes(db.kosgu.rows)
    && InnsValid(db.counterparties.rows)
    && TypesValid(db.payments.rows)
  }

  // ------------------------------------------------------------ keys

  predicate CodeTaken(rows: seq<Row<KosguColumns>>, code: Bytes) {
    exists i :: 0 <= i < |rows| && rows[i].fields.code == code
  }

  predicate CodeTakenByOther(rows: seq<Row<KosguColumns>>, code: Bytes, id: int) {
    exists i :: 0 <= i < |rows| && rows[i].id != id && rows[i].fields.code == code
  }

  predicate InnTaken(rows: seq<Row<CounterpartyColumns>>, inn: Bytes) {
    exists i :: 0 <= i < |rows| && rows[i].fields.inn == Some(inn)
  }

  predicate InnTakenByOther(rows: seq<Row<CounterpartyColumns>>, inn: Bytes, id: int) {
    exists i :: 0 <= i < |rows| && rows[i].id != id && rows[i].fields.inn == Some(inn)
  }

  predicate HasNameWithoutInn(rows: seq<Row<CounterpartyColumns>>, name: Bytes) {
    exists i :: 0 <= i < |rows| && rows[i].fields.name == name && rows[i].fields.inn.None?
  }

  predicate HasNameInn(rows: seq<Row<CounterpartyColumns>>, name: Bytes, inn: Bytes) {
    exists i :: 0 <= i < |rows| && rows[i].fields.name == name && rows[i].fields.inn == Some(inn)
  }

  predicate HasContract(rows: seq<Row<ContractColumns>>, number: Bytes, date: Bytes) {
    exists i :: 0 <= i < |rows| && rows[i].fields.number == number && rows[i].fields.date == date
  }

  predicate HasInvoice(rows: seq<Row<InvoiceColumns>>, number: Bytes, date: Bytes) {
    exists i :: 0 <= i < |rows| && rows[i].fields.number == number && rows[i].fields.date == date
  }

  // ------------------------------------------------------------ connection

  /** A new manager holds no connection. */
  function Initial(): (db: Db)
    ensures !db.isOpen && Valid(db)
  {
    Db(false, EmptyTable(), EmptyTable(), EmptyTable(), EmptyTable(), EmptyTable(), EmptyTable())
  }

  /** `open`: any open connection is closed and the file's tables `file` become current. */
  function Open(file: Db): (db: Db)
    ensures db.isOpen
    ensures db.(isOpen := file.isOpen) == file
  {
    file.(isOpen := true)
  }

  /** `close`: the tables stay in the file, the connection goes. */
  function Close(db: Db): (r: Db)
    ensures !r.isOpen
    ensures r.(isOpen := db.isOpen) == db
  {
    db.(isOpen := false)
  }

  // ------------------------------------------------------------ lookups

  /** `getKosguIdByCode`: the id of the first row (in rowid order) with that code, or -1. */
  function KosguIdByCode(db: Db, code: Bytes): (id: int)
    ensures id == NoId <==> !db.isOpen || !CodeTaken(db.kosgu.rows, code)
  {
    if !db.isOpen then NoId
    else match FindFirst(db.kosgu.rows, (f: KosguColumns) => f.code == code)
      case None => NoId
      case Some(id) => id
  }

  /** A found id is that of the first row with the code. */
  lemma KosguIdByCodeFirst(db: Db, code: Bytes)
    ensures var id := KosguIdByCode(db, code);
      id != NoId ==> exists i :: 0 <= i < |db.kosgu.rows| && db.kosgu.rows[i].id == id && db.kosgu.rows[i].fields.code == code
                        && forall j :: 0 <= j < i ==> db.kosgu.rows[j].fields.code != code
  {
  }

  /** `getCounterpartyIdByName`: only rows whose inn is NULL match. */
  function CounterpartyIdByName(db: Db, name: Bytes): (id: int)
    ensures id == NoId <==> !db.isOpen || !HasNameWithoutInn(db.counterparties.rows, name)
    ensures id != NoId ==> exists i :: 0 <= i < |db.counterparties.rows| && db.counterparties.rows[i].id == id
                              && db.counterparties.rows[i].fields.name == name && db.counterparties.rows[i].fields.inn.None?
                              && forall j :: 0 <= j < i ==> !(db.counterparties.rows[j].fields.name == name && db.counterparties.rows[j].fields.inn.None?)
  {
    if !db.isOpen then NoId
    else match FindFirst(db.counterparties.rows, (f: CounterpartyColumns) => f.name == name && f.inn.None?)
      case None => NoId
      case Some(id) => id
  }

  /** `getCounterpartyIdByNameInn`: the inn is bound as text, so it never matches a NULL inn. */
  function CounterpartyIdByNameInn(db: Db, name: Bytes, inn: Bytes): (id: int)
    ensures id == NoId <==> !db.isOpen || !HasNameInn(db.counterparties.rows, name, inn)
    ensures id != NoId ==> exists i :: 0 <= i < |db.counterparties.rows| && db.counterparties.rows[i].id == id
                              && db.counterparties.rows[i].fields.name == name && db.counterparties.rows[i].fields.inn == Some(inn)
                              && forall j :: 0 <= j < i ==> !(db.counterparties.rows[j].fields.name == name && db.counterparties.rows[j].fields.inn == Some(inn))
  {
    if !db.isOpen then NoId
    else match FindFirst(db.counterparties.rows, (f: CounterpartyColumns) => f.name == name && f.inn == Some(inn))
      case None => NoId
      case Some(id) => id
  }

  /** `getContractIdByNumberDate` */
  function ContractIdByNumberDate(db: Db, number: Bytes, date: Bytes): (id: int)
    ensures id == NoId <==> !db.isOpen || !HasContract(db.contracts.rows, number, date)
    ensures id != NoId ==> exists i :: 0 <= i < |db.contracts.rows| && db.contracts.rows[i].id == id
                              && db.contracts.rows[i].fields.number == number && db.contracts.rows[i].fields.date == date
                              && forall j :: 0 <= j < i ==> !(db.contracts.rows[j].fields.number == number && db.contracts.rows[j].fields.date == date)
  {
    if !db.isOpen then NoId
    else match FindFirst(db.contracts.rows, (f: ContractColumns) => f.number == number && f.date == date)
      case None => NoId
      case Some(id) => id
  }

  /** `getInvoiceIdByNumberDate` */
  function InvoiceIdByNumberDate(db: Db, number: Bytes, date: Bytes): (id: int)
    ensures id == NoId <==> !db.isOpen || !HasInvoice(db.invoices.rows, number, date)
    ensures id != NoId ==> exists i :: 0 <= i < |db.invoices.rows| && db.invoices.rows[i].id == id
                              && db.invoices.rows[i].fields.number == number && db.invoices.rows[i].fields.date == date
                              && forall j :: 0 <= j < i ==> !(db.invoices.rows[j].fields.number == number && db.invoices.rows[j].fields.date == date)
  {
    if !db.isOpen then NoId
    else match FindFirst(db.invoices.rows, (f: InvoiceColumns) => f.number == number && f.date == date)
      case None => NoId
      case Some(id) => id
  }

  // ------------------------------------------------------------ inserts

  /** `addKosguEntry`: fails on a closed manager or a code already present; the id is not written back. */
  function AddKosguEntry(db: Db, entry: Kosgu): (r: Status)
    ensures r.ok <==> db.isOpen && !CodeTaken(db.kosgu.rows, entry.code)
    ensures r.ok ==> r.db == db.(kosgu := Insert(db.kosgu, KosguColumns(entry.code, entry.name)))
    ensures !r.ok ==> r.db == db
  {
    if !db.isOpen || CodeTaken(db.kosgu.rows, entry.code) then Status(db, false)
    else Status(db.(kosgu := Insert(db.kosgu, KosguRecord(entry))), true)
  }

  /** `addCounterparty`: an empty inn is stored as NULL; a non-empty inn already present fails. */
  function AddCounterparty(db: Db, c: Counterparty): (r: Added<Counterparty>)
    ensures r.ok <==> db.isOpen && !(c.inn != [] && InnTaken(db.counterparties.rows, c.inn))
    ensures r.ok ==> r.db == db.(counterparties := Insert(db.counterparties, CounterpartyColumns(c.name, NullIfEmpty(c.inn))))
                     && r.item == c.(id := db.counterparties.nextId)
    ensures !r.ok ==> r.db == db && r.item == c
  {
    if !db.isOpen || (c.inn != [] && InnTaken(db.counterparties.rows, c.inn)) then Added(db, false, c)
    else Added(db.(counterparties := Insert(db.counterparties, CounterpartyRecord(c))), true, c.(id := db.counterparties.nextId))
  }

  /** `addContract`: a counterparty id of -1 is stored as NULL; nothing else can fail. */
  function AddContract(db: Db, c: Contract): (r: Added<Contract>)
    ensures r.ok <==> db.isOpen
    ensures r.ok ==> r.db == db.(contracts := Insert(db.contracts, ContractColumns(c.number, c.date, NullIfNoId(c.counterpartyId))))
                     && r.item == c.(id := db.contracts.nextId)
    ensures !r.ok ==> r.db == db && r.item == c
  {
    if !db.isOpen then Added(db, false, c)
    else Added(db.(contracts := Insert(db.contracts, ContractRecord(c))), true, c.(id := db.contracts.nextId))
  }

  /** `addInvoice`: a contract id of -1 is stored as NULL. */
  function AddInvoice(db: Db, inv: Invoice): (r: Added<Invoice>)
    ensures r.ok <==> db.isOpen
    ensures r.ok ==> r.db == db.(invoices := Insert(db.invoices, InvoiceColumns(inv.number, inv.date, NullIfNoId(inv.contractId))))
                     && r.item == inv.(id := db.invoices.nextId)
    ensures !r.ok ==> r.db == db && r.item == inv
  {
    if !db.isOpen then Added(db, false, inv)
    else Added(db.(invoices := Insert(db.invoices, InvoiceRecord(inv))), true, inv.(id := db.invoices.nextId))
  }

  /** `addPayment`: the type CHECK constraint rejects anything but "income" and "expense". */
  function AddPayment(db: Db, p: Payment): (r: Added<Payment>)
    ensures r.ok <==> db.isOpen && IsPaymentType(p.paymentType)
    ensures r.ok ==> r.db == db.(payments := Insert(db.payments, PaymentColumns(p.date, p.docNumber, p.paymentType, p.amount,
                                                                                 p.recipient, p.description, NullIfNoId(p.counterpartyId))))
                     && r.item == p.(id := db.payments.nextId)
    ensures !r.ok ==> r.db == db && r.item == p
  {
    if !db.isOpen || !IsPaymentType(p.paymentType) then Added(db, false, p)
    else Added(db.(payments := Insert(db.payments, PaymentRecord(p))), true, p.(id := db.payments.nextId))
  }

  /** `addPaymentDetail`: every id is bound as an integer, -1 included. */
  function AddPaymentDetail(db: Db, d: PaymentDetail): (r: Added<PaymentDetail>)
    ensures r.ok <==> db.isOpen
    ensures r.ok ==> r.db == db.(details := Insert(db.details, DetailColumns(d.paymentId, d.kosguId, d.contractId, d.invoiceId, d.amount)))
                     && r.item == d.(id := db.details.nextId)
    ensures !r.ok ==> r.db == db && r.item == d
  {
    if !db.isOpen then Added(db, false, d)
    else Added(db.(details := Insert(db.details, DetailRecord(d))), true, d.(id := db.details.nextId))
  }

  // ------------------------------------------------------------ updates

  /** `updateKosguEntry`: the UNIQUE code constraint is checked only when the row exists. */
  function UpdateKosguEntry(db: Db, entry: Kosgu): (r: Status)
    ensures r.ok <==> db.isOpen && !(HasId(db.kosgu, entry.id) && CodeTakenByOther(db.kosgu.rows, entry.code, entry.id))
    ensures r.ok ==> r.db == db.(kosgu := db.kosgu.(rows := Update(db.kosgu.rows, entry.id, KosguColumns(entry.code, entry.name))))
    ensures !r.ok ==> r.db == db
  {
    if !db.isOpen || (HasId(db.kosgu, entry.id) && CodeTakenByOther(db.kosgu.rows, entry.code, entry.id)) then Status(db, false)
    else Status(db.(kosgu := db.kosgu.(rows := Update(db.kosgu.rows, entry.id, KosguRecord(entry)))), true)
  }

  /** `updateCounterparty`: an empty inn becomes NULL; a non-empty inn held by another row fails. */
  function UpdateCounterparty(db: Db, c: Counterparty): (r: Status)
    ensures r.ok <==> db.isOpen && !(HasId(db.counterparties, c.id) && c.inn != [] && InnTakenByOther(db.counterparties.rows, c.inn, c.id))
    ensures r.ok ==> r.db == db.(counterparties := db.counterparties.(rows := Update(db.counterparties.rows, c.id,
                                                                                     CounterpartyColumns(c.name, NullIfEmpty(c.inn)))))
    ensures !r.ok ==> r.db == db
  {
    if !db.isOpen || (HasId(db.counterparties, c.id) && c.inn != [] && InnTakenByOther(db.counterparties.rows, c.inn, c.id)) then
      Status(db, false)
    else Status(db.(counterparties := db.counterparties.(rows := Update(db.counterparties.rows, c.id, CounterpartyRecord(c)))), true)
  }

  /** `updateContract` */
  function UpdateContract(db: Db, c: Contract): (r: Status)
    ensures r.ok <==> db.isOpen
    ensures r.ok ==> r.db == db.(contracts := db.contracts.(rows := Update(db.contracts.rows, c.id,
                                                                           ContractColumns(c.number, c.date, NullIfNoId(c.counterpartyId)))))
    ensures !r.ok ==> r.db == db
  {
    if !db.isOpen then Status(db, false)
    else Status(db.(contracts := db.contracts.(rows := Update(db.contracts.rows, c.id, ContractRecord(c)))), true)
  }

  /** `updateInvoice` */
  function UpdateInvoice(db: Db, inv: Invoice): (r: Status)
    ensures r.ok <==> db.isOpen
    ensures r.ok ==> r.db == db.(invoices := db.invoices.(rows := Update(db.invoices.rows, inv.id,
                                                                         InvoiceColumns(inv.number, inv.date, NullIfNoId(inv.contractId)))))
    ensures !r.ok ==> r.db == db
  {
    if !db.isOpen then Status(db, false)
    else Status(db.(invoices := db.invoices.(rows := Update(db.invoices.rows, inv.id, InvoiceRecord(inv)))), true)
  }

  /** `updatePayment`: the type CHECK constraint is checked only when the row exists. */
  function UpdatePayment(db: Db, p: Payment): (r: Status)
    ensures r.ok <==> db.isOpen && !(HasId(db.payments, p.id) && !IsPaymentType(p.paymentType))
    ensures r.ok ==> r.db == db.(payments := db.payments.(rows := Update(db.payments.rows, p.id,
                                   PaymentColumns(p.date, p.docNumber, p.paymentType, p.amount, p.recipient, p.description, NullIfNoId(p.counterpartyId)))))
    ensures !r.ok ==> r.db == db
  {
    if !db.isOpen || (HasId(db.payments, p.id) && !IsPaymentType(p.paymentType)) then Status(db, false)
    else Status(db.(payments := db.payments.(rows := Update(db.payments.rows, p.id, PaymentRecord(p)))), true)
  }

  /** The columns `updatePaymentDetail` sets: everything but `payment_id`. */
  function RetargetDetail(rows: seq<Row<DetailColumns>>, d: PaymentDetail): (r: seq<Row<DetailColumns>>)
    ensures |r| == |rows|
    ensures forall i :: 0 <= i < |rows| ==> r[i].id == rows[i].id && r[i].fields.paymentId == rows[i].fields.paymentId
    ensures forall i :: 0 <= i < |rows| ==> r[i].fields == (if rows[i].id == d.id then DetailColumns(rows[i].fields.paymentId, d.kosguId, d.contractId, d.invoiceId, d.amount)
                                                           else rows[i].fields)
  {
    if rows == [] then []
    else
      var head := if rows[0].id == d.id then Row(rows[0].id, rows[0].fields.(kosguId := d.kosguId, contractId := d.contractId, invoiceId := d.invoiceId, amount := d.amount))
                  else rows[0];
      [head] + RetargetDetail(rows[1..], d)
  }

  /** `updatePaymentDetail`: the detail keeps the payment it belongs to. */
  function UpdatePaymentDetail(db: Db, d: PaymentDetail): (r: Status)
    ensures r.ok <==> db.isOpen
    ensures r.ok ==> r.db == db.(details := db.details.(rows := RetargetDetail(db.details.rows, d)))
    ensures !r.ok ==> r.db == db
  {
    if !db.isOpen then Status(db, false)
    else Status(db.(details := db.details.(rows := RetargetDetail(db.details.rows, d))), true)
  }

  // ------------------------------------------------------------ deletes

  /** `deleteKosguEntry` */
  function DeleteKosguEntry(db: Db, id: int): (r: Status)
    ensures r.ok <==> db.isOpen
    ensures r.ok ==> r.db == db.(kosgu := db.kosgu.(rows := Delete(db.kosgu.rows, id)))
    ensures !r.ok ==> r.db == db
  {
    if !db.isOpen then Status(db, false) else Status(db.(kosgu := db.kosgu.(rows := Delete(db.kosgu.rows, id))), true)
  }

  /** `deleteCounterparty`: contracts and payments that refer to it keep the id. */
  function DeleteCounterparty(db: Db, id: int): (r: Status)
    ensures r.ok <==> db.isOpen
    ensures r.ok ==> r.db == db.(counterparties := db.counterparties.(rows := Delete(db.counterparties.rows, id)))
    ensures !r.ok ==> r.db == db
  {
    if !db.isOpen then Status(db, false)
    else Status(db.(counterparties := db.counterparties.(rows := Delete(db.counterparties.rows, id))), true)
  }

  /** `deleteContract` */
  function DeleteContract(db: Db, id: int): (r: Status)
    ensures r.ok <==> db.isOpen
    ensures r.ok ==> r.db == db.(contracts := db.contracts.(rows := Delete(db.contracts.rows, id)))
    ensures !r.ok ==> r.db == db
  {
    if !db.isOpen then Status(db, false) else Status(db.(contracts := db.contracts.(rows := Delete(db.contracts.rows, id))), true)
  }

  /** `deleteInvoice` */
  function DeleteInvoice(db: Db, id: int): (r: Status)
    ensures r.ok <==> db.isOpen
    ensures r.ok ==> r.db == db.(invoices := db.invoices.(rows := Delete(db.invoices.rows, id)))
    ensures !r.ok ==> r.db == db
  {
    if !db.isOpen then Status(db, false) else Status(db.(invoices := db.invoices.(rows := Delete(db.invoices.rows, id))), true)
  }

  /** `deletePayment`: its details stay (ON DELETE CASCADE needs foreign keys turned on). */
  function DeletePayment(db: Db, id: int): (r: Status)
    ensures r.ok <==> db.isOpen
    ensures r.ok ==> r.db == db.(payments := db.payments.(rows := Delete(db.payments.rows, id)))
    ensures !r.ok ==> r.db == db
  {
    if !db.isOpen then Status(db, false) else Status(db.(payments := db.payments.(rows := Delete(db.payments.rows, id))), true)
  }

  /** `deletePaymentDetail` */
  function DeletePaymentDetail(db: Db, id: int): (r: Status)
    ensures r.ok <==> db.isOpen
    ensures r.ok ==> r.db == db.(details := db.details.(rows := Delete(db.details.rows, id)))
    ensures !r.ok ==> r.db == db
  {
    if !db.isOpen then Status(db, false) else Status(db.(details := db.details.(rows := Delete(db.details.rows, id))), true)
  }
}
