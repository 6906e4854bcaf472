/**
 * `DatabaseManager` as a class: a connection flag and the six tables it
 * reaches through it. Every method is proved to move `State()` exactly as
 * the matching `Store` function says and to keep the schema's constraints.
 */
module Database {
  import opened Basics
  import opened Records
  import opened Tables
  import Store
  import StoreFacts

  class DatabaseManager {
    var isOpen: bool
    var kosgu: Table<KosguColumns>
    var counterparties: Table<CounterpartyColumns>
    var contracts: Table<ContractColumns>
    var invoices: Table<InvoiceColumns>
    var payments: Table<PaymentColumns>
    var details: Table<DetailColumns>

    function State(): Store.Db
      reads this
    {
      Store.Db(isOpen, kosgu, counterparties, contracts, invoices, payments, details)
    }

    ghost predicate Valid()
      reads this
    {
      Store.Valid(State())
    }

    constructor()
      ensures State() == Store.Initial()
      ensures Valid()
    {
      isOpen := false;
      kosgu, counterparties, contracts := EmptyTable(), EmptyTable(), EmptyTable();
      invoices, payments, details := EmptyTable(), EmptyTable(), EmptyTable();
    }

    /** `open`, with the chosen file's tables given as `file`. */
    method Open(file: Store.Db) returns (ok: bool)
      requires Store.Valid(file)
      modifies this
      ensures ok && State() == Store.Open(file)
      ensures Valid()
    {
      if isOpen {
        Close();
      }
      kosgu, counterparties, contracts := file.kosgu, file.counterparties, file.contracts;
      invoices, payments, details := file.invoices, file.payments, file.details;
      isOpen := true;
      ok := true;
    }

    method Close()
      modifies this
      ensures State() == Store.Close(old(State()))
      ensures old(Valid()) ==> Valid()
    {
      isOpen := false;
    }

    method IsOpen() returns (r: bool)
      ensures r == State().isOpen
    {
      r := isOpen;
    }

    // ------------------------------------------------------------ lookups (SELECT id ... WHERE ...)

    method GetKosguIdByCode(code: Bytes) returns (id: int)
      ensures id == Store.KosguIdByCode(State(), code)
    {
      if !isOpen {
        return NoId;
      }
      var rows := kosgu.rows;
      var i := 0;
      while i < |rows| && rows[i].fields.code != code
        invariant 0 <= i <= |rows|
        invariant forall j :: 0 <= j < i ==> rows[j].fields.code != code
      {
        i := i + 1;
      }
      id := if i < |rows| then rows[i].id else NoId;
      if i < |rows| {
        Store.KosguIdByCodeFirst(State(), code);
        var k :| 0 <= k < |rows| && rows[k].id == Store.KosguIdByCode(State(), code) && rows[k].fields.code == code
                 && forall j :: 0 <= j < k ==> rows[j].fields.code != code;
        assert k == i;
      }
    }

    method GetCounterpartyIdByName(name: Bytes) returns (id: int)
      ensures id == Store.CounterpartyIdByName(State(), name)
    {
      if !isOpen {
        return NoId;
      }
      var rows := counterparties.rows;
      var i := 0;
      while i < |rows| && !(rows[i].fields.name == name && rows[i].fields.inn.None?)
        invariant 0 <= i <= |rows|
        invariant forall j :: 0 <= j < i ==> !(rows[j].fields.name == name && rows[j].fields.inn.None?)
      {
        i := i + 1;
      }
      id := if i < |rows| then rows[i].id else NoId;
      if i < |rows| {
        var k :| 0 <= k < |rows| && rows[k].id == Store.CounterpartyIdByName(State(), name)
                 && rows[k].fields.name == name && rows[k].fields.inn.None?
                 && forall j :: 0 <= j < k ==> !(rows[j].fields.name == name && rows[j].fields.inn.None?);
        assert k == i;
      }
    }

    method GetCounterpartyIdByNameInn(name: Bytes, inn: Bytes) returns (id: int)
      ensures id == Store.CounterpartyIdByNameInn(State(), name, inn)
    {
      if !isOpen {
        return NoId;
      }
      var rows := counterparties.rows;
      var i := 0;
      while i < |rows| && !(rows[i].fields.name == name && rows[i].fields.inn == Some(inn))
        invariant 0 <= i <= |rows|
        invariant forall j :: 0 <= j < i ==> !(rows[j].fields.name == name && rows[j].fields.inn == Some(inn))
      {
        i := i + 1;
      }
      id := if i < |rows| then rows[i].id else NoId;
      if i < |rows| {
        var k :| 0 <= k < |rows| && rows[k].id == Store.CounterpartyIdByNameInn(State(), name, inn)
                 && rows[k].fields.name == name && rows[k].fields.inn == Some(inn)
                 && forall j :: 0 <= j < k ==> !(rows[j].fields.name == name && rows[j].fields.inn == Some(inn));
        assert k == i;
      }
    }

    method GetContractIdByNumberDate(number: Bytes, date: Bytes) returns (id: int)
      ensures id == Store.ContractIdByNumberDate(State(), number, date)
    {
      if !isOpen {
        return NoId;
      }
      var rows := contracts.rows;
      var i := 0;
      while i < |rows| && !(rows[i].fields.number == number && rows[i].fields.date == date)
        invariant 0 <= i <= |rows|
        invariant forall j :: 0 <= j < i ==> !(rows[j].fields.number == number && rows[j].fields.date == date)
      {
        i := i + 1;
      }
      id := if i < |rows| then rows[i].id else NoId;
      if i < |rows| {
        var k :| 0 <= k < |rows| && rows[k].id == Store.ContractIdByNumberDate(State(), number, date)
                 && rows[k].fields.number == number && rows[k].fields.date == date
                 && forall j :: 0 <= j < k ==> !(rows[j].fields.number == number && rows[j].fields.date == date);
        assert k == i;
      }
    }

    method GetInvoiceIdByNumberDate(number: Bytes, date: Bytes) returns (id: int)
      ensures id == Store.InvoiceIdByNumberDate(State(), number, date)
    {
      if !isOpen {
        return NoId;
      }
      var rows := invoices.rows;
      var i := 0;
      while i < |rows| && !(rows[i].fields.number == number && rows[i].fields.date == date)
        invariant 0 <= i <= |rows|
        invariant forall j :: 0 <= j < i ==> !(rows[j].fields.number == number && rows[j].fields.date == date)
      {
        i := i + 1;
      }
      id := if i < |rows| then rows[i].id else NoId;
      if i < |rows| {
        var k :| 0 <= k < |rows| && rows[k].id == Store.InvoiceIdByNumberDate(State(), number, date)
                 && rows[k].fields.number == number && rows[k].fields.date == date
                 && forall j :: 0 <= j < k ==> !(rows[j].fields.number == number && rows[j].fields.date == date);
        assert k == i;
      }
    }

    // ------------------------------------------------------------ inserts

    method AddKosguEntry(entry: Kosgu) returns (ok: bool)
      requires Valid()
      modifies this
      ensures Store.Status(State(), ok) == Store.AddKosguEntry(old(State()), entry)
      ensures Valid()
    {
      StoreFacts.KosguWritesValid(State(), entry, entry.id);
      if !isOpen {
        return false;
      }
      var existing := GetKosguIdByCode(entry.code);
      if existing != NoId {
        return false;
      }
      kosgu := Insert(kosgu, KosguRecord(entry));
      ok := true;
    }

    method AddCounterparty(c: Counterparty) returns (ok: bool, written: Counterparty)
      requires Valid()
      modifies this
      ensures Store.Added(State(), ok, written) == Store.AddCounterparty(old(State()), c)
      ensures Valid()
    {
      StoreFacts.CounterpartyWritesValid(State(), c, c.id);
      if !isOpen || (c.inn != [] && Store.InnTaken(counterparties.rows, c.inn)) {
        return false, c;
      }
      written := c.(id := counterparties.nextId);
      counterparties := Insert(counterparties, CounterpartyRecord(c));
      ok := true;
    }

    method AddContract(c: Contract) returns (ok: bool, written: Contract)
      requires Valid()
      modifies this
      ensures Store.Added(State(), ok, written) == Store.AddContract(old(State()), c)
      ensures Valid()
    {
      StoreFacts.ContractWritesValid(State(), c, c.id);
      if !isOpen {
        return false, c;
      }
      written := c.(id := contracts.nextId);
      contracts := Insert(contracts, ContractRecord(c));
      ok := true;
    }

    method AddInvoice(inv: Invoice) returns (ok: bool, written: Invoice)
      requires Valid()
      modifies this
      ensures Store.Added(State(), ok, written) == Store.AddInvoice(old(State()), inv)
      ensures Valid()
    {
      StoreFacts.InvoiceWritesValid(State(), inv, inv.id);
      if !isOpen {
        return false, inv;
      }
      written := inv.(id := invoices.nextId);
      invoices := Insert(invoices, InvoiceRecord(inv));
      ok := true;
    }

    method AddPayment(p: Payment) returns (ok: bool, written: Payment)
      requires Valid()
      modifies this
      ensures Store.Added(State(), ok, written) == Store.AddPayment(old(State()), p)
      ensures Valid()
    {
      StoreFacts.PaymentWritesValid(State(), p, p.id);
      if !isOpen || !Store.IsPaymentType(p.paymentType) {
        return false, p;
      }
      written := p.(id := payments.nextId);
      payments := Insert(payments, PaymentRecord(p));
      ok := true;
    }

    method AddPaymentDetail(d: PaymentDetail) returns (ok: bool, written: PaymentDetail)
      requires Valid()
      modifies this
      ensures Store.Added(State(), ok, written) == Store.AddPaymentDetail(old(State()), d)
      ensures Valid()
    {
      StoreFacts.DetailWritesValid(State(), d, d.id);
      if !isOpen {
        return false, d;
      }
      written := d.(id := details.nextId);
      details := Insert(details, DetailRecord(d));
      ok := true;
    }

    // ------------------------------------------------------------ updates

    method UpdateKosguEntry(entry: Kosgu) returns (ok: bool)
      requires Valid()
      modifies this
      ensures Store.Status(State(), ok) == Store.UpdateKosguEntry(old(State()), entry)
      ensures Valid()
    {
      StoreFacts.KosguWritesValid(State(), entry, entry.id);
      if !isOpen || (HasId(kosgu, entry.id) && Store.CodeTakenByOther(kosgu.rows, entry.code, entry.id)) {
        return false;
      }
      kosgu := kosgu.(rows := Update(kosgu.rows, entry.id, KosguRecord(entry)));
      ok := true;
    }

    method UpdateCounterparty(c: Counterparty) returns (ok: bool)
      requires Valid()
      modifies this
      ensures Store.Status(State(), ok) == Store.UpdateCounterparty(old(State()), c)
      ensures Valid()
    {
      StoreFacts.CounterpartyWritesValid(State(), c, c.id);
      if !isOpen || (HasId(counterparties, c.id) && c.inn != [] && Store.InnTakenByOther(counterparties.rows, c.inn, c.id)) {
        return false;
      }
      counterparties := counterparties.(rows := Update(counterparties.rows, c.id, CounterpartyRecord(c)));
      ok := true;
    }

    method UpdateContract(c: Contract) returns (ok: bool)
      requires Valid()
      modifies this
      ensures Store.Status(State(), ok) == Store.UpdateContract(old(State()), c)
      ensures Valid()
    {
      StoreFacts.ContractWritesValid(State(), c, c.id);
      if !isOpen {
        return false;
      }
      contracts := contracts.(rows := Update(contracts.rows, c.id, ContractRecord(c)));
      ok := true;
    }

    method UpdateInvoice(inv: Invoice) returns (ok: bool)
      requires Valid()
      modifies this
      ensures Store.Status(State(), ok) == Store.UpdateInvoice(old(State()), inv)
      ensures Valid()
    {
      StoreFacts.InvoiceWritesValid(State(), inv, inv.id);
      if !isOpen {
        return false;
      }
      invoices := invoices.(rows := Update(invoices.rows, inv.id, InvoiceRecord(inv)));
      ok := true;
    }

    method UpdatePayment(p: Payment) returns (ok: bool)
      requires Valid()
      modifies this
      ensures Store.Status(State(), ok) == Store.UpdatePayment(old(State()), p)
      ensures Valid()
    {
      StoreFacts.PaymentWritesValid(State(), p, p.id);
      if !isOpen || (HasId(payments, p.id) && !Store.IsPaymentType(p.paymentType)) {
        return false;
      }
      payments := payments.(rows := Update(payments.rows, p.id, PaymentRecord(p)));
      ok := true;
    }

    method UpdatePaymentDetail(d: PaymentDetail) returns (ok: bool)
      requires Valid()
      modifies this
      ensures Store.Status(State(), ok) == Store.UpdatePaymentDetail(old(State()), d)
      ensures Valid()
    {
      StoreFacts.DetailWritesValid(State(), d, d.id);
      if !isOpen {
        return false;
      }
      details := details.(rows := Store.RetargetDetail(details.rows, d));
      ok := true;
    }

    // ------------------------------------------------------------ deletes

    method DeleteKosguEntry(id: int) returns (ok: bool)
      requires Valid()
      modifies this
      ensures Store.Status(State(), ok) == Store.DeleteKosguEntry(old(State()), id)
      ensures Valid()
    {
      StoreFacts.KosguWritesValid(State(), Kosgu(id, [], []), id);
      if !isOpen {
        return false;
      }
      kosgu := kosgu.(rows := Delete(kosgu.rows, id));
      ok := true;
    }

    method DeleteCounterparty(id: int) returns (ok: bool)
      requires Valid()
      modifies this
      ensures Store.Status(State(), ok) == Store.DeleteCounterparty(old(State()), id)
      ensures Valid()
    {
      StoreFacts.CounterpartyWritesValid(State(), Counterparty(id, [], []), id);
      if !isOpen {
        return false;
      }
      counterparties := counterparties.(rows := Delete(counterparties.rows, id));
      ok := true;
    }

    method DeleteContract(id: int) returns (ok: bool)
      requires Valid()
      modifies this
      ensures Store.Status(State(), ok) == Store.DeleteContract(old(State()), id)
      ensures Valid()
    {
      StoreFacts.ContractWritesValid(State(), Contract(id, [], [], NoId), id);
      if !isOpen {
        return false;
      }
      contracts := contracts.(rows := Delete(contracts.rows, id));
      ok := true;
    }

    method DeleteInvoice(id: int) returns (ok: bool)
      requires Valid()
      modifies this
      ensures Store.Status(State(), ok) == Store.DeleteInvoice(old(State()), id)
      ensures Valid()
    {
      StoreFacts.InvoiceWritesValid(State(), Invoice(id, [], [], NoId), id);
      if !isOpen {
        return false;
      }
      invoices := invoices.(rows := Delete(invoices.rows, id));
      ok := true;
    }

    method DeletePayment(id: int) returns (ok: bool)
      requires Valid()
      modifies this
      ensures Store.Status(State(), ok) == Store.DeletePayment(old(State()), id)
      ensures Valid()
    {
      StoreFacts.PaymentWritesValid(State(), Payment(id, [], [], [], 0.0, [], [], [], [], [], NoId, NoId, NoId, NoId), id);
      if !isOpen {
        return false;
      }
      payments := payments.(rows := Delete(payments.rows, id));
      ok := true;
    }

    method DeletePaymentDetail(id: int) returns (ok: bool)
      requires Valid()
      modifies this
      ensures Store.Status(State(), ok) == Store.DeletePaymentDetail(old(State()), id)
      ensures Valid()
    {
      StoreFacts.DetailWritesValid(State(), PaymentDetail(id, NoId, NoId, NoId, NoId, 0.0), id);
      if !isOpen {
        return false;
      }
      details := details.(rows := Delete(details.rows, id));
      ok := true;
    }
  }
}
