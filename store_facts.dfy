/**
 * Properties of the store: every write keeps the schema's constraints, a
 * lookup finds what an insert or update wrote, a delete makes it unfindable,
 * and a write that touches no row changes nothing.
 */
module StoreFacts {
  import opened Basics
  import opened Records
  import opened Tables
  import opened Store

  // ------------------------------------------------------------ generic tables

  /** Rows in id order never share an id. */
  lemma IdsDistinct<R>(t: Table<R>, i: int, j: int)
    requires ValidTable(t)
    requires 0 <= i < |t.rows| && 0 <= j < |t.rows| && i != j
    ensures t.rows[i].id != t.rows[j].id
  {
    if i < j {
      assert t.rows[i].id < t.rows[j].id;
    } else {
      assert t.rows[j].id < t.rows[i].id;
    }
  }

  /** An UPDATE whose id matches no row leaves the rows as they were. */
  lemma UpdateMissingUnchanged<R>(t: Table<R>, id: int, fields: R)
    requires !HasId(t, id)
    ensures Update(t.rows, id, fields) == t.rows
  {
    var r := Update(t.rows, id, fields);
    forall i | 0 <= i < |t.rows| ensures r[i] == t.rows[i] {
      assert t.rows[i].id != id;
    }
  }

  /** A DELETE whose id matches no row leaves the rows as they were. */
  lemma {:induction false} DeleteMissingUnchanged<R>(rows: seq<Row<R>>, id: int)
    requires forall i :: 0 <= i < |rows| ==> rows[i].id != id
    ensures Delete(rows, id) == rows
  {
    if rows != [] {
      DeleteMissingUnchanged(rows[1..], id);
      assert [rows[0]] + rows[1..] == rows;
    }
  }

  // ------------------------------------------------------------ constraints are kept

  lemma KosguWritesValid(db: Db, entry: Kosgu, id: int)
    requires Valid(db)
    ensures Valid(AddKosguEntry(db, entry).db)
    ensures Valid(UpdateKosguEntry(db, entry).db)
    ensures Valid(DeleteKosguEntry(db, id).db)
  {
    if db.isOpen {
      InsertValid(db.kosgu, KosguRecord(entry));
      if UpdateKosguEntry(db, entry).ok {
        UpdateKosguKeepsCodesUnique(db, entry);
      }
      UpdateValid(db.kosgu, entry.id, KosguRecord(entry));
      DeleteValid(db.kosgu, id);
      DeleteKeepsCodesUnique(db.kosgu.rows, id);
    }
  }

  lemma UpdateKosguKeepsCodesUnique(db: Db, entry: Kosgu)
    requires Valid(db) && UpdateKosguEntry(db, entry).ok
    ensures UniqueCodes(UpdateKosguEntry(db, entry).db.kosgu.rows)
  {
    var old_ := db.kosgu.rows;
    var rows := UpdateKosguEntry(db, entry).db.kosgu.rows;
    forall i, j | 0 <= i < j < |rows| ensures rows[i].fields.code != rows[j].fields.code {
      IdsDistinct(db.kosgu, i, j);
      if old_[i].id == entry.id {
        assert old_[j].id != entry.id;
      } else if old_[j].id == entry.id {
        assert old_[i].id != entry.id;
      }
    }
  }

  lemma {:induction false} DeleteKeepsCodesUnique(rows: seq<Row<KosguColumns>>, id: int)
    requires UniqueCodes(rows)
    ensures UniqueCodes(Delete(rows, id))
  {
    if rows != [] {
      assert UniqueCodes(rows[1..]) by {
        forall i, j | 0 <= i < j < |rows[1..]| ensures rows[1..][i].fields.code != rows[1..][j].fields.code {
          assert rows[1..][i] == rows[i + 1] && rows[1..][j] == rows[j + 1];
        }
      }
      DeleteKeepsCodesUnique(rows[1..], id);
      var rest := Delete(rows[1..], id);
      if rows[0].id != id {
        forall k | 0 <= k < |rest| ensures rest[k].fields.code != rows[0].fields.code {
          var m :| 0 <= m < |rows[1..]| && rows[1..][m] == rest[k];
          assert rows[m + 1] == rest[k];
        }
        var r := [rows[0]] + rest;
        assert Delete(rows, id) == r;
        forall i, j | 0 <= i < j < |r| ensures r[i].fields.code != r[j].fields.code {
          assert r[j] == rest[j - 1];
          if i > 0 {
            assert r[i] == rest[i - 1];
          }
        }
      }
    }
  }

  lemma CounterpartyWritesValid(db: Db, c: Counterparty, id: int)
    requires Valid(db)
    ensures Valid(AddCounterparty(db, c).db)
    ensures Valid(UpdateCounterparty(db, c).db)
    ensures Valid(DeleteCounterparty(db, id).db)
  {
    if db.isOpen {
      InsertValid(db.counterparties, CounterpartyRecord(c));
      if AddCounterparty(db, c).ok {
        AddCounterpartyKeepsInns(db, c);
      }
      UpdateValid(db.counterparties, c.id, CounterpartyRecord(c));
      if UpdateCounterparty(db, c).ok {
        UpdateCounterpartyKeepsInns(db, c);
      }
      DeleteValid(db.counterparties, id);
      DeleteKeepsInns(db.counterparties.rows, id);
    }
  }

  lemma AddCounterpartyKeepsInns(db: Db, c: Counterparty)
    requires Valid(db) && AddCounterparty(db, c).ok
    ensures InnsValid(AddCounterparty(db, c).db.counterparties.rows)
  {
    var old_ := db.counterparties.rows;
    var rows := AddCounterparty(db, c).db.counterparties.rows;
    assert rows == old_ + [Row(db.counterparties.nextId, CounterpartyRecord(c))];
    forall i, j | 0 <= i < j < |rows| && rows[i].fields.inn.Some? ensures rows[i].fields.inn != rows[j].fields.inn {
      if j == |old_| && c.inn != [] {
        assert !InnTaken(old_, c.inn);
        assert old_[i].fields.inn != Some(c.inn);
      }
    }
  }

  lemma UpdateCounterpartyKeepsInns(db: Db, c: Counterparty)
    requires Valid(db) && UpdateCounterparty(db, c).ok
    ensures InnsValid(UpdateCounterparty(db, c).db.counterparties.rows)
  {
    var old_ := db.counterparties.rows;
    var rows := UpdateCounterparty(db, c).db.counterparties.rows;
    forall i, j | 0 <= i < j < |rows| && rows[i].fields.inn.Some? ensures rows[i].fields.inn != rows[j].fields.inn {
      IdsDistinct(db.counterparties, i, j);
      if old_[i].id == c.id {
        assert old_[j].id != c.id;
      } else if old_[j].id == c.id {
        assert old_[i].id != c.id;
      }
    }
  }

  lemma {:induction false} DeleteKeepsInns(rows: seq<Row<CounterpartyColumns>>, id: int)
    requires InnsValid(rows)
    ensures InnsValid(Delete(rows, id))
  {
    if rows != [] {
      TailKeepsInns(rows);
      DeleteKeepsInns(rows[1..], id);
      var rest := Delete(rows[1..], id);
      if rows[0].id != id {
        forall k | 0 <= k < |rest| && rows[0].fields.inn.Some? ensures rest[k].fields.inn != rows[0].fields.inn {
          var m :| 0 <= m < |rows[1..]| && rows[1..][m] == rest[k];
          assert rows[m + 1] == rest[k];
        }
        ConsKeepsInns(rows[0], rest);
        assert Delete(rows, id) == [rows[0]] + rest;
      }
    }
  }

  lemma TailKeepsInns(rows: seq<Row<CounterpartyColumns>>)
    requires rows != [] && InnsValid(rows)
    ensures InnsValid(rows[1..])
  {
    forall i, j | 0 <= i < j < |rows[1..]| && rows[1..][i].fields.inn.Some?
      ensures rows[1..][i].fields.inn != rows[1..][j].fields.inn
    {
      assert rows[1..][i] == rows[i + 1] && rows[1..][j] == rows[j + 1];
    }
  }

  lemma ConsKeepsInns(row: Row<CounterpartyColumns>, rest: seq<Row<CounterpartyColumns>>)
    requires InnsValid(rest)
    requires row.fields.inn.Some? ==> row.fields.inn.value != []
    requires forall k :: 0 <= k < |rest| && row.fields.inn.Some? ==> rest[k].fields.inn != row.fields.inn
    ensures InnsValid([row] + rest)
  {
    var r := [row] + rest;
    forall i, j | 0 <= i < j < |r| && r[i].fields.inn.Some? ensures r[i].fields.inn != r[j].fields.inn {
      assert r[j] == rest[j - 1];
      if i > 0 {
        assert r[i] == rest[i - 1];
      }
    }
    forall i | 0 <= i < |r| && r[i].fields.inn.Some? ensures r[i].fields.inn.value != [] {
      if i > 0 {
        assert r[i] == rest[i - 1];
      }
    }
  }

  lemma ContractWritesValid(db: Db, c: Contract, id: int)
    requires Valid(db)
    ensures Valid(AddContract(db, c).db)
    ensures Valid(UpdateContract(db, c).db)
    ensures Valid(DeleteContract(db, id).db)
  {
    if db.isOpen {
      InsertValid(db.contracts, ContractRecord(c));
      UpdateValid(db.contracts, c.id, ContractRecord(c));
      DeleteValid(db.contracts, id);
    }
  }

  lemma InvoiceWritesValid(db: Db, inv: Invoice, id: int)
    requires Valid(db)
    ensures Valid(AddInvoice(db, inv).db)
    ensures Valid(UpdateInvoice(db, inv).db)
    ensures Valid(DeleteInvoice(db, id).db)
  {
    if db.isOpen {
      InsertValid(db.invoices, InvoiceRecord(inv));
      UpdateValid(db.invoices, inv.id, InvoiceRecord(inv));
      DeleteValid(db.invoices, id);
    }
  }

  lemma PaymentWritesValid(db: Db, p: Payment, id: int)
    requires Valid(db)
    ensures Valid(AddPayment(db, p).db)
    ensures Valid(UpdatePayment(db, p).db)
    ensures Valid(DeletePayment(db, id).db)
  {
    if AddPayment(db, p).ok {
      InsertValid(db.payments, PaymentRecord(p));
    }
    if UpdatePayment(db, p).ok {
      UpdateValid(db.payments, p.id, PaymentRecord(p));
    }
    if db.isOpen {
      DeleteValid(db.payments, id);
      var rows := DeletePayment(db, id).db.payments.rows;
      forall i | 0 <= i < |rows| ensures IsPaymentType(rows[i].fields.paymentType) {
        assert rows[i] in db.payments.rows;
      }
    }
  }

  lemma DetailWritesValid(db: Db, d: PaymentDetail, id: int)
    requires Valid(db)
    ensures Valid(AddPaymentDetail(db, d).db)
    ensures Valid(UpdatePaymentDetail(db, d).db)
    ensures Valid(DeletePaymentDetail(db, id).db)
  {
    if db.isOpen {
      InsertValid(db.details, DetailRecord(d));
      DeleteValid(db.details, id);
    }
  }

  // ------------------------------------------------------------ inserts are found

  /** After `addKosguEntry` succeeds, `getKosguIdByCode` returns the new row's id. */
  lemma AddKosguThenFind(db: Db, entry: Kosgu)
    requires Valid(db) && AddKosguEntry(db, entry).ok
    ensures KosguIdByCode(AddKosguEntry(db, entry).db, entry.code) == db.kosgu.nextId
  {
    var db' := AddKosguEntry(db, entry).db;
    var id := KosguIdByCode(db', entry.code);
    KosguIdByCodeFirst(db', entry.code);
    var i :| 0 <= i < |db'.kosgu.rows| && db'.kosgu.rows[i].id == id && db'.kosgu.rows[i].fields.code == entry.code;
    assert !CodeTaken(db.kosgu.rows, entry.code);
    assert i == |db.kosgu.rows|;
  }

  /**
   * The importer's find-or-create step for a counterparty without inn: when
   * the name lookup misses, an insert with an empty inn is found next time.
   */
  lemma AddCounterpartyThenFindByName(db: Db, name: Bytes)
    requires CounterpartyIdByName(db, name) == NoId
    requires AddCounterparty(db, Counterparty(NoId, name, [])).ok
    ensures CounterpartyIdByName(AddCounterparty(db, Counterparty(NoId, name, [])).db, name) == db.counterparties.nextId
  {
    var db' := AddCounterparty(db, Counterparty(NoId, name, [])).db;
    var id := CounterpartyIdByName(db', name);
    var i :| 0 <= i < |db'.counterparties.rows| && db'.counterparties.rows[i].id == id
             && db'.counterparties.rows[i].fields.name == name && db'.counterparties.rows[i].fields.inn.None?;
    assert !HasNameWithoutInn(db.counterparties.rows, name);
    assert i == |db.counterparties.rows|;
  }

  /** After `addCounterparty` with a non-empty inn succeeds, the name-and-inn lookup returns the new row. */
  lemma AddCounterpartyThenFindByNameInn(db: Db, c: Counterparty)
    requires c.inn != [] && AddCounterparty(db, c).ok
    ensures CounterpartyIdByNameInn(AddCounterparty(db, c).db, c.name, c.inn) == AddCounterparty(db, c).item.id
  {
    var db' := AddCounterparty(db, c).db;
    var id := CounterpartyIdByNameInn(db', c.name, c.inn);
    var i :| 0 <= i < |db'.counterparties.rows| && db'.counterparties.rows[i].id == id
             && db'.counterparties.rows[i].fields.name == c.name && db'.counterparties.rows[i].fields.inn == Some(c.inn);
    assert !InnTaken(db.counterparties.rows, c.inn);
    assert i == |db.counterparties.rows|;
  }

  /** A valid store never holds an empty inn, so looking one up always misses. */
  lemma EmptyInnNeverFound(db: Db, name: Bytes)
    requires Valid(db)
    ensures CounterpartyIdByNameInn(db, name, []) == NoId
  {
    var rows := db.counterparties.rows;
    forall i | 0 <= i < |rows| ensures rows[i].fields.inn != Some([]) {
      if rows[i].fields.inn.Some? {
        assert rows[i].fields.inn.value != [];
      }
    }
  }

  /** Find-or-create for contracts: after a miss and an insert, the lookup returns the inserted id. */
  lemma AddContractThenFind(db: Db, c: Contract)
    requires ContractIdByNumberDate(db, c.number, c.date) == NoId
    requires AddContract(db, c).ok
    ensures ContractIdByNumberDate(AddContract(db, c).db, c.number, c.date) == AddContract(db, c).item.id
  {
    var db' := AddContract(db, c).db;
    var id := ContractIdByNumberDate(db', c.number, c.date);
    var i :| 0 <= i < |db'.contracts.rows| && db'.contracts.rows[i].id == id
             && db'.contracts.rows[i].fields.number == c.number && db'.contracts.rows[i].fields.date == c.date;
    assert !HasContract(db.contracts.rows, c.number, c.date);
    assert i == |db.contracts.rows|;
  }

  /** Find-or-create for invoices: after a miss and an insert, the lookup returns the inserted id. */
  lemma AddInvoiceThenFind(db: Db, inv: Invoice)
    requires InvoiceIdByNumberDate(db, inv.number, inv.date) == NoId
    requires AddInvoice(db, inv).ok
    ensures InvoiceIdByNumberDate(AddInvoice(db, inv).db, inv.number, inv.date) == AddInvoice(db, inv).item.id
  {
    var db' := AddInvoice(db, inv).db;
    var id := InvoiceIdByNumberDate(db', inv.number, inv.date);
    var i :| 0 <= i < |db'.invoices.rows| && db'.invoices.rows[i].id == id
             && db'.invoices.rows[i].fields.number == inv.number && db'.invoices.rows[i].fields.date == inv.date;
    assert !HasInvoice(db.invoices.rows, inv.number, inv.date);
    assert i == |db.invoices.rows|;
  }

  // ------------------------------------------------------------ updates and deletes

  /** After a successful update of an existing entry its new code leads back to it. */
  lemma UpdateKosguThenFind(db: Db, entry: Kosgu)
    requires Valid(db) && HasId(db.kosgu, entry.id) && UpdateKosguEntry(db, entry).ok
    ensures KosguIdByCode(UpdateKosguEntry(db, entry).db, entry.code) == entry.id
  {
    var rows := UpdateKosguEntry(db, entry).db.kosgu.rows;
    var k :| 0 <= k < |db.kosgu.rows| && db.kosgu.rows[k].id == entry.id;
    assert rows[k].fields.code == entry.code;
    assert !CodeTakenByOther(db.kosgu.rows, entry.code, entry.id);
    forall i | 0 <= i < |rows| && rows[i].id != entry.id ensures rows[i].fields.code != entry.code {
      assert rows[i].fields == db.kosgu.rows[i].fields;
    }
    var id := KosguIdByCode(UpdateKosguEntry(db, entry).db, entry.code);
    KosguIdByCodeFirst(UpdateKosguEntry(db, entry).db, entry.code);
    var i :| 0 <= i < |rows| && rows[i].id == id && rows[i].fields.code == entry.code;
  }

  /** Deleting the entry a code leads to makes the code unknown (codes are unique). */
  lemma DeleteKosguThenMiss(db: Db, code: Bytes)
    requires Valid(db) && KosguIdByCode(db, code) != NoId
    ensures KosguIdByCode(DeleteKosguEntry(db, KosguIdByCode(db, code)).db, code) == NoId
  {
    var id := KosguIdByCode(db, code);
    KosguIdByCodeFirst(db, code);
    var k :| 0 <= k < |db.kosgu.rows| && db.kosgu.rows[k].id == id && db.kosgu.rows[k].fields.code == code;
    var rows := DeleteKosguEntry(db, id).db.kosgu.rows;
    forall i | 0 <= i < |rows| ensures rows[i].fields.code != code {
      var a :| 0 <= a < |db.kosgu.rows| && db.kosgu.rows[a] == rows[i];
      if a != k {
        if a < k {
          assert db.kosgu.rows[a].fields.code != db.kosgu.rows[k].fields.code;
        } else {
          assert db.kosgu.rows[k].fields.code != db.kosgu.rows[a].fields.code;
        }
      }
    }
  }

  /** Updating a detail never moves it to another payment. */
  lemma UpdateDetailKeepsPayment(db: Db, d: PaymentDetail, i: int)
    requires 0 <= i < |db.details.rows| && UpdatePaymentDetail(db, d).ok
    ensures UpdatePaymentDetail(db, d).db.details.rows[i].fields.paymentId == db.details.rows[i].fields.paymentId
    ensures |UpdatePaymentDetail(db, d).db.details.rows| == |db.details.rows|
  {
  }

  /** Deleting a payment keeps its details, as the connection never enables ON DELETE CASCADE. */
  lemma DeletePaymentKeepsDetails(db: Db, id: int)
    ensures DeletePayment(db, id).db.details == db.details
  {
  }
}
