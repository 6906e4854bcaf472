/**
 * What the importer guarantees about the store: a closed manager is never
 * touched, the schema's constraints and the importer's own keys stay
 * intact, and each imported line leaves one payment with its details.
 */
module ImportFacts {
  import opened Basics
  import opened Text
  import opened Dates
  import opened Fields
  import opened Records
  import opened Tables
  import opened Extract
  import opened Importer
  import Store
  import StoreFacts

  // ---------------------------------------------------------------- closed manager

  /** On a closed manager a line writes nothing and is never imported. */
  lemma ClosedLineUnchanged(db: Store.Db, line: Bytes, mapping: ColumnMapping, env: Env)
    requires !db.isOpen
    ensures ImportLine(db, line, mapping, env).db == db
    ensures !ImportLine(db, line, mapping, env).outcome.Imported?
  {
    if line != [] {
      var parsed := ParseRow(Tokens(line, Tab), mapping, env.stod);
      if parsed.Some? && !IsBlank(parsed.value.payment) {
        var p := parsed.value.payment;
        var cp := ResolveCounterparty(db, CounterpartyName(p, parsed.value.payer));
        assert cp == Resolved(db, NoId);
        ClosedPaymentUnchanged(db, p.(counterpartyId := NoId), env);
      }
    }
  }

  lemma ClosedPaymentUnchanged(db: Store.Db, p: Payment, env: Env)
    requires !db.isOpen
    ensures ImportPayment(db, p, env).db == db
    ensures !ImportPayment(db, p, env).outcome.Imported?
  {
    var ct := ResolveContract(db, p.description, p.counterpartyId, env);
    if ct.Some? {
      assert ct.value == Resolved(db, NoId);
      var iv := ResolveInvoice(db, p.description, NoId, env);
      if iv.Some? {
        assert iv.value == Resolved(db, NoId);
        assert !Store.AddPayment(db, p).ok;
      }
    }
  }

  /** On a closed manager the whole run writes nothing. */
  lemma {:induction false} ClosedImportUnchanged(db: Store.Db, lines: seq<Bytes>, mapping: ColumnMapping, env: Env)
    requires !db.isOpen
    ensures ImportLines(db, lines, mapping, env).db == db
    decreases |lines|
  {
    if lines != [] {
      ClosedLineUnchanged(db, lines[0], mapping, env);
      ClosedImportUnchanged(db, lines[1..], mapping, env);
    }
  }

  // ---------------------------------------------------------------- the payment insert

  /**
   * With the contract and invoice settled, an open store refuses the payment
   * exactly when its type is neither income nor expense. A refused payment
   * leaves no payment row and no detail, and what the line found or created
   * before it stays.
   */
  lemma PaymentRejected(db: Store.Db, p: Payment, env: Env)
    ensures var r := ImportPayment(db, p, env);
      db.isOpen && !r.outcome.Threw? ==> (r.outcome.Rejected? <==> !Store.IsPaymentType(p.paymentType))
    ensures var r := ImportPayment(db, p, env);
      r.outcome.Rejected? ==>
        && r.db.payments == db.payments && r.db.details == db.details
        && r.db.kosgu == db.kosgu && r.db.counterparties == db.counterparties
        && db.contracts.rows <= r.db.contracts.rows && db.invoices.rows <= r.db.invoices.rows
  {
    var ct := ResolveContract(db, p.description, p.counterpartyId, env);
    if ct.Some? {
      var iv := ResolveInvoice(ct.value.db, p.description, ct.value.id, env);
      if iv.Some? {
        assert ct.value.db.isOpen == db.isOpen && iv.value.db.isOpen == db.isOpen;
      }
    }
  }

  /** An imported line's payment is the next row of Payments, with the line's columns. */
  lemma PaymentImported(db: Store.Db, p: Payment, env: Env)
    ensures var r := ImportPayment(db, p, env);
      r.outcome.Imported? ==>
        && db.isOpen && Store.IsPaymentType(p.paymentType)
        && r.outcome.paymentId == db.payments.nextId
        && r.db.payments == Insert(db.payments, PaymentRecord(p))
  {
  }

  /**
   * A line whose type cell is empty gets an inferred type the store accepts,
   * so on an open store only a line with a type of its own can be refused.
   */
  lemma UntypedLineNotRejected(db: Store.Db, line: Bytes, mapping: ColumnMapping, env: Env)
    requires db.isOpen
    requires ImportLine(db, line, mapping, env).outcome.Rejected?
    ensures var given := GetValueFromRow(Tokens(line, Tab), mapping, TypeField);
      given != [] && !Store.IsPaymentType(given)
  {
    var parsed := ParseRow(Tokens(line, Tab), mapping, env.stod);
    var p := parsed.value.payment;
    var cp := ResolveCounterparty(db, CounterpartyName(p, parsed.value.payer));
    PaymentRejected(cp.db, p.(counterpartyId := cp.id), env);
  }

  // ---------------------------------------------------------------- reading the file

  /** The first line is the header; the data lines are the tokens after it. */
  lemma DataLinesSkipHeader(header: Bytes, rest: Bytes)
    requires LineFeed !in header
    ensures DataLines(header + [LineFeed] + rest) == Tokens(rest, LineFeed)
  {
    var s := header + [LineFeed] + rest;
    IndexOfExact(s, LineFeed, |header|);
    assert s[..|header|] == header && s[|header| + 1..] == rest;
  }

  /**
   * The read loop is line-by-line composition: the lines after a prefix run
   * from the state the prefix left, unless a line of the prefix threw.
   */
  lemma {:induction false} ImportLinesAppend(db: Store.Db, a: seq<Bytes>, b: seq<Bytes>, mapping: ColumnMapping, env: Env)
    ensures ImportLines(db, a + b, mapping, env)
         == (var r := ImportLines(db, a, mapping, env); if r.completed then ImportLines(r.db, b, mapping, env) else r)
    decreases |a|
  {
    if a == [] {
      assert a + b == b;
    } else {
      assert (a + b)[0] == a[0] && (a + b)[1..] == a[1..] + b;
      var r := ImportLine(db, a[0], mapping, env);
      if !r.outcome.Threw? {
        ImportLinesAppend(r.db, a[1..], b, mapping, env);
      }
    }
  }

  /** A line is passed over as blank exactly when its date cell converts to "" and its amount reads as 0. */
  lemma BlankLineIff(db: Store.Db, line: Bytes, mapping: ColumnMapping, env: Env)
    ensures ImportLine(db, line, mapping, env).outcome.Blank? <==>
      line != [] &&
      var row := Tokens(line, Tab);
      && ConvertDateToDbFormat(GetValueFromRow(row, mapping, DateField)) == Some([])
      && ParseAmount(GetValueFromRow(row, mapping, AmountField), env.stod) == 0.0
  {
    if line != [] {
      var parsed := ParseRow(Tokens(line, Tab), mapping, env.stod);
      if parsed.Some? && !IsBlank(parsed.value.payment) {
        var p := parsed.value.payment;
        var cp := ResolveCounterparty(db, CounterpartyName(p, parsed.value.payer));
        assert !ImportPayment(cp.db, p.(counterpartyId := cp.id), env).outcome.Blank?;
      }
    }
  }

  /**
   * On a line that is imported further, the counterparty is looked up (and
   * created) by the payer cell when the inferred type is "income", and by the
   * recipient cell otherwise.
   */
  lemma LineCounterpartyByType(db: Store.Db, line: Bytes, mapping: ColumnMapping, env: Env)
    requires line != []
    requires ParseRow(Tokens(line, Tab), mapping, env.stod).Some?
    requires !IsBlank(ParseRow(Tokens(line, Tab), mapping, env.stod).value.payment)
    ensures var row := Tokens(line, Tab);
      var p := ParseRow(row, mapping, env.stod).value.payment;
      var name := if InferType(GetValueFromRow(row, mapping, TypeField), GetValueFromRow(row, mapping, RecipientField)) == Income
                  then GetValueFromRow(row, mapping, PayerField)
                  else GetValueFromRow(row, mapping, RecipientField);
      var cp := ResolveCounterparty(db, name);
      ImportLine(db, line, mapping, env) == ImportPayment(cp.db, p.(counterpartyId := cp.id), env)
  {
  }

  // ---------------------------------------------------------------- schema constraints

  lemma ResolveCounterpartyValid(db: Store.Db, name: Bytes)
    requires Store.Valid(db)
    ensures Store.Valid(ResolveCounterparty(db, name).db)
  {
    StoreFacts.CounterpartyWritesValid(db, Counterparty(NoId, name, []), NoId);
  }

  lemma ResolveContractValid(db: Store.Db, description: Bytes, counterpartyId: int, env: Env)
    requires Store.Valid(db)
    ensures var r := ResolveContract(db, description, counterpartyId, env); r.Some? ==> Store.Valid(r.value.db)
  {
    var found := env.contractSearch(description);
    if found.Some? {
      var date := ConvertDateToDbFormat(found.value.1);
      if date.Some? {
        StoreFacts.ContractWritesValid(db, Contract(NoId, found.value.0, date.value, counterpartyId), NoId);
      }
    }
  }

  lemma ResolveInvoiceValid(db: Store.Db, description: Bytes, contractId: int, env: Env)
    requires Store.Valid(db)
    ensures var r := ResolveInvoice(db, description, contractId, env); r.Some? ==> Store.Valid(r.value.db)
  {
    var found := env.invoiceSearch(description);
    if found.Some? {
      var date := ConvertDateToDbFormat(found.value.1);
      if date.Some? {
        StoreFacts.InvoiceWritesValid(db, Invoice(NoId, found.value.0, date.value, contractId), NoId);
      }
    }
  }

  lemma ResolveKosguValid(db: Store.Db, code: Bytes)
    requires Store.Valid(db)
    ensures Store.Valid(ResolveKosgu(db, code).db)
  {
    StoreFacts.KosguWritesValid(db, Kosgu(NoId, code, KosguNamePrefix + code), NoId);
  }

  lemma {:induction false} CollectValid(db: Store.Db, tokens: seq<InlineToken>, link: Link,
                                        stod: Bytes -> Option<real>, details: seq<PaymentDetail>)
    requires Store.Valid(db)
    ensures Store.Valid(CollectDetails(db, tokens, link, stod, details).db)
    decreases |tokens|
  {
    if tokens != [] {
      ResolveKosguValid(db, tokens[0].code);
      var k := ResolveKosgu(db, tokens[0].code);
      var parsed := stod(tokens[0].amount);
      if parsed.Some? {
        var d := PaymentDetail(NoId, link.paymentId, k.id, link.contractId, link.invoiceId, parsed.value);
        CollectStepParsed(db, tokens, link, stod, details);
        CollectValid(k.db, tokens[1..], link, stod, details + [d]);
      } else {
        CollectStepFailed(db, tokens, link, stod, details);
      }
    }
  }

  lemma {:induction false} AddDetailsValid(db: Store.Db, details: seq<PaymentDetail>)
    requires Store.Valid(db)
    ensures Store.Valid(AddDetails(db, details))
    decreases |details|
  {
    if details != [] {
      StoreFacts.DetailWritesValid(db, details[0], NoId);
      AddDetailsValid(Store.AddPaymentDetail(db, details[0]).db, details[1..]);
    }
  }

  lemma ApportionValid(db: Store.Db, description: Bytes, link: Link, amount: real, stod: Bytes -> Option<real>)
    requires Store.Valid(db)
    ensures Store.Valid(Apportion(db, description, link, amount, stod).db)
  {
    var tokens := InlineTokens(description);
    var fallback := FallbackDetail(link, amount);
    if tokens == [] {
      StoreFacts.DetailWritesValid(db, fallback, NoId);
    } else {
      var c := CollectDetails(db, tokens, link, stod, []);
      CollectValid(db, tokens, link, stod, []);
      if Accepts(LoopTotal(c, amount), amount) {
        AddDetailsValid(c.db, c.details);
        assert Apportion(db, description, link, amount, stod).db == AddDetails(c.db, c.details);
      } else {
        StoreFacts.DetailWritesValid(c.db, fallback, NoId);
        assert Apportion(db, description, link, amount, stod).db == Store.AddPaymentDetail(c.db, fallback).db;
      }
    }
  }

  /** One line keeps the UNIQUE and CHECK constraints and the id discipline. */
  lemma LineValid(db: Store.Db, line: Bytes, mapping: ColumnMapping, env: Env)
    requires Store.Valid(db)
    ensures Store.Valid(ImportLine(db, line, mapping, env).db)
  {
    if line != [] {
      var parsed := ParseRow(Tokens(line, Tab), mapping, env.stod);
      if parsed.Some? && !IsBlank(parsed.value.payment) {
        var p := parsed.value.payment;
        ResolveCounterpartyValid(db, CounterpartyName(p, parsed.value.payer));
        var cp := ResolveCounterparty(db, CounterpartyName(p, parsed.value.payer));
        PaymentValid(cp.db, p.(counterpartyId := cp.id), env);
      }
    }
  }

  lemma PaymentValid(db: Store.Db, p: Payment, env: Env)
    requires Store.Valid(db)
    ensures Store.Valid(ImportPayment(db, p, env).db)
  {
    ResolveContractValid(db, p.description, p.counterpartyId, env);
    var ct := ResolveContract(db, p.description, p.counterpartyId, env);
    if ct.Some? {
      ResolveInvoiceValid(ct.value.db, p.description, ct.value.id, env);
      var iv := ResolveInvoice(ct.value.db, p.description, ct.value.id, env);
      if iv.Some? {
        StoreFacts.PaymentWritesValid(iv.value.db, p, NoId);
        var added := Store.AddPayment(iv.value.db, p);
        if added.ok {
          ApportionValid(added.db, p.description, Link(added.item.id, ct.value.id, iv.value.id), p.amount, env.stod);
        }
      }
    }
  }

  /** The whole run keeps the UNIQUE and CHECK constraints and the id discipline. */
  lemma {:induction false} ImportValid(db: Store.Db, lines: seq<Bytes>, mapping: ColumnMapping, env: Env)
    requires Store.Valid(db)
    ensures Store.Valid(ImportLines(db, lines, mapping, env).db)
    decreases |lines|
  {
    if lines != [] {
      LineValid(db, lines[0], mapping, env);
      ImportValid(ImportLine(db, lines[0], mapping, env).db, lines[1..], mapping, env);
    }
  }

  // ---------------------------------------------------------------- the importer's keys

  /** No two counterparties without an inn share a name: the key the importer looks them up by. */
  ghost predicate NamesWithoutInnUnique(rows: seq<Row<CounterpartyColumns>>) {
    forall i, j :: 0 <= i < j < |rows| && rows[i].fields.inn.None? && rows[j].fields.inn.None? ==>
      rows[i].fields.name != rows[j].fields.name
  }

  /** No two contracts share (number, date). */
  ghost predicate ContractKeysUnique(rows: seq<Row<ContractColumns>>) {
    forall i, j :: 0 <= i < j < |rows| ==>
      !(rows[i].fields.number == rows[j].fields.number && rows[i].fields.date == rows[j].fields.date)
  }

  /** No two invoices share (number, date). */
  ghost predicate InvoiceKeysUnique(rows: seq<Row<InvoiceColumns>>) {
    forall i, j :: 0 <= i < j < |rows| ==>
      !(rows[i].fields.number == rows[j].fields.number && rows[i].fields.date == rows[j].fields.date)
  }

  ghost predicate KeysUnique(db: Store.Db) {
    && NamesWithoutInnUnique(db.counterparties.rows)
    && ContractKeysUnique(db.contracts.rows)
    && InvoiceKeysUnique(db.invoices.rows)
  }

  lemma ResolveCounterpartyKeepsKeys(db: Store.Db, name: Bytes)
    requires KeysUnique(db)
    ensures KeysUnique(ResolveCounterparty(db, name).db)
  {
    var r := ResolveCounterparty(db, name);
    if r.db != db {
      var rows := db.counterparties.rows;
      assert !Store.HasNameWithoutInn(rows, name);
      var rows' := r.db.counterparties.rows;
      assert rows' == rows + [Row(db.counterparties.nextId, CounterpartyColumns(name, None))];
      forall i, j | 0 <= i < j < |rows'| && rows'[i].fields.inn.None? && rows'[j].fields.inn.None?
        ensures rows'[i].fields.name != rows'[j].fields.name
      {
        assert rows'[i] == rows[i];
      }
    }
  }

  lemma ResolveContractKeepsKeys(db: Store.Db, description: Bytes, counterpartyId: int, env: Env)
    requires KeysUnique(db)
    ensures var r := ResolveContract(db, description, counterpartyId, env); r.Some? ==> KeysUnique(r.value.db)
  {
    var r := ResolveContract(db, description, counterpartyId, env);
    if r.Some? && r.value.db != db {
      var number := env.contractSearch(description).value.0;
      var date := ConvertDateToDbFormat(env.contractSearch(description).value.1).value;
      var rows := db.contracts.rows;
      assert !Store.HasContract(rows, number, date);
      var rows' := r.value.db.contracts.rows;
      assert rows' == rows + [Row(db.contracts.nextId, ContractColumns(number, date, NullIfNoId(counterpartyId)))];
      forall i, j | 0 <= i < j < |rows'|
        ensures !(rows'[i].fields.number == rows'[j].fields.number && rows'[i].fields.date == rows'[j].fields.date)
      {
        assert rows'[i] == rows[i];
      }
    }
  }

  lemma ResolveInvoiceKeepsKeys(db: Store.Db, description: Bytes, contractId: int, env: Env)
    requires KeysUnique(db)
    ensures var r := ResolveInvoice(db, description, contractId, env); r.Some? ==> KeysUnique(r.value.db)
  {
    var r := ResolveInvoice(db, description, contractId, env);
    if r.Some? && r.value.db != db {
      var number := env.invoiceSearch(description).value.0;
      var date := ConvertDateToDbFormat(env.invoiceSearch(description).value.1).value;
      var rows := db.invoices.rows;
      assert !Store.HasInvoice(rows, number, date);
      var rows' := r.value.db.invoices.rows;
      assert rows' == rows + [Row(db.invoices.nextId, InvoiceColumns(number, date, NullIfNoId(contractId)))];
      forall i, j | 0 <= i < j < |rows'|
        ensures !(rows'[i].fields.number == rows'[j].fields.number && rows'[i].fields.date == rows'[j].fields.date)
      {
        assert rows'[i] == rows[i];
      }
    }
  }

  /**
   * Find-or-create never duplicates a key: one line keeps counterparty names
   * (among rows without an inn), contract keys and invoice keys unique.
   */
  lemma LineKeepsKeys(db: Store.Db, line: Bytes, mapping: ColumnMapping, env: Env)
    requires KeysUnique(db)
    ensures KeysUnique(ImportLine(db, line, mapping, env).db)
  {
    if line != [] {
      var parsed := ParseRow(Tokens(line, Tab), mapping, env.stod);
      if parsed.Some? && !IsBlank(parsed.value.payment) {
        var p := parsed.value.payment;
        ResolveCounterpartyKeepsKeys(db, CounterpartyName(p, parsed.value.payer));
        var cp := ResolveCounterparty(db, CounterpartyName(p, parsed.value.payer));
        PaymentKeepsKeys(cp.db, p.(counterpartyId := cp.id), env);
      }
    }
  }

  lemma PaymentKeepsKeys(db: Store.Db, p: Payment, env: Env)
    requires KeysUnique(db)
    ensures KeysUnique(ImportPayment(db, p, env).db)
  {
    ResolveContractKeepsKeys(db, p.description, p.counterpartyId, env);
    var ct := ResolveContract(db, p.description, p.counterpartyId, env);
    if ct.Some? {
      ResolveInvoiceKeepsKeys(ct.value.db, p.description, ct.value.id, env);
      var iv := ResolveInvoice(ct.value.db, p.description, ct.value.id, env);
      if iv.Some? {
        var added := Store.AddPayment(iv.value.db, p);
        if added.ok {
          var ap := Apportion(added.db, p.description, Link(added.item.id, ct.value.id, iv.value.id), p.amount, env.stod);
          assert ap.db.counterparties == iv.value.db.counterparties;
          assert ap.db.contracts == iv.value.db.contracts;
          assert ap.db.invoices == iv.value.db.invoices;
        }
      }
    }
  }

  /** Re-importing a file, or importing overlapping files, never duplicates a key. */
  lemma {:induction false} ImportKeepsKeys(db: Store.Db, lines: seq<Bytes>, mapping: ColumnMapping, env: Env)
    requires KeysUnique(db)
    ensures KeysUnique(ImportLines(db, lines, mapping, env).db)
    decreases |lines|
  {
    if lines != [] {
      LineKeepsKeys(db, lines[0], mapping, env);
      ImportKeepsKeys(ImportLine(db, lines[0], mapping, env).db, lines[1..], mapping, env);
    }
  }

  /** The whole import: a closed manager is untouched, and the schema's constraints and the keys stay intact. */
  lemma ImportTsvKeeps(db: Store.Db, file: Option<Bytes>, mapping: ColumnMapping, env: Env)
    ensures !db.isOpen ==> ImportTsv(db, file, mapping, env).0 == db
    ensures Store.Valid(db) ==> Store.Valid(ImportTsv(db, file, mapping, env).0)
    ensures KeysUnique(db) ==> KeysUnique(ImportTsv(db, file, mapping, env).0)
  {
    if file.Some? {
      var lines := DataLines(file.value);
      if !db.isOpen {
        ClosedImportUnchanged(db, lines, mapping, env);
      }
      if Store.Valid(db) {
        ImportValid(db, lines, mapping, env);
      }
      if KeysUnique(db) {
        ImportKeepsKeys(db, lines, mapping, env);
      }
    }
  }

  // ---------------------------------------------------------------- apportionment

  /** Every token's amount goes through `std::stod`. */
  ghost predicate AllParse(tokens: seq<InlineToken>, stod: Bytes -> Option<real>) {
    forall k :: 0 <= k < |tokens| ==> stod(tokens[k].amount).Some?
  }

  /** The sum of the tokens' parsed amounts. */
  ghost function ParsedTotal(tokens: seq<InlineToken>, stod: Bytes -> Option<real>): real
    requires AllParse(tokens, stod)
    decreases |tokens|
  {
    if tokens == [] then 0.0 else stod(tokens[0].amount).value + ParsedTotal(tokens[1..], stod)
  }

  /**
   * The loop keeps the details it already has and gives every detail it
   * adds the payment's id and its shared contract and invoice ids.
   */
  lemma {:induction false} CollectLinks(db: Store.Db, tokens: seq<InlineToken>, link: Link,
                                        stod: Bytes -> Option<real>, details: seq<PaymentDetail>, r: Collected)
    requires r == CollectDetails(db, tokens, link, stod, details)
    ensures |details| <= |r.details| <= |details| + |tokens|
    ensures r.details[..|details|] == details
    ensures forall k :: |details| <= k < |r.details| ==>
              r.details[k].paymentId == link.paymentId && r.details[k].contractId == link.contractId
              && r.details[k].invoiceId == link.invoiceId
    decreases |tokens|
  {
    if tokens != [] {
      if stod(tokens[0].amount).None? {
        CollectStepFailed(db, tokens, link, stod, details);
      } else {
        var db1, d := CollectUnfold(db, tokens, link, stod, details);
        CollectLinks(db1, tokens[1..], link, stod, details + [d], r);
        LinksCons(r, details, d, link, |tokens|);
      }
    }
  }

  /** The link facts for the details after `details + [d]` extend to those after `details`. */
  lemma LinksCons(r: Collected, details: seq<PaymentDetail>, d: PaymentDetail, link: Link, n: nat)
    requires 0 < n
    requires |details + [d]| <= |r.details| <= |details + [d]| + (n - 1)
    requires r.details[..|details + [d]|] == details + [d]
    requires forall k :: |details + [d]| <= k < |r.details| ==>
               r.details[k].paymentId == link.paymentId && r.details[k].contractId == link.contractId
               && r.details[k].invoiceId == link.invoiceId
    requires d.paymentId == link.paymentId && d.contractId == link.contractId && d.invoiceId == link.invoiceId
    ensures |details| <= |r.details| <= |details| + n
    ensures r.details[..|details|] == details
    ensures forall k :: |details| <= k < |r.details| ==>
              r.details[k].paymentId == link.paymentId && r.details[k].contractId == link.contractId
              && r.details[k].invoiceId == link.invoiceId
  {
    assert r.details[..|details|] == r.details[..|details + [d]|][..|details|];
    assert r.details[|details|] == r.details[..|details + [d]|][|details|];
  }

  /** Adding one more detail adds its amount to the running total. */
  lemma AmountSumAppend(details: seq<PaymentDetail>, d: PaymentDetail)
    ensures AmountSum(details + [d]) == AmountSum(details) + d.amount
  {
    assert (details + [d])[..|details|] == details;
  }

  /** When every amount parses, the loop runs to the end with one detail per token, adding up their amounts. */
  lemma CollectAllParsed(db: Store.Db, tokens: seq<InlineToken>, link: Link,
                         stod: Bytes -> Option<real>, details: seq<PaymentDetail>, r: Collected)
    requires AllParse(tokens, stod)
    requires r == CollectDetails(db, tokens, link, stod, details)
    ensures r.complete
    ensures |r.details| == |details| + |tokens|
    ensures AmountSum(r.details) == AmountSum(details) + ParsedTotal(tokens, stod)
    ensures forall k :: 0 <= k < |tokens| ==> r.details[|details| + k].amount == stod(tokens[k].amount).value
  {
    CollectRunsToEnd(db, tokens, link, stod, details, r);
    CollectSumsAmounts(db, tokens, link, stod, details, r);
    forall k | 0 <= k < |tokens| ensures r.details[|details| + k].amount == stod(tokens[k].amount).value {
      CollectAmountAt(db, tokens, link, stod, details, k, r, |details| + k);
    }
  }

  lemma {:induction false} CollectRunsToEnd(db: Store.Db, tokens: seq<InlineToken>, link: Link,
                                            stod: Bytes -> Option<real>, details: seq<PaymentDetail>, r: Collected)
    requires AllParse(tokens, stod)
    requires r == CollectDetails(db, tokens, link, stod, details)
    ensures r.complete && |r.details| == |details| + |tokens|
    decreases |tokens|
  {
    if tokens != [] {
      var db1, d := CollectUnfold(db, tokens, link, stod, details);
      AllParseTail(tokens, stod);
      CollectRunsToEnd(db1, tokens[1..], link, stod, details + [d], r);
    }
  }

  lemma {:induction false} CollectSumsAmounts(db: Store.Db, tokens: seq<InlineToken>, link: Link,
                                              stod: Bytes -> Option<real>, details: seq<PaymentDetail>, r: Collected)
    requires AllParse(tokens, stod)
    requires r == CollectDetails(db, tokens, link, stod, details)
    ensures AmountSum(r.details) == AmountSum(details) + ParsedTotal(tokens, stod)
    decreases |tokens|
  {
    if tokens != [] {
      var db1, d := CollectUnfold(db, tokens, link, stod, details);
      AllParseTail(tokens, stod);
      CollectSumsAmounts(db1, tokens[1..], link, stod, details + [d], r);
      AmountSumAppend(details, d);
    }
  }

  /** The detail at position `i`, the `k`-th the loop builds, holds the `k`-th token's parsed amount. */
  lemma {:induction false} CollectAmountAt(db: Store.Db, tokens: seq<InlineToken>, link: Link,
                                           stod: Bytes -> Option<real>, details: seq<PaymentDetail>, k: nat,
                                           r: Collected, i: nat)
    requires AllParse(tokens, stod) && k < |tokens|
    requires r == CollectDetails(db, tokens, link, stod, details)
    requires i == |details| + k
    ensures i < |r.details| && r.details[i].amount == stod(tokens[k].amount).value
    decreases k
  {
    if k == 0 {
      CollectHead(db, tokens, link, stod, details, r);
    } else {
      var db1, d := CollectUnfold(db, tokens, link, stod, details);
      assert AllParse(tokens[1..], stod) by {
        AllParseTail(tokens, stod);
      }
      assert tokens[1..][k - 1] == tokens[k];
      CollectAmountAt(db1, tokens[1..], link, stod, details + [d], k - 1, r, i);
    }
  }

  /** The first detail the loop builds, when the first amount parses. */
  lemma CollectHead(db: Store.Db, tokens: seq<InlineToken>, link: Link,
                    stod: Bytes -> Option<real>, details: seq<PaymentDetail>, r: Collected)
    requires tokens != [] && stod(tokens[0].amount).Some?
    requires r == CollectDetails(db, tokens, link, stod, details)
    ensures |details| < |r.details|
    ensures r.details[|details|]
         == PaymentDetail(NoId, link.paymentId, ResolveKosgu(db, tokens[0].code).id, link.contractId, link.invoiceId,
                          stod(tokens[0].amount).value)
  {
    var resolved := ResolveKosgu(db, tokens[0].code);
    var d := PaymentDetail(NoId, link.paymentId, resolved.id, link.contractId, link.invoiceId,
                           stod(tokens[0].amount).value);
    assert r == CollectDetails(resolved.db, tokens[1..], link, stod, details + [d]) by {
      CollectStepParsed(db, tokens, link, stod, details);
    }
    CollectLinks(resolved.db, tokens[1..], link, stod, details + [d], r);
    assert r.details[|details|] == r.details[..|details + [d]|][|details|];
  }

  /** When an amount does not parse, the loop stops short. */
  lemma {:induction false} CollectParseFailure(db: Store.Db, tokens: seq<InlineToken>, link: Link,
                                               stod: Bytes -> Option<real>, details: seq<PaymentDetail>)
    requires !AllParse(tokens, stod)
    ensures !CollectDetails(db, tokens, link, stod, details).complete
    decreases |tokens|
  {
    var bad :| 0 <= bad < |tokens| && stod(tokens[bad].amount).None?;
    if stod(tokens[0].amount).Some? {
      var k := ResolveKosgu(db, tokens[0].code);
      var v := stod(tokens[0].amount).value;
      var d := PaymentDetail(NoId, link.paymentId, k.id, link.contractId, link.invoiceId, v);
      assert bad > 0;
      assert tokens[1..][bad - 1] == tokens[bad];
      CollectParseFailure(k.db, tokens[1..], link, stod, details + [d]);
    }
  }

  /**
   * The inline list is used exactly when the description has the marker
   * followed by at least one token, every amount parses, and their sum is
   * positive and at most the payment's amount plus 0.01.
   */
  lemma ApportionHandledIff(db: Store.Db, description: Bytes, link: Link, amount: real, stod: Bytes -> Option<real>)
    ensures var tokens := InlineTokens(description);
      Apportion(db, description, link, amount, stod).handled
      <==> tokens != [] && AllParse(tokens, stod) && Accepts(ParsedTotal(tokens, stod), amount)
  {
    var tokens := InlineTokens(description);
    if tokens != [] {
      if AllParse(tokens, stod) {
        CollectAllParsed(db, tokens, link, stod, [], CollectDetails(db, tokens, link, stod, []));
      } else {
        CollectParseFailure(db, tokens, link, stod, []);
      }
    }
  }

  /** The rows the inserts append, for an open manager. */
  lemma {:induction false} AddDetailsRows(db: Store.Db, details: seq<PaymentDetail>)
    requires db.isOpen
    ensures AddDetails(db, details).details.rows == db.details.rows + DetailRows(details, db.details.nextId)
    ensures AddDetails(db, details).details.nextId == db.details.nextId + |details|
    decreases |details|
  {
    if details == [] {
      assert db.details.rows + [] == db.details.rows;
    } else {
      var next := Store.AddPaymentDetail(db, details[0]).db;
      var head := Row(db.details.nextId, DetailRecord(details[0]));
      var tail := DetailRows(details[1..], db.details.nextId + 1);
      assert next.isOpen && next.details.rows == db.details.rows + [head] && next.details.nextId == db.details.nextId + 1;
      assert AddDetails(db, details) == AddDetails(next, details[1..]);
      AddDetailsRows(next, details[1..]);
      assert DetailRows(details, db.details.nextId) == [head] + tail by {
        assert details[1..] == details[1..];
      }
      assert (db.details.rows + [head]) + tail == db.details.rows + ([head] + tail);
    }
  }

  /** The `k`-th appended row holds the `k`-th detail, under id `start + k`. */
  lemma {:induction false} DetailRowsAt(details: seq<PaymentDetail>, start: RowId, k: nat)
    requires k < |details|
    ensures DetailRows(details, start)[k] == Row(start + k, DetailRecord(details[k]))
    decreases k
  {
    if k > 0 {
      DetailRowsAt(details[1..], start + 1, k - 1);
    }
  }

  /** Without the inline list, exactly one detail is added: no KOSGU code, the payment's whole amount. */
  lemma FallbackDetailAdded(db: Store.Db, description: Bytes, link: Link, amount: real, stod: Bytes -> Option<real>)
    requires db.isOpen
    requires !Apportion(db, description, link, amount, stod).handled
    ensures Apportion(db, description, link, amount, stod).db.details
         == Insert(db.details, DetailColumns(link.paymentId, NoId, link.contractId, link.invoiceId, amount))
  {
  }

  /**
   * With the inline list, one detail per token is added, in order: the
   * token's amount, the id its KOSGU code has in the store afterwards, and
   * the payment's shared ids.
   */
  lemma InlineDetailsAdded(db: Store.Db, description: Bytes, link: Link, amount: real, stod: Bytes -> Option<real>)
    requires db.isOpen
    requires Apportion(db, description, link, amount, stod).handled
    ensures var tokens := InlineTokens(description);
      var r := Apportion(db, description, link, amount, stod).db;
      && AllParse(tokens, stod)
      && |r.details.rows| == |db.details.rows| + |tokens|
      && r.details.rows[..|db.details.rows|] == db.details.rows
      && forall k :: 0 <= k < |tokens| ==>
           r.details.rows[|db.details.rows| + k].fields
           == DetailColumns(link.paymentId, Store.KosguIdByCode(r, tokens[k].code), link.contractId, link.invoiceId,
                            stod(tokens[k].amount).value)
  {
    var tokens := InlineTokens(description);
    var c := CollectDetails(db, tokens, link, stod, []);
    var r := Apportion(db, description, link, amount, stod).db;
    assert AllParse(tokens, stod) && r == AddDetails(c.db, c.details) by {
      ApportionHandledIff(db, description, link, amount, stod);
    }
    CollectAllParsed(db, tokens, link, stod, [], c);
    CollectLinks(db, tokens, link, stod, [], c);
    AddDetailsRows(c.db, c.details);
    assert c.db.details == db.details && c.db.isOpen;
    forall k | 0 <= k < |tokens|
      ensures r.details.rows[|db.details.rows| + k].fields
           == DetailColumns(link.paymentId, Store.KosguIdByCode(r, tokens[k].code), link.contractId, link.invoiceId,
                            stod(tokens[k].amount).value)
    {
      assert Store.KosguIdByCode(r, tokens[k].code) == Store.KosguIdByCode(c.db, tokens[k].code);
      assert r.details.rows[|db.details.rows| + k] == DetailRows(c.details, db.details.nextId)[k];
      DetailRowsAt(c.details, db.details.nextId, k);
      CollectKosguIdAt(db, tokens, link, stod, [], k, c, k);
      assert c.details[k] == c.details[0 + k];
    }
  }

  /**
   * The `k`-th detail the loop builds, `r` being what the loop yields and
   * `i` its position, carries the id its token's code has in the store the
   * loop ends with.
   */
  lemma {:induction false} CollectKosguIdAt(db: Store.Db, tokens: seq<InlineToken>, link: Link,
                                            stod: Bytes -> Option<real>, details: seq<PaymentDetail>, k: nat,
                                            r: Collected, i: nat)
    requires db.isOpen && AllParse(tokens, stod) && k < |tokens|
    requires r == CollectDetails(db, tokens, link, stod, details)
    requires i == |details| + k
    ensures i < |r.details| && r.details[i].kosguId == Store.KosguIdByCode(r.db, tokens[k].code)
    decreases k
  {
    if k == 0 {
      CollectKosguIdFirst(db, tokens, link, stod, details, r);
    } else {
      CollectKosguIdLater(db, tokens, link, stod, details, k, r, i);
    }
  }

  lemma CollectKosguIdFirst(db: Store.Db, tokens: seq<InlineToken>, link: Link,
                            stod: Bytes -> Option<real>, details: seq<PaymentDetail>, r: Collected)
    requires db.isOpen && tokens != [] && stod(tokens[0].amount).Some?
    requires r == CollectDetails(db, tokens, link, stod, details)
    ensures |details| < |r.details| && r.details[|details|].kosguId == Store.KosguIdByCode(r.db, tokens[0].code)
  {
    var code := tokens[0].code;
    var resolved := ResolveKosgu(db, code);
    var d := PaymentDetail(NoId, link.paymentId, resolved.id, link.contractId, link.invoiceId,
                           stod(tokens[0].amount).value);
    assert r == CollectDetails(resolved.db, tokens[1..], link, stod, details + [d]) by {
      CollectStepParsed(db, tokens, link, stod, details);
    }
    CollectHead(db, tokens, link, stod, details, r);
    assert resolved.id == Store.KosguIdByCode(resolved.db, code) != NoId by {
      ResolveKosguFinds(db, code);
    }
    assert Store.KosguIdByCode(r.db, code) == Store.KosguIdByCode(resolved.db, code) by {
      CollectKeepsKosguLookup(resolved.db, tokens[1..], link, stod, details + [d], code);
    }
  }

  lemma {:induction false} CollectKosguIdLater(db: Store.Db, tokens: seq<InlineToken>, link: Link,
                                               stod: Bytes -> Option<real>, details: seq<PaymentDetail>, k: nat,
                                               r: Collected, i: nat)
    requires db.isOpen && AllParse(tokens, stod) && 0 < k < |tokens|
    requires r == CollectDetails(db, tokens, link, stod, details)
    requires i == |details| + k
    ensures i < |r.details| && r.details[i].kosguId == Store.KosguIdByCode(r.db, tokens[k].code)
    decreases k, 0
  {
    var db1, d := CollectUnfold(db, tokens, link, stod, details);
    assert AllParse(tokens[1..], stod) by {
      AllParseTail(tokens, stod);
    }
    assert tokens[1..][k - 1] == tokens[k];
    CollectKosguIdAt(db1, tokens[1..], link, stod, details + [d], k - 1, r, i);
  }

  /** One turn of the token loop on an open store, with the store and the detail it yields named. */
  lemma CollectUnfold(db: Store.Db, tokens: seq<InlineToken>, link: Link,
                      stod: Bytes -> Option<real>, details: seq<PaymentDetail>)
    returns (db1: Store.Db, d: PaymentDetail)
    requires tokens != [] && stod(tokens[0].amount).Some?
    ensures db.isOpen ==> db1.isOpen
    ensures d.paymentId == link.paymentId && d.contractId == link.contractId && d.invoiceId == link.invoiceId
    ensures d.amount == stod(tokens[0].amount).value
    ensures CollectDetails(db, tokens, link, stod, details) == CollectDetails(db1, tokens[1..], link, stod, details + [d])
  {
    var resolved := ResolveKosgu(db, tokens[0].code);
    db1 := resolved.db;
    d := PaymentDetail(NoId, link.paymentId, resolved.id, link.contractId, link.invoiceId, stod(tokens[0].amount).value);
    CollectStepParsed(db, tokens, link, stod, details);
  }

  lemma AllParseTail(tokens: seq<InlineToken>, stod: Bytes -> Option<real>)
    requires tokens != [] && AllParse(tokens, stod)
    ensures AllParse(tokens[1..], stod)
  {
    forall j | 0 <= j < |tokens[1..]| ensures stod(tokens[1..][j].amount).Some? {
      assert tokens[1..][j] == tokens[j + 1];
    }
  }

  lemma ResolveKosguKeepsOpen(db: Store.Db, code: Bytes)
    requires db.isOpen
    ensures ResolveKosgu(db, code).db.isOpen
  {
  }

  /** One turn of the token loop whose amount parses. */
  lemma CollectStepParsed(db: Store.Db, tokens: seq<InlineToken>, link: Link,
                          stod: Bytes -> Option<real>, details: seq<PaymentDetail>)
    requires tokens != [] && stod(tokens[0].amount).Some?
    ensures var k := ResolveKosgu(db, tokens[0].code);
      var d := PaymentDetail(NoId, link.paymentId, k.id, link.contractId, link.invoiceId, stod(tokens[0].amount).value);
      CollectDetails(db, tokens, link, stod, details)
      == CollectDetails(k.db, tokens[1..], link, stod, details + [d])
  {
  }

  /** The turn of the token loop whose amount does not parse: the last one. */
  lemma CollectStepFailed(db: Store.Db, tokens: seq<InlineToken>, link: Link,
                          stod: Bytes -> Option<real>, details: seq<PaymentDetail>)
    requires tokens != [] && stod(tokens[0].amount).None?
    ensures CollectDetails(db, tokens, link, stod, details)
         == Collected(ResolveKosgu(db, tokens[0].code).db, details, false)
  {
  }

  /** On an open manager the KOSGU step settles on the id the code then has. */
  lemma ResolveKosguFinds(db: Store.Db, code: Bytes)
    requires db.isOpen
    ensures var r := ResolveKosgu(db, code); r.id != NoId && r.id == Store.KosguIdByCode(r.db, code)
  {
    var r := ResolveKosgu(db, code);
    if r.db != db {
      assert r.db.kosgu.rows[|db.kosgu.rows|].fields.code == code;
    }
  }

  /** The token loop only appends to KOSGU. */
  lemma {:induction false} CollectExtendsKosgu(db: Store.Db, tokens: seq<InlineToken>, link: Link,
                                               stod: Bytes -> Option<real>, details: seq<PaymentDetail>)
    ensures IsPrefix(db.kosgu.rows, CollectDetails(db, tokens, link, stod, details).db.kosgu.rows)
    decreases |tokens|
  {
    if tokens != [] {
      var k := ResolveKosgu(db, tokens[0].code);
      var rows := CollectDetails(db, tokens, link, stod, details).db.kosgu.rows;
      ResolveKosguExtends(db, tokens[0].code);
      match stod(tokens[0].amount)
      case None =>
        assert rows == k.db.kosgu.rows by {
          CollectStepFailed(db, tokens, link, stod, details);
        }
      case Some(v) =>
        var d := PaymentDetail(NoId, link.paymentId, k.id, link.contractId, link.invoiceId, v);
        assert rows == CollectDetails(k.db, tokens[1..], link, stod, details + [d]).db.kosgu.rows by {
          CollectStepParsed(db, tokens, link, stod, details);
        }
        CollectExtendsKosgu(k.db, tokens[1..], link, stod, details + [d]);
        PrefixTransitive(db.kosgu.rows, k.db.kosgu.rows, rows);
    }
  }

  /** The KOSGU step only appends to KOSGU. */
  lemma ResolveKosguExtends(db: Store.Db, code: Bytes)
    ensures IsPrefix(db.kosgu.rows, ResolveKosgu(db, code).db.kosgu.rows)
  {
    var r := ResolveKosgu(db, code);
    if r.db != db {
      assert r.db.kosgu.rows == db.kosgu.rows + [Row(db.kosgu.nextId, KosguColumns(code, KosguNamePrefix + code))];
    }
  }

  /** `a` is a prefix of `b`; kept behind a name so that it is unfolded only where it is needed. */
  ghost predicate IsPrefix<T>(a: seq<T>, b: seq<T>) {
    a <= b
  }

  lemma PrefixTransitive<T>(a: seq<T>, b: seq<T>, c: seq<T>)
    requires IsPrefix(a, b) && IsPrefix(b, c)
    ensures IsPrefix(a, c)
  {
    assert forall i :: 0 <= i < |a| ==> a[i] == b[i] == c[i];
  }

  /** A code already in KOSGU keeps its id while the loop inserts other codes. */
  lemma CollectKeepsKosguLookup(db: Store.Db, tokens: seq<InlineToken>, link: Link,
                                stod: Bytes -> Option<real>, details: seq<PaymentDetail>,
                                code: Bytes)
    requires Store.KosguIdByCode(db, code) != NoId
    ensures Store.KosguIdByCode(CollectDetails(db, tokens, link, stod, details).db, code)
         == Store.KosguIdByCode(db, code)
  {
    var r := CollectDetails(db, tokens, link, stod, details);
    CollectExtendsKosgu(db, tokens, link, stod, details);
    AppendKeepsKosguLookup(db, r.db, code);
  }

  /** Appending KOSGU rows does not change which row a present code finds first. */
  lemma AppendKeepsKosguLookup(db: Store.Db, db': Store.Db, code: Bytes)
    requires db'.isOpen == db.isOpen && IsPrefix(db.kosgu.rows, db'.kosgu.rows)
    requires Store.KosguIdByCode(db, code) != NoId
    ensures Store.KosguIdByCode(db', code) == Store.KosguIdByCode(db, code)
  {
    var rows, rows' := db.kosgu.rows, db'.kosgu.rows;
    Store.KosguIdByCodeFirst(db, code);
    Store.KosguIdByCodeFirst(db', code);
    var i :| 0 <= i < |rows| && rows[i].id == Store.KosguIdByCode(db, code) && rows[i].fields.code == code
             && forall j :: 0 <= j < i ==> rows[j].fields.code != code;
    assert rows'[i] == rows[i];
    var i' :| 0 <= i' < |rows'| && rows'[i'].id == Store.KosguIdByCode(db', code) && rows'[i'].fields.code == code
              && forall j :: 0 <= j < i' ==> rows'[j].fields.code != code;
    assert i' <= i;
    assert rows'[i'] == rows[i'];
    assert i' == i;
  }

  /**
   * Every token the loop reaches has its code in KOSGU afterwards, whether
   * or not the list is then accepted: the loop stops after the first amount
   * that does not parse.
   */
  lemma KosguCreatedBeforeCheck(db: Store.Db, description: Bytes, link: Link, amount: real,
                                stod: Bytes -> Option<real>, k: nat)
    requires db.isOpen
    requires k < |InlineTokens(description)|
    requires forall j :: 0 <= j < k ==> stod(InlineTokens(description)[j].amount).Some?
    ensures Store.KosguIdByCode(Apportion(db, description, link, amount, stod).db, InlineTokens(description)[k].code) != NoId
  {
    var tokens := InlineTokens(description);
    var c := CollectDetails(db, tokens, link, stod, []);
    CollectReaches(db, tokens, link, stod, [], k, c, tokens[k].code);
    assert Apportion(db, description, link, amount, stod).db.kosgu == c.db.kosgu;
  }

  lemma {:induction false} CollectReaches(db: Store.Db, tokens: seq<InlineToken>, link: Link,
                                          stod: Bytes -> Option<real>, details: seq<PaymentDetail>, k: nat,
                                          r: Collected, code: Bytes)
    requires db.isOpen && k < |tokens|
    requires forall j :: 0 <= j < k ==> stod(tokens[j].amount).Some?
    requires r == CollectDetails(db, tokens, link, stod, details)
    requires code == tokens[k].code
    ensures Store.CodeTaken(r.db.kosgu.rows, code)
    decreases |tokens|
  {
    if k == 0 {
      CollectReachesFirst(db, tokens, link, stod, details);
    } else {
      var db1, d := CollectUnfold(db, tokens, link, stod, details);
      ParsesBeforeTail(tokens, stod, k);
      CollectReaches(db1, tokens[1..], link, stod, details + [d], k - 1, r, code);
    }
  }

  lemma ParsesBeforeTail(tokens: seq<InlineToken>, stod: Bytes -> Option<real>, k: nat)
    requires 0 < k < |tokens|
    requires forall j :: 0 <= j < k ==> stod(tokens[j].amount).Some?
    ensures tokens[1..][k - 1] == tokens[k]
    ensures forall j :: 0 <= j < k - 1 ==> stod(tokens[1..][j].amount).Some?
  {
    assert forall j :: 0 <= j < k - 1 ==> tokens[1..][j] == tokens[j + 1];
  }

  /** The first token's code is in KOSGU after the loop. */
  lemma CollectReachesFirst(db: Store.Db, tokens: seq<InlineToken>, link: Link,
                            stod: Bytes -> Option<real>, details: seq<PaymentDetail>)
    requires db.isOpen && tokens != []
    ensures Store.CodeTaken(CollectDetails(db, tokens, link, stod, details).db.kosgu.rows, tokens[0].code)
  {
    var r := ResolveKosgu(db, tokens[0].code);
    var c := CollectDetails(db, tokens, link, stod, details);
    ResolveKosguTakes(db, tokens[0].code);
    if stod(tokens[0].amount).Some? {
      var v := stod(tokens[0].amount).value;
      var d := PaymentDetail(NoId, link.paymentId, r.id, link.contractId, link.invoiceId, v);
      assert c == CollectDetails(r.db, tokens[1..], link, stod, details + [d]) by {
        CollectStepParsed(db, tokens, link, stod, details);
      }
      CollectKeepsCode(r.db, tokens[1..], link, stod, details + [d], tokens[0].code);
    } else {
      assert c.db == r.db by {
        CollectStepFailed(db, tokens, link, stod, details);
      }
    }
  }

  /** A code already in KOSGU is still there after the loop. */
  lemma CollectKeepsCode(db: Store.Db, tokens: seq<InlineToken>, link: Link,
                         stod: Bytes -> Option<real>, details: seq<PaymentDetail>, code: Bytes)
    requires Store.CodeTaken(db.kosgu.rows, code)
    ensures Store.CodeTaken(CollectDetails(db, tokens, link, stod, details).db.kosgu.rows, code)
  {
    var c := CollectDetails(db, tokens, link, stod, details);
    CollectExtendsKosgu(db, tokens, link, stod, details);
    CodeTakenPrefix(db.kosgu.rows, c.db.kosgu.rows, code);
  }

  /** On an open manager the code is in KOSGU after the KOSGU step. */
  lemma ResolveKosguTakes(db: Store.Db, code: Bytes)
    requires db.isOpen
    ensures Store.CodeTaken(ResolveKosgu(db, code).db.kosgu.rows, code)
  {
    var r := ResolveKosgu(db, code);
    if r.db != db {
      assert r.db.kosgu.rows[|db.kosgu.rows|].fields.code == code;
    }
  }

  lemma CodeTakenPrefix(rows: seq<Row<KosguColumns>>, rows': seq<Row<KosguColumns>>, code: Bytes)
    requires IsPrefix(rows, rows') && Store.CodeTaken(rows, code)
    ensures Store.CodeTaken(rows', code)
  {
    var i :| 0 <= i < |rows| && rows[i].fields.code == code;
    assert rows'[i] == rows[i];
  }
}
