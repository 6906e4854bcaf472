/**
 * `ImportManager::ImportPaymentsFromTsv` as it runs: a read loop over the
 * lines that drives a `DatabaseManager` through its lookups and inserts.
 * Every method is proved to leave the manager in the state the matching
 * `Importer` function gives.
 */
module ImportRun {
  import opened Basics
  import opened Text
  import opened Fields
  import Dates
  import opened Records
  import opened Extract
  import opened Database
  import Store
  import Importer

  /**
   * The whole import. Returns `Finished` where the source returns true,
   * `NoManager` and `FileNotOpened` where it returns false, and `Aborted`
   * where a date conversion throws out of it; `file` is the file's content,
   * None when it cannot be opened.
   */
  method ImportPaymentsFromTsv(db: DatabaseManager?, file: Option<Bytes>, mapping: ColumnMapping,
                               env: Importer.Env) returns (finish: Importer.Finish)
    requires db != null ==> db.Valid()
    modifies db
    ensures db == null ==> finish == Importer.NoManager
    ensures db != null ==> (db.State(), finish) == Importer.ImportTsv(old(db.State()), file, mapping, env)
    ensures db != null ==> db.Valid()
  {
    if db == null {
      return Importer.NoManager;
    }
    if file.None? {
      return Importer.FileNotOpened;
    }
    var lines := Split(file.value, LineFeed);
    // The first getline consumes the header.
    var k := if lines == [] then 0 else 1;
    ghost var run := Importer.ImportLines(old(db.State()), Importer.DataLines(file.value), mapping, env);
    assert Importer.ImportLines(db.State(), lines[k..], mapping, env) == run by {
      assert lines[k..] == Importer.DataLines(file.value);
    }
    while k < |lines|
      invariant k <= |lines|
      invariant db.Valid()
      invariant Importer.ImportLines(db.State(), lines[k..], mapping, env) == run
      decreases |lines| - k
    {
      ghost var before := db.State();
      var outcome := ImportLine(db, lines[k], mapping, env);
      Importer.ImportLinesStep(before, lines, k, mapping, env, Importer.LineResult(db.State(), outcome));
      if outcome.Threw? {
        return Importer.Aborted;
      }
      k := k + 1;
    }
    return Importer.Finished;
  }

  /** The body of the read loop for one line. */
  method ImportLine(db: DatabaseManager, line: Bytes, mapping: ColumnMapping, env: Importer.Env)
    returns (outcome: Importer.LineOutcome)
    requires db.Valid()
    modifies db
    ensures Importer.LineResult(db.State(), outcome) == Importer.ImportLine(old(db.State()), line, mapping, env)
    ensures db.Valid()
  {
    if line == [] {
      return Importer.Empty;
    }
    var row := Split(line, Tab);
    var parsed := Importer.ParseRow(row, mapping, env.stod);
    if parsed.None? {
      return Importer.Threw;
    }
    var payment := parsed.value.payment;
    if Importer.IsBlank(payment) {
      return Importer.Blank;
    }
    var counterpartyId := ResolveCounterparty(db, Importer.CounterpartyName(payment, parsed.value.payer));
    outcome := ImportPayment(db, payment.(counterpartyId := counterpartyId), env);
  }

  /** The line's contract, invoice, payment insert and apportionment, its counterparty settled. */
  method ImportPayment(db: DatabaseManager, payment: Payment, env: Importer.Env)
    returns (outcome: Importer.LineOutcome)
    requires db.Valid()
    modifies db
    ensures Importer.LineResult(db.State(), outcome) == Importer.ImportPayment(old(db.State()), payment, env)
    ensures db.Valid()
  {
    var contractId, contractThrew := ResolveContract(db, payment.description, payment.counterpartyId, env);
    if contractThrew {
      return Importer.Threw;
    }
    var invoiceId, invoiceThrew := ResolveInvoice(db, payment.description, contractId, env);
    if invoiceThrew {
      return Importer.Threw;
    }
    var ok, written := db.AddPayment(payment);
    if !ok {
      return Importer.Rejected;
    }
    var handled := Apportion(db, payment.description, Importer.Link(written.id, contractId, invoiceId),
                             payment.amount, env.stod);
    outcome := Importer.Imported(written.id, handled);
  }

  /** Find-or-create of the line's counterparty; -1 for an empty name. */
  method ResolveCounterparty(db: DatabaseManager, name: Bytes) returns (id: int)
    requires db.Valid()
    modifies db
    ensures Importer.Resolved(db.State(), id) == Importer.ResolveCounterparty(old(db.State()), name)
    ensures db.Valid()
  {
    id := NoId;
    if name != [] {
      id := db.GetCounterpartyIdByName(name);
      if id == NoId {
        var ok, written := db.AddCounterparty(Counterparty(NoId, name, []));
        if ok {
          id := written.id;
        }
      }
    }
  }

  /** Find-or-create of the contract the description names; `threw` when its date cannot be converted. */
  method ResolveContract(db: DatabaseManager, description: Bytes, counterpartyId: int, env: Importer.Env)
    returns (id: int, threw: bool)
    requires db.Valid()
    modifies db
    ensures threw <==> Importer.ResolveContract(old(db.State()), description, counterpartyId, env).None?
    ensures threw ==> db.State() == old(db.State())
    ensures !threw ==>
      Some(Importer.Resolved(db.State(), id)) == Importer.ResolveContract(old(db.State()), description, counterpartyId, env)
    ensures db.Valid()
  {
    id, threw := NoId, false;
    var found := env.contractSearch(description);
    if found.Some? {
      var number := found.value.0;
      var date := Dates.ConvertDateToDbFormat(found.value.1);
      if date.None? {
        return NoId, true;
      }
      id := db.GetContractIdByNumberDate(number, date.value);
      if id == NoId {
        var ok, written := db.AddContract(Contract(NoId, number, date.value, counterpartyId));
        if ok {
          id := written.id;
        }
      }
    }
  }

  /** Find-or-create of the invoice the description names; `threw` when its date cannot be converted. */
  method ResolveInvoice(db: DatabaseManager, description: Bytes, contractId: int, env: Importer.Env)
    returns (id: int, threw: bool)
    requires db.Valid()
    modifies db
    ensures threw <==> Importer.ResolveInvoice(old(db.State()), description, contractId, env).None?
    ensures threw ==> db.State() == old(db.State())
    ensures !threw ==>
      Some(Importer.Resolved(db.State(), id)) == Importer.ResolveInvoice(old(db.State()), description, contractId, env)
    ensures db.Valid()
  {
    id, threw := NoId, false;
    var found := env.invoiceSearch(description);
    if found.Some? {
      var number := found.value.0;
      var date := Dates.ConvertDateToDbFormat(found.value.1);
      if date.None? {
        return NoId, true;
      }
      id := db.GetInvoiceIdByNumberDate(number, date.value);
      if id == NoId {
        var ok, written := db.AddInvoice(Invoice(NoId, number, date.value, contractId));
        if ok {
          id := written.id;
        }
      }
    }
  }

  /** The KOSGU id of an inline token's code, inserting the code when it is new. */
  method ResolveKosgu(db: DatabaseManager, code: Bytes) returns (id: int)
    requires db.Valid()
    modifies db
    ensures Importer.Resolved(db.State(), id) == Importer.ResolveKosgu(old(db.State()), code)
    ensures db.Valid()
  {
    id := db.GetKosguIdByCode(code);
    if id == NoId {
      var ok := db.AddKosguEntry(Kosgu(NoId, code, Importer.KosguNamePrefix + code));
      if ok {
        id := db.GetKosguIdByCode(code);
      }
    }
  }

  /**
   * The apportionment of a new payment: the inline list, when there is one
   * and its total passes the check, else the one fallback detail.
   */
  method Apportion(db: DatabaseManager, description: Bytes, link: Importer.Link, amount: real,
                   stod: Bytes -> Option<real>) returns (handled: bool)
    requires db.Valid()
    modifies db
    ensures Importer.Apportioned(db.State(), handled)
         == Importer.Apportion(old(db.State()), description, link, amount, stod)
    ensures db.Valid()
  {
    handled := false;
    var part := DetailsPart(description);
    var tokens := if part.Some? then Scan(part.value) else [];
    assert tokens == Importer.InlineTokens(description);
    if |tokens| > 0 {
      var detailsToAdd, total := CollectDetails(db, tokens, link, amount, stod);
      if Importer.Accepts(total, amount) {
        AddDetails(db, detailsToAdd);
        handled := true;
      }
    }
    if !handled {
      var added, written := db.AddPaymentDetail(Importer.FallbackDetail(link, amount));
    }
  }

  /**
   * The loop over the inline tokens: resolve each code, parse each amount
   * and add it to the running total; an amount that does not parse forces
   * the total past the payment's amount and ends the loop.
   */
  method CollectDetails(db: DatabaseManager, tokens: seq<InlineToken>, link: Importer.Link, amount: real,
                        stod: Bytes -> Option<real>) returns (details: seq<PaymentDetail>, total: real)
    requires db.Valid()
    modifies db
    ensures var c := Importer.CollectDetails(old(db.State()), tokens, link, stod, []);
      db.State() == c.db && details == c.details && total == Importer.LoopTotal(c, amount)
    ensures db.Valid()
  {
    details, total := [], 0.0;
    var i := 0;
    while i < |tokens|
      invariant 0 <= i <= |tokens|
      invariant db.Valid()
      invariant Importer.CollectDetails(db.State(), tokens[i..], link, stod, details)
             == Importer.CollectDetails(old(db.State()), tokens, link, stod, [])
      invariant total == Importer.AmountSum(details)
      decreases |tokens| - i
    {
      var kosguId := ResolveKosgu(db, tokens[i].code);
      var parsedAmount := stod(tokens[i].amount);
      if parsedAmount.None? {
        // Forces the check on the total to fail.
        total := amount + 1.0;
        return;
      }
      var detail := PaymentDetail(NoId, link.paymentId, kosguId, link.contractId, link.invoiceId, parsedAmount.value);
      assert (details + [detail])[..|details|] == details;
      details := details + [detail];
      total := total + parsedAmount.value;
      i := i + 1;
    }
  }

  /** `addPaymentDetail` on each detail in turn, its result ignored. */
  method AddDetails(db: DatabaseManager, details: seq<PaymentDetail>)
    requires db.Valid()
    modifies db
    ensures db.State() == Importer.AddDetails(old(db.State()), details)
    ensures db.Valid()
  {
    var j := 0;
    while j < |details|
      invariant 0 <= j <= |details|
      invariant db.Valid()
      invariant Importer.AddDetails(db.State(), details[j..]) == Importer.AddDetails(old(db.State()), details)
      decreases |details| - j
    {
      var added, written := db.AddPaymentDetail(details[j]);
      j := j + 1;
    }
  }
}
