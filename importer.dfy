/**
 * `ImportManager::ImportPaymentsFromTsv` as functions on the store: what one
 * line of the file does to the database, and what the whole file does. The
 * imperative version in `ImportRun` is proved to follow these step for step.
 */
module Importer {
  import opened Basics
  import opened Text
  import opened Dates
  import opened Fields
  import opened Records
  import opened Extract
  import Tables
  import Store
  import StoreFacts

  /**
   * What the importer calls but the model does not look inside:
   * `std::stod` (None where it throws) and the first match of the contract
   * and of the invoice regular expression (groups 1 and 2).
   */
  datatype Env = Env(
    stod: Bytes -> Option<real>,
    contractSearch: Bytes -> Option<(Bytes, Bytes)>,
    invoiceSearch: Bytes -> Option<(Bytes, Bytes)>)

  // ---------------------------------------------------------------- one row

  /** A line's payment, and the payer's name, which only picks the counterparty. */
  datatype ParsedRow = ParsedRow(payment: Payment, payer: Bytes)

  /** The amount cell: decimal commas become dots; a cell `std::stod` rejects reads as 0. */
  function ParseAmount(cell: Bytes, stod: Bytes -> Option<real>): (v: real)
    ensures stod(CommasToDots(cell)).None? ==> v == 0.0
    ensures stod(CommasToDots(cell)).Some? ==> v == stod(CommasToDots(cell)).value
  {
    match stod(CommasToDots(cell))
    case Some(v) => v
    case None => 0.0
  }

  /** An empty type is inferred from the recipient; a given type is kept as it is. */
  function InferType(given: Bytes, recipient: Bytes): (t: Bytes)
    ensures given != [] ==> t == given
    ensures given == [] ==> Store.IsPaymentType(t)
    ensures given == [] ==> (t == Expense <==> recipient != [])
  {
    if given != [] then given
    else if recipient != [] then Expense
    else Income
  }

  /**
   * The cells of a line read into a payment. None when the date cell makes
   * `convertDateToDBFormat` throw, which nothing in the importer catches.
   */
  function ParseRow(row: seq<Bytes>, mapping: ColumnMapping, stod: Bytes -> Option<real>): (r: Option<ParsedRow>)
    ensures r.None? <==> ConvertDateToDbFormat(GetValueFromRow(row, mapping, DateField)).None?
    ensures r.Some? ==> r.value.payment.id == NoId && r.value.payment.counterpartyId == NoId
    ensures r.Some? ==> r.value.payment.contractId == NoId && r.value.payment.invoiceId == NoId
    ensures r.Some? ==>
      r.value.payment.paymentType == InferType(GetValueFromRow(row, mapping, TypeField), GetValueFromRow(row, mapping, RecipientField))
    ensures r.Some? ==> r.value.payment.description == GetValueFromRow(row, mapping, DescriptionField)
    ensures r.Some? ==> r.value.payment.date == ConvertDateToDbFormat(GetValueFromRow(row, mapping, DateField)).value
    ensures r.Some? ==> r.value.payment.docNumber == GetValueFromRow(row, mapping, DocNumberField)
    ensures r.Some? ==> r.value.payment.recipient == GetValueFromRow(row, mapping, RecipientField)
    ensures r.Some? ==> r.value.payment.amount == ParseAmount(GetValueFromRow(row, mapping, AmountField), stod)
    ensures r.Some? ==> r.value.payer == GetValueFromRow(row, mapping, PayerField)
  {
    match ConvertDateToDbFormat(GetValueFromRow(row, mapping, DateField))
    case None => None
    case Some(date) =>
      var recipient := GetValueFromRow(row, mapping, RecipientField);
      var payment := Payment(
        NoId,
        date,
        GetValueFromRow(row, mapping, DocNumberField),
        InferType(GetValueFromRow(row, mapping, TypeField), recipient),
        ParseAmount(GetValueFromRow(row, mapping, AmountField), stod),
        [], [], recipient, [],
        GetValueFromRow(row, mapping, DescriptionField),
        NoId, NoId, NoId, NoId);
      Some(ParsedRow(payment, GetValueFromRow(row, mapping, PayerField)))
  }

  /** A row with no date and a zero amount is passed over. */
  predicate IsBlank(p: Payment) {
    p.date == [] && p.amount == 0.0
  }

  /** The counterparty of an income is its payer, of anything else its recipient. */
  function CounterpartyName(p: Payment, payer: Bytes): (name: Bytes)
    ensures p.paymentType == Income ==> name == payer
    ensures p.paymentType != Income ==> name == p.recipient
  {
    if p.paymentType == Income then payer else p.recipient
  }

  // ---------------------------------------------------------------- find or create

  /** A store after a find-or-create step, and the id it settled on (-1 for none). */
  datatype Resolved = Resolved(db: Store.Db, id: int)

  /** The counterparty's id by name among rows without an inn, inserting it on a miss. */
  function ResolveCounterparty(db: Store.Db, name: Bytes): (r: Resolved)
    ensures name == [] || !db.isOpen ==> r == Resolved(db, NoId)
    ensures name != [] && db.isOpen ==> r.id != NoId && Store.CounterpartyIdByName(r.db, name) == r.id
    ensures r.db == db.(counterparties := r.db.counterparties)
    ensures r.db != db ==>
      Store.CounterpartyIdByName(db, name) == NoId
      && r.db.counterparties == Tables.Insert(db.counterparties, CounterpartyColumns(name, None))
  {
    if name == [] then Resolved(db, NoId)
    else
      var found := Store.CounterpartyIdByName(db, name);
      if found != NoId then Resolved(db, found)
      else
        var added := Store.AddCounterparty(db, Counterparty(NoId, name, []));
        if added.ok then
          StoreFacts.AddCounterpartyThenFindByName(db, name);
          Resolved(added.db, added.item.id)
        else Resolved(added.db, NoId)
  }

  /**
   * The contract named in the description, by (number, converted date),
   * inserted with the row's counterparty on a miss. None when converting the
   * matched date throws.
   */
  function ResolveContract(db: Store.Db, description: Bytes, counterpartyId: int, env: Env): (r: Option<Resolved>)
    ensures env.contractSearch(description).None? ==> r == Some(Resolved(db, NoId))
    ensures env.contractSearch(description).Some? ==>
      (r.None? <==> ConvertDateToDbFormat(env.contractSearch(description).value.1).None?)
    ensures r.Some? && env.contractSearch(description).Some? && db.isOpen ==>
      var number := env.contractSearch(description).value.0;
      var date := ConvertDateToDbFormat(env.contractSearch(description).value.1).value;
      r.value.id != NoId && Store.ContractIdByNumberDate(r.value.db, number, date) == r.value.id
    ensures !db.isOpen && r.Some? ==> r.value == Resolved(db, NoId)
    ensures r.Some? ==> r.value.db == db.(contracts := r.value.db.contracts)
    ensures r.Some? && r.value.db != db ==>
      var number := env.contractSearch(description).value.0;
      var date := ConvertDateToDbFormat(env.contractSearch(description).value.1).value;
      Store.ContractIdByNumberDate(db, number, date) == NoId
      && r.value.db.contracts == Tables.Insert(db.contracts, ContractColumns(number, date, NullIfNoId(counterpartyId)))
  {
    match env.contractSearch(description)
    case None => Some(Resolved(db, NoId))
    case Some((number, rawDate)) =>
      match ConvertDateToDbFormat(rawDate)
      case None => None
      case Some(date) =>
        var found := Store.ContractIdByNumberDate(db, number, date);
        if found != NoId then Some(Resolved(db, found))
        else
          var c := Contract(NoId, number, date, counterpartyId);
          var added := Store.AddContract(db, c);
          if added.ok then
            StoreFacts.AddContractThenFind(db, c);
            Some(Resolved(added.db, added.item.id))
          else Some(Resolved(added.db, NoId))
  }

  /**
   * The invoice named in the description, by (number, converted date),
   * inserted with the row's contract on a miss. None when converting the
   * matched date throws.
   */
  function ResolveInvoice(db: Store.Db, description: Bytes, contractId: int, env: Env): (r: Option<Resolved>)
    ensures env.invoiceSearch(description).None? ==> r == Some(Resolved(db, NoId))
    ensures env.invoiceSearch(description).Some? ==>
      (r.None? <==> ConvertDateToDbFormat(env.invoiceSearch(description).value.1).None?)
    ensures r.Some? && env.invoiceSearch(description).Some? && db.isOpen ==>
      var number := env.invoiceSearch(description).value.0;
      var date := ConvertDateToDbFormat(env.invoiceSearch(description).value.1).value;
      r.value.id != NoId && Store.InvoiceIdByNumberDate(r.value.db, number, date) == r.value.id
    ensures !db.isOpen && r.Some? ==> r.value == Resolved(db, NoId)
    ensures r.Some? ==> r.value.db == db.(invoices := r.value.db.invoices)
    ensures r.Some? && r.value.db != db ==>
      var number := env.invoiceSearch(description).value.0;
      var date := ConvertDateToDbFormat(env.invoiceSearch(description).value.1).value;
      Store.InvoiceIdByNumberDate(db, number, date) == NoId
      && r.value.db.invoices == Tables.Insert(db.invoices, InvoiceColumns(number, date, NullIfNoId(contractId)))
  {
    match env.invoiceSearch(description)
    case None => Some(Resolved(db, NoId))
    case Some((number, rawDate)) =>
      match ConvertDateToDbFormat(rawDate)
      case None => None
      case Some(date) =>
        var found := Store.InvoiceIdByNumberDate(db, number, date);
        if found != NoId then Some(Resolved(db, found))
        else
          var inv := Invoice(NoId, number, date, contractId);
          var added := Store.AddInvoice(db, inv);
          if added.ok then
            StoreFacts.AddInvoiceThenFind(db, inv);
            Some(Resolved(added.db, added.item.id))
          else Some(Resolved(added.db, NoId))
  }

  /** "КОСГУ " in UTF-8: the name given to a KOSGU code first met in a description. */
  const KosguNamePrefix: Bytes := [0xD0, 0x9A, 0xD0, 0x9E, 0xD0, 0xA1, 0xD0, 0x93, 0xD0, 0xA3, 0x20]

  /** The KOSGU id of a code, inserting the code on a miss and looking it up again. */
  function ResolveKosgu(db: Store.Db, code: Bytes): (r: Resolved)
    ensures r.db == db.(kosgu := r.db.kosgu)
    ensures !db.isOpen ==> r == Resolved(db, NoId)
    ensures r.db != db ==>
      db.isOpen && Store.KosguIdByCode(db, code) == NoId
      && r.db.kosgu == Tables.Insert(db.kosgu, KosguColumns(code, KosguNamePrefix + code))
  {
    var found := Store.KosguIdByCode(db, code);
    if found != NoId then Resolved(db, found)
    else
      var added := Store.AddKosguEntry(db, Kosgu(NoId, code, KosguNamePrefix + code));
      if added.ok then Resolved(added.db, Store.KosguIdByCode(added.db, code))
      else Resolved(added.db, NoId)
  }

  // ---------------------------------------------------------------- apportionment

  /** The ids every detail of one payment shares. */
  datatype Link = Link(paymentId: int, contractId: int, invoiceId: int)

  /** The token loop's state: the store, the details to add, and whether every amount parsed. */
  datatype Collected = Collected(db: Store.Db, details: seq<PaymentDetail>, complete: bool)

  /**
   * The loop over the inline tokens: each token's code is resolved first;
   * then its amount is parsed, and a parse failure ends the loop.
   */
  function CollectDetails(db: Store.Db, tokens: seq<InlineToken>, link: Link,
                          stod: Bytes -> Option<real>, details: seq<PaymentDetail>): (r: Collected)
    ensures r.db == db.(kosgu := r.db.kosgu)
    ensures !db.isOpen ==> r.db == db
    decreases |tokens|
  {
    if tokens == [] then Collected(db, details, true)
    else
      var k := ResolveKosgu(db, tokens[0].code);
      match stod(tokens[0].amount)
      case None => Collected(k.db, details, false)
      case Some(v) =>
        var d := PaymentDetail(NoId, link.paymentId, k.id, link.contractId, link.invoiceId, v);
        CollectDetails(k.db, tokens[1..], link, stod, details + [d])
  }

  /** The details' amounts added up in order, as the loop's running total is. */
  function AmountSum(details: seq<PaymentDetail>): real
    decreases |details|
  {
    if details == [] then 0.0 else AmountSum(details[..|details| - 1]) + details[|details| - 1].amount
  }

  /**
   * The running total the loop ends with: the sum of the amounts, or the
   * payment's amount plus one after a parse failure, which no tolerance
   * check lets through.
   */
  function LoopTotal(c: Collected, amount: real): (total: real)
    ensures c.complete ==> total == AmountSum(c.details)
    ensures !c.complete ==> !Accepts(total, amount)
  {
    if c.complete then AmountSum(c.details) else amount + 1.0
  }

  /** The tolerance check on the apportioned total. */
  predicate Accepts(total: real, amount: real): (ok: bool)
    ensures ok ==> 0.0 < total && total - amount <= 0.01
    ensures 0.0 < total <= amount ==> ok
  {
    total > 0.0 && total <= amount + 0.01
  }

  /** `addPaymentDetail` on each detail in turn, its result ignored. */
  function AddDetails(db: Store.Db, details: seq<PaymentDetail>): (r: Store.Db)
    ensures r == db.(details := r.details)
    ensures !db.isOpen ==> r == db
    decreases |details|
  {
    if details == [] then db else AddDetails(Store.AddPaymentDetail(db, details[0]).db, details[1..])
  }

  /** The rows a run of inserts into PaymentDetails appends, ids counting up from `start`. */
  function DetailRows(details: seq<PaymentDetail>, start: Tables.RowId): (rows: seq<Tables.Row<DetailColumns>>)
    ensures |rows| == |details|
    decreases |details|
  {
    if details == [] then [] else [Tables.Row(start, DetailRecord(details[0]))] + DetailRows(details[1..], start + 1)
  }

  /** The one detail that covers a payment's whole amount, with no KOSGU code. */
  function FallbackDetail(link: Link, amount: real): (d: PaymentDetail)
    ensures d.kosguId == NoId && d.amount == amount
    ensures d.paymentId == link.paymentId && d.contractId == link.contractId && d.invoiceId == link.invoiceId
  {
    PaymentDetail(NoId, link.paymentId, NoId, link.contractId, link.invoiceId, amount)
  }

  /** The inline tokens of a description: those after the marker, none without it. */
  function InlineTokens(description: Bytes): (tokens: seq<InlineToken>)
    ensures DetailsPart(description).None? ==> tokens == []
    ensures forall k :: 0 <= k < |tokens| ==> WellFormed(tokens[k])
  {
    match DetailsPart(description)
    case None => []
    case Some(part) => Scan(part)
  }

  /** A store after apportioning, and whether the inline list was used. */
  datatype Apportioned = Apportioned(db: Store.Db, handled: bool)

  /** The inline list when it is there and adds up, the fallback detail otherwise. */
  function Apportion(db: Store.Db, description: Bytes, link: Link, amount: real,
                     stod: Bytes -> Option<real>): (r: Apportioned)
    ensures r.db == db.(kosgu := r.db.kosgu, details := r.db.details)
    ensures !db.isOpen ==> r.db == db
  {
    var tokens := InlineTokens(description);
    if tokens == [] then
      Apportioned(Store.AddPaymentDetail(db, FallbackDetail(link, amount)).db, false)
    else
      var c := CollectDetails(db, tokens, link, stod, []);
      if Accepts(LoopTotal(c, amount), amount) then Apportioned(AddDetails(c.db, c.details), true)
      else Apportioned(Store.AddPaymentDetail(c.db, FallbackDetail(link, amount)).db, false)
  }

  // ---------------------------------------------------------------- lines

  /**
   * What became of one line: skipped as empty or blank, the exception that
   * ends the import, the payment insert refused, or imported (with the
   * payment's new id and whether the inline list was used).
   */
  datatype LineOutcome = Empty | Blank | Threw | Rejected | Imported(paymentId: int, handled: bool)

  datatype LineResult = LineResult(db: Store.Db, outcome: LineOutcome)

  /** The body of the read loop for one line. */
  function ImportLine(db: Store.Db, line: Bytes, mapping: ColumnMapping, env: Env): (r: LineResult)
    ensures line == [] ==> r == LineResult(db, Empty)
    ensures r.outcome.Blank? ==> r.db == db
    ensures r.db.isOpen == db.isOpen
  {
    if line == [] then LineResult(db, Empty)
    else
      match ParseRow(Tokens(line, Tab), mapping, env.stod)
      case None => LineResult(db, Threw)
      case Some(parsed) =>
        var p := parsed.payment;
        if IsBlank(p) then LineResult(db, Blank)
        else
          var cp := ResolveCounterparty(db, CounterpartyName(p, parsed.payer));
          ImportPayment(cp.db, p.(counterpartyId := cp.id), env)
  }

  /**
   * The rest of a line once its counterparty is settled: the contract and
   * invoice the description names, the payment insert, and its details.
   */
  function ImportPayment(db: Store.Db, p: Payment, env: Env): (r: LineResult)
    ensures r.outcome.Threw? || r.outcome.Rejected? || r.outcome.Imported?
    ensures r.db.isOpen == db.isOpen
  {
    match ResolveContract(db, p.description, p.counterpartyId, env)
    case None => LineResult(db, Threw)
    case Some(ct) =>
      match ResolveInvoice(ct.db, p.description, ct.id, env)
      case None => LineResult(ct.db, Threw)
      case Some(iv) =>
        var added := Store.AddPayment(iv.db, p);
        if !added.ok then LineResult(iv.db, Rejected)
        else
          var link := Link(added.item.id, ct.id, iv.id);
          var ap := Apportion(added.db, p.description, link, p.amount, env.stod);
          LineResult(ap.db, Imported(added.item.id, ap.handled))
  }

  /** The store after the data lines, and whether the loop ran to the end. */
  datatype Run = Run(db: Store.Db, completed: bool)

  /** The read loop: line after line, until the lines run out or one throws. */
  function ImportLines(db: Store.Db, lines: seq<Bytes>, mapping: ColumnMapping, env: Env): (r: Run)
    ensures lines == [] ==> r.completed
    ensures r.db.isOpen == db.isOpen
    decreases |lines|
  {
    if lines == [] then Run(db, true)
    else
      var r := ImportLine(db, lines[0], mapping, env);
      if r.outcome.Threw? then Run(r.db, false)
      else ImportLines(r.db, lines[1..], mapping, env)
  }

  /** One turn of the read loop, for a line whose result is already known. */
  lemma ImportLinesStep(db: Store.Db, lines: seq<Bytes>, k: nat, mapping: ColumnMapping, env: Env, r: LineResult)
    requires k < |lines|
    requires r == ImportLine(db, lines[k], mapping, env)
    ensures ImportLines(db, lines[k..], mapping, env)
         == if r.outcome.Threw? then Run(r.db, false) else ImportLines(r.db, lines[k + 1..], mapping, env)
  {
    assert lines[k..][0] == lines[k] && lines[k..][1..] == lines[k + 1..];
  }

  /** The lines after the header line. */
  function DataLines(content: Bytes): (lines: seq<Bytes>)
    ensures Tokens(content, LineFeed) != [] ==> Tokens(content, LineFeed) == [Tokens(content, LineFeed)[0]] + lines
    ensures Tokens(content, LineFeed) == [] ==> lines == []
  {
    var lines := Tokens(content, LineFeed);
    if lines == [] then [] else lines[1..]
  }

  /**
   * How `ImportPaymentsFromTsv` ends: false for a missing manager or a file
   * that cannot be opened, true when every line has been read, and an
   * exception escaping the function when a date conversion throws.
   */
  datatype Finish = NoManager | FileNotOpened | Finished | Aborted

  /** The whole import on an open-or-not file (None: it cannot be opened). */
  function ImportTsv(db: Store.Db, file: Option<Bytes>, mapping: ColumnMapping, env: Env): (r: (Store.Db, Finish))
    ensures file.None? ==> r == (db, FileNotOpened)
    ensures file.Some? ==> (r.1 == Finished || r.1 == Aborted)
    ensures file.Some? ==> (r.1 == Finished <==> ImportLines(db, DataLines(file.value), mapping, env).completed)
  {
    match file
    case None => (db, FileNotOpened)
    case Some(content) =>
      var run := ImportLines(db, DataLines(content), mapping, env);
      (run.db, if run.completed then Finished else Aborted)
  }
}
