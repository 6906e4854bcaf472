# Bank-statement import into the budget-accounting store

This project models the core of a small desktop budget-accounting tool. It
imports a bank statement exported as a tab-separated file into a SQLite
database that holds six tables:
- KOSGU classification codes;
- counterparties;
- contracts;
- invoices;
- payments;
- the payment details that split a payment's amount over KOSGU codes.

Two source files form the core.

`src/ImportManager.cpp` holds the importer:
- the string helpers `split`, `trim`, `get_value_from_row` and
  `convertDateToDBFormat`;
- the read loop of `ImportPaymentsFromTsv`. For every data line it:
  - reads the cells the column mapping names into a payment;
  - infers the payment type;
  - skips empty and blank lines;
  - finds or creates the counterparty, the contract and the invoice that
    the payment's description names;
  - inserts the payment;
  - apportions its amount. Either it uses the inline list
    `; в т.ч. К<ddd>=<amount> …`, when that list adds up to more than zero
    and no more than the amount plus 0.01, or it writes one fallback detail
    that covers the whole amount.

`src/DatabaseManager.cpp` holds the store those steps drive:
- keyed lookups that return the first matching row id, or -1;
- inserts that take the next AUTOINCREMENT id and write it back;
- updates and deletes by id;
- the schema constraints that change an outcome for the rows the model
  can write: the UNIQUE KOSGU code, the UNIQUE counterparty inn, and the
  CHECK on the payment type. (The NOT NULL on a payment's amount matters
  only for a NaN amount, which the model does not have; see "Left out".)

The model has three layers.

- **Values** (`basics.dfy`, `records.dfy`, `tables.dfy`, `text.dfy`,
  `dates.dfy`, `fields.dfy`, `extract.dfy`):
  - Strings are byte sequences, since `std::string` lengths and indices
    count bytes. Cyrillic literals are written out in UTF-8. Stored text is
    kept whole (see "Left out" for the cut at a NUL byte).
  - A table is a sequence of rows in rowid order plus the next id.
  - The inline apportionment regex `К(\d{3})=([\d.]+)` is a hand-written
    scanner. It returns the successive leftmost, non-overlapping, greedy
    matches.
- **Specification functions** (`store.dfy`, `importer.dfy`):
  - The whole database is one `Store.Db` value, and every manager
    operation is a function on it.
  - `Importer.ImportLine` and `Importer.ImportLines` say what one line, and
    the whole file, do to the database.
  - The lemmas in `store_facts.dfy` and `import_facts.dfy` prove the
    properties the code is meant to have.
- **Imperative layer** (`database.dfy`, `import_run.dfy`):
  - `Database.DatabaseManager` is a class with a connection flag and one
    table field per SQL table. Its methods scan rows with loops and
    reassign the tables.
  - `ImportRun` runs the importer's read loop, token loop and insert loop
    against such a manager.
  - Every method is proved to move the manager's state exactly as the
    matching specification function says, and to keep the schema's
    constraints (`Valid()`).

The importer calls out to some code whose internals are not modelled. It
receives that code as an `Importer.Env` of functions:
- `std::stod`, which returns None where it throws;
- the first match of the contract regular expression, as its groups 1 and 2;
- the first match of the invoice regular expression, as its groups 1 and 2.

The `std::stoi` on a two-digit year is modelled exactly, because nothing in
the importer catches it. When it throws, the conversion gives None and the
import ends with `Importer.Aborted`. All rows written before that point stay.

## Model

| member | source | states |
|---|---|---|
| Text.Split | src/ImportManager.cpp:13-21 | the getline loop pushes exactly the tokens `Tokens(s, d)` |
| Text.GetLine | src/ImportManager.cpp:17 | one getline: the token has no delimiter, the position advances, and the remaining tokens follow it |
| Text.Tokens | src/ImportManager.cpp:13-21 | an empty string and only an empty string yields no tokens |
| Text.TokensExcludeDelimiter | src/ImportManager.cpp:13-21 | no token contains the delimiter |
| Text.JoinTokens | src/ImportManager.cpp:13-21 | joining the tokens with the delimiter gives the input back, except that a single trailing delimiter yields no trailing empty token |
| Text.TokensJoin | src/ImportManager.cpp:13-21 | delimiter-free pieces whose last piece is non-empty split back into themselves, so consecutive delimiters yield empty tokens |
| Text.FirstKept | src/ImportManager.cpp:25-27 | `find_first_not_of`: every byte before it is stripped, and the byte at it is kept |
| Text.LastKeptEnd | src/ImportManager.cpp:28 | `find_last_not_of` plus one: every byte from it on is stripped, and the byte before it is kept |
| Text.Trim | src/ImportManager.cpp:24-30 | the result is a contiguous slice with only stripped bytes cut on each side; it neither starts nor ends with space, tab, LF, CR or quote; it is empty exactly when the input is all such bytes |
| Text.TrimTrimmed | src/ImportManager.cpp:24-30 | an already trimmed string is returned unchanged |
| Text.TrimIdempotent | src/ImportManager.cpp:24-30 | trimming twice is trimming once |
| Text.TrimPadded | src/ImportManager.cpp:24-30 | stripped padding around a trimmed core is removed exactly |
| Fields.AsSizeT | src/ImportManager.cpp:41 | the conversion of the `int` index to `size_t` for the comparison: non-negative indices are kept, negative ones wrap to at least 2^64 - 2^31 |
| Fields.GetValueFromRow | src/ImportManager.cpp:33-45 | an unmapped field, a mapping to -1 or to any negative index, or an index past the row gives the empty string; otherwise the trimmed cell; the row is never indexed out of bounds |
| Dates.Stoi2 | src/ImportManager.cpp:56 | `std::stoi` on the two year bytes throws exactly when no digit follows optional white space or sign, and reads two digits as their value |
| Dates.ConvertDateToDbFormat | src/ImportManager.cpp:48-64 | a converted date has length 10 with dashes at 4 and 7 |
| Dates.LongDateRoundTrip | src/ImportManager.cpp:49-52 | a length-10 input with dots at 2 and 5 becomes `s[6..10]-s[3..5]-s[0..2]`, and reverting the rewrite gives the input back |
| Dates.ShortDatePivot | src/ImportManager.cpp:53-61 | `DD.MM.YY` becomes `19YY-MM-DD` when YY > 50, else `20YY-MM-DD` |
| Dates.PivotEdge | src/ImportManager.cpp:57-59 | year "50" gives 2050 and year "51" gives 1951 |
| Dates.ConvertThrows | src/ImportManager.cpp:53-56 | the conversion throws exactly for a length-8 dotted input whose year `std::stoi` rejects |
| Dates.OtherShapesUnchanged | src/ImportManager.cpp:63 | every input of another shape, the empty string included, is returned unchanged |
| Dates.ConvertIdempotent | src/ImportManager.cpp:48-64 | a converted dotted date converts to itself |
| Extract.Find | src/ImportManager.cpp:221 | `std::string::find`: None exactly when the pattern occurs nowhere; otherwise its first occurrence |
| Extract.DetailsPart | src/ImportManager.cpp:220-224 | None exactly when the marker "; в т.ч." is absent; otherwise the text after its first occurrence |
| Extract.RunLength | src/ImportManager.cpp:225 | the greedy `[\d.]+` run: all digits or dots, and the byte after it is neither |
| Extract.MatchLength | src/ImportManager.cpp:225 | a match starts here exactly when the text begins with `К`, three digits, `=` and an amount byte; its length is 6 plus the greedy amount run, so the amount takes every digit and dot that follows |
| Extract.Scan | src/ImportManager.cpp:225-227 | every token the iterator yields has a three-digit code and a non-empty amount of digits and dots |
| Extract.ScanOccurs | src/ImportManager.cpp:225-227 | every token's text `К<code>=<amount>` occurs in the scanned string |
| Extract.ScanRenderAll | src/ImportManager.cpp:225-227 | round trip: well-formed tokens written out separated by spaces scan back to the same tokens |
| Extract.NoKaNoTokens | src/ImportManager.cpp:225-227 | text in which the two-byte letter К never occurs yields no tokens |
| Extract.ScanFindsMatch | src/ImportManager.cpp:225-232 | text with a match at any position yields at least one token |
| Extract.CommasToDots | src/ImportManager.cpp:132 | each comma becomes a dot, and every other byte and the length are kept |
| Records.NullIfNoId | src/DatabaseManager.cpp:494-498 | a -1 foreign id is bound as NULL, and any other id as itself |
| Records.NullIfEmpty | src/DatabaseManager.cpp:286-290 | an empty inn is bound as NULL, and any other inn as itself |
| Records.KosguRecord | src/DatabaseManager.cpp:182-183 | a KOSGU entry stores its code and name |
| Records.CounterpartyRecord | src/DatabaseManager.cpp:285-290 | a counterparty stores its name, and its inn as NULL exactly when the inn is empty |
| Records.ContractRecord | src/DatabaseManager.cpp:492-498 | a contract stores its number and date, and its counterparty id as NULL exactly when it is -1 |
| Records.InvoiceRecord | src/DatabaseManager.cpp:676-682 | an invoice stores its number and date, and its contract id as NULL exactly when it is -1 |
| Records.PaymentRecord | src/DatabaseManager.cpp:864-874 | a payment stores its date, number, type, amount, recipient and description, and its counterparty id as NULL exactly when it is -1 |
| Records.DetailRecord | src/DatabaseManager.cpp:1045-1049 | a detail stores its payment, KOSGU, contract and invoice ids as integers, -1 included, and its amount |
| Tables.Insert | src/DatabaseManager.cpp:52 | an AUTOINCREMENT insert appends one row with the next id and advances the counter |
| Tables.InsertValid | src/DatabaseManager.cpp:52 | an insert keeps ids increasing and below the counter, and the new id was not in use |
| Tables.FindFirst | src/DatabaseManager.cpp:252-271 | None exactly when no row matches; otherwise the id of the first matching row |
| Tables.Update | src/DatabaseManager.cpp:198-224 | `UPDATE … WHERE id = ?` rewrites the row with that id and no other, and keeps every id and the row count |
| Tables.Delete | src/DatabaseManager.cpp:226-250 | `DELETE … WHERE id = ?` removes every row with that id and keeps every other row |
| Tables.UpdateValid | src/DatabaseManager.cpp:198-224 | an update keeps the table's ids ordered and below the counter |
| Tables.DeleteValid | src/DatabaseManager.cpp:226-250 | a delete keeps the ids ordered, and afterwards no row has the deleted id |
| Tables.DeleteOrdered | src/DatabaseManager.cpp:226-250 | a delete keeps rowid order |
| Store.Initial | src/DatabaseManager.cpp:5-6 | a new manager is closed, and its state meets the schema |
| Store.Open | src/DatabaseManager.cpp:10-22 | after `open` the connection is open on the file's tables |
| Store.Close | src/DatabaseManager.cpp:24-29 | after `close` the connection is closed and the tables are kept |
| Store.KosguIdByCode | src/DatabaseManager.cpp:252-271 | -1 exactly when no database is open or no row has the code |
| Store.KosguIdByCodeFirst | src/DatabaseManager.cpp:252-271 | a found id is that of the first row with the code |
| Store.CounterpartyIdByName | src/DatabaseManager.cpp:330-354 | -1 exactly when closed or no row has the name and a NULL inn; otherwise the id of the first such row |
| Store.CounterpartyIdByNameInn | src/DatabaseManager.cpp:306-328 | -1 exactly when closed or no row has both the name and the inn; otherwise the id of the first such row |
| Store.ContractIdByNumberDate | src/DatabaseManager.cpp:514-535 | -1 exactly when closed or no contract has the number and date; otherwise the id of the first such contract |
| Store.InvoiceIdByNumberDate | src/DatabaseManager.cpp:696-717 | -1 exactly when closed or no invoice has the number and date; otherwise the id of the first such invoice |
| Store.AddKosguEntry | src/DatabaseManager.cpp:171-196 | fails, changing nothing, exactly when closed or the code is present (UNIQUE code, line 53); otherwise adds one row |
| Store.AddCounterparty | src/DatabaseManager.cpp:274-304 | fails, changing nothing, exactly when closed or a non-empty inn is present (UNIQUE inn, line 60); otherwise adds one row with an empty inn stored as NULL and writes the new id back |
| Store.AddContract | src/DatabaseManager.cpp:480-512 | fails exactly when closed; otherwise adds one row with a -1 counterparty stored as NULL and writes the new id back |
| Store.AddInvoice | src/DatabaseManager.cpp:664-694 | fails exactly when closed; otherwise adds one row with a -1 contract stored as NULL and writes the new id back |
| Store.AddPayment | src/DatabaseManager.cpp:845-888 | fails, changing nothing, exactly when closed or the type is not "income" or "expense" (CHECK, line 75); otherwise adds one row and writes the new id back |
| Store.AddPaymentDetail | src/DatabaseManager.cpp:1032-1061 | fails exactly when closed; otherwise adds one row with every id bound verbatim, -1 included |
| Store.UpdateKosguEntry | src/DatabaseManager.cpp:198-224 | fails, changing nothing, exactly when closed or the new code belongs to another row; otherwise only the row with the id changes, and every other table is unchanged |
| Store.UpdateCounterparty | src/DatabaseManager.cpp:393-422 | fails, changing nothing, exactly when closed or a non-empty inn belongs to another row; otherwise only the row with the id changes |
| Store.UpdateContract | src/DatabaseManager.cpp:577-607 | fails exactly when closed; otherwise only the row with the id changes |
| Store.UpdateInvoice | src/DatabaseManager.cpp:758-788 | fails exactly when closed; otherwise only the row with the id changes |
| Store.UpdatePayment | src/DatabaseManager.cpp:935-973 | fails, changing nothing, exactly when closed or an existing row would get a type the CHECK refuses; otherwise only the row with the id changes |
| Store.RetargetDetail | src/DatabaseManager.cpp:1116-1144 | the detail with the id gets new KOSGU, contract, invoice and amount; its payment id and every other row are kept |
| Store.UpdatePaymentDetail | src/DatabaseManager.cpp:1116-1144 | fails exactly when closed; otherwise only the detail with the id changes |
| Store.DeleteKosguEntry | src/DatabaseManager.cpp:226-250 | fails exactly when closed; otherwise only the row with the id goes, and every other table is unchanged |
| Store.DeleteCounterparty | src/DatabaseManager.cpp:424-446 | fails exactly when closed; otherwise only the row with the id goes |
| Store.DeleteContract | src/DatabaseManager.cpp:609-631 | fails exactly when closed; otherwise only the row with the id goes |
| Store.DeleteInvoice | src/DatabaseManager.cpp:790-812 | fails exactly when closed; otherwise only the row with the id goes |
| Store.DeletePayment | src/DatabaseManager.cpp:975-999 | fails exactly when closed; otherwise only the row with the id goes |
| Store.DeletePaymentDetail | src/DatabaseManager.cpp:1146-1168 | fails exactly when closed; otherwise only the detail with the id goes |
| StoreFacts.UpdateMissingUnchanged | src/DatabaseManager.cpp:198-224 | an update of an id no row has changes nothing |
| StoreFacts.DeleteMissingUnchanged | src/DatabaseManager.cpp:226-250 | a delete of an id no row has changes nothing |
| StoreFacts.KosguWritesValid | src/DatabaseManager.cpp:53 | add, update and delete on KOSGU keep the codes unique and the state valid |
| StoreFacts.UpdateKosguKeepsCodesUnique | src/DatabaseManager.cpp:198-224 | a successful update keeps the codes unique |
| StoreFacts.DeleteKeepsCodesUnique | src/DatabaseManager.cpp:226-250 | a delete keeps the codes unique |
| StoreFacts.CounterpartyWritesValid | src/DatabaseManager.cpp:60 | add, update and delete on Counterparties keep the non-NULL inns unique and non-empty |
| StoreFacts.AddCounterpartyKeepsInns | src/DatabaseManager.cpp:274-304 | a successful insert keeps the inns unique |
| StoreFacts.UpdateCounterpartyKeepsInns | src/DatabaseManager.cpp:393-422 | a successful update keeps the inns unique |
| StoreFacts.DeleteKeepsInns | src/DatabaseManager.cpp:424-446 | a delete keeps the inns unique |
| StoreFacts.ContractWritesValid | src/DatabaseManager.cpp:480-631 | contract writes keep the state valid |
| StoreFacts.InvoiceWritesValid | src/DatabaseManager.cpp:664-812 | invoice writes keep the state valid |
| StoreFacts.PaymentWritesValid | src/DatabaseManager.cpp:75 | payment writes keep every type "income" or "expense" |
| StoreFacts.DetailWritesValid | src/DatabaseManager.cpp:1032-1168 | detail writes keep the state valid |
| StoreFacts.AddKosguThenFind | src/DatabaseManager.cpp:171-271 | after a successful insert the code's lookup gives the new id |
| StoreFacts.AddCounterpartyThenFindByName | src/DatabaseManager.cpp:274-354 | after a name-only insert on a miss, the lookup by name gives the new id |
| StoreFacts.AddCounterpartyThenFindByNameInn | src/DatabaseManager.cpp:274-328 | after an insert with an inn, the lookup by name and inn gives the new id |
| StoreFacts.EmptyInnNeverFound | src/DatabaseManager.cpp:286-328 | an empty inn is stored as NULL, so the lookup by name and empty inn never finds a row |
| StoreFacts.AddContractThenFind | src/DatabaseManager.cpp:480-535 | after an insert on a miss, the lookup by number and date gives the new id |
| StoreFacts.AddInvoiceThenFind | src/DatabaseManager.cpp:664-717 | after an insert on a miss, the lookup by number and date gives the new id |
| StoreFacts.UpdateKosguThenFind | src/DatabaseManager.cpp:198-271 | after a successful update of an existing row, its new code finds it |
| StoreFacts.DeleteKosguThenMiss | src/DatabaseManager.cpp:226-271 | after deleting the row a code finds, the code is no longer found |
| StoreFacts.UpdateDetailKeepsPayment | src/DatabaseManager.cpp:1116-1144 | an update of a detail never moves it to another payment |
| StoreFacts.DeletePaymentKeepsDetails | src/DatabaseManager.cpp:975-999 | deleting a payment leaves its details, since no cascade runs |
| Database.DatabaseManager.constructor | src/DatabaseManager.cpp:5-6 | a new manager is closed and valid |
| Database.DatabaseManager.Open | src/DatabaseManager.cpp:10-22 | the state becomes the opened file |
| Database.DatabaseManager.Close | src/DatabaseManager.cpp:24-29 | the state becomes the closed one, and stays valid |
| Database.DatabaseManager.IsOpen | src/DatabaseManager.cpp:42 | reports the connection flag |
| Database.DatabaseManager.GetKosguIdByCode | src/DatabaseManager.cpp:252-271 | the row scan returns `Store.KosguIdByCode` |
| Database.DatabaseManager.GetCounterpartyIdByName | src/DatabaseManager.cpp:330-354 | the row scan returns `Store.CounterpartyIdByName` |
| Database.DatabaseManager.GetCounterpartyIdByNameInn | src/DatabaseManager.cpp:306-328 | the row scan returns `Store.CounterpartyIdByNameInn` |
| Database.DatabaseManager.GetContractIdByNumberDate | src/DatabaseManager.cpp:514-535 | the row scan returns `Store.ContractIdByNumberDate` |
| Database.DatabaseManager.GetInvoiceIdByNumberDate | src/DatabaseManager.cpp:696-717 | the row scan returns `Store.InvoiceIdByNumberDate` |
| Database.DatabaseManager.AddKosguEntry | src/DatabaseManager.cpp:171-196 | the new state and the result are `Store.AddKosguEntry`'s, and the state stays valid |
| Database.DatabaseManager.AddCounterparty | src/DatabaseManager.cpp:274-304 | the new state, the result and the written-back record are `Store.AddCounterparty`'s; the state stays valid |
| Database.DatabaseManager.AddContract | src/DatabaseManager.cpp:480-512 | the new state, the result and the written-back record are `Store.AddContract`'s; the state stays valid |
| Database.DatabaseManager.AddInvoice | src/DatabaseManager.cpp:664-694 | the new state, the result and the written-back record are `Store.AddInvoice`'s; the state stays valid |
| Database.DatabaseManager.AddPayment | src/DatabaseManager.cpp:845-888 | the new state, the result and the written-back record are `Store.AddPayment`'s; the state stays valid |
| Database.DatabaseManager.AddPaymentDetail | src/DatabaseManager.cpp:1032-1061 | the new state, the result and the written-back record are `Store.AddPaymentDetail`'s; the state stays valid |
| Database.DatabaseManager.UpdateKosguEntry | src/DatabaseManager.cpp:198-224 | the new state and the result are `Store.UpdateKosguEntry`'s; the state stays valid |
| Database.DatabaseManager.UpdateCounterparty | src/DatabaseManager.cpp:393-422 | the new state and the result are `Store.UpdateCounterparty`'s; the state stays valid |
| Database.DatabaseManager.UpdateContract | src/DatabaseManager.cpp:577-607 | the new state and the result are `Store.UpdateContract`'s; the state stays valid |
| Database.DatabaseManager.UpdateInvoice | src/DatabaseManager.cpp:758-788 | the new state and the result are `Store.UpdateInvoice`'s; the state stays valid |
| Database.DatabaseManager.UpdatePayment | src/DatabaseManager.cpp:935-973 | the new state and the result are `Store.UpdatePayment`'s; the state stays valid |
| Database.DatabaseManager.UpdatePaymentDetail | src/DatabaseManager.cpp:1116-1144 | the new state and the result are `Store.UpdatePaymentDetail`'s; the state stays valid |
| Database.DatabaseManager.DeleteKosguEntry | src/DatabaseManager.cpp:226-250 | the new state and the result are `Store.DeleteKosguEntry`'s; the state stays valid |
| Database.DatabaseManager.DeleteCounterparty | src/DatabaseManager.cpp:424-446 | the new state and the result are `Store.DeleteCounterparty`'s; the state stays valid |
| Database.DatabaseManager.DeleteContract | src/DatabaseManager.cpp:609-631 | the new state and the result are `Store.DeleteContract`'s; the state stays valid |
| Database.DatabaseManager.DeleteInvoice | src/DatabaseManager.cpp:790-812 | the new state and the result are `Store.DeleteInvoice`'s; the state stays valid |
| Database.DatabaseManager.DeletePayment | src/DatabaseManager.cpp:975-999 | the new state and the result are `Store.DeletePayment`'s; the state stays valid |
| Database.DatabaseManager.DeletePaymentDetail | src/DatabaseManager.cpp:1146-1168 | the new state and the result are `Store.DeletePaymentDetail`'s; the state stays valid |
| Importer.InferType | src/ImportManager.cpp:138-144 | a non-empty type is kept; an empty one becomes "expense" exactly when the recipient is non-empty, else "income" |
| Importer.ParseAmount | src/ImportManager.cpp:130-136 | the amount is what `std::stod` reads from the cell with commas turned into dots, and 0 when it throws |
| Importer.ParseRow | src/ImportManager.cpp:118-136 | the row fails (an exception) exactly when its date cell's conversion throws; otherwise the payment carries the converted date cell, the number, recipient and description cells, the parsed amount cell, the inferred type and no ids yet, and the payer cell is kept for the counterparty |
| Importer.CounterpartyName | src/ImportManager.cpp:150-155 | an "income" payment's counterparty is the payer, any other's the recipient |
| Importer.LoopTotal | src/ImportManager.cpp:246-260 | the running total of a completed loop is the details' sum; after a parse failure it is one that the check refuses |
| Importer.Accepts | src/ImportManager.cpp:264 | the list is accepted only when 0 < total <= amount + 0.01, and always when 0 < total <= amount |
| Importer.FallbackDetail | src/ImportManager.cpp:275-281 | the fallback detail has KOSGU -1, the whole amount, and the payment, contract and invoice ids of the line |
| Importer.InlineTokens | src/ImportManager.cpp:221-227 | no marker gives no tokens; every token has a three-digit code and an amount of digits and dots |
| Importer.ResolveCounterparty | src/ImportManager.cpp:150-167 | an empty name or a closed store gives -1 and no change; otherwise an id the name-only lookup returns, with an insert only on a lookup miss and only into Counterparties |
| Importer.ResolveContract | src/ImportManager.cpp:169-188 | no match gives -1 and no change; a match whose date throws gives None; otherwise an id the (number, converted date) lookup returns, with an insert only on a miss, carrying the line's counterparty id |
| Importer.ResolveInvoice | src/ImportManager.cpp:190-209 | the same for the invoice, whose insert carries the line's contract id |
| Importer.ResolveKosgu | src/ImportManager.cpp:238-244 | only KOSGU changes; a closed store gives -1; an insert happens only on a miss and adds the code with the name "КОСГУ " + code |
| Importer.CollectDetails | src/ImportManager.cpp:233-261 | the token loop changes only KOSGU, and nothing on a closed store |
| Importer.AddDetails | src/ImportManager.cpp:265-267 | the insert loop changes only PaymentDetails, and nothing on a closed store |
| Importer.Apportion | src/ImportManager.cpp:217-282 | apportioning changes only KOSGU and PaymentDetails, and nothing on a closed store |
| Importer.ImportLine | src/ImportManager.cpp:115-148 | an empty line changes nothing; a blank row changes nothing |
| Importer.ImportPayment | src/ImportManager.cpp:169-282 | after the counterparty, a line either throws, has its payment refused, or is imported |
| Importer.IsBlank | src/ImportManager.cpp:146 | the skip test: no converted date and a zero amount; `ImportFacts.BlankLineIff` states which lines it passes over |
| Importer.ImportLines | src/ImportManager.cpp:105-283 | the read loop never opens or closes the connection, and runs to the end on no lines; `ImportLinesStep`, `ImportFacts.ImportLinesAppend`, `ImportFacts.ImportValid` and `ImportFacts.ImportKeepsKeys` state the rest |
| Importer.ImportLinesStep | src/ImportManager.cpp:105-283 | one turn of the read loop: a line that throws ends the run, and any other line continues it from the line's new state |
| Importer.DataLines | src/ImportManager.cpp:92-93 | the data lines are the file's lines after the first, and an empty file has none |
| Importer.ImportTsv | src/ImportManager.cpp:66-292 | an unopenable file changes nothing; otherwise the run finishes exactly when the read loop over the data lines completes, and is aborted otherwise |
| ImportRun.ImportPaymentsFromTsv | src/ImportManager.cpp:66-292 | no manager gives false; an unopenable file gives false; otherwise the header is skipped and the loop leaves the state `Importer.ImportTsv` gives, ending true or with the escaping exception; the state stays valid |
| ImportRun.ImportLine | src/ImportManager.cpp:115-283 | one line's effect and outcome are `Importer.ImportLine`'s |
| ImportRun.ImportPayment | src/ImportManager.cpp:169-282 | the effect and outcome are `Importer.ImportPayment`'s |
| ImportRun.ResolveCounterparty | src/ImportManager.cpp:150-167 | the effect and id are `Importer.ResolveCounterparty`'s |
| ImportRun.ResolveContract | src/ImportManager.cpp:169-188 | throws exactly when `Importer.ResolveContract` is None, then changing nothing; otherwise its effect and id |
| ImportRun.ResolveInvoice | src/ImportManager.cpp:190-209 | throws exactly when `Importer.ResolveInvoice` is None, then changing nothing; otherwise its effect and id |
| ImportRun.ResolveKosgu | src/ImportManager.cpp:238-244 | the effect and id are `Importer.ResolveKosgu`'s |
| ImportRun.Apportion | src/ImportManager.cpp:217-282 | the effect and `handled` are `Importer.Apportion`'s |
| ImportRun.CollectDetails | src/ImportManager.cpp:229-261 | the loop's details and store are `Importer.CollectDetails`'s; its total is the amounts' sum, or the amount plus one after a parse failure |
| ImportRun.AddDetails | src/ImportManager.cpp:265-267 | the effect is `Importer.AddDetails`'s |
| ImportFacts.ClosedLineUnchanged | src/ImportManager.cpp:115-283 | on a closed store a line writes nothing and is never imported |
| ImportFacts.ClosedPaymentUnchanged | src/ImportManager.cpp:169-282 | on a closed store the payment part writes nothing |
| ImportFacts.ClosedImportUnchanged | src/ImportManager.cpp:105-283 | on a closed store the whole run writes nothing |
| ImportFacts.ResolveCounterpartyValid | src/ImportManager.cpp:150-167 | find-or-create of the counterparty keeps the schema's constraints |
| ImportFacts.ResolveContractValid | src/ImportManager.cpp:169-188 | find-or-create of the contract keeps them |
| ImportFacts.ResolveInvoiceValid | src/ImportManager.cpp:190-209 | find-or-create of the invoice keeps them |
| ImportFacts.ResolveKosguValid | src/ImportManager.cpp:238-244 | find-or-create of a KOSGU code keeps them |
| ImportFacts.CollectValid | src/ImportManager.cpp:233-261 | the token loop keeps them |
| ImportFacts.AddDetailsValid | src/ImportManager.cpp:265-267 | the detail inserts keep them |
| ImportFacts.ApportionValid | src/ImportManager.cpp:217-282 | apportioning keeps them |
| ImportFacts.LineValid | src/ImportManager.cpp:115-283 | one line keeps them |
| ImportFacts.PaymentValid | src/ImportManager.cpp:169-282 | the payment part of a line keeps them |
| ImportFacts.ImportValid | src/ImportManager.cpp:105-283 | the whole run keeps them |
| ImportFacts.ResolveCounterpartyKeepsKeys | src/ImportManager.cpp:150-167 | the importer never creates a second NULL-inn counterparty with a name that already has one |
| ImportFacts.ResolveContractKeepsKeys | src/ImportManager.cpp:169-188 | it never creates a second contract with the same (number, date) |
| ImportFacts.ResolveInvoiceKeepsKeys | src/ImportManager.cpp:190-209 | it never creates a second invoice with the same (number, date) |
| ImportFacts.LineKeepsKeys | src/ImportManager.cpp:115-283 | one line keeps all three keys unique |
| ImportFacts.PaymentKeepsKeys | src/ImportManager.cpp:169-282 | the payment part keeps them unique |
| ImportFacts.ImportKeepsKeys | src/ImportManager.cpp:105-283 | the whole run keeps them unique |
| ImportFacts.PaymentRejected | src/ImportManager.cpp:211-213 | on an open store a settled payment is refused exactly when its type is neither "income" nor "expense"; a refused line leaves no payment and no detail, and keeps the contracts and invoices it created |
| ImportFacts.PaymentImported | src/ImportManager.cpp:211-214 | an imported payment is the next row of Payments, with the line's columns and the new id |
| ImportFacts.UntypedLineNotRejected | src/ImportManager.cpp:138-144 | on an open store only a line whose own type cell is non-empty and invalid can be refused |
| ImportFacts.DataLinesSkipHeader | src/ImportManager.cpp:92-93 | with a header line, the data lines are exactly the lines that follow it |
| ImportFacts.ImportLinesAppend | src/ImportManager.cpp:105-283 | the read loop composes: the lines after a prefix run from the state the prefix left, unless a line of the prefix threw |
| ImportFacts.BlankLineIff | src/ImportManager.cpp:115-148 | a line is skipped as blank exactly when it is non-empty, its date cell converts to the empty string and its amount reads as 0 |
| ImportFacts.LineCounterpartyByType | src/ImportManager.cpp:138-160 | a line that goes on to be imported looks up its counterparty by the payer cell when its inferred type is "income", and by the recipient cell otherwise |
| ImportFacts.ImportTsvKeeps | src/ImportManager.cpp:66-292 | the whole import leaves a closed store unchanged, and keeps the schema's constraints and the importer's keys |
| ImportFacts.CollectLinks | src/ImportManager.cpp:250-256 | every collected detail carries the payment's id and the line's shared contract and invoice ids, and earlier details are kept |
| ImportFacts.CollectAllParsed | src/ImportManager.cpp:233-261 | when every amount parses, the loop runs to the end, with one detail per token, each holding its token's amount, and the total is their sum |
| ImportFacts.CollectParseFailure | src/ImportManager.cpp:257-260 | an amount that does not parse marks the collection incomplete, so the check fails |
| ImportFacts.ApportionHandledIff | src/ImportManager.cpp:217-270 | the inline list is used exactly when tokens follow the marker, every amount parses, and 0 < sum <= amount + 0.01 |
| ImportFacts.AddDetailsRows | src/ImportManager.cpp:265-267 | the inserts append one row per detail, in order, with consecutive ids |
| ImportFacts.InlineDetailsAdded | src/ImportManager.cpp:225-269 | when the list is used, exactly one detail per token is appended, with that token's KOSGU id and amount and the shared payment, contract and invoice ids |
| ImportFacts.FallbackDetailAdded | src/ImportManager.cpp:273-282 | otherwise exactly one detail is appended, with KOSGU -1 and the payment's whole amount |
| ImportFacts.KosguCreatedBeforeCheck | src/ImportManager.cpp:238-244 | a token's KOSGU code reached by the loop is in the store afterwards, even when the list is rejected |

## Left out

- Progress, status messages and the mutex (src/ImportManager.cpp:108-113, 286-290) are not modelled. They are concurrency and UI feedback, and no stored row depends on them.
- Opening and reading the file is not modelled. The file is given as its content, or as None when it cannot be opened. The line count for progress (src/ImportManager.cpp:85-90) is left out.
- The contract and invoice regular expressions are oracles in `Importer.Env`. In these patterns the date group `(\d{2}|\d{4})` tries the two-digit branch first, so a date such as `01.03.2024` may be captured as `01.03.20`. The model makes no claim that a four-digit year survives extraction.
- The unused `kosgu_regex` and `amount_regex` (src/ImportManager.cpp:101-103) are left out.
- `std::stod` is an oracle. Amounts are exact reals, so `double` rounding in the running total, in `amount + 0.01` and in `amount + 1` is not modelled.
- ImportFacts.PaymentRejected: a NaN amount is not modelled. `std::stod` accepts "nan", `sqlite3_bind_double` stores NaN as NULL, and `amount REAL NOT NULL` (src/DatabaseManager.cpp:76) then refuses the row, so `addPayment` fails and the line is skipped. The model's `stod` yields only reals, so such a line is imported instead; likewise infinite amounts, which the source stores, are not modelled.
- `sqlite3_open` failure, statement-preparation failure and I/O errors are not modelled. `open` always succeeds on the given tables.
- Database.DatabaseManager.Open: the file's tables are a parameter, not read from disk.
- Text values are bound with `sqlite3_bind_text(..., -1, ...)`, so SQLite reads them up to the first 0x00 byte: a name, inn, number, date, description or other text cell with an embedded NUL is stored, and compared in a lookup, cut off there. The model stores and compares whole byte sequences, so two cells that differ only after a NUL byte (recipients `A\0B` and `A\0C`, say) give two counterparties in the model where the source finds one.
- Row ids are unbounded integers. The truncation of `sqlite3_last_insert_rowid` to `int` is not modelled.
- Foreign keys are not enforced, because `open` never turns them on. No cascade runs, and `StoreFacts.DeletePaymentKeepsDetails` states that.
- The select-all getters, the `getPaymentInfoFor*` reports, `executeSelect`, `execute`, the settings accessors and the SQL text of `createDatabase` are not part of the core. The schema constraints the model keeps are the UNIQUE KOSGU code, the UNIQUE counterparty inn and the CHECK on the payment type; the NOT NULL constraints cannot fail on the rows the model writes.
- The headers `src/ImportManager.h` and `src/DatabaseManager.h` declare signatures that differ from the `.cpp` files. The model follows the `.cpp` definitions.
- A lookup returns the id of the first matching row in rowid order. SQLite does not promise this order for a `SELECT` without `ORDER BY`; the model assumes rowid order, and every lookup contract states the first match (for the KOSGU code, `Store.KosguIdByCodeFirst` does).
- Updates and deletes of an id that no row has succeed and change nothing, as `UPDATE`/`DELETE` with no matching row return `SQLITE_DONE`.
- The UNIQUE and CHECK constraints are checked only on the row that is written.
