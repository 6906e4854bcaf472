/** The column mapping and `get_value_from_row`. */
module Fields {
  import opened Basics
  import opened Text

  /** Logical field name to zero-based column; -1 means "not mapped". */
  type ColumnMapping = map<Bytes, int32>

  /** 2^64: `size_t` arithmetic is modulo this. */
  const SizeTModulus: int := 0x1_0000_0000_0000_0000

  /** The usual arithmetic conversion of an `int` to `size_t`. */
  function AsSizeT(i: int32): (n: nat)
    ensures n < SizeTModulus
    ensures i >= 0 ==> n == i as int
    ensures i < 0 ==> n >= SizeTModulus - 0x8000_0000
  {
    (i as int) % SizeTModulus
  }

  /**
   * `get_value_from_row`. The bound check compares the `int` index with the
   * row's `size_t` size, so a negative index turns into a huge unsigned one;
   * the element access converts the same way.
   */
  function GetValueFromRow(row: seq<Bytes>, mapping: ColumnMapping, field: Bytes): (r: Bytes)
    ensures IsTrimmed(r)
    ensures r == [] || exists k :: 0 <= k < |row| && r == Trim(row[k])
    ensures field !in mapping ==> r == []
    ensures field in mapping && 0 <= mapping[field] as int < |row| ==> r == Trim(row[mapping[field] as int])
    ensures field in mapping && mapping[field] as int >= |row| ==> r == []
    ensures field in mapping && mapping[field] < 0 && |row| <= SizeTModulus - 0x8000_0000 ==> r == []
  {
    if field !in mapping || mapping[field] == -1 then []
    else
      var index := AsSizeT(mapping[field]);
      if index >= |row| then [] else Trim(row[index])
  }

  // The logical field names the importer asks for (UTF-8).

  /** "Дата" */
  const DateField: Bytes := [0xD0, 0x94, 0xD0, 0xB0, 0xD1, 0x82, 0xD0, 0xB0]
  /** "Номер док." */
  const DocNumberField: Bytes := [0xD0, 0x9D, 0xD0, 0xBE, 0xD0, 0xBC, 0xD0, 0xB5, 0xD1, 0x80, 0x20, 0xD0, 0xB4, 0xD0, 0xBE, 0xD0, 0xBA, 0x2E]
  /** "Тип" */
  const TypeField: Bytes := [0xD0, 0xA2, 0xD0, 0xB8, 0xD0, 0xBF]
  /** "Плательщик" */
  const PayerField: Bytes := [0xD0, 0x9F, 0xD0, 0xBB, 0xD0, 0xB0, 0xD1, 0x82, 0xD0, 0xB5, 0xD0, 0xBB, 0xD1, 0x8C, 0xD1, 0x89, 0xD0, 0xB8, 0xD0, 0xBA]
  /** "Контрагент" */
  const RecipientField: Bytes := [0xD0, 0x9A, 0xD0, 0xBE, 0xD0, 0xBD, 0xD1, 0x82, 0xD1, 0x80, 0xD0, 0xB0, 0xD0, 0xB3, 0xD0, 0xB5, 0xD0, 0xBD, 0xD1, 0x82]
  /** "Назначение" */
  const DescriptionField: Bytes := [0xD0, 0x9D, 0xD0, 0xB0, 0xD0, 0xB7, 0xD0, 0xBD, 0xD0, 0xB0, 0xD1, 0x87, 0xD0, 0xB5, 0xD0, 0xBD, 0xD0, 0xB8, 0xD0, 0xB5]
  /** "Сумма" */
  const AmountField: Bytes := [0xD0, 0xA1, 0xD1, 0x83, 0xD0, 0xBC, 0xD0, 0xBC, 0xD0, 0xB0]
}
