/** The fields of a label: their formats, their geometry and their capacity. */
module ZplFields {
  import opened Common
  import opened Decimal
  import opened Text
  import opened Utf8
  import opened ZplEscape

  datatype Layout = Layout(
    profileId: string,
    widthDots: nat,
    heightDots: nat,
    dpi: nat,
    maxFields: nat,
    maxFieldBytes: nat,
    maxBarcodeBytes: nat)

  predicate LegalLayout(l: Layout) {
    && 1 <= |l.profileId| <= 128
    && l.dpi == 203
    && 1 <= l.widthDots <= 812
    && 1 <= l.heightDots <= 1218
    && 1 <= l.maxFields <= 128
    && 1 <= l.maxFieldBytes <= 1024
    && 1 <= l.maxBarcodeBytes <= 256
  }

  /** A layout, the Unicode control categories, and the decimal ratios that the barcode defaults accept. */
  datatype Contract = Contract(layout: Layout, control: Control, ratio: string -> bool)

  datatype Kind = TextKind | Code128 | DataMatrix

  datatype Origin = Origin(baseline: bool, x: nat, y: nat)

  datatype Field = Field(
    origin: Option<Origin>,
    kind: Option<Kind>,
    height: nat,
    width: nat,
    moduleDots: nat,
    columns: nat,
    rows: nat,
    hexMode: bool)

  const EMPTY_FIELD := Field(None, None, 0, 0, 0, 0, 0, false)

  // ----- arguments -----

  function Integer(s: string, minimum: nat, maximum: nat): (r: Option<nat>)
    ensures r.Some? ==> minimum <= r.value <= maximum
  {
    if 1 <= |s| <= 4 && Digits(s) && minimum <= DecimalValue(s) <= maximum then Some(DecimalValue(s)) else None
  }

  /** The data codewords of the square Data Matrix symbols, by number of columns. */
  const CODEWORDS: map<nat, nat> := map[
    10 := 3, 12 := 5, 14 := 8, 16 := 12, 18 := 18, 20 := 22, 22 := 30, 24 := 36, 26 := 44, 32 := 62, 36 := 86,
    40 := 114, 44 := 144, 48 := 174, 52 := 204, 64 := 280, 72 := 368, 80 := 456, 88 := 576, 96 := 696, 104 := 816,
    120 := 1050, 132 := 1304, 144 := 1558]

  function SetText(field: Field, values: seq<string>, layout: Layout): Option<Field> {
    if |values| != 3 then None
    else
      var height, width := Integer(values[1], 1, layout.heightDots), Integer(values[2], 1, layout.widthDots);
      if height.None? || width.None? then None
      else Some(field.(kind := Some(TextKind), height := height.value, width := width.value))
  }

  function SetCode128(field: Field, values: seq<string>, moduleDots: nat, layout: Layout): Option<Field> {
    if !(5 <= |values| <= 6) || moduleDots == 0 || exists i :: 2 <= i < |values| && values[i] != "N" then None
    else
      var height := Integer(values[1], 1, layout.heightDots);
      if height.None? then None
      else Some(field.(kind := Some(Code128), moduleDots := moduleDots, height := height.value))
  }

  function SetDataMatrix(field: Field, values: seq<string>): Option<Field> {
    if |values| != 7 || values[2] != "200" || values[5] != "6" || values[6] != "\\" then None
    else
      var moduleDots := Integer(values[1], 1, 10);
      var columns, rows := Integer(values[3], 10, 144), Integer(values[4], 10, 144);
      if moduleDots.None? || columns.None? || rows.None? then None
      else if columns != rows || columns.value !in CODEWORDS then None
      else
        var sized := field.(moduleDots := moduleDots.value, columns := columns.value, rows := rows.value);
        Some(sized.(kind := Some(DataMatrix)))
  }

  function SetFormat(field: Field, kind: Kind, arguments: string, moduleDots: nat, layout: Layout): (r: Option<Field>)
    ensures r.Some? ==> field.kind.None? && r.value.kind == Some(kind)
    ensures r.Some? ==> r.value.origin == field.origin && r.value.hexMode == field.hexMode
    ensures r.Some? && kind == DataMatrix ==> r.value.columns in CODEWORDS
  {
    var values := Split(arguments, ',');
    if field.kind.Some? || values[0] != "N" then None
    else
      match kind
      case TextKind => SetText(field, values, layout)
      case Code128 => SetCode128(field, values, moduleDots, layout)
      case DataMatrix => SetDataMatrix(field, values)
  }

  // ----- the check of the source -----

  predicate CodeSetB(text: string) {
    forall i :: 0 <= i < |text| ==> text[i] as int <= 127 && text[i] != '>'
  }

  function ByteLimit(kind: Kind, layout: Layout): nat {
    if kind == TextKind then layout.maxFieldBytes else layout.maxBarcodeBytes
  }

  predicate InSymbol(bytes: nat, columns: nat) {
    columns in CODEWORDS && bytes + (if bytes <= 249 then 2 else 3) <= CODEWORDS[columns]
  }

  /** The decoded text of a field that passes every check, or nothing. */
  function Validate(c: Contract, field: Field, source: string): Option<string> {
    if field.origin.None? || field.kind.None? || !field.hexMode then None
    else
      var kind, origin := field.kind.value, field.origin.value;
      match Decoded(c.control, source, kind == DataMatrix)
      case None => None
      case Some(text) =>
        var bytes := |Encode(text)|;
        if text == "" || bytes > ByteLimit(kind, c.layout) then None
        else if kind == Code128 && !CodeSetB(text) then None
        else if kind == DataMatrix && !InSymbol(bytes, field.columns) then None
        else
          var width := match kind
            case TextKind => field.width * |text|
            case Code128 => (11 * (|text| + 2) + 13 + 20) * field.moduleDots
            case DataMatrix => (field.columns + 2) * field.moduleDots;
          var height := if kind == DataMatrix then (field.rows + 2) * field.moduleDots else field.height;
          var top := if origin.baseline then origin.y - height else origin.y;
          if top < 0 || origin.x + width > c.layout.widthDots || top + height > c.layout.heightDots then None
          else Some(text)
  }

  // ----- what it means -----

  /** A field as it stands on the label: its state at `^FD` and the escaped text up to `^FS`. */
  datatype Placed = Placed(field: Field, source: string)

  datatype Box = Box(left: int, top: int, right: int, bottom: int)

  predicate Within(box: Box, layout: Layout) {
    0 <= box.left <= box.right <= layout.widthDots && 0 <= box.top <= box.bottom <= layout.heightDots
  }

  const QUIET_ZONE_128 := 10
  const SYMBOL_128 := 11
  const STOP_128 := 13

  /** Quiet zone, start character, one symbol a character, check character, stop pattern, quiet zone. */
  function Code128Modules(characters: nat): nat {
    QUIET_ZONE_128 + SYMBOL_128 + SYMBOL_128 * characters + SYMBOL_128 + STOP_128 + QUIET_ZONE_128
  }

  /** A Data Matrix symbol has a quiet zone of one module on every side. */
  function DataMatrixModules(cells: nat): nat {
    1 + cells + 1
  }

  /** Base 256 takes a latch codeword and one or two length codewords. */
  function Base256Codewords(bytes: nat): nat {
    1 + (if bytes <= 249 then 1 else 2) + bytes
  }

  function Extent(field: Field, characters: nat): (nat, nat)
    requires field.kind.Some?
  {
    match field.kind.value
    case TextKind => (characters * field.width, field.height)
    case Code128 => (Code128Modules(characters) * field.moduleDots, field.height)
    case DataMatrix =>
      (DataMatrixModules(field.columns) * field.moduleDots, DataMatrixModules(field.rows) * field.moduleDots)
  }

  /** `^FO` gives the upper left corner of a field, and `^FT` its lower left corner. */
  function Bounds(field: Field, characters: nat): Box
    requires field.kind.Some? && field.origin.Some?
  {
    var (width, height) := Extent(field, characters);
    var at := field.origin.value;
    if at.baseline then Box(at.x, at.y - height, at.x + width, at.y)
    else Box(at.x, at.y, at.x + width, at.y + height)
  }

  /** The field is complete, its text is legal and within its limits, and its box lies in the printable area. */
  ghost predicate Fits(c: Contract, p: Placed, text: string) {
    && p.field.origin.Some? && p.field.kind.Some? && p.field.hexMode
    && EscapeField(c.control, text, p.field.kind == Some(DataMatrix)) == Ok(p.source)
    && 1 <= |text|
    && |Encode(text)| <= ByteLimit(p.field.kind.value, c.layout)
    && (p.field.kind == Some(Code128) ==> CodeSetB(text))
    && (p.field.kind == Some(DataMatrix) ==>
          p.field.columns in CODEWORDS && Base256Codewords(|Encode(text)|) <= CODEWORDS[p.field.columns])
    && Within(Bounds(p.field, |text|), c.layout)
  }

  /** Some text stands in the field and fits. */
  ghost predicate Fitting(c: Contract, p: Placed) {
    exists text :: Fits(c, p, text)
  }

  lemma ScaledExtent(field: Field, characters: nat)
    requires field.kind.Some?
    ensures Extent(field, characters) == match field.kind.value
      case TextKind => (field.width * characters, field.height)
      case Code128 => ((11 * (characters + 2) + 13 + 20) * field.moduleDots, field.height)
      case DataMatrix => ((field.columns + 2) * field.moduleDots, (field.rows + 2) * field.moduleDots)
  {
  }

  /** The check accepts a field exactly when it fits, and decodes the text that was escaped into it. */
  lemma ValidMeansFits(c: Contract, p: Placed, text: string)
    ensures Validate(c, p.field, p.source) == Some(text) <==> Fits(c, p, text)
  {
    if p.field.kind.Some? && p.field.origin.Some? {
      EscapeIsBijection(c.control, text, p.source, p.field.kind.value == DataMatrix);
      ScaledExtent(p.field, |text|);
    }
  }

  // ----- the symbols -----

  /** The error correction codewords of the same symbols, as ISO/IEC 16022 gives them for ECC 200. */
  const ERROR_CODEWORDS: map<nat, nat> := map[
    10 := 5, 12 := 7, 14 := 10, 16 := 12, 18 := 14, 20 := 18, 22 := 20, 24 := 24, 26 := 28, 32 := 36, 36 := 42,
    40 := 48, 44 := 56, 48 := 68, 52 := 84, 64 := 112, 72 := 144, 80 := 192, 88 := 224, 96 := 272, 104 := 336,
    120 := 408, 132 := 496, 144 := 620]

  /** The number of data regions along one side of a symbol; each is framed by two rows of modules. */
  function RegionsPerSide(columns: nat): nat {
    if columns <= 26 then 1 else if columns <= 52 then 2 else if columns <= 104 then 4 else 6
  }

  /** Every symbol of the table holds exactly as many codewords as its data modules allow. */
  lemma CodewordsFillSymbol(columns: nat)
    requires columns in CODEWORDS
    ensures columns in ERROR_CODEWORDS
    ensures
      var side := columns - 2 * RegionsPerSide(columns);
      CODEWORDS[columns] + ERROR_CODEWORDS[columns] == side * side / 8
  {
  }
}
