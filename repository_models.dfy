/** The repository's models and their row decoders: each model is read from a row of
    SQL Server column values, one typed column per field, and the state-type and
    confidence-level codes are decoded into enums. Each decoder has an encoder beside it,
    the row a well-formed model is read from, so that "the columns are copied into the
    fields in declaration order" is stated as a round trip. */
module Models {
  import opened Wrappers
  import opened Ints
  import opened Text

  // ---------------------------------------------------------------------------
  // Values the driver delivers
  // ---------------------------------------------------------------------------

  /** `rust_decimal::Decimal`: a mantissa and a scale, carried and never computed on. */
  datatype Decimal = Decimal(mantissa: int, scale: nat)

  /** A calendar date as chrono's `NaiveDate` holds it. */
  datatype NaiveDate = NaiveDate(year: int, month: int, day: int)

  /** The proleptic Gregorian leap-year rule chrono uses. */
  predicate IsLeapYear(y: int) {
    (y % 4 == 0 && y % 100 != 0) || y % 400 == 0
  }

  function DaysInMonth(y: int, m: int): int
    requires 1 <= m <= 12
  {
    if m == 2 then (if IsLeapYear(y) then 29 else 28)
    else if m == 4 || m == 6 || m == 9 || m == 11 then 30
    else 31
  }

  /** chrono's `MIN_YEAR` and `MAX_YEAR`. */
  const MIN_YEAR: int := -262144
  const MAX_YEAR: int := 262143

  predicate ValidDate(d: NaiveDate) {
    && MIN_YEAR <= d.year <= MAX_YEAR
    && 1 <= d.month <= 12
    && 1 <= d.day <= DaysInMonth(d.year, d.month)
  }

  /** A `NaiveDate` value always denotes a real day. */
  type Date = d: NaiveDate | ValidDate(d) witness NaiveDate(1970, 1, 1)

  /** `repository::error::Error`, with the variants the server matches on. */
  datatype Error =
    | LowLevel(message: string)
    | NotFound
    | UnknownStateType(message: string)
    | UnknownConfidenceLevel(message: string)

  /** One column of a result row as the driver delivers it: its SQL type, with NULL as `None`. */
  datatype ColumnData =
    | TinyInt(u8Value: Option<u8>)
    | SmallInt(i16Value: Option<i16>)
    | Int(i32Value: Option<i32>)
    | Bit(boolValue: Option<bool>)
    | NVarChar(textValue: Option<string>)
    | Numeric(decimalValue: Option<Decimal>)
    | DateColumn(dateValue: Option<Date>)

  type Row = seq<ColumnData>

  datatype SqlType = TinyIntType | SmallIntType | IntType | BitType | NVarCharType | NumericType | DateType

  function TypeOf(c: ColumnData): SqlType {
    match c
    case TinyInt(_) => TinyIntType
    case SmallInt(_) => SmallIntType
    case Int(_) => IntType
    case Bit(_) => BitType
    case NVarChar(_) => NVarCharType
    case Numeric(_) => NumericType
    case DateColumn(_) => DateType
  }

  predicate IsNull(c: ColumnData) {
    match c
    case TinyInt(v) => v.None?
    case SmallInt(v) => v.None?
    case Int(v) => v.None?
    case Bit(v) => v.None?
    case NVarChar(v) => v.None?
    case Numeric(v) => v.None?
    case DateColumn(v) => v.None?
  }

  /** How a decoder reads one column: with the Rust type that reads `ty`, the value then
      `unwrap()`ped (`NotNull`) or kept as an `Option` (`Nullable`). */
  datatype ColumnSpec = NotNull(ty: SqlType) | Nullable(ty: SqlType)

  /** A column a decoder reads without failing or panicking. */
  predicate Fits(c: ColumnData, spec: ColumnSpec) {
    TypeOf(c) == spec.ty && (spec.NotNull? ==> !IsNull(c))
  }

  predicate FitsAll(cols: seq<ColumnData>, specs: seq<ColumnSpec>) {
    |cols| == |specs| && forall i :: 0 <= i < |specs| ==> Fits(cols[i], specs[i])
  }

  // ---------------------------------------------------------------------------
  // Reading columns: `row.try_get::<R, _>(i)?`
  // ---------------------------------------------------------------------------

  /** The error of a failed column read, naming the column; the driver's own wording is not
      part of the model. */
  function ColumnError(i: nat): Error {
    LowLevel("column " + NatToString(i))
  }

  /** The row has, from column `from` on, columns of the types the specs read. */
  predicate HasColumnsAt(row: Row, from: nat, specs: seq<ColumnSpec>) {
    from + |specs| <= |row| && forall j :: from <= j < from + |specs| ==> TypeOf(row[j]) == specs[j - from].ty
  }

  /** None of the columns from `from` on that a spec `unwrap()`s is NULL when it has the
      type the spec reads: a NULL there makes the decoder panic. */
  predicate NotNullWhereRequired(row: Row, from: nat, specs: seq<ColumnSpec>) {
    forall j :: from <= j < from + |specs| && j < |row| && specs[j - from].NotNull? && TypeOf(row[j]) == specs[j - from].ty
      ==> !IsNull(row[j])
  }

  /** The first column from `from` on that does not have the type its spec reads, or
      `from + |specs|` when there is none. */
  function FirstMismatch(row: Row, from: nat, specs: seq<ColumnSpec>): (k: nat)
    ensures from <= k <= from + |specs|
    decreases |specs|
  {
    if specs == [] then from
    else if from < |row| && TypeOf(row[from]) == specs[0].ty then FirstMismatch(row, from + 1, specs[1..])
    else from
  }

  /** The columns before the first mismatch have their types, the one at it has not, and
      there is no mismatch exactly when the row has all the columns. */
  lemma {:induction false} FirstMismatchProperties(row: Row, from: nat, specs: seq<ColumnSpec>)
    requires from <= |row|
    ensures var k := FirstMismatch(row, from, specs);
      && k <= |row|
      && (forall j :: from <= j < k ==> TypeOf(row[j]) == specs[j - from].ty)
      && (k < from + |specs| ==> !(k < |row| && TypeOf(row[k]) == specs[k - from].ty))
      && (k == from + |specs| <==> HasColumnsAt(row, from, specs))
    decreases |specs|
  {
    if specs != [] && from < |row| && TypeOf(row[from]) == specs[0].ty {
      FirstMismatchProperties(row, from + 1, specs[1..]);
      ShiftSpecs(row, from, specs);
      var k := FirstMismatch(row, from, specs);
      assert k == FirstMismatch(row, from + 1, specs[1..]);
      forall j | from < j < k ensures TypeOf(row[j]) == specs[j - from].ty {
        assert specs[1..][j - (from + 1)] == specs[j - from];
      }
    }
  }

  /** Dropping the first spec moves the rest of them one column on. */
  lemma ShiftSpecs(row: Row, from: nat, specs: seq<ColumnSpec>)
    requires specs != []
    ensures from < |row| && TypeOf(row[from]) == specs[0].ty ==>
              (HasColumnsAt(row, from, specs) <==> HasColumnsAt(row, from + 1, specs[1..]))
    ensures NotNullWhereRequired(row, from, specs) ==> NotNullWhereRequired(row, from + 1, specs[1..])
    ensures NotNullWhereRequired(row, from, specs) && from < |row| && TypeOf(row[from]) == specs[0].ty ==>
              Fits(row[from], specs[0])
  {
  }

  /** Reading columns `from`, `from + 1`, … in turn, each with the Rust type its spec
      reads, stopping at the first read that fails. */
  function ReadColumns(row: Row, from: nat, specs: seq<ColumnSpec>): (r: Result<seq<ColumnData>, Error>)
    requires from <= |row| && NotNullWhereRequired(row, from, specs)
    ensures r.Ok? <==> HasColumnsAt(row, from, specs)
    ensures r.Ok? ==> FitsAll(r.value, specs) && r.value == row[from..from + |specs|]
    ensures r.Err? ==> r.error == ColumnError(FirstMismatch(row, from, specs))
    decreases |specs|
  {
    if specs == [] then Ok([])
    else if !(from < |row| && TypeOf(row[from]) == specs[0].ty) then Err(ColumnError(from))
    else
      ShiftSpecs(row, from, specs);
      var rest :- ReadColumns(row, from + 1, specs[1..]);
      FitsCons(row, from, rest, specs);
      Ok([row[from]] + rest)
  }

  /** A column that fits the first spec, followed by columns that fit the others. */
  lemma FitsCons(row: Row, from: nat, rest: seq<ColumnData>, specs: seq<ColumnSpec>)
    requires specs != [] && from < |row| && Fits(row[from], specs[0])
    requires from + |specs| <= |row| && FitsAll(rest, specs[1..]) && rest == row[from + 1..from + |specs|]
    ensures FitsAll([row[from]] + rest, specs) && [row[from]] + rest == row[from..from + |specs|]
  {
    var c := [row[from]] + rest;
    assert c == row[from..from + |specs|];
    forall i | 0 <= i < |specs| ensures Fits(c[i], specs[i]) {
      if i > 0 {
        assert c[i] == rest[i - 1] && specs[i] == specs[1..][i - 1];
      }
    }
  }

  /** `a + b` starting at `from` is `a` starting at `from`, then `b` right after it. */
  lemma SplitSpecs(row: Row, from: nat, a: seq<ColumnSpec>, b: seq<ColumnSpec>)
    ensures NotNullWhereRequired(row, from, a + b) ==>
              NotNullWhereRequired(row, from, a) && NotNullWhereRequired(row, from + |a|, b)
    ensures HasColumnsAt(row, from, a + b) <==> HasColumnsAt(row, from, a) && HasColumnsAt(row, from + |a|, b)
  {
    var ab := a + b;
    assert forall i :: 0 <= i < |a| ==> ab[i] == a[i];
    assert forall i :: |a| <= i < |ab| ==> ab[i] == b[i - |a|];
  }

  /** The first mismatch of `a + b` is that of `a`, or that of `b` when `a` has none. */
  lemma {:induction false} FirstMismatchSplit(row: Row, from: nat, a: seq<ColumnSpec>, b: seq<ColumnSpec>)
    ensures FirstMismatch(row, from, a + b)
         == if FirstMismatch(row, from, a) < from + |a| then FirstMismatch(row, from, a)
            else FirstMismatch(row, from + |a|, b)
    decreases |a|
  {
    if a == [] {
      assert a + b == b;
    } else {
      assert (a + b)[0] == a[0] && (a + b)[1..] == a[1..] + b;
      if from < |row| && TypeOf(row[from]) == a[0].ty {
        FirstMismatchSplit(row, from + 1, a[1..], b);
      }
    }
  }

  /** A row that starts with columns that fit the specs, whatever columns follow. */
  lemma FitsAllPrefix(cols: Row, rest: Row, specs: seq<ColumnSpec>)
    requires FitsAll(cols, specs)
    ensures HasColumnsAt(cols + rest, 0, specs) && NotNullWhereRequired(cols + rest, 0, specs)
    ensures (cols + rest)[0..|specs|] == cols
  {
    var row := cols + rest;
    assert forall j :: 0 <= j < |cols| ==> row[j] == cols[j];
  }

  /** Columns that fit the specs, found at `from` in a row. */
  lemma FitsAllAt(row: Row, from: nat, cols: Row, specs: seq<ColumnSpec>)
    requires from + |cols| <= |row| && row[from..from + |cols|] == cols && FitsAll(cols, specs)
    ensures HasColumnsAt(row, from, specs) && NotNullWhereRequired(row, from, specs)
  {
    assert forall j :: from <= j < from + |cols| ==> row[j] == cols[j - from];
  }

  // ---------------------------------------------------------------------------
  // Debug text of the decoders' error messages: `format!("{:?}", x)`
  // ---------------------------------------------------------------------------

  /** The debug form of an `Option<&str>`: `None`, or `Some("…")` with the text between
      double quotes. */
  function DebugText(x: Option<string>): string {
    match x
    case None => "None"
    case Some(s) => "Some(\"" + s + "\")"
  }

  /** The debug form of an `Option<u8>`: `None`, or `Some(n)` with `n` in decimal. */
  function DebugU8(x: Option<u8>): string {
    match x
    case None => "None"
    case Some(n) => "Some(" + NatToString(n) + ")"
  }

  // ---------------------------------------------------------------------------
  // Codes
  // ---------------------------------------------------------------------------

  datatype StateType = State | Territory | FederalCapital

  /** The one-letter code the `StateType` column holds for each kind of state. */
  function StateTypeColumn(t: StateType): string {
    match t
    case State => "S"
    case Territory => "T"
    case FederalCapital => "F"
  }

  /** The state-type match of `State::try_from`: the three codes decode, anything else,
      NULL and lower-case letters included, is an `UnknownStateType` naming the value. */
  function DecodeStateType(x: Option<string>): (r: Result<StateType, Error>)
    ensures r.Ok? <==> x == Some("S") || x == Some("T") || x == Some("F")
    ensures r.Ok? ==> x == Some(StateTypeColumn(r.value))
    ensures r.Err? ==> r.error == UnknownStateType(DebugText(x))
  {
    match x
    case Some("S") => Ok(StateType.State)
    case Some("T") => Ok(Territory)
    case Some("F") => Ok(FederalCapital)
    case _ => Err(UnknownStateType(DebugText(x)))
  }

  /** Every state type decodes from its code. */
  lemma StateTypeRoundTrip(t: StateType)
    ensures DecodeStateType(Some(StateTypeColumn(t))) == Ok(t)
  {
  }

  datatype ConfidenceLevel = Low | Medium | High

  /** The declared discriminants `Low = 1`, `Medium = 2`, `High = 3`. */
  function Discriminant(l: ConfidenceLevel): (d: u8)
    ensures 1 <= d <= 3
  {
    match l
    case Low => 1
    case Medium => 2
    case High => 3
  }

  /** `ConfidenceLevel::try_from(Option<u8>)`: `Some(1)`, `Some(2)`, `Some(3)` decode, and
      `None` or any other number is an `UnknownConfidenceLevel` naming the value. */
  function DecodeConfidenceLevel(x: Option<u8>): (r: Result<ConfidenceLevel, Error>)
    ensures r.Ok? <==> x.Some? && 1 <= x.value <= 3
    ensures r.Ok? ==> x == Some(Discriminant(r.value))
    ensures r.Err? ==> r.error == UnknownConfidenceLevel(DebugU8(x))
  {
    match x
    case Some(1) => Ok(Low)
    case Some(2) => Ok(Medium)
    case Some(3) => Ok(High)
    case _ => Err(UnknownConfidenceLevel(DebugU8(x)))
  }

  /** Decoding a level's discriminant gives the level back. */
  lemma ConfidenceLevelRoundTrip(l: ConfidenceLevel)
    ensures DecodeConfidenceLevel(Some(Discriminant(l))) == Ok(l)
  {
  }


  // ---------------------------------------------------------------------------
  // ImageSource
  // ---------------------------------------------------------------------------

  datatype ImageSource = ImageSource(id: u8, name: string)

  /** `Id` and `Name`, neither of them NULL. */
  const ImageSourceColumns: seq<ColumnSpec> :=
    [NotNull(TinyIntType), NotNull(NVarCharType)]

  /** The row an image source is read from. */
  function EncodeImageSource(x: ImageSource): (row: Row)
    ensures FitsAll(row, ImageSourceColumns)
  {
    [TinyInt(Some(x.id)), NVarChar(Some(x.name))]
  }

  /** The image source that columns fitting the specs hold; encoding it gives the columns back. */
  function ImageSourceFromColumns(c: Row): (x: ImageSource)
    requires FitsAll(c, ImageSourceColumns)
    ensures EncodeImageSource(x) == c
  {
    ImageSource(c[0].u8Value.value, c[1].textValue.value)
  }

  /** `ImageSource::try_from(&Row)`: reads `Id` and `Name` from columns 0 and 1. A column missing or of the wrong type fails at
      the first such column, and otherwise the columns are copied into the fields in order. */
  function DecodeImageSource(row: Row): (r: Result<ImageSource, Error>)
    requires NotNullWhereRequired(row, 0, ImageSourceColumns)
    ensures r.Ok? <==> HasColumnsAt(row, 0, ImageSourceColumns)
    ensures r.Ok? ==> EncodeImageSource(r.value) == row[..|ImageSourceColumns|]
    ensures r.Err? ==> r.error == ColumnError(FirstMismatch(row, 0, ImageSourceColumns))
  {
    var c :- ReadColumns(row, 0, ImageSourceColumns);
    Ok(ImageSourceFromColumns(c))
  }

  /** An image source decodes from its own row, whatever columns follow. */
  lemma ImageSourceRoundTrip(x: ImageSource, rest: Row)
    ensures NotNullWhereRequired(EncodeImageSource(x) + rest, 0, ImageSourceColumns)
    ensures DecodeImageSource(EncodeImageSource(x) + rest) == Ok(x)
  {
    FitsAllPrefix(EncodeImageSource(x), rest, ImageSourceColumns);
    assert ImageSourceFromColumns(EncodeImageSource(x)) == x;
  }

  // ---------------------------------------------------------------------------
  // State
  // ---------------------------------------------------------------------------

  datatype State = State(
    id: string,
    name: string,
    capital: Option<string>,
    population: Option<i32>,
    areaSquareKm: Option<i32>,
    stateType: StateType)

  /** `Id`, `Name`, `Capital`, `Population`, `AreaSquareKm` and `StateType`; only the
      first two are `unwrap()`ped. */
  const StateColumns: seq<ColumnSpec> :=
    [NotNull(NVarCharType), NotNull(NVarCharType), Nullable(NVarCharType), Nullable(IntType),
     Nullable(IntType), Nullable(NVarCharType)]

  /** The row a state is read from. */
  function EncodeState(x: State): (row: Row)
    ensures FitsAll(row, StateColumns)
  {
    [NVarChar(Some(x.id)), NVarChar(Some(x.name)), NVarChar(x.capital), Int(x.population),
     Int(x.areaSquareKm), NVarChar(Some(StateTypeColumn(x.stateType)))]
  }

  /** The state that columns fitting the specs hold, with the state type its code column
      decodes to; encoding it gives the columns back. */
  function StateFromColumns(c: Row, stateType: StateType): (x: State)
    requires FitsAll(c, StateColumns) && c[5].textValue == Some(StateTypeColumn(stateType))
    ensures EncodeState(x) == c
  {
    State.State(c[0].textValue.value, c[1].textValue.value, c[2].textValue, c[3].i32Value,
                c[4].i32Value, stateType)
  }

  /** `State::try_from(&Row)`: copies columns 0-4 into `id`, `name`, `capital`,
      `population` and `area_square_km`, and decodes the state type from column 5. A column
      missing or of the wrong type fails first, at the first such column; then an unknown
      state-type code fails, naming the code. */
  function DecodeState(row: Row): (r: Result<State, Error>)
    requires NotNullWhereRequired(row, 0, StateColumns)
    ensures r.Ok? <==> HasColumnsAt(row, 0, StateColumns) && DecodeStateType(row[5].textValue).Ok?
    ensures r.Ok? ==> EncodeState(r.value) == row[..|StateColumns|]
    ensures !HasColumnsAt(row, 0, StateColumns) ==> r == Err(ColumnError(FirstMismatch(row, 0, StateColumns)))
    ensures HasColumnsAt(row, 0, StateColumns) && r.Err? ==> r == Err(UnknownStateType(DebugText(row[5].textValue)))
  {
    var c :- ReadColumns(row, 0, StateColumns);
    var stateType :- DecodeStateType(c[5].textValue);
    Ok(StateFromColumns(c, stateType))
  }

  /** A state decodes from its own row, whatever columns follow. */
  lemma StateRoundTrip(x: State, rest: Row)
    ensures NotNullWhereRequired(EncodeState(x) + rest, 0, StateColumns)
    ensures DecodeState(EncodeState(x) + rest) == Ok(x)
  {
    FitsAllPrefix(EncodeState(x), rest, StateColumns);
    StateTypeRoundTrip(x.stateType);
    assert StateFromColumns(EncodeState(x), x.stateType) == x;
  }

  // ---------------------------------------------------------------------------
  // County
  // ---------------------------------------------------------------------------

  datatype County = County(id: i32, stateId: string, name: string)

  /** `Id`, `StateId` and `Name`, none of them NULL. */
  const CountyColumns: seq<ColumnSpec> :=
    [NotNull(IntType), NotNull(NVarCharType), NotNull(NVarCharType)]

  /** The row a county is read from. */
  function EncodeCounty(x: County): (row: Row)
    ensures FitsAll(row, CountyColumns)
  {
    [Int(Some(x.id)), NVarChar(Some(x.stateId)), NVarChar(Some(x.name))]
  }

  /** The county that columns fitting the specs hold; encoding it gives the columns back. */
  function CountyFromColumns(c: Row): (x: County)
    requires FitsAll(c, CountyColumns)
    ensures EncodeCounty(x) == c
  {
    County(c[0].i32Value.value, c[1].textValue.value, c[2].textValue.value)
  }

  /** `County::try_from(&Row)`: reads `Id`, `StateId` and `Name` from columns 0-2. A column missing or of the wrong type fails at
      the first such column, and otherwise the columns are copied into the fields in order. */
  function DecodeCounty(row: Row): (r: Result<County, Error>)
    requires NotNullWhereRequired(row, 0, CountyColumns)
    ensures r.Ok? <==> HasColumnsAt(row, 0, CountyColumns)
    ensures r.Ok? ==> EncodeCounty(r.value) == row[..|CountyColumns|]
    ensures r.Err? ==> r.error == ColumnError(FirstMismatch(row, 0, CountyColumns))
  {
    var c :- ReadColumns(row, 0, CountyColumns);
    Ok(CountyFromColumns(c))
  }

  /** A county decodes from its own row, whatever columns follow. */
  lemma CountyRoundTrip(x: County, rest: Row)
    ensures NotNullWhereRequired(EncodeCounty(x) + rest, 0, CountyColumns)
    ensures DecodeCounty(EncodeCounty(x) + rest) == Ok(x)
  {
    FitsAllPrefix(EncodeCounty(x), rest, CountyColumns);
    assert CountyFromColumns(EncodeCounty(x)) == x;
  }

  // ---------------------------------------------------------------------------
  // Manufacturer
  // ---------------------------------------------------------------------------

  datatype Manufacturer = Manufacturer(id: i32, name: string)

  /** `Id` and `Name`, neither of them NULL. */
  const ManufacturerColumns: seq<ColumnSpec> :=
    [NotNull(IntType), NotNull(NVarCharType)]

  /** The row a manufacturer is read from. */
  function EncodeManufacturer(x: Manufacturer): (row: Row)
    ensures FitsAll(row, ManufacturerColumns)
  {
    [Int(Some(x.id)), NVarChar(Some(x.name))]
  }

  /** The manufacturer that columns fitting the specs hold; encoding it gives the columns back. */
  function ManufacturerFromColumns(c: Row): (x: Manufacturer)
    requires FitsAll(c, ManufacturerColumns)
    ensures EncodeManufacturer(x) == c
  {
    Manufacturer(c[0].i32Value.value, c[1].textValue.value)
  }

  /** `Manufacturer::try_from(&Row)`: reads `Id` and `Name` from columns 0 and 1. A column missing or of the wrong type fails at
      the first such column, and otherwise the columns are copied into the fields in order. */
  function DecodeManufacturer(row: Row): (r: Result<Manufacturer, Error>)
    requires NotNullWhereRequired(row, 0, ManufacturerColumns)
    ensures r.Ok? <==> HasColumnsAt(row, 0, ManufacturerColumns)
    ensures r.Ok? ==> EncodeManufacturer(r.value) == row[..|ManufacturerColumns|]
    ensures r.Err? ==> r.error == ColumnError(FirstMismatch(row, 0, ManufacturerColumns))
  {
    var c :- ReadColumns(row, 0, ManufacturerColumns);
    Ok(ManufacturerFromColumns(c))
  }

  /** A manufacturer decodes from its own row, whatever columns follow. */
  lemma ManufacturerRoundTrip(x: Manufacturer, rest: Row)
    ensures NotNullWhereRequired(EncodeManufacturer(x) + rest, 0, ManufacturerColumns)
    ensures DecodeManufacturer(EncodeManufacturer(x) + rest) == Ok(x)
  {
    FitsAllPrefix(EncodeManufacturer(x), rest, ManufacturerColumns);
    assert ManufacturerFromColumns(EncodeManufacturer(x)) == x;
  }

  // ---------------------------------------------------------------------------
  // Project
  // ---------------------------------------------------------------------------

  datatype Project = Project(id: i32, name: string, numTurbines: Option<i16>, capacityMw: Option<Decimal>)

  /** `Id`, `Name`, `NumTurbines` and `CapacityMW`; the last two may be NULL. */
  const ProjectColumns: seq<ColumnSpec> :=
    [NotNull(IntType), NotNull(NVarCharType), Nullable(SmallIntType), Nullable(NumericType)]

  /** The row a project is read from. */
  function EncodeProject(x: Project): (row: Row)
    ensures FitsAll(row, ProjectColumns)
  {
    [Int(Some(x.id)), NVarChar(Some(x.name)), SmallInt(x.numTurbines), Numeric(x.capacityMw)]
  }

  /** The project that columns fitting the specs hold; encoding it gives the columns back. */
  function ProjectFromColumns(c: Row): (x: Project)
    requires FitsAll(c, ProjectColumns)
    ensures EncodeProject(x) == c
  {
    Project(c[0].i32Value.value, c[1].textValue.value, c[2].i16Value, c[3].decimalValue)
  }

  /** `Project::try_from(&Row)`: reads `Id`, `Name`, `NumTurbines` and `CapacityMW` from columns 0-3. A column missing or of the wrong type fails at
      the first such column, and otherwise the columns are copied into the fields in order. */
  function DecodeProject(row: Row): (r: Result<Project, Error>)
    requires NotNullWhereRequired(row, 0, ProjectColumns)
    ensures r.Ok? <==> HasColumnsAt(row, 0, ProjectColumns)
    ensures r.Ok? ==> EncodeProject(r.value) == row[..|ProjectColumns|]
    ensures r.Err? ==> r.error == ColumnError(FirstMismatch(row, 0, ProjectColumns))
  {
    var c :- ReadColumns(row, 0, ProjectColumns);
    Ok(ProjectFromColumns(c))
  }

  /** A project decodes from its own row, whatever columns follow. */
  lemma ProjectRoundTrip(x: Project, rest: Row)
    ensures NotNullWhereRequired(EncodeProject(x) + rest, 0, ProjectColumns)
    ensures DecodeProject(EncodeProject(x) + rest) == Ok(x)
  {
    FitsAllPrefix(EncodeProject(x), rest, ProjectColumns);
    assert ProjectFromColumns(EncodeProject(x)) == x;
  }

  // ---------------------------------------------------------------------------
  // Model
  // ---------------------------------------------------------------------------

  datatype Model = Model(
    id: i32,
    manufacturerId: i32,
    name: string,
    capacityKw: Option<i32>,
    hubHeight: Option<Decimal>,
    rotorDiameter: Option<Decimal>,
    rotorSweptArea: Option<Decimal>,
    totalHeightToTip: Option<Decimal>)

  /** `Id`, `ManufacturerId` and `Name`, none of them NULL, then the capacity and the four
      dimensions, each of them nullable. */
  const ModelColumns: seq<ColumnSpec> :=
    [NotNull(IntType), NotNull(IntType), NotNull(NVarCharType), Nullable(IntType),
     Nullable(NumericType), Nullable(NumericType), Nullable(NumericType), Nullable(NumericType)]

  /** The row a model is read from. */
  function EncodeModel(x: Model): (row: Row)
    ensures FitsAll(row, ModelColumns)
  {
    [Int(Some(x.id)), Int(Some(x.manufacturerId)), NVarChar(Some(x.name)), Int(x.capacityKw),
     Numeric(x.hubHeight), Numeric(x.rotorDiameter), Numeric(x.rotorSweptArea), Numeric(x.totalHeightToTip)]
  }

  /** The model that columns fitting the specs hold; encoding it gives the columns back. */
  function ModelFromColumns(c: Row): (x: Model)
    requires FitsAll(c, ModelColumns)
    ensures EncodeModel(x) == c
  {
    Model(c[0].i32Value.value, c[1].i32Value.value, c[2].textValue.value, c[3].i32Value,
          c[4].decimalValue, c[5].decimalValue, c[6].decimalValue, c[7].decimalValue)
  }

  /** `Model::try_from(&Row)`: reads the eight columns 0-7 into the eight fields. A column missing or of the wrong type fails at
      the first such column, and otherwise the columns are copied into the fields in order. */
  function DecodeModel(row: Row): (r: Result<Model, Error>)
    requires NotNullWhereRequired(row, 0, ModelColumns)
    ensures r.Ok? <==> HasColumnsAt(row, 0, ModelColumns)
    ensures r.Ok? ==> EncodeModel(r.value) == row[..|ModelColumns|]
    ensures r.Err? ==> r.error == ColumnError(FirstMismatch(row, 0, ModelColumns))
  {
    var c :- ReadColumns(row, 0, ModelColumns);
    Ok(ModelFromColumns(c))
  }

  /** A model decodes from its own row, whatever columns follow. */
  lemma ModelRoundTrip(x: Model, rest: Row)
    ensures NotNullWhereRequired(EncodeModel(x) + rest, 0, ModelColumns)
    ensures DecodeModel(EncodeModel(x) + rest) == Ok(x)
  {
    FitsAllPrefix(EncodeModel(x), rest, ModelColumns);
    assert ModelFromColumns(EncodeModel(x)) == x;
  }

  // ---------------------------------------------------------------------------
  // Turbine
  // ---------------------------------------------------------------------------

  datatype Turbine = Turbine(
    id: i32,
    countyId: i32,
    projectId: i32,
    modelId: i32,
    imageSourceId: u8,
    retrofit: bool,
    retrofitYear: Option<i16>,
    attributesConfidenceLevel: ConfidenceLevel,
    locationConfidenceLevel: ConfidenceLevel,
    imageDate: Option<Date>,
    latitude: Decimal,
    longitude: Decimal)

  /** Columns 0-7: the four ids, the image source, `Retrofit`, `RetrofitYear` and the
      attributes confidence code. */
  const TurbineHeadColumns: seq<ColumnSpec> :=
    [NotNull(IntType), NotNull(IntType), NotNull(IntType), NotNull(IntType), NotNull(TinyIntType),
     NotNull(BitType), Nullable(SmallIntType), Nullable(TinyIntType)]

  /** Column 8: the location confidence code. */
  const TurbineLevelColumn: seq<ColumnSpec> := [Nullable(TinyIntType)]

  /** Columns 9-11: `ImageDate`, `Latitude` and `Longitude`. */
  const TurbineTailColumns: seq<ColumnSpec> := [Nullable(DateType), NotNull(NumericType), NotNull(NumericType)]

  /** All twelve columns of a turbine row. */
  const TurbineColumns: seq<ColumnSpec> := TurbineHeadColumns + TurbineLevelColumn + TurbineTailColumns

  /** The three column groups from their positions on, as one predicate per group. */
  predicate TurbineColumnsAt(row: Row) {
    HasColumnsAt(row, 0, TurbineHeadColumns) && HasColumnsAt(row, 8, TurbineLevelColumn)
    && HasColumnsAt(row, 9, TurbineTailColumns)
  }

  /** The columns `Turbine::try_from` unwraps hold values when it reaches them: columns 0-7
      always, and columns 9-11 only once the head and both confidence levels have been read. */
  predicate TurbineNotNull(row: Row) {
    && NotNullWhereRequired(row, 0, TurbineHeadColumns)
    && (HasColumnsAt(row, 0, TurbineHeadColumns) && DecodeLevels(row).Ok? ==>
          NotNullWhereRequired(row, 9, TurbineTailColumns))
  }

  /** The groups are the twelve columns read one after another. */
  lemma TurbineGroups(row: Row)
    ensures TurbineColumnsAt(row) <==> HasColumnsAt(row, 0, TurbineColumns)
    ensures TurbineNotNull(row) <== NotNullWhereRequired(row, 0, TurbineColumns)
  {
    SplitSpecs(row, 0, TurbineHeadColumns + TurbineLevelColumn, TurbineTailColumns);
    SplitSpecs(row, 0, TurbineHeadColumns, TurbineLevelColumn);
  }

  /** The first mismatch of the twelve columns is the first mismatch of the first group
      that has one. */
  lemma TurbineGroupsMismatch(row: Row)
    ensures FirstMismatch(row, 0, TurbineColumns)
         == if FirstMismatch(row, 0, TurbineHeadColumns) < 8 then FirstMismatch(row, 0, TurbineHeadColumns)
            else if FirstMismatch(row, 8, TurbineLevelColumn) < 9 then FirstMismatch(row, 8, TurbineLevelColumn)
            else FirstMismatch(row, 9, TurbineTailColumns)
  {
    FirstMismatchSplit(row, 0, TurbineHeadColumns + TurbineLevelColumn, TurbineTailColumns);
    FirstMismatchSplit(row, 0, TurbineHeadColumns, TurbineLevelColumn);
  }

  /** The row a turbine is read from. */
  function EncodeTurbine(x: Turbine): (row: Row)
    ensures FitsAll(row, TurbineColumns)
  {
    [Int(Some(x.id)), Int(Some(x.countyId)), Int(Some(x.projectId)), Int(Some(x.modelId)),
     TinyInt(Some(x.imageSourceId)), Bit(Some(x.retrofit)), SmallInt(x.retrofitYear),
     TinyInt(Some(Discriminant(x.attributesConfidenceLevel))),
     TinyInt(Some(Discriminant(x.locationConfidenceLevel))),
     DateColumn(x.imageDate), Numeric(Some(x.latitude)), Numeric(Some(x.longitude))]
  }

  /** The turbine that the three column groups and the two decoded levels hold; encoding it
      gives the columns back. */
  function TurbineFromColumns(head: Row, attributes: ConfidenceLevel, location: ConfidenceLevel, tail: Row): (x: Turbine)
    requires FitsAll(head, TurbineHeadColumns) && FitsAll(tail, TurbineTailColumns)
    requires head[7].u8Value == Some(Discriminant(attributes))
    ensures EncodeTurbine(x) == head + [TinyInt(Some(Discriminant(location)))] + tail
  {
    Turbine(head[0].i32Value.value, head[1].i32Value.value, head[2].i32Value.value,
            head[3].i32Value.value, head[4].u8Value.value, head[5].boolValue.value,
            head[6].i16Value, attributes, location, tail[0].dateValue,
            tail[1].decimalValue.value, tail[2].decimalValue.value)
  }

  /** Both confidence columns of a well-typed turbine row hold a level's discriminant. */
  predicate LevelsValid(row: Row)
    requires HasColumnsAt(row, 0, TurbineHeadColumns) && HasColumnsAt(row, 8, TurbineLevelColumn)
  {
    DecodeConfidenceLevel(row[7].u8Value).Ok? && DecodeConfidenceLevel(row[8].u8Value).Ok?
  }

  /** The two confidence levels of a row whose first eight columns have their types: the
      attributes level of column 7, then the read of column 8, then the location level. */
  function DecodeLevels(row: Row): (r: Result<(ConfidenceLevel, ConfidenceLevel), Error>)
    requires HasColumnsAt(row, 0, TurbineHeadColumns)
    ensures r.Ok? <==> HasColumnsAt(row, 8, TurbineLevelColumn) && LevelsValid(row)
    ensures r.Ok? ==>
              && row[7].u8Value == Some(Discriminant(r.value.0))
              && row[8] == TinyInt(Some(Discriminant(r.value.1)))
    ensures r.Err? ==> r.error == if DecodeConfidenceLevel(row[7].u8Value).Err?
                                  then UnknownConfidenceLevel(DebugU8(row[7].u8Value))
                                  else if !HasColumnsAt(row, 8, TurbineLevelColumn) then ColumnError(8)
                                  else UnknownConfidenceLevel(DebugU8(row[8].u8Value))
  {
    var attributes :- DecodeConfidenceLevel(row[7].u8Value);
    if !(8 < |row| && row[8].TinyInt?) then Err(ColumnError(8))
    else
      var location :- DecodeConfidenceLevel(row[8].u8Value);
      Ok((attributes, location))
  }

  /** `Turbine::try_from(&Row)`: reads columns 0-11 into the twelve fields in order, the two
      confidence levels decoded from columns 7 and 8. The first failing step gives the
      error: a column read of columns 0-7, the attributes level, the read of column 8, the
      location level, a column read of columns 9-11. */
  function DecodeTurbine(row: Row): (r: Result<Turbine, Error>)
    requires TurbineNotNull(row)
    ensures r.Ok? <==> TurbineColumnsAt(row) && LevelsValid(row)
    ensures r.Ok? ==> EncodeTurbine(r.value) == row[..|TurbineColumns|]
  {
    var head :- ReadColumns(row, 0, TurbineHeadColumns);
    var levels :- DecodeLevels(row);
    var tail :- ReadColumns(row, 9, TurbineTailColumns);
    TurbineSlices(row, head, tail);
    Ok(TurbineFromColumns(head, levels.0, levels.1, tail))
  }

  lemma TurbineSlices(row: Row, head: Row, tail: Row)
    requires 12 <= |row| && head == row[0..8] && tail == row[9..12]
    ensures row[..12] == head + [row[8]] + tail
  {
    assert row[..12] == row[0..8] + row[8..9] + row[9..12];
  }

  /** Which step of `Turbine::try_from` fails first: a column read of columns 0-7, then the
      attributes level, the read of column 8 and the location level, then a column read of
      columns 9-11. */
  lemma TurbineDecodeErrors(row: Row)
    requires TurbineNotNull(row)
    ensures !HasColumnsAt(row, 0, TurbineHeadColumns) ==>
              DecodeTurbine(row) == Err(ColumnError(FirstMismatch(row, 0, TurbineHeadColumns)))
    ensures HasColumnsAt(row, 0, TurbineHeadColumns) && DecodeLevels(row).Err? ==>
              DecodeTurbine(row) == Err(DecodeLevels(row).error)
    ensures HasColumnsAt(row, 0, TurbineHeadColumns) && DecodeLevels(row).Ok?
            && !HasColumnsAt(row, 9, TurbineTailColumns) ==>
              DecodeTurbine(row) == Err(ColumnError(FirstMismatch(row, 9, TurbineTailColumns)))
  {
  }

  /** An unknown confidence code stops `Turbine::try_from` before it unwraps latitude or
      longitude: a row whose first eight columns are read and whose attributes code is
      unknown is decoded, to the level error, whatever columns 9-11 hold, NULLs included. */
  lemma UnknownLevelBeforeNullTail(row: Row)
    requires HasColumnsAt(row, 0, TurbineHeadColumns) && NotNullWhereRequired(row, 0, TurbineHeadColumns)
    requires DecodeConfidenceLevel(row[7].u8Value).Err?
    ensures TurbineNotNull(row)
    ensures DecodeTurbine(row) == Err(UnknownConfidenceLevel(DebugU8(row[7].u8Value)))
  {
  }

  /** A turbine decodes from its own row, whatever columns follow. */
  lemma TurbineRoundTrip(x: Turbine, rest: Row)
    ensures TurbineNotNull(EncodeTurbine(x) + rest)
    ensures DecodeTurbine(EncodeTurbine(x) + rest) == Ok(x)
  {
    var e := EncodeTurbine(x);
    var row := e + rest;
    assert row[0..8] == e[..8] && row[9..12] == e[9..12] && row[8] == e[8];
    FitsAllAt(row, 0, e[..8], TurbineHeadColumns);
    FitsAllAt(row, 9, e[9..12], TurbineTailColumns);
    ConfidenceLevelRoundTrip(x.attributesConfidenceLevel);
    ConfidenceLevelRoundTrip(x.locationConfidenceLevel);
    var levels := (x.attributesConfidenceLevel, x.locationConfidenceLevel);
    assert DecodeLevels(row) == Ok(levels);
    assert TurbineFromColumns(e[..8], levels.0, levels.1, e[9..12]) == x;
  }
}
