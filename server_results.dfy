/** The server's result types and their conversions from the repository's models: every
    conversion copies its fields, maps enum variants to the same-named variants, and prints
    the turbine's image date as chrono's `%Y-%m-%d` does. */
module Results {
  import opened Wrappers
  import opened Ints
  import opened Text
  import Models

  // ---------------------------------------------------------------------------
  // ImageSource
  // ---------------------------------------------------------------------------

  datatype ImageSource = ImageSource(id: u8, name: string)

  function FromImageSource(v: Models.ImageSource): ImageSource {
    ImageSource(v.id, v.name)
  }

  /** The repository model an image source result was converted from. */
  function ToImageSource(r: ImageSource): Models.ImageSource {
    Models.ImageSource(r.id, r.name)
  }

  /** The conversion keeps the id and the name, and it loses nothing: converting back gives
      the model again, and every result is the conversion of a model. */
  lemma ImageSourceConversion(v: Models.ImageSource, r: ImageSource)
    ensures FromImageSource(v).id == v.id && FromImageSource(v).name == v.name
    ensures ToImageSource(FromImageSource(v)) == v
    ensures FromImageSource(ToImageSource(r)) == r
  {
  }

  // ---------------------------------------------------------------------------
  // StateType
  // ---------------------------------------------------------------------------

  datatype StateType = State | Territory | FederalCapital

  function FromStateType(v: Models.StateType): StateType {
    match v
    case State => StateType.State
    case Territory => Territory
    case FederalCapital => FederalCapital
  }

  /** Each variant goes to the variant of the same name, so no two variants are confused
      and every variant of the result is reached. */
  lemma StateTypeConversion(a: Models.StateType, b: Models.StateType, r: StateType)
    ensures FromStateType(a).State? <==> a.State?
    ensures FromStateType(a).Territory? <==> a.Territory?
    ensures FromStateType(a).FederalCapital? <==> a.FederalCapital?
    ensures FromStateType(a) == FromStateType(b) ==> a == b
    ensures exists v :: FromStateType(v) == r
  {
    match r
    case State => assert FromStateType(Models.StateType.State) == r;
    case Territory => assert FromStateType(Models.Territory) == r;
    case FederalCapital => assert FromStateType(Models.FederalCapital) == r;
  }

  // ---------------------------------------------------------------------------
  // State
  // ---------------------------------------------------------------------------

  datatype State = State(
    id: string,
    name: string,
    capital: Option<string>,
    population: Option<i32>,
    areaSquareKm: Option<i32>,
    stateType: StateType)

  function FromState(v: Models.State): State {
    State.State(v.id, v.name, v.capital, v.population, v.areaSquareKm, FromStateType(v.stateType))
  }

  function ToStateType(r: StateType): Models.StateType {
    match r
    case State => Models.StateType.State
    case Territory => Models.Territory
    case FederalCapital => Models.FederalCapital
  }

  function ToState(r: State): Models.State {
    Models.State.State(r.id, r.name, r.capital, r.population, r.areaSquareKm, ToStateType(r.stateType))
  }

  /** The conversion copies id, name, capital, population and area, converts the state type
      variant for variant, and loses nothing. */
  lemma StateConversion(v: Models.State, r: State)
    ensures var s := FromState(v);
      && s.id == v.id && s.name == v.name && s.capital == v.capital
      && s.population == v.population && s.areaSquareKm == v.areaSquareKm
      && s.stateType == FromStateType(v.stateType)
    ensures ToState(FromState(v)) == v
    ensures FromState(ToState(r)) == r
  {
    match v.stateType
    case State =>
    case Territory =>
    case FederalCapital =>
  }

  // ---------------------------------------------------------------------------
  // County
  // ---------------------------------------------------------------------------

  datatype County = County(id: i32, stateId: string, name: string)

  function FromCounty(v: Models.County): County {
    County(v.id, v.stateId, v.name)
  }

  function ToCounty(r: County): Models.County {
    Models.County(r.id, r.stateId, r.name)
  }

  /** The conversion keeps id, state id and name, and loses nothing. */
  lemma CountyConversion(v: Models.County, r: County)
    ensures FromCounty(v).id == v.id && FromCounty(v).stateId == v.stateId && FromCounty(v).name == v.name
    ensures ToCounty(FromCounty(v)) == v
    ensures FromCounty(ToCounty(r)) == r
  {
  }

  // ---------------------------------------------------------------------------
  // ConfidenceLevel
  // ---------------------------------------------------------------------------

  datatype ConfidenceLevel = Low | Medium | High

  /** The explicit discriminants `Low = 1`, `Medium = 2`, `High = 3`. */
  function Discriminant(c: ConfidenceLevel): u8 {
    match c
    case Low => 1
    case Medium => 2
    case High => 3
  }

  function FromConfidenceLevel(v: Models.ConfidenceLevel): ConfidenceLevel {
    match v
    case Low => Low
    case Medium => Medium
    case High => High
  }

  /** The conversion keeps the discriminant, so it goes variant for variant between the two
      enums, which have the same discriminants, and no two levels are confused. */
  lemma ConfidenceLevelConversion(a: Models.ConfidenceLevel, b: Models.ConfidenceLevel, r: ConfidenceLevel)
    ensures Discriminant(FromConfidenceLevel(a)) == Models.Discriminant(a)
    ensures FromConfidenceLevel(a) == FromConfidenceLevel(b) ==> a == b
    ensures exists v :: FromConfidenceLevel(v) == r
  {
    match r
    case Low => assert FromConfidenceLevel(Models.Low) == r;
    case Medium => assert FromConfidenceLevel(Models.Medium) == r;
    case High => assert FromConfidenceLevel(Models.High) == r;
  }

  // ---------------------------------------------------------------------------
  // Manufacturer
  // ---------------------------------------------------------------------------

  datatype Manufacturer = Manufacturer(id: i32, name: string)

  function FromManufacturer(v: Models.Manufacturer): Manufacturer {
    Manufacturer(v.id, v.name)
  }

  function ToManufacturer(r: Manufacturer): Models.Manufacturer {
    Models.Manufacturer(r.id, r.name)
  }

  /** The conversion keeps id and name, and loses nothing. */
  lemma ManufacturerConversion(v: Models.Manufacturer, r: Manufacturer)
    ensures FromManufacturer(v).id == v.id && FromManufacturer(v).name == v.name
    ensures ToManufacturer(FromManufacturer(v)) == v
    ensures FromManufacturer(ToManufacturer(r)) == r
  {
  }

  // ---------------------------------------------------------------------------
  // Project
  // ---------------------------------------------------------------------------

  datatype Project = Project(id: i32, name: string, numTurbines: Option<i16>, capacityMw: Option<Models.Decimal>)

  function FromProject(v: Models.Project): Project {
    Project(v.id, v.name, v.numTurbines, v.capacityMw)
  }

  function ToProject(r: Project): Models.Project {
    Models.Project(r.id, r.name, r.numTurbines, r.capacityMw)
  }

  /** The conversion keeps id, name, turbine count and capacity, and loses nothing. */
  lemma ProjectConversion(v: Models.Project, r: Project)
    ensures var p := FromProject(v);
      p.id == v.id && p.name == v.name && p.numTurbines == v.numTurbines && p.capacityMw == v.capacityMw
    ensures ToProject(FromProject(v)) == v
    ensures FromProject(ToProject(r)) == r
  {
  }

  // ---------------------------------------------------------------------------
  // Model
  // ---------------------------------------------------------------------------

  datatype Model = Model(
    id: i32,
    manufacturerId: i32,
    name: string,
    capacityKw: Option<i32>,
    hubHeight: Option<Models.Decimal>,
    rotorDiameter: Option<Models.Decimal>,
    rotorSweptArea: Option<Models.Decimal>,
    totalHeightToTip: Option<Models.Decimal>)

  function FromModel(v: Models.Model): Model {
    Model(v.id, v.manufacturerId, v.name, v.capacityKw, v.hubHeight, v.rotorDiameter,
          v.rotorSweptArea, v.totalHeightToTip)
  }

  function ToModel(r: Model): Models.Model {
    Models.Model(r.id, r.manufacturerId, r.name, r.capacityKw, r.hubHeight, r.rotorDiameter,
                 r.rotorSweptArea, r.totalHeightToTip)
  }

  /** The conversion keeps all eight fields, and loses nothing. */
  lemma ModelConversion(v: Models.Model, r: Model)
    ensures var m := FromModel(v);
      && m.id == v.id && m.manufacturerId == v.manufacturerId && m.name == v.name
      && m.capacityKw == v.capacityKw && m.hubHeight == v.hubHeight
      && m.rotorDiameter == v.rotorDiameter && m.rotorSweptArea == v.rotorSweptArea
      && m.totalHeightToTip == v.totalHeightToTip
    ensures ToModel(FromModel(v)) == v
    ensures FromModel(ToModel(r)) == r
  {
  }

  // ---------------------------------------------------------------------------
  // Dates: chrono's `format("%Y-%m-%d")`
  // ---------------------------------------------------------------------------

  /** chrono's `%Y`: a year from 0 to 9999 as four zero-padded digits; any other year with
      its sign and at least four zero-padded digits. */
  function FormatYear(y: int): (s: string)
    ensures 4 <= |s|
  {
    if 0 <= y <= 9999 then PadLeft(y, 4)
    else if y < 0 then "-" + PadLeft(-y, 4)
    else "+" + PadLeft(y, 4)
  }

  /** `%Y-%m-%d`: the year, then month and day each as two zero-padded digits. */
  function FormatDate(d: Models.Date): (s: string)
    ensures 10 <= |s|
  {
    PadLeftRoundTrip(d.month, 2);
    PadLeftRoundTrip(d.day, 2);
    FormatYear(d.year) + "-" + PadLeft(d.month, 2) + "-" + PadLeft(d.day, 2)
  }

  /** Reference reading of a `%Y` year: four digits, or a sign and at least four digits. */
  function ParseYear(s: string): Option<int> {
    if |s| == 4 && AllDigits(s) then Some(DigitsValue(s))
    else if |s| >= 5 && s[0] == '-' && AllDigits(s[1..]) then Some(0 - DigitsValue(s[1..]) as int)
    else if |s| >= 5 && s[0] == '+' && AllDigits(s[1..]) then Some(DigitsValue(s[1..]))
    else None
  }

  /** Reference reading of a `%Y-%m-%d` date: the year, then `-`, two digits, `-`, two digits. */
  function ParseDate(s: string): Option<Models.NaiveDate> {
    var n := |s|;
    if n < 10 || s[n - 6] != '-' || s[n - 3] != '-' then None
    else if !AllDigits(s[n - 5..n - 3]) || !AllDigits(s[n - 2..]) then None
    else match ParseYear(s[..n - 6])
      case None => None
      case Some(y) => Some(Models.NaiveDate(y, DigitsValue(s[n - 5..n - 3]), DigitsValue(s[n - 2..])))
  }

  lemma ParseFormattedYear(y: int)
    ensures ParseYear(FormatYear(y)) == Some(y)
  {
    if 0 <= y <= 9999 {
      PadLeftRoundTrip(y, 4);
      assert Pow10(4) == 10000;
    } else {
      var p := if y < 0 then PadLeft(-y, 4) else PadLeft(y, 4);
      PadLeftRoundTrip(if y < 0 then -y else y, 4);
      assert FormatYear(y)[1..] == p;
    }
  }

  /** Where the three fields of `year-mm-dd` sit, counted from the end. */
  lemma DateFields(y: string, m: string, dd: string)
    requires 4 <= |y| && |m| == 2 && |dd| == 2
    ensures var s := y + "-" + m + "-" + dd; var n := |s|;
      && n == |y| + 6 && s[n - 6] == '-' && s[n - 3] == '-'
      && s[..n - 6] == y && s[n - 5..n - 3] == m && s[n - 2..] == dd
  {
  }

  /** Reading back a formatted date gives the date: the printed form loses nothing. */
  lemma FormatDateRoundTrip(d: Models.Date)
    ensures ParseDate(FormatDate(d)) == Some(d)
  {
    var y, m, dd := FormatYear(d.year), PadLeft(d.month, 2), PadLeft(d.day, 2);
    PadLeftRoundTrip(d.month, 2);
    PadLeftRoundTrip(d.day, 2);
    ParseFormattedYear(d.year);
    DateFields(y, m, dd);
  }

  /** Distinct dates print differently. */
  lemma FormatDateInjective(a: Models.Date, b: Models.Date)
    ensures FormatDate(a) == FormatDate(b) ==> a == b
  {
    FormatDateRoundTrip(a);
    FormatDateRoundTrip(b);
  }

  /** A date in a year from 0 to 9999 prints as `YYYY-MM-DD`: ten characters, dashes at
      positions 4 and 7, digits elsewhere, denoting the year, month and day. */
  lemma FormatDateShape(d: Models.Date)
    requires 0 <= d.year <= 9999
    ensures var s := FormatDate(d);
      && |s| == 10 && s[4] == '-' && s[7] == '-'
      && AllDigits(s[..4]) && AllDigits(s[5..7]) && AllDigits(s[8..])
      && DigitsValue(s[..4]) == d.year && DigitsValue(s[5..7]) == d.month && DigitsValue(s[8..]) == d.day
  {
    var s := FormatDate(d);
    var y, m, dd := PadLeft(d.year, 4), PadLeft(d.month, 2), PadLeft(d.day, 2);
    PadLeftRoundTrip(d.year, 4);
    PadLeftRoundTrip(d.month, 2);
    PadLeftRoundTrip(d.day, 2);
    assert Pow10(4) == 10000;
    assert s == y + "-" + m + "-" + dd;
    assert s[..4] == y && s[5..7] == m && s[8..] == dd;
  }

  // ---------------------------------------------------------------------------
  // Turbine
  // ---------------------------------------------------------------------------

  datatype Turbine = Turbine(
    id: i32,
    countyId: i32,
    projectId: i32,
    modelId: i32,
    imageSourceId: u8,
    retrofit: bool,
    retrofitYear: Option<i16>,
    attributesConfidenceLevel: ConfidenceLevel,
    locationConfidenceLevel: ConfidenceLevel,
    imageDate: Option<string>,
    latitude: Models.Decimal,
    longitude: Models.Decimal)

  function FormatImageDate(d: Option<Models.Date>): Option<string> {
    match d
    case None => None
    case Some(date) => Some(FormatDate(date))
  }

  function FromTurbine(v: Models.Turbine): Turbine {
    Turbine(v.id, v.countyId, v.projectId, v.modelId, v.imageSourceId, v.retrofit, v.retrofitYear,
            FromConfidenceLevel(v.attributesConfidenceLevel), FromConfidenceLevel(v.locationConfidenceLevel),
            FormatImageDate(v.imageDate), v.latitude, v.longitude)
  }

  /** The conversion copies every field but the levels and the date, keeps the levels'
      discriminants, and keeps an absent date absent and prints a present one so that it
      reads back as the date. */
  lemma TurbineConversion(v: Models.Turbine)
    ensures var t := FromTurbine(v);
      && t.id == v.id && t.countyId == v.countyId && t.projectId == v.projectId
      && t.modelId == v.modelId && t.imageSourceId == v.imageSourceId && t.retrofit == v.retrofit
      && t.retrofitYear == v.retrofitYear && t.latitude == v.latitude && t.longitude == v.longitude
      && Discriminant(t.attributesConfidenceLevel) == Models.Discriminant(v.attributesConfidenceLevel)
      && Discriminant(t.locationConfidenceLevel) == Models.Discriminant(v.locationConfidenceLevel)
      && (t.imageDate.Some? <==> v.imageDate.Some?)
      && (v.imageDate.Some? ==> ParseDate(t.imageDate.value) == Some(v.imageDate.value))
  {
    ConfidenceLevelConversion(v.attributesConfidenceLevel, v.attributesConfidenceLevel, Low);
    ConfidenceLevelConversion(v.locationConfidenceLevel, v.locationConfidenceLevel, Low);
    if v.imageDate.Some? {
      FormatDateRoundTrip(v.imageDate.value);
    }
  }

  /** No two turbines convert to the same result. */
  lemma TurbineConversionInjective(v: Models.Turbine, w: Models.Turbine)
    ensures FromTurbine(v) == FromTurbine(w) ==> v == w
  {
    if FromTurbine(v) == FromTurbine(w) {
      ConfidenceLevelConversion(v.attributesConfidenceLevel, w.attributesConfidenceLevel, Low);
      ConfidenceLevelConversion(v.locationConfidenceLevel, w.locationConfidenceLevel, Low);
      assert FormatImageDate(v.imageDate) == FormatImageDate(w.imageDate);
      if v.imageDate.Some? && w.imageDate.Some? {
        FormatDateInjective(v.imageDate.value, w.imageDate.value);
      }
    }
  }
}
