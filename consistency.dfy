/** How the loader's writes and the repository's reads fit together: a `dbo.State` row the
    loader stores, selected back in the column order the `State` decoder reads, decodes
    exactly when the state type the loader derived is one of the three codes; a
    `dbo.Manufacturer` row the loader stores for a blank name holds the NULL that the
    `Manufacturer` decoder unwraps. */
module Consistency {
  import opened Wrappers
  import opened Ints
  import LoaderValues
  import LoaderStore
  import Loader
  import Models

  /** `Id`, `Name`, `Capital`, `Population`, `AreaSquareKm` and `StateType` of a stored row. */
  function SelectedState(id: string, row: LoaderStore.StateRow): Models.Row {
    [Models.NVarChar(Some(id)), Models.NVarChar(Some(row.name)), Models.NVarChar(row.capital),
     Models.Int(row.population), Models.Int(row.areaSquareKm), Models.NVarChar(Some(row.stateType))]
  }

  /** The first letter of a CSV state type, in either case, names one of the three codes. */
  predicate KnownStateTypeLetter(c: char) {
    c == 's' || c == 'S' || c == 't' || c == 'T' || c == 'f' || c == 'F'
  }

  /** A state as the loader stored it reads back exactly when its CSV state type starts
      with `s`, `t` or `f` in either case; it then reads back with the loader's id, name,
      capital, population and converted area. Any other first letter makes the repository
      report an `UnknownStateType`. */
  lemma StoredStateReadsBack(s: LoaderValues.UsState)
    requires |s.stateType| > 0
    ensures var r := Models.DecodeState(SelectedState(s.abbreviation, Loader.RowOf(s)));
      && (r.Ok? <==> KnownStateTypeLetter(s.stateType[0]))
      && (r.Ok? ==>
            && r.value.id == s.abbreviation && r.value.name == s.name && r.value.capital == s.capital
            && r.value.population == s.population
            && r.value.areaSquareKm == LoaderValues.AreaInSquareKm(s.area))
      && (r.Err? ==> r.error.UnknownStateType?)
  {
    var row := SelectedState(s.abbreviation, Loader.RowOf(s));
    var code := LoaderValues.StateTypeCode(s.stateType);
    assert Models.FitsAll(row, Models.StateColumns);
    Models.FitsAllPrefix(row, [], Models.StateColumns);
    assert row + [] == row;
    assert row[5].textValue == Some(code);
    assert Models.DecodeStateType(Some(code)).Ok? <==> KnownStateTypeLetter(s.stateType[0]) by {
      assert code == [code[0]];
    }
    var r := Models.DecodeState(row);
    if r.Ok? {
      assert Models.EncodeState(r.value) == row;
    }
  }

  /** `Id` and `Name` of a stored manufacturer row. */
  function SelectedManufacturer(id: i32, name: Option<string>): Models.Row {
    [Models.Int(Some(id)), Models.NVarChar(name)]
  }

  /** A manufacturer as the loader stored it for a CSV name has the column types the
      repository reads. Its `Name`, which the decoder unwraps, is non-NULL exactly when the
      CSV name is not blank, and the row then reads back with that name. So the row the
      loader writes for a blank name is one the decoder panics on. */
  lemma StoredManufacturerReadsBack(id: i32, name: string)
    ensures var row := SelectedManufacturer(id, Loader.StoredName(name));
      && Models.HasColumnsAt(row, 0, Models.ManufacturerColumns)
      && (Models.NotNullWhereRequired(row, 0, Models.ManufacturerColumns) <==> |name| > 0)
      && (|name| > 0 ==> Models.DecodeManufacturer(row) == Ok(Models.Manufacturer(id, name)))
  {
    var row := SelectedManufacturer(id, Loader.StoredName(name));
    if |name| > 0 {
      assert row == Models.EncodeManufacturer(Models.Manufacturer(id, name));
      Models.ManufacturerRoundTrip(Models.Manufacturer(id, name), []);
      assert row + [] == row;
    } else {
      assert Models.ManufacturerColumns[1].NotNull? && Models.IsNull(row[1]);
    }
  }
}
