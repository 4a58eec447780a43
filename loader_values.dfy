/** The input records of the data loader and the pure computations it makes on them:
    the area conversion, the stored state-type code, the id list of the prune statement
    and the order-preserving `unique()` deduplication. */
module LoaderValues {
  import opened Wrappers
  import opened Ints

  /** One row of the US states CSV file, as deserialised. */
  datatype UsState = UsState(
    stateType: string,
    name: string,
    abbreviation: string,
    capital: Option<string>,
    population: Option<i32>,
    area: Option<i32>)

  /** One row of the turbines CSV file, as deserialised; `f32` columns are reals. */
  datatype TurbineCsv = TurbineCsv(
    caseId: i32,
    faaOrs: string,
    faaAsn: string,
    usgsPrId: Option<i32>,
    eiaId: Option<i32>,
    tState: string,
    tCounty: string,
    tFips: i32,
    pName: string,
    pYear: Option<i32>,
    pTnum: i32,
    pCap: Option<real>,
    tManu: string,
    tModel: string,
    tCap: Option<i32>,
    tHh: Option<real>,
    tRd: Option<real>,
    tRsa: Option<real>,
    tTtlh: Option<real>,
    retrofit: bool,
    retrofitYear: Option<i32>,
    tConfAtr: u8,
    tConfLoc: u8,
    tImgDate: string,
    tImgSrce: string,
    xlong: real,
    ylat: real)

  // ---------------------------------------------------------------------------
  // Area: square miles to square kilometres
  // ---------------------------------------------------------------------------

  /** `a * 2.58999` truncated toward zero and cast back to `i32`; Rust's float-to-int `as`
      saturates at the bounds of the target type. */
  function SquareMilesToKm(a: i32): (km: i32)
    ensures 0 <= a ==> 0 <= km && km * 100000 <= a * 258999
                       && (km == I32_MAX || a * 258999 < (km + 1) * 100000)
    ensures a < 0 ==> km <= 0 && -(km as int) * 100000 <= -(a as int) * 258999
                      && (km == I32_MIN || -(a as int) * 258999 < (-(km as int) + 1) * 100000)
  {
    var scaled := a * 258999;
    var truncated := if scaled >= 0 then scaled / 100000 else -((-scaled) / 100000);
    if truncated > I32_MAX then I32_MAX else if truncated < I32_MIN then I32_MIN else truncated
  }

  /** `UsState::area_in_square_km`: an absent area stays absent. */
  function AreaInSquareKm(area: Option<i32>): (km: Option<i32>)
    ensures km.Some? <==> area.Some?
    ensures area.Some? ==> km.value == SquareMilesToKm(area.value)
  {
    match area
    case None => None
    case Some(a) => Some(SquareMilesToKm(a))
  }

  /** 1000 square miles are stored as 2589 square kilometres: truncation, not rounding. */
  lemma AreaOfThousandSquareMiles()
    ensures AreaInSquareKm(Some(1000)) == Some(2589)
  {
  }

  // ---------------------------------------------------------------------------
  // State-type code
  // ---------------------------------------------------------------------------

  predicate IsAsciiLower(c: char) {
    'a' <= c <= 'z'
  }

  /** `char::to_ascii_uppercase`. */
  function AsciiUpper(c: char): (u: char)
    ensures !IsAsciiLower(u)
    ensures IsAsciiLower(c) ==> u as int == c as int - 32
    ensures !IsAsciiLower(c) ==> u == c
  {
    if IsAsciiLower(c) then (c as int - 32) as char else c
  }

  /** `state_type.chars().nth(0).unwrap().to_ascii_uppercase().to_string()`; an empty
      `state_type` makes `unwrap` panic, hence the precondition. */
  function StateTypeCode(stateType: string): (code: string)
    requires |stateType| > 0
    ensures |code| == 1
    ensures !IsAsciiLower(code[0])
    ensures IsAsciiLower(stateType[0]) ==> code[0] as int == stateType[0] as int - 32
    ensures !IsAsciiLower(stateType[0]) ==> code[0] == stateType[0]
  {
    [AsciiUpper(stateType[0])]
  }

  // ---------------------------------------------------------------------------
  // The id list of `DELETE dbo.State WHERE Id NOT IN (...)`
  // ---------------------------------------------------------------------------

  function Quote(id: string): string {
    "'" + id + "'"
  }

  /** The closure given to `fold`: the first id is quoted, later ones are appended after ", ". */
  function AppendQuoted(acc: string, id: string): string {
    if |acc| == 0 then Quote(id) else acc + ", " + Quote(id)
  }

  /** `ids.fold(acc, AppendQuoted)`. */
  function FoldIds(acc: string, ids: seq<string>): string
    decreases |ids|
  {
    if ids == [] then acc else FoldIds(AppendQuoted(acc, ids[0]), ids[1..])
  }

  /** The literal list the loader splices into the prune statement. */
  function IdList(ids: seq<string>): string {
    FoldIds("", ids)
  }

  /** Reference: every id quoted, separated by ", ", in order, nothing escaped. */
  function QuotedList(ids: seq<string>): string {
    if ids == [] then "" else Quote(ids[0]) + SeparatedQuoted(ids[1..])
  }

  function SeparatedQuoted(ids: seq<string>): string {
    if ids == [] then "" else ", " + Quote(ids[0]) + SeparatedQuoted(ids[1..])
  }

  lemma {:induction false} FoldIdsFromNonEmpty(acc: string, ids: seq<string>)
    requires |acc| > 0
    ensures FoldIds(acc, ids) == acc + SeparatedQuoted(ids)
    decreases |ids|
  {
    if ids != [] {
      FoldIdsFromNonEmpty(AppendQuoted(acc, ids[0]), ids[1..]);
      assert AppendQuoted(acc, ids[0]) + SeparatedQuoted(ids[1..])
          == acc + (", " + Quote(ids[0]) + SeparatedQuoted(ids[1..]));
    }
  }

  /** The fold yields exactly the quoted, comma-separated ids in input order, and it is empty
      exactly when there are no ids. */
  lemma IdListIsQuotedList(ids: seq<string>)
    ensures IdList(ids) == QuotedList(ids)
    ensures IdList(ids) == "" <==> ids == []
  {
    if ids != [] {
      assert AppendQuoted("", ids[0]) == Quote(ids[0]);
      FoldIdsFromNonEmpty(Quote(ids[0]), ids[1..]);
    }
  }

  // ---------------------------------------------------------------------------
  // `unique()`: order-preserving deduplication
  // ---------------------------------------------------------------------------

  /** itertools' `unique()`: yields an item when it has not been yielded before. */
  function UniqueAfter<T(==)>(s: seq<T>, seen: set<T>): seq<T>
    decreases |s|
  {
    if s == [] then []
    else if s[0] in seen then UniqueAfter(s[1..], seen)
    else [s[0]] + UniqueAfter(s[1..], seen + {s[0]})
  }

  function Unique<T(==)>(s: seq<T>): seq<T> {
    UniqueAfter(s, {})
  }

  predicate NoDuplicates<T(==)>(s: seq<T>) {
    forall i, j :: 0 <= i < j < |s| ==> s[i] != s[j]
  }

  /** The index of the first occurrence of `x` in `s`. */
  function FirstIndex<T(==)>(s: seq<T>, x: T): (k: nat)
    requires x in s
    ensures k < |s| && s[k] == x && x !in s[..k]
  {
    if s[0] == x then 0 else 1 + FirstIndex(s[1..], x)
  }

  lemma {:induction false} UniqueAfterProperties<T>(s: seq<T>, seen: set<T>)
    ensures var u := UniqueAfter(s, seen);
      && NoDuplicates(u)
      && (forall x :: x in u <==> x in s && x !in seen)
      && (forall i, j :: 0 <= i < j < |u| ==> FirstIndex(s, u[i]) < FirstIndex(s, u[j]))
    decreases |s|
  {
    if s != [] {
      var u := UniqueAfter(s, seen);
      if s[0] in seen {
        UniqueAfterProperties(s[1..], seen);
        forall x ensures x in u <==> x in s && x !in seen {
          assert x in s <==> x == s[0] || x in s[1..];
        }
        forall i, j | 0 <= i < j < |u| ensures FirstIndex(s, u[i]) < FirstIndex(s, u[j]) {
          assert FirstIndex(s, u[i]) == 1 + FirstIndex(s[1..], u[i]);
          assert FirstIndex(s, u[j]) == 1 + FirstIndex(s[1..], u[j]);
        }
      } else {
        var rest := UniqueAfter(s[1..], seen + {s[0]});
        UniqueAfterProperties(s[1..], seen + {s[0]});
        assert u == [s[0]] + rest;
        forall x ensures x in u <==> x in s && x !in seen {
          assert x in s <==> x == s[0] || x in s[1..];
        }
        forall i, j | 0 <= i < j < |u| ensures FirstIndex(s, u[i]) < FirstIndex(s, u[j]) {
          assert u[j] == rest[j - 1] && u[j] != s[0];
          assert FirstIndex(s, u[j]) == 1 + FirstIndex(s[1..], rest[j - 1]);
          if i > 0 {
            assert u[i] == rest[i - 1] && u[i] != s[0];
            assert FirstIndex(s, u[i]) == 1 + FirstIndex(s[1..], rest[i - 1]);
          }
        }
      }
    }
  }

  /** `unique()` keeps every value once, drops nothing, and lists the values in the order of
      their first occurrence. */
  lemma UniqueProperties<T>(s: seq<T>)
    ensures NoDuplicates(Unique(s))
    ensures forall x :: x in Unique(s) <==> x in s
    ensures forall i, j :: 0 <= i < j < |Unique(s)| ==>
              FirstIndex(s, Unique(s)[i]) < FirstIndex(s, Unique(s)[j])
  {
    UniqueAfterProperties(s, {});
  }
}
