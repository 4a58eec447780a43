/** The request handlers of the web server, without the web framework: how repository
    errors become responses, how the affected-row count of an image-source update is
    judged, and how every list handler sorts the repository's items by id before converting
    them. */
module Server {
  import opened Wrappers
  import opened Ints
  import opened Text
  import Models
  import Results

  // ---------------------------------------------------------------------------
  // Errors and their HTTP statuses
  // ---------------------------------------------------------------------------

  /** The server's error responder; `NotFound` carries `()`, the others a message. */
  datatype Error =
    | Rocket(message: string)
    | LowLevel(message: string)
    | NotFound
    | ServerError(message: string)

  /** The status each variant is declared to respond with. */
  function Status(e: Error): nat {
    match e
    case Rocket(_) => 500
    case LowLevel(_) => 500
    case NotFound => 404
    case ServerError(_) => 500
  }

  /** `From<repository::error::Error> for Error`. */
  function FromRepositoryError(e: Models.Error): Error {
    match e
    case LowLevel(msg) => LowLevel(msg)
    case NotFound => NotFound
    case UnknownStateType(msg) => ServerError(msg)
    case UnknownConfidenceLevel(msg) => ServerError(msg)
  }

  /** Only a missing row answers 404; every other error answers 500. */
  lemma StatusOfErrors(e: Error)
    ensures Status(e) == 404 <==> e.NotFound?
    ensures Status(e) != 404 ==> Status(e) == 500
  {
  }

  /** A repository error keeps its message, answers 404 exactly when it is `NotFound`, and
      never becomes a framework error; low-level errors stay low-level and both kinds of
      unknown code become server errors. */
  lemma RepositoryErrorResponse(e: Models.Error)
    ensures var r := FromRepositoryError(e);
      && (Status(r) == 404 <==> e.NotFound?)
      && (Status(r) != 404 ==> Status(r) == 500)
      && !r.Rocket?
      && (e.LowLevel? <==> r.LowLevel?)
      && (e.UnknownStateType? || e.UnknownConfidenceLevel? <==> r.ServerError?)
      && (!e.NotFound? ==> r.message == e.message)
  {
  }

  /** The mapping confuses nothing but the two kinds of unknown code: two repository errors
      that give the same response are equal, or are unknown codes with the same message. */
  lemma RepositoryErrorsDistinguished(a: Models.Error, b: Models.Error)
    ensures FromRepositoryError(a) == FromRepositoryError(b) ==>
              a == b
              || ((a.UnknownStateType? || a.UnknownConfidenceLevel?)
                  && (b.UnknownStateType? || b.UnknownConfidenceLevel?)
                  && a.message == b.message)
  {
  }

  // ---------------------------------------------------------------------------
  // The image-source update
  // ---------------------------------------------------------------------------

  const UnexpectedRowCount: string := "Unexpected row count "

  /** `update_image_source` after the repository's update: its error, or the number of rows
      the statement affected, decides the response. */
  function UpdateImageSource(affected: Result<u64, Models.Error>): (r: Result<(), Error>)
    ensures affected.Err? ==> r == Err(FromRepositoryError(affected.error))
  {
    match affected
    case Err(e) => Err(FromRepositoryError(e))
    case Ok(n) =>
      if n == 0 then Err(NotFound)
      else if n == 1 then Ok(())
      else Err(ServerError(UnexpectedRowCount + NatToString(n as nat)))
  }

  /** Exactly one affected row succeeds; none answers 404; any other count answers 500 with a
      message that names the count, which reads back from the message. */
  lemma UpdateImageSourceOutcome(affected: Result<u64, Models.Error>)
    ensures UpdateImageSource(affected).Ok? <==> affected == Ok(1)
    ensures affected == Ok(0) ==> UpdateImageSource(affected) == Err(NotFound)
    ensures affected.Ok? && affected.value >= 2 ==>
              var r := UpdateImageSource(affected);
              && r.Err? && r.error.ServerError? && Status(r.error) == 500
              && |r.error.message| > |UnexpectedRowCount|
              && r.error.message[..|UnexpectedRowCount|] == UnexpectedRowCount
              && AllDigits(r.error.message[|UnexpectedRowCount|..])
              && DigitsValue(r.error.message[|UnexpectedRowCount|..]) == affected.value as nat
  {
    if affected.Ok? && affected.value >= 2 {
      var digits := NatToString(affected.value as nat);
      var message := UnexpectedRowCount + digits;
      NatToStringRoundTrip(affected.value as nat);
      assert message[..|UnexpectedRowCount|] == UnexpectedRowCount;
      assert message[|UnexpectedRowCount|..] == digits;
    }
  }

  /** `get_image_source` after the repository's lookup: its error, or the converted row. */
  function GetImageSource(fetched: Result<Models.ImageSource, Models.Error>): (r: Result<Results.ImageSource, Error>)
    ensures r.Ok? <==> fetched.Ok?
    ensures fetched.Ok? ==> Results.ToImageSource(r.value) == fetched.value
    ensures fetched.Err? ==> r == Err(FromRepositoryError(fetched.error))
  {
    match fetched
    case Err(e) => Err(FromRepositoryError(e))
    case Ok(v) => Ok(Results.FromImageSource(v))
  }

  // ---------------------------------------------------------------------------
  // Sorting
  // ---------------------------------------------------------------------------

  ghost predicate Total<T(!new)>(le: (T, T) -> bool) {
    forall x, y :: le(x, y) || le(y, x)
  }

  ghost predicate Transitive<T(!new)>(le: (T, T) -> bool) {
    forall x, y, z :: le(x, y) && le(y, z) ==> le(x, z)
  }

  predicate SortedBy<T>(s: seq<T>, le: (T, T) -> bool) {
    forall k, l :: 0 <= k < l < |s| ==> le(s[k], s[l])
  }

  /** `slice::sort_by` with a comparison that is a total preorder: afterwards the elements
      are in order and are the same elements as before. */
  method SortBy<T(!new)>(a: array<T>, le: (T, T) -> bool)
    requires Total(le) && Transitive(le)
    modifies a
    ensures SortedBy(a[..], le)
    ensures multiset(a[..]) == multiset(old(a[..]))
  {
    var i := 0;
    while i < a.Length
      invariant 0 <= i <= a.Length
      invariant SortedBy(a[..i], le)
      invariant multiset(a[..]) == multiset(old(a[..]))
    {
      Insert(a, i, le);
      i := i + 1;
    }
    assert a[..] == a[..a.Length];
  }

  /** Moves `a[i]` down past the larger elements before it, so that `a[..i + 1]` is sorted. */
  method Insert<T(!new)>(a: array<T>, i: nat, le: (T, T) -> bool)
    requires Total(le) && Transitive(le)
    requires i < a.Length && SortedBy(a[..i], le)
    modifies a
    ensures SortedBy(a[..i + 1], le)
    ensures multiset(a[..]) == multiset(old(a[..]))
  {
    var j := i;
    while j > 0 && !le(a[j - 1], a[j])
      invariant 0 <= j <= i
      invariant forall k, l :: 0 <= k < l <= i && k != j && l != j ==> le(a[k], a[l])
      invariant forall l :: j < l <= i ==> le(a[j], a[l])
      invariant multiset(a[..]) == multiset(old(a[..]))
    {
      Swap(a, j - 1, j);
      j := j - 1;
    }
  }

  method Swap<T>(a: array<T>, p: nat, q: nat)
    requires p < q < a.Length
    modifies a
    ensures a[p] == old(a[q]) && a[q] == old(a[p])
    ensures forall k :: 0 <= k < a.Length && k != p && k != q ==> a[k] == old(a[k])
    ensures multiset(a[..]) == multiset(old(a[..]))
  {
    a[p], a[q] := a[q], a[p];
  }

  /** The items of `s` in a fresh array, sorted; the array's contents are returned. */
  method SortItems<T(!new)>(s: seq<T>, le: (T, T) -> bool) returns (sorted: seq<T>)
    requires Total(le) && Transitive(le)
    ensures SortedBy(sorted, le)
    ensures multiset(sorted) == multiset(s)
  {
    var a := new T[|s|](i requires 0 <= i < |s| => s[i]);
    assert a[..] == s;
    SortBy(a, le);
    sorted := a[..];
  }

  /** `into_iter().map(|i| i.into()).collect()`. */
  function MapSeq<A, B>(s: seq<A>, f: A -> B): (t: seq<B>)
    ensures |t| == |s| && forall i :: 0 <= i < |s| ==> t[i] == f(s[i])
  {
    seq(|s|, i requires 0 <= i < |s| => f(s[i]))
  }

  lemma MapSeqConcat<A, B>(s: seq<A>, t: seq<A>, f: A -> B)
    ensures MapSeq(s + t, f) == MapSeq(s, f) + MapSeq(t, f)
  {
  }

  /** Taking out the element at `i`. */
  lemma RemoveAt<A, B>(t: seq<A>, i: nat, f: A -> B)
    requires i < |t|
    ensures multiset(t) == multiset(t[..i] + t[i + 1..]) + multiset{t[i]}
    ensures multiset(MapSeq(t, f)) == multiset(MapSeq(t[..i] + t[i + 1..], f)) + multiset{f(t[i])}
  {
    assert t == t[..i] + [t[i]] + t[i + 1..];
    var rest := t[..i] + t[i + 1..];
    MapSeqConcat(t[..i] + [t[i]], t[i + 1..], f);
    MapSeqConcat(t[..i], [t[i]], f);
    MapSeqConcat(t[..i], t[i + 1..], f);
  }

  lemma MapSeqCons<A, B>(s: seq<A>, f: A -> B)
    requires s != []
    ensures multiset(s) == multiset(s[1..]) + multiset{s[0]}
    ensures multiset(MapSeq(s, f)) == multiset(MapSeq(s[1..], f)) + multiset{f(s[0])}
  {
    assert s == [s[0]] + s[1..];
    assert MapSeq(s, f) == [f(s[0])] + MapSeq(s[1..], f);
  }

  lemma Cancel<A>(m: multiset<A>, n: multiset<A>, k: multiset<A>)
    requires m + k == n + k
    ensures m == n
  {
    assert m == (m + k) - k && n == (n + k) - k;
  }

  /** Mapping two sequences with the same elements gives sequences with the same elements. */
  lemma {:induction false} MapPermutation<A, B>(s: seq<A>, t: seq<A>, f: A -> B)
    requires multiset(s) == multiset(t)
    ensures multiset(MapSeq(s, f)) == multiset(MapSeq(t, f))
    decreases |s|
  {
    if s == [] {
      assert |t| == |multiset(t)| == 0;
      assert MapSeq(s, f) == [] == MapSeq(t, f);
    } else {
      var x := s[0];
      assert x in multiset(t);
      var i :| 0 <= i < |t| && t[i] == x;
      var rest := t[..i] + t[i + 1..];
      RemoveAt(t, i, f);
      MapSeqCons(s, f);
      Cancel(multiset(s[1..]), multiset(rest), multiset{x});
      MapPermutation(s[1..], rest, f);
      var ms, mr := multiset(MapSeq(s[1..], f)), multiset(MapSeq(rest, f));
      assert ms == mr;
      assert multiset(MapSeq(s, f)) == ms + multiset{f(x)};
      assert multiset(MapSeq(t, f)) == mr + multiset{f(x)};
    }
  }

  // ---------------------------------------------------------------------------
  // The list handlers
  // ---------------------------------------------------------------------------

  lemma IntIdOrder<T(!new)>(id: T -> int)
    ensures Total((x: T, y: T) => id(x) <= id(y)) && Transitive((x: T, y: T) => id(x) <= id(y))
  {
  }

  /** `get_image_sources`: the repository's image sources sorted by id, then converted. */
  method GetImageSources(fetched: Result<seq<Models.ImageSource>, Models.Error>)
    returns (r: Result<seq<Results.ImageSource>, Error>)
    ensures fetched.Err? ==> r == Err(FromRepositoryError(fetched.error))
    ensures fetched.Ok? ==> r.Ok?
    ensures r.Ok? ==> forall k, l :: 0 <= k < l < |r.value| ==> r.value[k].id <= r.value[l].id
    ensures r.Ok? ==> multiset(r.value) == multiset(MapSeq(fetched.value, Results.FromImageSource))
  {
    match fetched
    case Err(e) => r := Err(FromRepositoryError(e));
    case Ok(items) =>
      var le := (x: Models.ImageSource, y: Models.ImageSource) => x.id <= y.id;
      IntIdOrder((x: Models.ImageSource) => x.id as int);
      var sorted := SortItems(items, le);
      MapPermutation(sorted, items, Results.FromImageSource);
      r := Ok(MapSeq(sorted, Results.FromImageSource));
  }

  /** `get_states`: the repository's states sorted by their string id, then converted. */
  method GetStates(fetched: Result<seq<Models.State>, Models.Error>)
    returns (r: Result<seq<Results.State>, Error>)
    ensures fetched.Err? ==> r == Err(FromRepositoryError(fetched.error))
    ensures fetched.Ok? ==> r.Ok?
    ensures r.Ok? ==> forall k, l :: 0 <= k < l < |r.value| ==> LexLe(r.value[k].id, r.value[l].id)
    ensures r.Ok? ==> multiset(r.value) == multiset(MapSeq(fetched.value, Results.FromState))
  {
    match fetched
    case Err(e) => r := Err(FromRepositoryError(e));
    case Ok(items) =>
      var le := (x: Models.State, y: Models.State) => LexLe(x.id, y.id);
      forall x: Models.State, y: Models.State ensures le(x, y) || le(y, x) {
        LexLeTotal(x.id, y.id);
      }
      forall x: Models.State, y: Models.State, z: Models.State | le(x, y) && le(y, z) ensures le(x, z) {
        LexLeTransitive(x.id, y.id, z.id);
      }
      var sorted := SortItems(items, le);
      MapPermutation(sorted, items, Results.FromState);
      r := Ok(MapSeq(sorted, Results.FromState));
  }

  /** `get_counties`: the repository's counties sorted by id, then converted. */
  method GetCounties(fetched: Result<seq<Models.County>, Models.Error>)
    returns (r: Result<seq<Results.County>, Error>)
    ensures fetched.Err? ==> r == Err(FromRepositoryError(fetched.error))
    ensures fetched.Ok? ==> r.Ok?
    ensures r.Ok? ==> forall k, l :: 0 <= k < l < |r.value| ==> r.value[k].id <= r.value[l].id
    ensures r.Ok? ==> multiset(r.value) == multiset(MapSeq(fetched.value, Results.FromCounty))
  {
    match fetched
    case Err(e) => r := Err(FromRepositoryError(e));
    case Ok(items) =>
      var le := (x: Models.County, y: Models.County) => x.id <= y.id;
      IntIdOrder((x: Models.County) => x.id as int);
      var sorted := SortItems(items, le);
      MapPermutation(sorted, items, Results.FromCounty);
      r := Ok(MapSeq(sorted, Results.FromCounty));
  }

  /** `get_projects`: the repository's projects sorted by id, then converted. */
  method GetProjects(fetched: Result<seq<Models.Project>, Models.Error>)
    returns (r: Result<seq<Results.Project>, Error>)
    ensures fetched.Err? ==> r == Err(FromRepositoryError(fetched.error))
    ensures fetched.Ok? ==> r.Ok?
    ensures r.Ok? ==> forall k, l :: 0 <= k < l < |r.value| ==> r.value[k].id <= r.value[l].id
    ensures r.Ok? ==> multiset(r.value) == multiset(MapSeq(fetched.value, Results.FromProject))
  {
    match fetched
    case Err(e) => r := Err(FromRepositoryError(e));
    case Ok(items) =>
      var le := (x: Models.Project, y: Models.Project) => x.id <= y.id;
      IntIdOrder((x: Models.Project) => x.id as int);
      var sorted := SortItems(items, le);
      MapPermutation(sorted, items, Results.FromProject);
      r := Ok(MapSeq(sorted, Results.FromProject));
  }

  /** `get_manufacturers`: the repository's manufacturers sorted by id, then converted. */
  method GetManufacturers(fetched: Result<seq<Models.Manufacturer>, Models.Error>)
    returns (r: Result<seq<Results.Manufacturer>, Error>)
    ensures fetched.Err? ==> r == Err(FromRepositoryError(fetched.error))
    ensures fetched.Ok? ==> r.Ok?
    ensures r.Ok? ==> forall k, l :: 0 <= k < l < |r.value| ==> r.value[k].id <= r.value[l].id
    ensures r.Ok? ==> multiset(r.value) == multiset(MapSeq(fetched.value, Results.FromManufacturer))
  {
    match fetched
    case Err(e) => r := Err(FromRepositoryError(e));
    case Ok(items) =>
      var le := (x: Models.Manufacturer, y: Models.Manufacturer) => x.id <= y.id;
      IntIdOrder((x: Models.Manufacturer) => x.id as int);
      var sorted := SortItems(items, le);
      MapPermutation(sorted, items, Results.FromManufacturer);
      r := Ok(MapSeq(sorted, Results.FromManufacturer));
  }

  /** `get_models`: the repository's turbine models sorted by id, then converted. */
  method GetModels(fetched: Result<seq<Models.Model>, Models.Error>)
    returns (r: Result<seq<Results.Model>, Error>)
    ensures fetched.Err? ==> r == Err(FromRepositoryError(fetched.error))
    ensures fetched.Ok? ==> r.Ok?
    ensures r.Ok? ==> forall k, l :: 0 <= k < l < |r.value| ==> r.value[k].id <= r.value[l].id
    ensures r.Ok? ==> multiset(r.value) == multiset(MapSeq(fetched.value, Results.FromModel))
  {
    match fetched
    case Err(e) => r := Err(FromRepositoryError(e));
    case Ok(items) =>
      var le := (x: Models.Model, y: Models.Model) => x.id <= y.id;
      IntIdOrder((x: Models.Model) => x.id as int);
      var sorted := SortItems(items, le);
      MapPermutation(sorted, items, Results.FromModel);
      r := Ok(MapSeq(sorted, Results.FromModel));
  }

  /** `get_turbines`: the repository's turbines sorted by id, then converted. */
  method GetTurbines(fetched: Result<seq<Models.Turbine>, Models.Error>)
    returns (r: Result<seq<Results.Turbine>, Error>)
    ensures fetched.Err? ==> r == Err(FromRepositoryError(fetched.error))
    ensures fetched.Ok? ==> r.Ok?
    ensures r.Ok? ==> forall k, l :: 0 <= k < l < |r.value| ==> r.value[k].id <= r.value[l].id
    ensures r.Ok? ==> multiset(r.value) == multiset(MapSeq(fetched.value, Results.FromTurbine))
  {
    match fetched
    case Err(e) => r := Err(FromRepositoryError(e));
    case Ok(items) =>
      var le := (x: Models.Turbine, y: Models.Turbine) => x.id <= y.id;
      IntIdOrder((x: Models.Turbine) => x.id as int);
      var sorted := SortItems(items, le);
      MapPermutation(sorted, items, Results.FromTurbine);
      r := Ok(MapSeq(sorted, Results.FromTurbine));
  }
}
