/** The data loader's stages: loading the US states (upsert every row, then prune the rows
    not in the file), then loading the counties and manufacturers named by the turbines file
    (insert each distinct one unless present). Every statement is followed by `?`, so the
    first failure ends the program and nothing written before it is undone. */
module Loader {
  import opened Wrappers
  import opened Ints
  import opened LoaderValues
  import opened LoaderStore

  /** `Box<dyn Error>` as the loader reports it: a CSV file that cannot be read, or a
      statement that the connection or the server rejected. */
  datatype LoadError = CsvError(message: string) | StoreError

  datatype Outcome = Done | Failed(error: LoadError)

  /** A stage reports a store error exactly when its run failed. */
  function StageOutcome(r: RunResult): Outcome {
    if r.failed then Failed(StoreError) else Done
  }

  // ---------------------------------------------------------------------------
  // The states stage
  // ---------------------------------------------------------------------------

  /** Every row has a state type, so taking its first character does not panic. */
  predicate StateTypesPresent(states: seq<UsState>) {
    forall i :: 0 <= i < |states| ==> |states[i].stateType| > 0
  }

  /** The parameters of the upsert for one CSV row. */
  function RowOf(s: UsState): StateRow
    requires |s.stateType| > 0
  {
    StateRow(s.name, s.capital, s.population, AreaInSquareKm(s.area), StateTypeCode(s.stateType))
  }

  function Abbreviations(states: seq<UsState>): (ids: seq<string>)
    ensures |ids| == |states|
    ensures forall i :: 0 <= i < |states| ==> ids[i] == states[i].abbreviation
  {
    seq(|states|, i requires 0 <= i < |states| => states[i].abbreviation)
  }

  function AbbreviationSet(states: seq<UsState>): set<string> {
    set id | id in Abbreviations(states)
  }

  function UpsertStatements(states: seq<UsState>): (plan: seq<Statement>)
    requires StateTypesPresent(states)
    ensures |plan| == |states|
    ensures forall i :: 0 <= i < |states| ==>
              plan[i] == UpsertStateRow(states[i].abbreviation, RowOf(states[i]))
  {
    seq(|states|, i requires 0 <= i < |states| => UpsertStateRow(states[i].abbreviation, RowOf(states[i])))
  }

  /** What `load_us_states_to_database` sends: connect, one upsert per row, the prune
      against the folded id list, and the count query. */
  function StatesStagePlan(states: seq<UsState>): seq<Statement>
    requires StateTypesPresent(states)
  {
    [Open] + (UpsertStatements(states) + [PruneStates(IdList(Abbreviations(states))), CountStates])
  }

  /** The state table after the upsert loop: each row replaces or adds the row with its id. */
  function Upserted(m: map<string, StateRow>, states: seq<UsState>): map<string, StateRow>
    requires StateTypesPresent(states)
    decreases |states|
  {
    if states == [] then m
    else
      var n := |states| - 1;
      assert StateTypesPresent(states[..n]) by {
        forall i | 0 <= i < n ensures |states[..n][i].stateType| > 0 {
          assert states[..n][i] == states[i];
        }
      }
      Upserted(m, states[..n])[states[n].abbreviation := RowOf(states[n])]
  }

  /** The index of the last row carrying `id`. */
  function LastIndex(states: seq<UsState>, id: string): (k: nat)
    requires id in Abbreviations(states)
    ensures k < |states| && states[k].abbreviation == id
    ensures forall j :: k < j < |states| ==> states[j].abbreviation != id
    decreases |states|
  {
    var n := |states| - 1;
    if states[n].abbreviation == id then n
    else
      assert Abbreviations(states) == Abbreviations(states[..n]) + [states[n].abbreviation];
      LastIndex(states[..n], id)
  }

  /** The state table after the whole stage: the upserts, then the prune against the ids of
      the file. */
  function StateLoad(m: map<string, StateRow>, states: seq<UsState>): map<string, StateRow>
    requires StateTypesPresent(states)
  {
    Restrict(Upserted(m, states), AbbreviationSet(states))
  }

  lemma {:induction false} PrefixStateTypesPresent(states: seq<UsState>, n: nat)
    requires StateTypesPresent(states) && n <= |states|
    ensures StateTypesPresent(states[..n])
  {
    forall i | 0 <= i < n ensures |states[..n][i].stateType| > 0 {
      assert states[..n][i] == states[i];
    }
  }

  /** One more row: the upsert of the last row of `states` on what the others left. */
  lemma UpsertedLast(m: map<string, StateRow>, states: seq<UsState>)
    requires StateTypesPresent(states) && states != []
    ensures StateTypesPresent(states[..|states| - 1])
    ensures var n := |states| - 1;
      Upserted(m, states) == Upserted(m, states[..n])[states[n].abbreviation := RowOf(states[n])]
    ensures var n := |states| - 1;
      AbbreviationSet(states) == AbbreviationSet(states[..n]) + {states[n].abbreviation}
  {
    var n := |states| - 1;
    PrefixStateTypesPresent(states, n);
    assert Abbreviations(states) == Abbreviations(states[..n]) + [states[n].abbreviation];
  }

  /** The upsert loop removes no row and adds a row for every id in the file. */
  lemma {:induction false} UpsertedKeys(m: map<string, StateRow>, states: seq<UsState>)
    requires StateTypesPresent(states)
    ensures Upserted(m, states).Keys == m.Keys + AbbreviationSet(states)
    decreases |states|
  {
    if states != [] {
      UpsertedLast(m, states);
      UpsertedKeys(m, states[..|states| - 1]);
    }
  }

  /** After the upsert loop the row of an id in the file is the one its last occurrence
      gives. */
  lemma {:induction false} UpsertedLastWins(m: map<string, StateRow>, states: seq<UsState>)
    requires StateTypesPresent(states)
    ensures forall id :: id in AbbreviationSet(states) ==>
              id in Upserted(m, states) && Upserted(m, states)[id] == RowOf(states[LastIndex(states, id)])
    decreases |states|
  {
    if states != [] {
      var n := |states| - 1;
      var prefix, a := states[..n], states[n].abbreviation;
      UpsertedLast(m, states);
      UpsertedLastWins(m, prefix);
      forall id | id in AbbreviationSet(states)
        ensures id in Upserted(m, states) && Upserted(m, states)[id] == RowOf(states[LastIndex(states, id)])
      {
        if id != a {
          var k := LastIndex(prefix, id);
          assert LastIndex(states, id) == k;
          assert prefix[k] == states[k];
        }
      }
    }
  }

  /** The upsert loop leaves the rows of ids not in the file untouched. */
  lemma {:induction false} UpsertedKeepsOthers(m: map<string, StateRow>, states: seq<UsState>)
    requires StateTypesPresent(states)
    ensures forall id :: id in m && id !in AbbreviationSet(states) ==>
              id in Upserted(m, states) && Upserted(m, states)[id] == m[id]
    decreases |states|
  {
    if states != [] {
      UpsertedLast(m, states);
      UpsertedKeepsOthers(m, states[..|states| - 1]);
    }
  }

  /** The three facts about the upsert loop together. */
  lemma UpsertedProperties(m: map<string, StateRow>, states: seq<UsState>)
    requires StateTypesPresent(states)
    ensures Upserted(m, states).Keys == m.Keys + AbbreviationSet(states)
    ensures forall id :: id in AbbreviationSet(states) ==>
              Upserted(m, states)[id] == RowOf(states[LastIndex(states, id)])
    ensures forall id :: id in m && id !in AbbreviationSet(states) ==> Upserted(m, states)[id] == m[id]
  {
    UpsertedKeys(m, states);
    UpsertedLastWins(m, states);
    UpsertedKeepsOthers(m, states);
  }

  /** The whole stage leaves exactly the ids of the file, each with the row its last
      occurrence gives. */
  lemma {:induction false} StateLoadExact(m: map<string, StateRow>, states: seq<UsState>)
    requires StateTypesPresent(states)
    ensures StateLoad(m, states).Keys == AbbreviationSet(states)
    ensures forall id :: id in AbbreviationSet(states) ==>
              StateLoad(m, states)[id] == RowOf(states[LastIndex(states, id)])
  {
    UpsertedProperties(m, states);
  }

  /** Running the upserts twice leaves what running them once leaves. */
  lemma {:induction false} UpsertedIdempotent(m: map<string, StateRow>, states: seq<UsState>)
    requires StateTypesPresent(states)
    ensures Upserted(Upserted(m, states), states) == Upserted(m, states)
  {
    var once := Upserted(m, states);
    UpsertedProperties(m, states);
    UpsertedProperties(once, states);
  }

  /** Upserting and pruning against any kept set a second time changes nothing. */
  lemma {:induction false} PrunedUpsertIdempotent(m: map<string, StateRow>, states: seq<UsState>, keep: set<string>)
    requires StateTypesPresent(states)
    ensures Restrict(Upserted(Restrict(Upserted(m, states), keep), states), keep)
         == Restrict(Upserted(m, states), keep)
  {
    var once := Restrict(Upserted(m, states), keep);
    UpsertedProperties(m, states);
    UpsertedProperties(once, states);
  }

  /** Loading the same states again leaves the state table as the first load left it. */
  lemma {:induction false} StateLoadIdempotent(m: map<string, StateRow>, states: seq<UsState>)
    requires StateTypesPresent(states)
    ensures StateLoad(StateLoad(m, states), states) == StateLoad(m, states)
  {
    PrunedUpsertIdempotent(m, states, AbbreviationSet(states));
  }

  lemma {:induction false} UpsertStatementsEffect(t: Tables, states: seq<UsState>)
    requires StateTypesPresent(states)
    ensures ApplyAll(t, UpsertStatements(states)) == t.(states := Upserted(t.states, states))
    decreases |states|
  {
    if states == [] {
      assert UpsertStatements(states) == [];
    } else {
      var n := |states| - 1;
      var prefix := states[..n];
      PrefixStateTypesPresent(states, n);
      var last := UpsertStateRow(states[n].abbreviation, RowOf(states[n]));
      assert UpsertStatements(states) == UpsertStatements(prefix) + [last];
      ApplyAllAppend(t, UpsertStatements(prefix), [last]);
      UpsertStatementsEffect(t, prefix);
      assert ApplyAll(t.(states := Upserted(t.states, prefix)), [last])
          == Apply(t.(states := Upserted(t.states, prefix)), last);
    }
  }

  /** The statements of the states stage that succeed before the prune: they upsert. */
  lemma {:induction false} StatesPlanBeforePrune(t: Tables, states: seq<UsState>)
    requires StateTypesPresent(states)
    ensures var plan := StatesStagePlan(states);
      && plan[..|states| + 1] == [Open] + UpsertStatements(states)
      && ApplyAll(t, plan[..|states| + 1]) == t.(states := Upserted(t.states, states))
      && (forall i :: 0 <= i < |states| + 1 ==> Accepts(plan[i]))
      && plan[|states| + 1] == PruneStates(IdList(Abbreviations(states)))
  {
    var plan := StatesStagePlan(states);
    assert plan[..|states| + 1] == [Open] + UpsertStatements(states);
    ApplyAllAppend(t, [Open], UpsertStatements(states));
    UpsertStatementsEffect(t, states);
  }

  /** When the store reads the id list back, the whole stage upserts every row and keeps
      the rows whose id is in the list read. */
  lemma {:induction false} StatesPlanEffect(t: Tables, states: seq<UsState>)
    requires StateTypesPresent(states)
    requires ReadLiteralList(IdList(Abbreviations(states))).Some?
    ensures AllAccepted(StatesStagePlan(states))
    ensures ApplyAll(t, StatesStagePlan(states))
         == t.(states := Restrict(Upserted(t.states, states),
                                  set k | k in ReadLiteralList(IdList(Abbreviations(states))).value))
  {
    var plan := StatesStagePlan(states);
    var tail := [PruneStates(IdList(Abbreviations(states))), CountStates];
    StatesPlanBeforePrune(t, states);
    assert plan == plan[..|states| + 1] + tail;
    ApplyAllAppend(t, plan[..|states| + 1], tail);
    var before := ApplyAll(t, plan[..|states| + 1]);
    assert tail[1..] == [CountStates] && [CountStates][1..] == [];
    assert ApplyAll(before, tail) == ApplyAll(Apply(Apply(before, tail[0]), CountStates), []);
  }

  /** For ids without quote characters the kept set is exactly the ids of the file, so the
      stage leaves `StateLoad`. */
  lemma {:induction false} StatesPlanLoads(t: Tables, states: seq<UsState>)
    requires StateTypesPresent(states) && states != [] && NoQuotes(Abbreviations(states))
    ensures AllAccepted(StatesStagePlan(states))
    ensures ApplyAll(t, StatesStagePlan(states)) == t.(states := StateLoad(t.states, states))
  {
    ReadIdList(Abbreviations(states));
    StatesPlanEffect(t, states);
  }

  /** An empty states file makes the prune `NOT IN ()`, which the server rejects: the stage
      fails after connecting, having changed nothing. */
  lemma {:induction false} EmptyStatesFileFails(t: Tables, pos: nat, faults: set<nat>)
    requires pos !in faults
    ensures var r := Run(t, StatesStagePlan([]), pos, faults);
      r.failed && r.tables == t
      && r.attempts == [Attempt(Open, true), Attempt(PruneStates(""), false)]
  {
    assert Abbreviations([]) == [];
    ReadIdList([]);
    assert StatesStagePlan([]) == [Open, PruneStates(""), CountStates];
  }

  method LoadUsStatesToDatabase(store: Store, states: seq<UsState>) returns (outcome: Outcome)
    requires StateTypesPresent(states)
    modifies store
    ensures Ran(old(store.Contents()), StatesStagePlan(states), old(store.log), store.faults,
                store.Contents(), store.log)
    ensures outcome == StageOutcome(Run(old(store.Contents()), StatesStagePlan(states), |old(store.log)|, store.faults))
    ensures outcome.Done? ==> states != []
    ensures outcome.Done? && NoQuotes(Abbreviations(states)) ==>
              store.states == StateLoad(old(store.states), states)
  {
    ghost var t0, log0 := store.Contents(), store.log;
    ghost var plan := StatesStagePlan(states);
    ProgressStart(t0, plan, log0, store.faults);
    ghost var before, logBefore := store.Contents(), store.log;
    var ok := store.Connect();
    ProgressStep(t0, plan, 0, log0, store.faults, before, logBefore, ok, store.Contents(), store.log);
    if !ok {
      return Failed(StoreError);
    }
    for i := 0 to |states|
      invariant Progress(t0, plan, i + 1, log0, store.faults, store.Contents(), store.log)
    {
      var state := states[i];
      assert plan[i + 1] == UpsertStateRow(state.abbreviation, RowOf(state));
      before, logBefore := store.Contents(), store.log;
      ok := store.UpsertState(state.abbreviation, RowOf(state));
      ProgressStep(t0, plan, i + 1, log0, store.faults, before, logBefore, ok, store.Contents(), store.log);
      if !ok {
        return Failed(StoreError);
      }
    }
    var ids := IdList(Abbreviations(states));
    assert plan[|states| + 1] == PruneStates(ids);
    before, logBefore := store.Contents(), store.log;
    ok := store.DeleteStatesNotIn(ids);
    ProgressStep(t0, plan, |states| + 1, log0, store.faults, before, logBefore, ok, store.Contents(), store.log);
    if !ok {
      return Failed(StoreError);
    }
    assert plan[|states| + 2] == CountStates;
    before, logBefore := store.Contents(), store.log;
    var numStates;
    ok, numStates := store.SelectStateCount();
    ProgressStep(t0, plan, |states| + 2, log0, store.faults, before, logBefore, ok, store.Contents(), store.log);
    if !ok {
      return Failed(StoreError);
    }
    ProgressDone(t0, plan, log0, store.faults, store.Contents(), store.log);
    outcome := Done;
    StatesStageOutcome(t0, states, |log0|, store.faults);
  }

  /** What a states stage that did not fail leaves: the file was not empty and, for ids
      without quotes, the state table is `StateLoad`. */
  lemma {:induction false} StatesStageOutcome(t: Tables, states: seq<UsState>, pos: nat, faults: set<nat>)
    requires StateTypesPresent(states)
    requires !Run(t, StatesStagePlan(states), pos, faults).failed
    ensures states != []
    ensures NoQuotes(Abbreviations(states)) ==>
              Run(t, StatesStagePlan(states), pos, faults).tables.states == StateLoad(t.states, states)
  {
    RunSucceeded(t, StatesStagePlan(states), pos, faults);
    if states == [] {
      if pos !in faults {
        EmptyStatesFileFails(t, pos, faults);
      }
    } else if NoQuotes(Abbreviations(states)) {
      StatesPlanLoads(t, states);
    }
  }

  // ---------------------------------------------------------------------------
  // The turbines stage: counties and manufacturers
  // ---------------------------------------------------------------------------

  /** Every key of `keys` not yet among `rows` appended, in order. */
  function InsertAllAbsent<T(==)>(rows: seq<T>, keys: seq<T>): seq<T>
    decreases |keys|
  {
    if keys == [] then rows else InsertAllAbsent(InsertIfAbsent(rows, keys[0]), keys[1..])
  }

  /** Insert-if-absent keeps the existing rows as they are, adds exactly the missing keys,
      and never adds a key that is present: a key already there keeps its count and a new
      one is there once. */
  lemma {:induction false} InsertAllAbsentProperties<T>(rows: seq<T>, keys: seq<T>)
    ensures rows <= InsertAllAbsent(rows, keys)
    ensures forall x :: x in InsertAllAbsent(rows, keys) <==> x in rows || x in keys
    ensures forall x :: multiset(InsertAllAbsent(rows, keys))[x]
                     == if x in rows then multiset(rows)[x] else if x in keys then 1 else 0
    decreases |keys|
  {
    if keys != [] {
      var next := InsertIfAbsent(rows, keys[0]);
      InsertAllAbsentProperties(next, keys[1..]);
      if keys[0] !in rows {
        assert multiset(next) == multiset(rows) + multiset{keys[0]};
      }
      forall x ensures x in keys <==> x == keys[0] || x in keys[1..] {
        assert keys == [keys[0]] + keys[1..];
      }
    }
  }

  lemma {:induction false} InsertAllPresent<T>(rows: seq<T>, keys: seq<T>)
    requires forall x :: x in keys ==> x in rows
    ensures InsertAllAbsent(rows, keys) == rows
    decreases |keys|
  {
    if keys != [] {
      assert keys[0] in keys;
      forall x | x in keys[1..] ensures x in rows {
        assert x in keys;
      }
      InsertAllPresent(rows, keys[1..]);
    }
  }

  /** Inserting the same keys again is a no-op. */
  lemma {:induction false} InsertAllAbsentIdempotent<T>(rows: seq<T>, keys: seq<T>)
    ensures InsertAllAbsent(InsertAllAbsent(rows, keys), keys) == InsertAllAbsent(rows, keys)
  {
    InsertAllAbsentProperties(rows, keys);
    InsertAllPresent(InsertAllAbsent(rows, keys), keys);
  }

  function CountyKeys(turbines: seq<TurbineCsv>): (keys: seq<CountyKey>)
    ensures |keys| == |turbines|
    ensures forall i :: 0 <= i < |turbines| ==> keys[i] == (turbines[i].tState, turbines[i].tCounty)
  {
    seq(|turbines|, i requires 0 <= i < |turbines| => (turbines[i].tState, turbines[i].tCounty))
  }

  function ManufacturerNames(turbines: seq<TurbineCsv>): (names: seq<string>)
    ensures |names| == |turbines|
    ensures forall i :: 0 <= i < |turbines| ==> names[i] == turbines[i].tManu
  {
    seq(|turbines|, i requires 0 <= i < |turbines| => turbines[i].tManu)
  }

  function CountyStatements(counties: seq<CountyKey>): (plan: seq<Statement>)
    ensures |plan| == |counties|
    ensures forall i :: 0 <= i < |counties| ==> plan[i] == InsertCounty(counties[i])
  {
    seq(|counties|, i requires 0 <= i < |counties| => InsertCounty(counties[i]))
  }

  /** A blank name is written as NULL. */
  function StoredName(name: string): (stored: Option<string>)
    ensures stored.None? <==> |name| == 0
    ensures stored.Some? ==> stored.value == name
  {
    if |name| == 0 then None else Some(name)
  }

  function StoredNames(names: seq<string>): (stored: seq<Option<string>>)
    ensures |stored| == |names|
    ensures forall i :: 0 <= i < |names| ==> stored[i] == StoredName(names[i])
  {
    seq(|names|, i requires 0 <= i < |names| => StoredName(names[i]))
  }

  function ManufacturerStatement(name: string): Statement {
    if |name| == 0 then InsertNullManufacturer else InsertManufacturer(name)
  }

  function ManufacturerStatements(names: seq<string>): (plan: seq<Statement>)
    ensures |plan| == |names|
    ensures forall i :: 0 <= i < |names| ==> plan[i] == ManufacturerStatement(names[i])
  {
    seq(|names|, i requires 0 <= i < |names| => ManufacturerStatement(names[i]))
  }

  /** What `load_us_turbines_to_database` sends: connect, one insert per distinct county,
      then one per distinct manufacturer name. */
  function TurbinesStagePlan(turbines: seq<TurbineCsv>): seq<Statement> {
    [Open] + (CountyStatements(Unique(CountyKeys(turbines)))
              + ManufacturerStatements(Unique(ManufacturerNames(turbines))))
  }

  lemma {:induction false} CountyStatementsEffect(t: Tables, counties: seq<CountyKey>)
    ensures AllAccepted(CountyStatements(counties))
    ensures ApplyAll(t, CountyStatements(counties)) == t.(counties := InsertAllAbsent(t.counties, counties))
    decreases |counties|
  {
    if counties != [] {
      assert CountyStatements(counties)[1..] == CountyStatements(counties[1..]);
      CountyStatementsEffect(Apply(t, InsertCounty(counties[0])), counties[1..]);
    }
  }

  lemma {:induction false} ManufacturerStatementsEffect(t: Tables, names: seq<string>)
    ensures AllAccepted(ManufacturerStatements(names))
    ensures ApplyAll(t, ManufacturerStatements(names))
         == t.(manufacturers := InsertAllAbsent(t.manufacturers, StoredNames(names)))
    decreases |names|
  {
    if names != [] {
      assert ManufacturerStatements(names)[1..] == ManufacturerStatements(names[1..]);
      assert StoredNames(names)[1..] == StoredNames(names[1..]);
      ManufacturerStatementsEffect(Apply(t, ManufacturerStatement(names[0])), names[1..]);
    }
  }

  /** The turbines stage, when every statement succeeds, inserts the distinct counties and
      then the distinct stored manufacturer names, and leaves the state table alone. */
  lemma {:induction false} TurbinesPlanEffect(t: Tables, turbines: seq<TurbineCsv>)
    ensures AllAccepted(TurbinesStagePlan(turbines))
    ensures ApplyAll(t, TurbinesStagePlan(turbines))
         == Tables(t.states,
                   InsertAllAbsent(t.counties, Unique(CountyKeys(turbines))),
                   InsertAllAbsent(t.manufacturers, StoredNames(Unique(ManufacturerNames(turbines)))))
  {
    var counties, names := Unique(CountyKeys(turbines)), StoredNames(Unique(ManufacturerNames(turbines)));
    var cs := CountyStatements(Unique(CountyKeys(turbines)));
    var ms := ManufacturerStatements(Unique(ManufacturerNames(turbines)));
    assert TurbinesStagePlan(turbines) == [Open] + cs + ms;
    ApplyAllAppend(t, [Open] + cs, ms);
    ApplyAllAppend(t, [Open], cs);
    assert ApplyAll(t, [Open]) == t by {
      assert [Open][1..] == [];
    }
    CountyStatementsEffect(t, counties);
    var t1 := t.(counties := InsertAllAbsent(t.counties, counties));
    ManufacturerStatementsEffect(t1, Unique(ManufacturerNames(turbines)));
    assert AllAccepted([Open] + cs + ms);
  }

  /** The manufacturer table after the stage holds NULL exactly when it did before or some
      turbine has a blank manufacturer, never holds NULL twice unless it did before, and
      never gains an empty name. */
  lemma {:induction false} ManufacturersBlankIsNull(rows: seq<Option<string>>, turbines: seq<TurbineCsv>)
    ensures var after := InsertAllAbsent(rows, StoredNames(Unique(ManufacturerNames(turbines))));
      && (None in after <==> None in rows || exists i :: 0 <= i < |turbines| && |turbines[i].tManu| == 0)
      && (None !in rows ==> multiset(after)[None] <= 1)
      && multiset(after)[Some("")] == multiset(rows)[Some("")]
  {
    var names := Unique(ManufacturerNames(turbines));
    var stored := StoredNames(names);
    InsertAllAbsentProperties(rows, stored);
    UniqueProperties(ManufacturerNames(turbines));
    if None in stored {
      var k :| 0 <= k < |stored| && stored[k] == None;
      assert names[k] in ManufacturerNames(turbines);
      var i :| 0 <= i < |turbines| && ManufacturerNames(turbines)[i] == names[k];
      assert |turbines[i].tManu| == 0;
    }
    if i :| 0 <= i < |turbines| && |turbines[i].tManu| == 0 {
      assert turbines[i].tManu in names;
      var k :| 0 <= k < |names| && names[k] == turbines[i].tManu;
      assert stored[k] == None;
    }
    assert Some("") !in stored;
  }

  method LoadCountiesToDatabase(store: Store, counties: seq<CountyKey>) returns (outcome: Outcome)
    modifies store
    ensures Ran(old(store.Contents()), CountyStatements(counties), old(store.log), store.faults,
                store.Contents(), store.log)
    ensures outcome == StageOutcome(Run(old(store.Contents()), CountyStatements(counties), |old(store.log)|, store.faults))
    ensures outcome.Done? ==> store.counties == InsertAllAbsent(old(store.counties), counties)
  {
    ghost var t0, log0 := store.Contents(), store.log;
    ghost var plan := CountyStatements(counties);
    ProgressStart(t0, plan, log0, store.faults);
    for i := 0 to |counties|
      invariant Progress(t0, plan, i, log0, store.faults, store.Contents(), store.log)
    {
      ghost var before, logBefore := store.Contents(), store.log;
      var ok := store.InsertCountyIfAbsent(counties[i].0, counties[i].1);
      ProgressStep(t0, plan, i, log0, store.faults, before, logBefore, ok, store.Contents(), store.log);
      if !ok {
        return Failed(StoreError);
      }
    }
    ProgressDone(t0, plan, log0, store.faults, store.Contents(), store.log);
    outcome := Done;
    RunSucceeded(t0, plan, |log0|, store.faults);
    CountyStatementsEffect(t0, counties);
  }

  method LoadManufacturersToDatabase(store: Store, names: seq<string>) returns (outcome: Outcome)
    modifies store
    ensures Ran(old(store.Contents()), ManufacturerStatements(names), old(store.log), store.faults,
                store.Contents(), store.log)
    ensures outcome == StageOutcome(Run(old(store.Contents()), ManufacturerStatements(names), |old(store.log)|, store.faults))
    ensures outcome.Done? ==> store.manufacturers == InsertAllAbsent(old(store.manufacturers), StoredNames(names))
  {
    ghost var t0, log0 := store.Contents(), store.log;
    ghost var plan := ManufacturerStatements(names);
    ProgressStart(t0, plan, log0, store.faults);
    for i := 0 to |names|
      invariant Progress(t0, plan, i, log0, store.faults, store.Contents(), store.log)
    {
      var name := names[i];
      ghost var before, logBefore := store.Contents(), store.log;
      var ok;
      if |name| == 0 {
        ok := store.InsertNullManufacturerIfAbsent();
      } else {
        ok := store.InsertManufacturerIfAbsent(name);
      }
      ProgressStep(t0, plan, i, log0, store.faults, before, logBefore, ok, store.Contents(), store.log);
      if !ok {
        return Failed(StoreError);
      }
    }
    ProgressDone(t0, plan, log0, store.faults, store.Contents(), store.log);
    outcome := Done;
    RunSucceeded(t0, plan, |log0|, store.faults);
    ManufacturerStatementsEffect(t0, names);
  }

  method LoadUsTurbinesToDatabase(store: Store, turbines: seq<TurbineCsv>) returns (outcome: Outcome)
    modifies store
    ensures Ran(old(store.Contents()), TurbinesStagePlan(turbines), old(store.log), store.faults,
                store.Contents(), store.log)
    ensures outcome == StageOutcome(Run(old(store.Contents()), TurbinesStagePlan(turbines), |old(store.log)|, store.faults))
    ensures outcome.Done? ==> store.Contents() == TurbinesStageTables(old(store.Contents()), turbines)
  {
    ghost var t0, log0 := store.Contents(), store.log;
    var counties := Unique(CountyKeys(turbines));
    var names := Unique(ManufacturerNames(turbines));
    ghost var cs, ms := CountyStatements(counties), ManufacturerStatements(names);
    assert TurbinesStagePlan(turbines) == [Open] + cs + ms;
    RunSingle(t0, Open, |log0|, store.faults);
    var ok := store.Connect();
    if !ok {
      RanFailed(t0, [Open], cs + ms, log0, store.faults, store.Contents(), store.log);
      return Failed(StoreError);
    }
    ghost var t1, log1 := store.Contents(), store.log;
    outcome := LoadCountiesToDatabase(store, counties);
    RanThen(t0, [Open], cs, log0, store.faults, t1, log1, store.Contents(), store.log);
    if outcome.Failed? {
      RanFailed(t0, [Open] + cs, ms, log0, store.faults, store.Contents(), store.log);
      return;
    }
    ghost var t2, log2 := store.Contents(), store.log;
    outcome := LoadManufacturersToDatabase(store, names);
    RanThen(t0, [Open] + cs, ms, log0, store.faults, t2, log2, store.Contents(), store.log);
    if outcome.Done? {
      RunSucceeded(t0, TurbinesStagePlan(turbines), |log0|, store.faults);
      TurbinesPlanEffect(t0, turbines);
    }
  }

  // ---------------------------------------------------------------------------
  // The program: both stages in order
  // ---------------------------------------------------------------------------

  /** The states file, when given, has a state type in every row it yields. */
  predicate StatesFileUsable(statesFile: Option<Result<seq<UsState>, string>>) {
    statesFile.Some? && statesFile.value.Ok? ==> StateTypesPresent(statesFile.value.value)
  }

  /** The statements `main` sends, in order, given what reading each optional CSV file
      yields: an unreadable states file ends the program before any statement. */
  function LoaderPlan(statesFile: Option<Result<seq<UsState>, string>>,
                      turbinesFile: Option<Result<seq<TurbineCsv>, string>>): seq<Statement>
    requires StatesFileUsable(statesFile)
  {
    if statesFile.Some? && statesFile.value.Err? then []
    else
      (if statesFile.Some? then StatesStagePlan(statesFile.value.value) else [])
      + (if turbinesFile.Some? && turbinesFile.value.Ok? then TurbinesStagePlan(turbinesFile.value.value) else [])
  }

  /** The error of the first CSV file that cannot be read, the states file first. */
  function CsvFailure(statesFile: Option<Result<seq<UsState>, string>>,
                      turbinesFile: Option<Result<seq<TurbineCsv>, string>>): Option<string>
  {
    if statesFile.Some? && statesFile.value.Err? then Some(statesFile.value.error)
    else if turbinesFile.Some? && turbinesFile.value.Err? then Some(turbinesFile.value.error)
    else None
  }

  /** `main`: the states stage when a states file is given, then the turbines stage when a
      turbines file is given, each CSV read just before its stage; the first error ends it. */
  method RunLoader(store: Store, statesFile: Option<Result<seq<UsState>, string>>,
                   turbinesFile: Option<Result<seq<TurbineCsv>, string>>) returns (outcome: Outcome)
    requires StatesFileUsable(statesFile)
    modifies store
    ensures Ran(old(store.Contents()), LoaderPlan(statesFile, turbinesFile), old(store.log), store.faults,
                store.Contents(), store.log)
    ensures outcome == if Run(old(store.Contents()), LoaderPlan(statesFile, turbinesFile), |old(store.log)|, store.faults).failed
                       then Failed(StoreError)
                       else match CsvFailure(statesFile, turbinesFile)
                            case Some(message) => Failed(CsvError(message))
                            case None => Done
  {
    ghost var t0, log0 := store.Contents(), store.log;
    ghost var sp: seq<Statement> := [];
    ghost var tp := if turbinesFile.Some? && turbinesFile.value.Ok? then TurbinesStagePlan(turbinesFile.value.value) else [];
    assert Run(t0, [], |log0|, store.faults) == RunResult(t0, [], false) && log0 + [] == log0;
    if statesFile.Some? {
      if statesFile.value.Err? {
        return Failed(CsvError(statesFile.value.error));
      }
      sp := StatesStagePlan(statesFile.value.value);
      outcome := LoadUsStatesToDatabase(store, statesFile.value.value);
      if outcome.Failed? {
        RanFailed(t0, sp, tp, log0, store.faults, store.Contents(), store.log);
        return;
      }
    }
    assert LoaderPlan(statesFile, turbinesFile) == sp + tp;
    ghost var t1, log1 := store.Contents(), store.log;
    if turbinesFile.Some? {
      if turbinesFile.value.Err? {
        assert sp + tp == sp;
        return Failed(CsvError(turbinesFile.value.error));
      }
      outcome := LoadUsTurbinesToDatabase(store, turbinesFile.value.value);
      RanThen(t0, sp, tp, log0, store.faults, t1, log1, store.Contents(), store.log);
      if outcome.Failed? {
        return;
      }
    } else {
      assert sp + tp == sp;
    }
    outcome := Done;
  }

  // ---------------------------------------------------------------------------
  // Properties of the whole program
  // ---------------------------------------------------------------------------

  /** The stage a statement belongs to, in the order `main` runs them; connecting opens
      each stage and has no rank of its own. */
  function StageRank(s: Statement): nat {
    match s
    case Open => 0
    case UpsertStateRow(_, _) => 1
    case PruneStates(_) => 2
    case CountStates => 3
    case InsertCounty(_) => 4
    case InsertNullManufacturer => 5
    case InsertManufacturer(_) => 5
  }

  predicate InStageOrder(plan: seq<Statement>) {
    forall i, j :: 0 <= i < j < |plan| && !plan[i].Open? && !plan[j].Open? ==>
      StageRank(plan[i]) <= StageRank(plan[j])
  }

  predicate RanksWithin(plan: seq<Statement>, lo: nat, hi: nat) {
    forall i :: 0 <= i < |plan| && !plan[i].Open? ==> lo <= StageRank(plan[i]) <= hi
  }

  lemma OrderedConcat(p: seq<Statement>, q: seq<Statement>, lo: nat, mid: nat, hi: nat)
    requires lo <= mid <= hi
    requires InStageOrder(p) && RanksWithin(p, lo, mid)
    requires InStageOrder(q) && RanksWithin(q, mid, hi)
    ensures InStageOrder(p + q) && RanksWithin(p + q, lo, hi)
  {
    var pq := p + q;
    forall i, j | 0 <= i < j < |pq| && !pq[i].Open? && !pq[j].Open?
      ensures StageRank(pq[i]) <= StageRank(pq[j])
    {
      if j < |p| {
        assert pq[i] == p[i] && pq[j] == p[j];
      } else if i >= |p| {
        assert pq[i] == q[i - |p|] && pq[j] == q[j - |p|];
      } else {
        assert pq[i] == p[i] && pq[j] == q[j - |p|];
      }
    }
    forall i | 0 <= i < |pq| && !pq[i].Open? ensures lo <= StageRank(pq[i]) <= hi {
      if i >= |p| {
        assert pq[i] == q[i - |p|];
      } else {
        assert pq[i] == p[i];
      }
    }
  }

  lemma StatesPlanOrdered(states: seq<UsState>)
    requires StateTypesPresent(states)
    ensures InStageOrder(StatesStagePlan(states)) && RanksWithin(StatesStagePlan(states), 1, 3)
  {
    var u := UpsertStatements(states);
    var tail := [PruneStates(IdList(Abbreviations(states))), CountStates];
    assert RanksWithin(u, 1, 1);
    OrderedConcat(u, tail, 1, 1, 3);
    OrderedConcat([Open], u + tail, 1, 1, 3);
  }

  lemma TurbinesPlanOrdered(turbines: seq<TurbineCsv>)
    ensures InStageOrder(TurbinesStagePlan(turbines)) && RanksWithin(TurbinesStagePlan(turbines), 4, 5)
  {
    var cs := CountyStatements(Unique(CountyKeys(turbines)));
    var ms := ManufacturerStatements(Unique(ManufacturerNames(turbines)));
    assert RanksWithin(cs, 4, 4);
    assert RanksWithin(ms, 5, 5);
    OrderedConcat(cs, ms, 4, 4, 5);
    OrderedConcat([Open], cs + ms, 4, 4, 5);
  }

  /** `main` sends the state upserts, then the prune, then the count, then the county
      inserts, then the manufacturer inserts. */
  lemma LoaderPlanOrdered(statesFile: Option<Result<seq<UsState>, string>>,
                          turbinesFile: Option<Result<seq<TurbineCsv>, string>>)
    requires StatesFileUsable(statesFile)
    ensures InStageOrder(LoaderPlan(statesFile, turbinesFile))
  {
    if !(statesFile.Some? && statesFile.value.Err?) {
      var sp := if statesFile.Some? then StatesStagePlan(statesFile.value.value) else [];
      var tp := if turbinesFile.Some? && turbinesFile.value.Ok? then TurbinesStagePlan(turbinesFile.value.value) else [];
      if statesFile.Some? {
        StatesPlanOrdered(statesFile.value.value);
      }
      if turbinesFile.Some? && turbinesFile.value.Ok? {
        TurbinesPlanOrdered(turbinesFile.value.value);
      }
      OrderedConcat(sp, tp, 1, 3, 5);
    }
  }

  predicate AttemptsInStageOrder(attempts: seq<Attempt>) {
    forall i, j :: 0 <= i < j < |attempts| && !attempts[i].statement.Open? && !attempts[j].statement.Open? ==>
      StageRank(attempts[i].statement) <= StageRank(attempts[j].statement)
  }

  lemma RunInStageOrder(t: Tables, plan: seq<Statement>, pos: nat, faults: set<nat>)
    requires InStageOrder(plan)
    ensures var r := Run(t, plan, pos, faults);
      && AttemptsInStageOrder(r.attempts)
      && (forall i :: 0 <= i < |r.attempts| - 1 ==> r.attempts[i].succeeded)
      && (r.failed <==> |r.attempts| > 0 && !r.attempts[|r.attempts| - 1].succeeded)
  {
    RunStopsAtFirstFailure(t, plan, pos, faults);
  }

  /** Every statement the loader sends comes in stage order, and only after every earlier
      statement succeeded: the first failure is the last statement sent. */
  lemma LoaderSendsInOrder(t: Tables, statesFile: Option<Result<seq<UsState>, string>>,
                           turbinesFile: Option<Result<seq<TurbineCsv>, string>>, pos: nat, faults: set<nat>)
    requires StatesFileUsable(statesFile)
    ensures var r := Run(t, LoaderPlan(statesFile, turbinesFile), pos, faults);
      && AttemptsInStageOrder(r.attempts)
      && (forall i :: 0 <= i < |r.attempts| - 1 ==> r.attempts[i].succeeded)
      && (r.failed <==> |r.attempts| > 0 && !r.attempts[|r.attempts| - 1].succeeded)
  {
    LoaderPlanOrdered(statesFile, turbinesFile);
    RunInStageOrder(t, LoaderPlan(statesFile, turbinesFile), pos, faults);
  }

  /** The tables a states stage leaves when no statement fails for I/O reasons: the
      upserts, then the prune, which the server rejects when it cannot read the id list. */
  function StatesStageTables(t: Tables, states: seq<UsState>): Tables
    requires StateTypesPresent(states)
  {
    match ReadLiteralList(IdList(Abbreviations(states)))
    case None => t.(states := Upserted(t.states, states))
    case Some(keep) => t.(states := Restrict(Upserted(t.states, states), set k | k in keep))
  }

  /** The tables the turbines stage leaves when no statement fails. */
  function TurbinesStageTables(t: Tables, turbines: seq<TurbineCsv>): Tables {
    t.(counties := InsertAllAbsent(t.counties, Unique(CountyKeys(turbines))),
       manufacturers := InsertAllAbsent(t.manufacturers, StoredNames(Unique(ManufacturerNames(turbines)))))
  }

  /** The server rejects the prune of the states stage. */
  predicate PruneRejected(statesFile: Option<Result<seq<UsState>, string>>) {
    statesFile.Some? && statesFile.value.Ok?
    && ReadLiteralList(IdList(Abbreviations(statesFile.value.value))).None?
  }

  /** What `main` leaves when no statement fails for I/O reasons. */
  function FaultFreeTables(t: Tables, statesFile: Option<Result<seq<UsState>, string>>,
                           turbinesFile: Option<Result<seq<TurbineCsv>, string>>): Tables
    requires StatesFileUsable(statesFile)
  {
    if statesFile.Some? && statesFile.value.Err? then t
    else
      var afterStates := if statesFile.Some? then StatesStageTables(t, statesFile.value.value) else t;
      if PruneRejected(statesFile) || !(turbinesFile.Some? && turbinesFile.value.Ok?) then afterStates
      else TurbinesStageTables(afterStates, turbinesFile.value.value)
  }

  lemma StatesStageWithoutFaults(t: Tables, states: seq<UsState>, pos: nat, faults: set<nat>)
    requires StateTypesPresent(states) && NoFaultsIn(faults, pos, |StatesStagePlan(states)|)
    ensures Run(t, StatesStagePlan(states), pos, faults).tables == StatesStageTables(t, states)
    ensures Run(t, StatesStagePlan(states), pos, faults).failed
        <==> ReadLiteralList(IdList(Abbreviations(states))).None?
  {
    var plan := StatesStagePlan(states);
    var ids := IdList(Abbreviations(states));
    if ReadLiteralList(ids).Some? {
      StatesPlanEffect(t, states);
      RunWithoutFaults(t, plan, pos, faults);
    } else {
      var pre := [Open] + UpsertStatements(states);
      var tail := [PruneStates(ids), CountStates];
      assert plan == pre + tail;
      StatesPlanBeforePrune(t, states);
      NoFaultsSplit(faults, pos, |pre|, |tail|);
      RunWithoutFaults(t, pre, pos, faults);
      RunSequence(t, pre, tail, pos, faults);
      var first := Run(t, pre, pos, faults);
      assert !Accepts(tail[0]);
      assert Run(first.tables, tail, pos + |first.attempts|, faults).failed;
    }
  }

  lemma TurbinesStageWithoutFaults(t: Tables, turbines: seq<TurbineCsv>, pos: nat, faults: set<nat>)
    requires NoFaultsIn(faults, pos, |TurbinesStagePlan(turbines)|)
    ensures !Run(t, TurbinesStagePlan(turbines), pos, faults).failed
    ensures Run(t, TurbinesStagePlan(turbines), pos, faults).tables == TurbinesStageTables(t, turbines)
  {
    TurbinesPlanEffect(t, turbines);
    RunWithoutFaults(t, TurbinesStagePlan(turbines), pos, faults);
  }

  /** Two plans run back to back without faults: the second starts where the first ends. */
  lemma SequenceWithoutFaults(t: Tables, p: seq<Statement>, q: seq<Statement>, pos: nat, faults: set<nat>)
    requires NoFaultsIn(faults, pos, |p + q|)
    ensures NoFaultsIn(faults, pos, |p|)
    ensures var first := Run(t, p, pos, faults);
      && (first.failed ==> Run(t, p + q, pos, faults) == first)
      && (!first.failed ==>
            && NoFaultsIn(faults, pos + |p|, |q|)
            && Run(t, p + q, pos, faults).tables == Run(first.tables, q, pos + |p|, faults).tables
            && Run(t, p + q, pos, faults).failed == Run(first.tables, q, pos + |p|, faults).failed)
  {
    NoFaultsSplit(faults, pos, |p|, |q|);
    RunAppend(t, p, q, pos, faults);
  }

  /** The turbines stage, or nothing, after a first part that ran without faults. */
  lemma TurbinesAfterWithoutFaults(t: Tables, sp: seq<Statement>, turbinesFile: Option<Result<seq<TurbineCsv>, string>>,
                                   pos: nat, faults: set<nat>)
    requires var tp := if turbinesFile.Some? && turbinesFile.value.Ok? then TurbinesStagePlan(turbinesFile.value.value) else [];
      NoFaultsIn(faults, pos, |sp + tp|)
    ensures var tp := if turbinesFile.Some? && turbinesFile.value.Ok? then TurbinesStagePlan(turbinesFile.value.value) else [];
      var first := Run(t, sp, pos, faults);
      var r := Run(t, sp + tp, pos, faults);
      && r.failed == first.failed
      && r.tables == if first.failed || !(turbinesFile.Some? && turbinesFile.value.Ok?) then first.tables
                     else TurbinesStageTables(first.tables, turbinesFile.value.value)
  {
    var tp := if turbinesFile.Some? && turbinesFile.value.Ok? then TurbinesStagePlan(turbinesFile.value.value) else [];
    SequenceWithoutFaults(t, sp, tp, pos, faults);
    var first := Run(t, sp, pos, faults);
    if first.failed {
    } else if turbinesFile.Some? && turbinesFile.value.Ok? {
      TurbinesStageWithoutFaults(first.tables, turbinesFile.value.value, pos + |sp|, faults);
    } else {
      assert Run(first.tables, tp, pos + |sp|, faults) == RunResult(first.tables, [], false);
    }
  }

  /** With no I/O failure the loader leaves `FaultFreeTables`, and it fails only when the
      server rejects the prune. */
  lemma LoaderWithoutFaults(t: Tables, statesFile: Option<Result<seq<UsState>, string>>,
                            turbinesFile: Option<Result<seq<TurbineCsv>, string>>, pos: nat, faults: set<nat>)
    requires StatesFileUsable(statesFile)
    requires NoFaultsIn(faults, pos, |LoaderPlan(statesFile, turbinesFile)|)
    ensures Run(t, LoaderPlan(statesFile, turbinesFile), pos, faults).tables
         == FaultFreeTables(t, statesFile, turbinesFile)
    ensures Run(t, LoaderPlan(statesFile, turbinesFile), pos, faults).failed <==> PruneRejected(statesFile)
  {
    var tp := if turbinesFile.Some? && turbinesFile.value.Ok? then TurbinesStagePlan(turbinesFile.value.value) else [];
    match statesFile
    case None =>
      assert LoaderPlan(statesFile, turbinesFile) == [] + tp;
      TurbinesAfterWithoutFaults(t, [], turbinesFile, pos, faults);
    case Some(Err(_)) =>
      assert LoaderPlan(statesFile, turbinesFile) == [];
    case Some(Ok(states)) =>
      var sp := StatesStagePlan(states);
      assert LoaderPlan(statesFile, turbinesFile) == sp + tp;
      NoFaultsSplit(faults, pos, |sp|, |tp|);
      StatesStageWithoutFaults(t, states, pos, faults);
      TurbinesAfterWithoutFaults(t, sp, turbinesFile, pos, faults);
  }

  lemma StatesStageTablesIdempotent(t: Tables, states: seq<UsState>)
    requires StateTypesPresent(states)
    ensures StatesStageTables(StatesStageTables(t, states), states) == StatesStageTables(t, states)
  {
    match ReadLiteralList(IdList(Abbreviations(states)))
    case None => UpsertedIdempotent(t.states, states);
    case Some(keep) => PrunedUpsertIdempotent(t.states, states, set k | k in keep);
  }

  lemma FaultFreeTablesIdempotent(t: Tables, statesFile: Option<Result<seq<UsState>, string>>,
                                  turbinesFile: Option<Result<seq<TurbineCsv>, string>>)
    requires StatesFileUsable(statesFile)
    ensures FaultFreeTables(FaultFreeTables(t, statesFile, turbinesFile), statesFile, turbinesFile)
         == FaultFreeTables(t, statesFile, turbinesFile)
  {
    if !(statesFile.Some? && statesFile.value.Err?) {
      if statesFile.Some? {
        StatesStageTablesIdempotent(t, statesFile.value.value);
      }
      if turbinesFile.Some? && turbinesFile.value.Ok? {
        var turbines := turbinesFile.value.value;
        InsertAllAbsentIdempotent(t.counties, Unique(CountyKeys(turbines)));
        InsertAllAbsentIdempotent(t.manufacturers, StoredNames(Unique(ManufacturerNames(turbines))));
      }
    }
  }

  /** Re-running the loader on the same files, with no I/O failure in either run, leaves
      the tables as the first run left them. */
  lemma LoaderIdempotent(t: Tables, statesFile: Option<Result<seq<UsState>, string>>,
                         turbinesFile: Option<Result<seq<TurbineCsv>, string>>,
                         pos1: nat, pos2: nat, faults: set<nat>)
    requires StatesFileUsable(statesFile)
    requires NoFaultsIn(faults, pos1, |LoaderPlan(statesFile, turbinesFile)|)
    requires NoFaultsIn(faults, pos2, |LoaderPlan(statesFile, turbinesFile)|)
    ensures var once := Run(t, LoaderPlan(statesFile, turbinesFile), pos1, faults).tables;
      Run(once, LoaderPlan(statesFile, turbinesFile), pos2, faults).tables == once
  {
    var once := Run(t, LoaderPlan(statesFile, turbinesFile), pos1, faults).tables;
    LoaderWithoutFaults(t, statesFile, turbinesFile, pos1, faults);
    LoaderWithoutFaults(once, statesFile, turbinesFile, pos2, faults);
    FaultFreeTablesIdempotent(t, statesFile, turbinesFile);
  }

  // ---------------------------------------------------------------------------
  // Re-running after a failure
  // ---------------------------------------------------------------------------

  /** An upsert of an id of the file is overwritten by the file's own upserts. */
  lemma UpsertedAbsorbs(m: map<string, StateRow>, states: seq<UsState>, id: string, row: StateRow)
    requires StateTypesPresent(states) && id in AbbreviationSet(states)
    ensures Upserted(m[id := row], states) == Upserted(m, states)
  {
    UpsertedProperties(m, states);
    UpsertedProperties(m[id := row], states);
  }

  /** A prune against a kept set, before the upserts and the same prune, changes nothing. */
  lemma RestrictAbsorbed(m: map<string, StateRow>, states: seq<UsState>, keep: set<string>)
    requires StateTypesPresent(states)
    ensures Restrict(Upserted(Restrict(m, keep), states), keep) == Restrict(Upserted(m, states), keep)
  {
    var pruned := Restrict(m, keep);
    UpsertedProperties(m, states);
    UpsertedProperties(pruned, states);
    var again, once := Restrict(Upserted(pruned, states), keep), Restrict(Upserted(m, states), keep);
    assert again.Keys == once.Keys;
    forall id | id in again ensures again[id] == once[id] {
      if id !in AbbreviationSet(states) {
        assert id in pruned;
      }
    }
  }

  /** Any one statement of the states stage, applied to any tables, leaves what the whole
      stage then leaves unchanged, and touches neither counties nor manufacturers. */
  lemma StatesStepAbsorbed(u: Tables, states: seq<UsState>, s: Statement)
    requires StateTypesPresent(states) && s in StatesStagePlan(states)
    ensures StatesStageTables(Apply(u, s), states) == StatesStageTables(u, states)
    ensures Apply(u, s).counties == u.counties && Apply(u, s).manufacturers == u.manufacturers
  {
    var plan := StatesStagePlan(states);
    var i :| 0 <= i < |plan| && plan[i] == s;
    if 1 <= i <= |states| {
      assert s == UpsertStatements(states)[i - 1];
      assert Abbreviations(states)[i - 1] == s.id;
      UpsertedAbsorbs(u.states, states, s.id, s.row);
    } else if i == |states| + 1 {
      assert s == PruneStates(IdList(Abbreviations(states)));
      match ReadLiteralList(s.idList)
      case None =>
      case Some(keep) => RestrictAbsorbed(u.states, states, set k | k in keep);
    }
  }

  /** A run of statements of the states stage, wherever it stops, leaves tables from which
      the states stage leaves what it leaves from the start. */
  lemma {:induction false} StatesRunAbsorbed(t: Tables, states: seq<UsState>, plan: seq<Statement>,
                                             pos: nat, faults: set<nat>)
    requires StateTypesPresent(states)
    requires forall i :: 0 <= i < |plan| ==> plan[i] in StatesStagePlan(states)
    ensures var u := Run(t, plan, pos, faults).tables;
      && StatesStageTables(u, states) == StatesStageTables(t, states)
      && u.counties == t.counties && u.manufacturers == t.manufacturers
    decreases |plan|
  {
    if plan != [] && !(pos in faults || !Accepts(plan[0])) {
      StatesStepAbsorbed(t, states, plan[0]);
      assert forall i :: 0 <= i < |plan[1..]| ==> plan[1..][i] == plan[i + 1];
      StatesRunAbsorbed(Apply(t, plan[0]), states, plan[1..], pos + 1, faults);
    }
  }

  /** A states stage that did not fail read its id list and left `StatesStageTables`. */
  lemma StatesStageSucceeded(t: Tables, states: seq<UsState>, pos: nat, faults: set<nat>)
    requires StateTypesPresent(states) && !Run(t, StatesStagePlan(states), pos, faults).failed
    ensures ReadLiteralList(IdList(Abbreviations(states))).Some?
    ensures Run(t, StatesStagePlan(states), pos, faults).tables == StatesStageTables(t, states)
  {
    var plan := StatesStagePlan(states);
    RunStopsAtFirstFailure(t, plan, pos, faults);
    StatesPlanBeforePrune(t, states);
    var r := Run(t, plan, pos, faults);
    assert r.attempts[|states| + 1].succeeded;
    RunSucceeded(t, plan, pos, faults);
    StatesPlanEffect(t, states);
  }

  lemma {:induction false} InsertAllAbsentAppend<T>(rows: seq<T>, p: seq<T>, q: seq<T>)
    ensures InsertAllAbsent(rows, p + q) == InsertAllAbsent(InsertAllAbsent(rows, p), q)
    decreases |p|
  {
    if p == [] {
      assert p + q == q;
    } else {
      assert (p + q)[0] == p[0] && (p + q)[1..] == p[1..] + q;
      InsertAllAbsentAppend(InsertIfAbsent(rows, p[0]), p[1..], q);
    }
  }

  /** Inserting some first keys and then all of them is inserting all of them. */
  lemma InsertAllAbsentPrefix<T>(rows: seq<T>, keys: seq<T>, j: nat)
    requires j <= |keys|
    ensures InsertAllAbsent(InsertAllAbsent(rows, keys[..j]), keys) == InsertAllAbsent(rows, keys)
  {
    var once := InsertAllAbsent(rows, keys[..j]);
    assert keys == keys[..j] + keys[j..];
    InsertAllAbsentAppend(once, keys[..j], keys[j..]);
    InsertAllAbsentIdempotent(rows, keys[..j]);
    InsertAllAbsentAppend(rows, keys[..j], keys[j..]);
  }

  /** A run of the county inserts, wherever it stops, has inserted the first counties. */
  lemma CountyRunPrefix(t: Tables, counties: seq<CountyKey>, pos: nat, faults: set<nat>)
    ensures var r := Run(t, CountyStatements(counties), pos, faults);
      && Completed(r) <= |counties|
      && r.tables == t.(counties := InsertAllAbsent(t.counties, counties[..Completed(r)]))
      && (!r.failed ==> Completed(r) == |counties|)
  {
    var plan := CountyStatements(counties);
    RunKeepsCompletedWrites(t, plan, pos, faults);
    RunStopsAtFirstFailure(t, plan, pos, faults);
    var k := Completed(Run(t, plan, pos, faults));
    assert plan[..k] == CountyStatements(counties[..k]);
    CountyStatementsEffect(t, counties[..k]);
  }

  /** A run of the manufacturer inserts, wherever it stops, has inserted the first names. */
  lemma ManufacturerRunPrefix(t: Tables, names: seq<string>, pos: nat, faults: set<nat>)
    ensures var r := Run(t, ManufacturerStatements(names), pos, faults);
      && Completed(r) <= |names|
      && r.tables == t.(manufacturers := InsertAllAbsent(t.manufacturers, StoredNames(names)[..Completed(r)]))
  {
    var plan := ManufacturerStatements(names);
    RunKeepsCompletedWrites(t, plan, pos, faults);
    var k := Completed(Run(t, plan, pos, faults));
    assert plan[..k] == ManufacturerStatements(names[..k]);
    assert StoredNames(names)[..k] == StoredNames(names[..k]);
    ManufacturerStatementsEffect(t, names[..k]);
  }

  /** The county inserts and then the manufacturer inserts, wherever they stop, leave the
      states alone and tables from which inserting all of them again leaves what inserting
      them from the start leaves. */
  lemma InsertsRunAbsorbed(t: Tables, counties: seq<CountyKey>, names: seq<string>, pos: nat, faults: set<nat>)
    ensures var u := Run(t, CountyStatements(counties) + ManufacturerStatements(names), pos, faults).tables;
      && u.states == t.states
      && InsertAllAbsent(u.counties, counties) == InsertAllAbsent(t.counties, counties)
      && InsertAllAbsent(u.manufacturers, StoredNames(names)) == InsertAllAbsent(t.manufacturers, StoredNames(names))
  {
    var cs, ms := CountyStatements(counties), ManufacturerStatements(names);
    RunAppend(t, cs, ms, pos, faults);
    CountyRunPrefix(t, counties, pos, faults);
    var first := Run(t, cs, pos, faults);
    InsertAllAbsentPrefix(t.counties, counties, Completed(first));
    if !first.failed {
      assert counties[..|counties|] == counties;
      ManufacturerRunPrefix(first.tables, names, pos + |cs|, faults);
      var second := Run(first.tables, ms, pos + |cs|, faults);
      InsertAllAbsentPrefix(t.manufacturers, StoredNames(names), Completed(second));
      InsertAllAbsentIdempotent(t.counties, counties);
    }
  }

  /** A turbines stage, wherever it stops, leaves the states alone and tables from which
      the turbines stage leaves what it leaves from the start. */
  lemma TurbinesRunAbsorbed(t: Tables, turbines: seq<TurbineCsv>, pos: nat, faults: set<nat>)
    ensures var u := Run(t, TurbinesStagePlan(turbines), pos, faults).tables;
      u.states == t.states && TurbinesStageTables(u, turbines) == TurbinesStageTables(t, turbines)
  {
    var counties, names := Unique(CountyKeys(turbines)), Unique(ManufacturerNames(turbines));
    var rest := CountyStatements(counties) + ManufacturerStatements(names);
    assert TurbinesStagePlan(turbines) == [Open] + rest;
    RunAppend(t, [Open], rest, pos, faults);
    RunSingle(t, Open, pos, faults);
    if pos !in faults {
      InsertsRunAbsorbed(t, counties, names, pos + 1, faults);
    }
  }

  /** However I/O failures cut a run of the loader short, the tables it leaves are ones from
      which a fault-free run on the same files leaves what a fault-free run from the start
      leaves. */
  lemma LoaderConverges(t: Tables, statesFile: Option<Result<seq<UsState>, string>>,
                        turbinesFile: Option<Result<seq<TurbineCsv>, string>>, pos: nat, faults: set<nat>)
    requires StatesFileUsable(statesFile)
    ensures FaultFreeTables(Run(t, LoaderPlan(statesFile, turbinesFile), pos, faults).tables, statesFile, turbinesFile)
         == FaultFreeTables(t, statesFile, turbinesFile)
  {
    var tp := if turbinesFile.Some? && turbinesFile.value.Ok? then TurbinesStagePlan(turbinesFile.value.value) else [];
    match statesFile
    case None =>
      assert LoaderPlan(statesFile, turbinesFile) == tp;
      if turbinesFile.Some? && turbinesFile.value.Ok? {
        TurbinesRunAbsorbed(t, turbinesFile.value.value, pos, faults);
      }
    case Some(Err(_)) =>
    case Some(Ok(states)) =>
      assert LoaderPlan(statesFile, turbinesFile) == StatesStagePlan(states) + tp;
      BothStagesConverge(t, states, turbinesFile, pos, faults);
  }

  /** `LoaderConverges` when a states file was read. */
  lemma BothStagesConverge(t: Tables, states: seq<UsState>, turbinesFile: Option<Result<seq<TurbineCsv>, string>>,
                           pos: nat, faults: set<nat>)
    requires StateTypesPresent(states)
    ensures var tp := if turbinesFile.Some? && turbinesFile.value.Ok? then TurbinesStagePlan(turbinesFile.value.value) else [];
      FaultFreeTables(Run(t, StatesStagePlan(states) + tp, pos, faults).tables, Some(Ok(states)), turbinesFile)
        == FaultFreeTables(t, Some(Ok(states)), turbinesFile)
  {
    var tp := if turbinesFile.Some? && turbinesFile.value.Ok? then TurbinesStagePlan(turbinesFile.value.value) else [];
    var sp := StatesStagePlan(states);
    RunAppend(t, sp, tp, pos, faults);
    StatesRunAbsorbed(t, states, sp, pos, faults);
    StatesStageTablesIdempotent(t, states);
    var first := Run(t, sp, pos, faults);
    if !first.failed {
      StatesStageSucceeded(t, states, pos, faults);
      if turbinesFile.Some? && turbinesFile.value.Ok? {
        TurbinesRunAbsorbed(first.tables, turbinesFile.value.value, pos + |sp|, faults);
      }
    }
  }

  /** `LoaderConverges` also when the statement at which the run failed took effect all the
      same, as when the connection drops after the server committed it: the fault-free result
      from those tables is still the fault-free result from the start. */
  lemma LoaderConvergesAfterLostReply(t: Tables, statesFile: Option<Result<seq<UsState>, string>>,
                                      turbinesFile: Option<Result<seq<TurbineCsv>, string>>, pos: nat, faults: set<nat>)
    requires StatesFileUsable(statesFile)
    ensures var plan := LoaderPlan(statesFile, turbinesFile);
      Run(t, plan, pos, faults).failed ==>
        FaultFreeTables(LostReplyTables(t, plan, pos, faults), statesFile, turbinesFile)
          == FaultFreeTables(t, statesFile, turbinesFile)
  {
    var plan := LoaderPlan(statesFile, turbinesFile);
    if Run(t, plan, pos, faults).failed {
      LostReplyIsRun(t, plan, pos, faults);
      var lost :| LostReplyTables(t, plan, pos, faults) == Run(t, plan, pos, lost).tables;
      LoaderConverges(t, statesFile, turbinesFile, pos, lost);
    }
  }

  /** The operator's remedy: after a run cut short by I/O failures, a run on the same files
      with no I/O failure leaves what a fault-free run from the start would have left. */
  lemma LoaderRecovers(t: Tables, statesFile: Option<Result<seq<UsState>, string>>,
                       turbinesFile: Option<Result<seq<TurbineCsv>, string>>,
                       pos1: nat, faults1: set<nat>, pos2: nat, faults2: set<nat>)
    requires StatesFileUsable(statesFile)
    requires NoFaultsIn(faults2, pos2, |LoaderPlan(statesFile, turbinesFile)|)
    ensures var cut := Run(t, LoaderPlan(statesFile, turbinesFile), pos1, faults1).tables;
      Run(cut, LoaderPlan(statesFile, turbinesFile), pos2, faults2).tables
        == FaultFreeTables(t, statesFile, turbinesFile)
  {
    var cut := Run(t, LoaderPlan(statesFile, turbinesFile), pos1, faults1).tables;
    LoaderConverges(t, statesFile, turbinesFile, pos1, faults1);
    LoaderWithoutFaults(cut, statesFile, turbinesFile, pos2, faults2);
  }

  /** With both files read, ids free of quote characters and no I/O failure, the loader
      succeeds and leaves exactly the states of the file, each as its last row gives it,
      next to the counties and manufacturers tables with every distinct new key added. */
  lemma LoaderLoadsFiles(t: Tables, states: seq<UsState>, turbines: seq<TurbineCsv>, pos: nat, faults: set<nat>)
    requires StateTypesPresent(states) && states != [] && NoQuotes(Abbreviations(states))
    requires NoFaultsIn(faults, pos, |LoaderPlan(Some(Ok(states)), Some(Ok(turbines)))|)
    ensures var r := Run(t, LoaderPlan(Some(Ok(states)), Some(Ok(turbines))), pos, faults);
      && !r.failed
      && r.tables == Tables(StateLoad(t.states, states),
                            InsertAllAbsent(t.counties, Unique(CountyKeys(turbines))),
                            InsertAllAbsent(t.manufacturers, StoredNames(Unique(ManufacturerNames(turbines)))))
  {
    ReadIdList(Abbreviations(states));
    LoaderWithoutFaults(t, Some(Ok(states)), Some(Ok(turbines)), pos, faults);
  }
}
