/** The relational store the data loader writes to: its three tables, the statements the
    loader sends and what each statement means, a run of statements that stops at the first
    failure, and the `Store` object whose methods execute one statement each. */
module LoaderStore {
  import opened Wrappers
  import opened Ints
  import opened LoaderValues

  /** A `dbo.State` row apart from its key `Id`. */
  datatype StateRow = StateRow(
    name: string,
    capital: Option<string>,
    population: Option<i32>,
    areaSquareKm: Option<i32>,
    stateType: string)

  /** A `dbo.County` row: `(StateId, Name)`. */
  type CountyKey = (string, string)

  /** The tables' contents. `dbo.State` is keyed by `Id`; `dbo.County` and `dbo.Manufacturer`
      rows are kept in insertion order, with a NULL manufacturer name as `None`. */
  datatype Tables = Tables(
    states: map<string, StateRow>,
    counties: seq<CountyKey>,
    manufacturers: seq<Option<string>>)

  /** The statements the loader sends. */
  datatype Statement =
    | Open
    | UpsertStateRow(id: string, row: StateRow)
    | PruneStates(idList: string)
    | CountStates
    | InsertCounty(county: CountyKey)
    | InsertNullManufacturer
    | InsertManufacturer(name: string)

  /** A statement sent to the store, and whether the store reported success. */
  datatype Attempt = Attempt(statement: Statement, succeeded: bool)

  // ---------------------------------------------------------------------------
  // Reading the literal list of `NOT IN (...)`
  // ---------------------------------------------------------------------------

  /** The position of the first single quote at or after `from`, or `|s|` if there is none. */
  function NextQuote(s: string, from: nat): (k: nat)
    requires from <= |s|
    ensures from <= k <= |s|
    ensures k < |s| ==> s[k] == '\''
    ensures forall j :: from <= j < k ==> s[j] != '\''
    decreases |s| - from
  {
    if from == |s| || s[from] == '\'' then from else NextQuote(s, from + 1)
  }

  /** The string literals of a list `'a', 'b', ...`, a literal ending at the first quote after
      its opening one. The empty list is rejected, as T-SQL rejects `NOT IN ()`. */
  function ReadLiteralList(text: string): Option<seq<string>>
    decreases |text|
  {
    if |text| == 0 || text[0] != '\'' then None
    else
      var close := NextQuote(text, 1);
      if close == |text| then None
      else
        var rest := text[close + 1..];
        if rest == [] then Some([text[1..close]])
        else if |rest| >= 2 && rest[0] == ',' && rest[1] == ' ' then
          match ReadLiteralList(rest[2..])
          case None => None
          case Some(more) => Some([text[1..close]] + more)
        else None
  }

  predicate NoQuotes(ids: seq<string>) {
    forall i :: 0 <= i < |ids| ==> '\'' !in ids[i]
  }

  /** A list that starts with a quote-free literal: the literal, then what follows it. */
  lemma ReadLiteralHead(id: string, rest: string)
    requires '\'' !in id
    ensures ReadLiteralList(['\''] + id + ['\''] + rest)
         == if rest == [] then Some([id])
            else if |rest| >= 2 && rest[0] == ',' && rest[1] == ' ' then
              match ReadLiteralList(rest[2..])
              case None => None
              case Some(more) => Some([id] + more)
            else None
  {
    var text := ['\''] + id + ['\''] + rest;
    assert forall j :: 1 <= j < 1 + |id| ==> text[j] == id[j - 1];
    assert text[1 + |id|] == '\'';
    NextQuoteSkips(text, 1, 1 + |id|);
    assert text[1..1 + |id|] == id;
    assert text[2 + |id|..] == rest;
  }

  /** No quote between `from` and a quote at `k`: the next quote is at `k`. */
  lemma {:induction false} NextQuoteSkips(s: string, from: nat, k: nat)
    requires from <= k < |s| && s[k] == '\''
    requires forall j :: from <= j < k ==> s[j] != '\''
    ensures NextQuote(s, from) == k
    decreases k - from
  {
    if from < k {
      NextQuoteSkips(s, from + 1, k);
    }
  }

  lemma {:induction false} ReadQuotedList(ids: seq<string>)
    requires ids != [] && NoQuotes(ids)
    ensures ReadLiteralList(QuotedList(ids)) == Some(ids)
    decreases |ids|
  {
    var id := ids[0];
    var rest := SeparatedQuoted(ids[1..]);
    var text := ['\''] + id + ['\''] + rest;
    assert QuotedList(ids) == text;
    ReadLiteralHead(id, rest);
    if |ids| > 1 {
      var tail := QuotedList(ids[1..]);
      assert rest[2..] == tail && rest[0] == ',' && rest[1] == ' ' by {
        assert rest == ", " + tail;
      }
      ReadQuotedList(ids[1..]);
      assert ReadLiteralList(text) == Some([id] + ids[1..]);
      assert ids == [id] + ids[1..];
    } else {
      assert rest == [] && ids == [id];
    }
  }

  /** The prune statement's list names exactly the loader's ids when there is at least one id
      and none contains a quote; with no ids the statement is rejected. */
  lemma ReadIdList(ids: seq<string>)
    ensures ids == [] ==> ReadLiteralList(IdList(ids)) == None
    ensures ids != [] && NoQuotes(ids) ==> ReadLiteralList(IdList(ids)) == Some(ids)
  {
    IdListIsQuotedList(ids);
    if ids != [] && NoQuotes(ids) {
      ReadQuotedList(ids);
    }
  }

  // ---------------------------------------------------------------------------
  // What each statement does
  // ---------------------------------------------------------------------------

  /** The store refuses a statement it cannot parse: a prune whose list is not a literal list. */
  predicate Accepts(s: Statement) {
    s.PruneStates? ==> ReadLiteralList(s.idList).Some?
  }

  /** `IF NOT EXISTS (SELECT 1 ... WHERE <key matches>) INSERT ...`. */
  function InsertIfAbsent<T(==)>(rows: seq<T>, x: T): seq<T> {
    if x in rows then rows else rows + [x]
  }

  /** The rows of `m` whose key is in `keep`. */
  function Restrict(m: map<string, StateRow>, keep: set<string>): (r: map<string, StateRow>)
    ensures r.Keys == m.Keys * keep
    ensures forall id :: id in r ==> r[id] == m[id]
  {
    map id | id in m && id in keep :: m[id]
  }

  function Apply(t: Tables, s: Statement): Tables {
    match s
    case Open => t
    case UpsertStateRow(id, row) => t.(states := t.states[id := row])
    case PruneStates(idList) =>
      (match ReadLiteralList(idList)
       case None => t
       case Some(keep) => t.(states := Restrict(t.states, set k | k in keep)))
    case CountStates => t
    case InsertCounty(county) => t.(counties := InsertIfAbsent(t.counties, county))
    case InsertNullManufacturer => t.(manufacturers := InsertIfAbsent(t.manufacturers, None))
    case InsertManufacturer(name) => t.(manufacturers := InsertIfAbsent(t.manufacturers, Some(name)))
  }

  /** The effect of a whole sequence of statements that all succeed. */
  function ApplyAll(t: Tables, plan: seq<Statement>): Tables
    decreases |plan|
  {
    if plan == [] then t else ApplyAll(Apply(t, plan[0]), plan[1..])
  }

  lemma {:induction false} ApplyAllAppend(t: Tables, p: seq<Statement>, q: seq<Statement>)
    ensures ApplyAll(t, p + q) == ApplyAll(ApplyAll(t, p), q)
    decreases |p|
  {
    if p == [] {
      assert p + q == q;
    } else {
      assert (p + q)[0] == p[0] && (p + q)[1..] == p[1..] + q;
      ApplyAllAppend(Apply(t, p[0]), p[1..], q);
    }
  }

  // ---------------------------------------------------------------------------
  // Runs: statements sent one at a time, stopping at the first failure
  // ---------------------------------------------------------------------------

  datatype RunResult = RunResult(tables: Tables, attempts: seq<Attempt>, failed: bool)

  /** Sending `plan` in order, the first statement at position `pos` of the store's statement
      sequence; a statement fails at a position in `faults` or when the store refuses it, and
      the `?` after each statement stops the run there. */
  function Run(t: Tables, plan: seq<Statement>, pos: nat, faults: set<nat>): RunResult
    decreases |plan|
  {
    if plan == [] then RunResult(t, [], false)
    else if pos in faults || !Accepts(plan[0]) then RunResult(t, [Attempt(plan[0], false)], true)
    else
      var rest := Run(Apply(t, plan[0]), plan[1..], pos + 1, faults);
      RunResult(rest.tables, [Attempt(plan[0], true)] + rest.attempts, rest.failed)
  }

  /** Running one part after another. */
  function Then(first: RunResult, second: RunResult): RunResult {
    RunResult(second.tables, first.attempts + second.attempts, second.failed)
  }

  /** Running `p + q` runs `p` and, unless `p` failed, then runs `q` on what `p` left. */
  lemma {:induction false} RunAppend(t: Tables, p: seq<Statement>, q: seq<Statement>, pos: nat, faults: set<nat>)
    ensures var first := Run(t, p, pos, faults);
      Run(t, p + q, pos, faults)
        == if first.failed then first else Then(first, Run(first.tables, q, pos + |p|, faults))
    decreases |p|
  {
    if p == [] {
      assert p + q == q;
      assert [] + Run(t, q, pos, faults).attempts == Run(t, q, pos, faults).attempts;
    } else {
      assert (p + q)[0] == p[0] && (p + q)[1..] == p[1..] + q;
      if !(pos in faults || !Accepts(p[0])) {
        RunAppend(Apply(t, p[0]), p[1..], q, pos + 1, faults);
        var inner := Run(Apply(t, p[0]), p[1..], pos + 1, faults);
        if !inner.failed {
          var second := Run(inner.tables, q, pos + 1 + |p[1..]|, faults);
          assert [Attempt(p[0], true)] + (inner.attempts + second.attempts)
              == ([Attempt(p[0], true)] + inner.attempts) + second.attempts;
        }
      }
    }
  }

  /** A run sends the plan's statements in order and stops at the first one that fails: every
      attempt but the last succeeded, the run failed exactly when its last attempt failed, a run
      that did not fail sent the whole plan, and an attempt succeeds exactly when its position
      is not a fault and the store accepts the statement. */
  lemma {:induction false} RunStopsAtFirstFailure(t: Tables, plan: seq<Statement>, pos: nat, faults: set<nat>)
    ensures var r := Run(t, plan, pos, faults);
      && |r.attempts| <= |plan|
      && (forall i :: 0 <= i < |r.attempts| ==> r.attempts[i].statement == plan[i])
      && (forall i :: 0 <= i < |r.attempts| - 1 ==> r.attempts[i].succeeded)
      && (r.failed <==> |r.attempts| > 0 && !r.attempts[|r.attempts| - 1].succeeded)
      && (!r.failed ==> |r.attempts| == |plan|)
      && (forall i :: 0 <= i < |r.attempts| ==>
            (r.attempts[i].succeeded <==> pos + i !in faults && Accepts(plan[i])))
    decreases |plan|
  {
    if plan != [] && !(pos in faults || !Accepts(plan[0])) {
      RunStopsAtFirstFailure(Apply(t, plan[0]), plan[1..], pos + 1, faults);
      var rest := Run(Apply(t, plan[0]), plan[1..], pos + 1, faults);
      var r := Run(t, plan, pos, faults);
      assert r.attempts == [Attempt(plan[0], true)] + rest.attempts;
      forall i | 1 <= i < |r.attempts|
        ensures r.attempts[i] == rest.attempts[i - 1] && plan[i] == plan[1..][i - 1]
      {
      }
    }
  }

  /** The number of statements of a run that took effect. */
  function Completed(r: RunResult): nat {
    if r.failed && |r.attempts| > 0 then |r.attempts| - 1 else |r.attempts|
  }

  /** A failed statement undoes nothing: the tables after a run are those the plan's
      successful statements produce. */
  lemma {:induction false} RunKeepsCompletedWrites(t: Tables, plan: seq<Statement>, pos: nat, faults: set<nat>)
    ensures var r := Run(t, plan, pos, faults);
      Completed(r) <= |plan| && r.tables == ApplyAll(t, plan[..Completed(r)])
    decreases |plan|
  {
    if plan != [] && !(pos in faults || !Accepts(plan[0])) {
      RunKeepsCompletedWrites(Apply(t, plan[0]), plan[1..], pos + 1, faults);
      var rest := Run(Apply(t, plan[0]), plan[1..], pos + 1, faults);
      var k := Completed(rest);
      assert Completed(Run(t, plan, pos, faults)) == k + 1;
      assert plan[..k + 1][0] == plan[0] && plan[..k + 1][1..] == plan[1..][..k];
    }
  }

  /** The faults of a run whose failure at `p` came after the statement took effect, such as
      a reply lost once the server committed: `p` succeeds and the run fails one position on. */
  function LostReplyFaults(faults: set<nat>, p: nat): set<nat> {
    faults - {p} + {p + 1}
  }

  /** When the statement a run failed at took effect all the same, the tables are those of
      the run with the failure moved one position on: the statements before it and that one. */
  lemma {:induction false} RunLostReply(t: Tables, plan: seq<Statement>, pos: nat, faults: set<nat>)
    ensures var r := Run(t, plan, pos, faults);
      Completed(r) < |plan| ==>
        Run(t, plan, pos, LostReplyFaults(faults, pos + Completed(r))).tables == Apply(r.tables, plan[Completed(r)])
    decreases |plan|
  {
    if plan != [] {
      var lost := LostReplyFaults(faults, pos + Completed(Run(t, plan, pos, faults)));
      if pos in faults || !Accepts(plan[0]) {
        assert pos !in lost;
        if Accepts(plan[0]) && plan[1..] != [] {
          assert pos + 1 in lost;
        }
      } else {
        RunLostReply(Apply(t, plan[0]), plan[1..], pos + 1, faults);
        var rest := Run(Apply(t, plan[0]), plan[1..], pos + 1, faults);
        if Completed(rest) < |plan[1..]| {
          assert Completed(Run(t, plan, pos, faults)) == Completed(rest) + 1;
          assert lost == LostReplyFaults(faults, pos + 1 + Completed(rest));
          assert pos !in lost;
        }
      }
    }
  }

  /** The tables a run leaves when the statement it failed at took effect all the same. */
  function LostReplyTables(t: Tables, plan: seq<Statement>, pos: nat, faults: set<nat>): (u: Tables)
    ensures var r := Run(t, plan, pos, faults);
      r.failed ==> u == Run(t, plan, pos, LostReplyFaults(faults, pos + Completed(r))).tables
  {
    var r := Run(t, plan, pos, faults);
    RunStopsAtFirstFailure(t, plan, pos, faults);
    RunLostReply(t, plan, pos, faults);
    if r.failed then Apply(r.tables, plan[Completed(r)]) else r.tables
  }

  /** The tables of a failed run whose last statement took effect are those some run of the
      same plan leaves. */
  lemma LostReplyIsRun(t: Tables, plan: seq<Statement>, pos: nat, faults: set<nat>)
    requires Run(t, plan, pos, faults).failed
    ensures exists lost: set<nat> :: LostReplyTables(t, plan, pos, faults) == Run(t, plan, pos, lost).tables
  {
    var lost := LostReplyFaults(faults, pos + Completed(Run(t, plan, pos, faults)));
    assert LostReplyTables(t, plan, pos, faults) == Run(t, plan, pos, lost).tables;
  }

  /** A run that did not fail has the effect of its whole plan. */
  lemma RunSucceeded(t: Tables, plan: seq<Statement>, pos: nat, faults: set<nat>)
    requires !Run(t, plan, pos, faults).failed
    ensures Run(t, plan, pos, faults).tables == ApplyAll(t, plan)
    ensures |Run(t, plan, pos, faults).attempts| == |plan|
  {
    RunStopsAtFirstFailure(t, plan, pos, faults);
    RunKeepsCompletedWrites(t, plan, pos, faults);
    assert plan[..|plan|] == plan;
  }

  /** A run of one statement. */
  lemma RunSingle(t: Tables, s: Statement, pos: nat, faults: set<nat>)
    ensures Run(t, [s], pos, faults)
         == if pos in faults || !Accepts(s) then RunResult(t, [Attempt(s, false)], true)
            else RunResult(Apply(t, s), [Attempt(s, true)], false)
  {
    assert [s][1..] == [];
  }

  /** `RunAppend` with the second part starting where the first part's statements end. */
  lemma RunSequence(t: Tables, p: seq<Statement>, q: seq<Statement>, pos: nat, faults: set<nat>)
    ensures var first := Run(t, p, pos, faults);
      Run(t, p + q, pos, faults)
        == if first.failed then first else Then(first, Run(first.tables, q, pos + |first.attempts|, faults))
  {
    RunAppend(t, p, q, pos, faults);
    if !Run(t, p, pos, faults).failed {
      RunSucceeded(t, p, pos, faults);
    }
  }

  /** One more statement of a plan whose first `i` statements ran without failing. */
  lemma RunExtend(t: Tables, plan: seq<Statement>, i: nat, pos: nat, faults: set<nat>)
    requires i < |plan| && !Run(t, plan[..i], pos, faults).failed
    ensures var before := Run(t, plan[..i], pos, faults);
      var ok := pos + i !in faults && Accepts(plan[i]);
      && |before.attempts| == i
      && Run(t, plan[..i + 1], pos, faults)
           == RunResult(if ok then Apply(before.tables, plan[i]) else before.tables,
                        before.attempts + [Attempt(plan[i], ok)], !ok)
      && (!ok ==> Run(t, plan, pos, faults) == Run(t, plan[..i + 1], pos, faults))
  {
    RunStopsAtFirstFailure(t, plan[..i], pos, faults);
    assert plan[..i + 1] == plan[..i] + [plan[i]];
    RunAppend(t, plan[..i], [plan[i]], pos, faults);
    if !(pos + i !in faults && Accepts(plan[i])) {
      assert plan == plan[..i + 1] + plan[i + 1..];
      RunAppend(t, plan[..i + 1], plan[i + 1..], pos, faults);
    }
  }

  /** The first `k` statements of `plan`, sent from `t` after the statements of `log0`,
      all succeeded and left `tables`, with `log` the statements sent so far. */
  predicate Progress(t: Tables, plan: seq<Statement>, k: nat, log0: seq<Attempt>, faults: set<nat>,
                     tables: Tables, log: seq<Attempt>)
  {
    k <= |plan| &&
    var r := Run(t, plan[..k], |log0|, faults);
    !r.failed && tables == r.tables && log == log0 + r.attempts
  }

  /** Sending `plan` from `t` after the statements of `log0` left `tables` and `log`. */
  predicate Ran(t: Tables, plan: seq<Statement>, log0: seq<Attempt>, faults: set<nat>,
                tables: Tables, log: seq<Attempt>)
  {
    var r := Run(t, plan, |log0|, faults);
    tables == r.tables && log == log0 + r.attempts
  }

  lemma ProgressStart(t: Tables, plan: seq<Statement>, log0: seq<Attempt>, faults: set<nat>)
    ensures Progress(t, plan, 0, log0, faults, t, log0)
  {
    assert plan[..0] == [];
  }

  lemma ProgressDone(t: Tables, plan: seq<Statement>, log0: seq<Attempt>, faults: set<nat>,
                     tables: Tables, log: seq<Attempt>)
    requires Progress(t, plan, |plan|, log0, faults, tables, log)
    ensures Ran(t, plan, log0, faults, tables, log) && !Run(t, plan, |log0|, faults).failed
  {
    assert plan[..|plan|] == plan;
  }

  /** Sending statement `k` next, which succeeds exactly when its position is not a fault
      and the store accepts it: on success the run goes on, on failure the whole run ends. */
  lemma ProgressStep(t: Tables, plan: seq<Statement>, k: nat, log0: seq<Attempt>, faults: set<nat>,
                     tables: Tables, log: seq<Attempt>, ok: bool, tables': Tables, log': seq<Attempt>)
    requires Progress(t, plan, k, log0, faults, tables, log) && k < |plan|
    requires ok == (|log| !in faults && Accepts(plan[k]))
    requires tables' == (if ok then Apply(tables, plan[k]) else tables)
    requires log' == log + [Attempt(plan[k], ok)]
    ensures ok ==> Progress(t, plan, k + 1, log0, faults, tables', log')
    ensures !ok ==> Ran(t, plan, log0, faults, tables', log') && Run(t, plan, |log0|, faults).failed
  {
    RunExtend(t, plan, k, |log0|, faults);
  }

  /** A run of `p` that did not fail, then a run of `q` from where it stopped, make the run
      of `p + q`. */
  lemma RanThen(t: Tables, p: seq<Statement>, q: seq<Statement>, log0: seq<Attempt>, faults: set<nat>,
                tables1: Tables, log1: seq<Attempt>, tables2: Tables, log2: seq<Attempt>)
    requires Ran(t, p, log0, faults, tables1, log1) && !Run(t, p, |log0|, faults).failed
    requires Ran(tables1, q, log1, faults, tables2, log2)
    ensures Ran(t, p + q, log0, faults, tables2, log2)
    ensures Run(t, p + q, |log0|, faults).failed == Run(tables1, q, |log1|, faults).failed
  {
    var first, second := Run(t, p, |log0|, faults), Run(tables1, q, |log1|, faults);
    RunSequence(t, p, q, |log0|, faults);
    assert first.tables == tables1 && |log0| + |first.attempts| == |log1|;
    assert Run(t, p + q, |log0|, faults) == Then(first, second);
    assert log2 == log0 + (first.attempts + second.attempts);
  }

  /** A run of `p` that failed is the run of `p` followed by anything. */
  lemma RanFailed(t: Tables, p: seq<Statement>, q: seq<Statement>, log0: seq<Attempt>, faults: set<nat>,
                  tables: Tables, log: seq<Attempt>)
    requires Ran(t, p, log0, faults, tables, log) && Run(t, p, |log0|, faults).failed
    ensures Ran(t, p + q, log0, faults, tables, log) && Run(t, p + q, |log0|, faults).failed
  {
    PartFailed(t, p, q, |log0|, faults);
  }

  /** A run whose first part fails is that part's run. */
  lemma PartFailed(t: Tables, p: seq<Statement>, q: seq<Statement>, pos: nat, faults: set<nat>)
    requires Run(t, p, pos, faults).failed
    ensures Run(t, p + q, pos, faults) == Run(t, p, pos, faults)
  {
    RunAppend(t, p, q, pos, faults);
  }

  predicate NoFaultsIn(faults: set<nat>, pos: nat, count: nat) {
    forall k :: pos <= k < pos + count ==> k !in faults
  }

  lemma NoFaultsSplit(faults: set<nat>, pos: nat, a: nat, b: nat)
    requires NoFaultsIn(faults, pos, a + b)
    ensures NoFaultsIn(faults, pos, a) && NoFaultsIn(faults, pos + a, b)
  {
  }

  predicate AllAccepted(plan: seq<Statement>) {
    forall i :: 0 <= i < |plan| ==> Accepts(plan[i])
  }

  /** With no fault in its window and every statement accepted, a run succeeds and has the
      effect of the whole plan. */
  lemma {:induction false} RunWithoutFaults(t: Tables, plan: seq<Statement>, pos: nat, faults: set<nat>)
    requires NoFaultsIn(faults, pos, |plan|) && AllAccepted(plan)
    ensures !Run(t, plan, pos, faults).failed
    ensures Run(t, plan, pos, faults).tables == ApplyAll(t, plan)
    decreases |plan|
  {
    if plan != [] {
      assert pos !in faults && Accepts(plan[0]);
      assert forall i :: 0 <= i < |plan[1..]| ==> plan[1..][i] == plan[i + 1];
      RunWithoutFaults(Apply(t, plan[0]), plan[1..], pos + 1, faults);
    }
  }

  // ---------------------------------------------------------------------------
  // The store
  // ---------------------------------------------------------------------------

  /** The database as the loader sees it. `faults` are the positions, counted over every
      statement ever sent, at which the connection or the server reports an error: the model's
      stand-in for I/O failure. `log` records every statement sent and its outcome. */
  class Store {
    var states: map<string, StateRow>
    var counties: seq<CountyKey>
    var manufacturers: seq<Option<string>>
    const faults: set<nat>
    var log: seq<Attempt>

    function Contents(): Tables
      reads this
    {
      Tables(states, counties, manufacturers)
    }

    constructor (initial: Tables, faults: set<nat>)
      ensures Contents() == initial && this.faults == faults && log == []
    {
      states, counties, manufacturers := initial.states, initial.counties, initial.manufacturers;
      this.faults := faults;
      log := [];
    }

    /** `open_ms_sql_connection`. */
    method Connect() returns (ok: bool)
      modifies this`log
      ensures ok == (|old(log)| !in faults)
      ensures log == old(log) + [Attempt(Open, ok)]
    {
      ok := |log| !in faults;
      log := log + [Attempt(Open, ok)];
    }

    /** The transaction `UPDATE dbo.State ... WHERE Id = @P6; IF @@ROWCOUNT = 0 INSERT ...`:
        the row with this id is replaced, or inserted when there was none. */
    method UpsertState(id: string, row: StateRow) returns (ok: bool)
      modifies this`states, this`log
      ensures ok == (|old(log)| !in faults)
      ensures states == if ok then old(states)[id := row] else old(states)
      ensures log == old(log) + [Attempt(UpsertStateRow(id, row), ok)]
    {
      ok := |log| !in faults;
      if ok {
        states := states[id := row];
      }
      log := log + [Attempt(UpsertStateRow(id, row), ok)];
    }

    /** `DELETE dbo.State WHERE Id NOT IN (<idList>)`. */
    method DeleteStatesNotIn(idList: string) returns (ok: bool)
      modifies this`states, this`log
      ensures ok == (|old(log)| !in faults && ReadLiteralList(idList).Some?)
      ensures !ok ==> states == old(states)
      ensures ok ==> states == Restrict(old(states), set k | k in ReadLiteralList(idList).value)
      ensures log == old(log) + [Attempt(PruneStates(idList), ok)]
    {
      var keep := ReadLiteralList(idList);
      ok := |log| !in faults && keep.Some?;
      if ok {
        states := Restrict(states, set k | k in keep.value);
      }
      log := log + [Attempt(PruneStates(idList), ok)];
    }

    /** `SELECT COUNT(*) FROM dbo.State`: a query, which changes nothing. */
    method SelectStateCount() returns (ok: bool, count: nat)
      modifies this`log
      ensures ok == (|old(log)| !in faults)
      ensures ok ==> count == |states|
      ensures log == old(log) + [Attempt(CountStates, ok)]
    {
      ok := |log| !in faults;
      count := if ok then |states| else 0;
      log := log + [Attempt(CountStates, ok)];
    }

    /** `IF NOT EXISTS (... WHERE C2.StateId = @P1 and C2.Name = @P2) INSERT INTO dbo.County ...`. */
    method InsertCountyIfAbsent(stateId: string, name: string) returns (ok: bool)
      modifies this`counties, this`log
      ensures ok == (|old(log)| !in faults)
      ensures counties == if ok && (stateId, name) !in old(counties)
                          then old(counties) + [(stateId, name)] else old(counties)
      ensures log == old(log) + [Attempt(InsertCounty((stateId, name)), ok)]
    {
      ok := |log| !in faults;
      if ok && (stateId, name) !in counties {
        counties := counties + [(stateId, name)];
      }
      log := log + [Attempt(InsertCounty((stateId, name)), ok)];
    }

    /** `IF NOT EXISTS (... WHERE M2.Name IS NULL) INSERT INTO dbo.Manufacturer(Name) VALUES (NULL)`. */
    method InsertNullManufacturerIfAbsent() returns (ok: bool)
      modifies this`manufacturers, this`log
      ensures ok == (|old(log)| !in faults)
      ensures manufacturers == if ok && None !in old(manufacturers)
                               then old(manufacturers) + [None] else old(manufacturers)
      ensures log == old(log) + [Attempt(InsertNullManufacturer, ok)]
    {
      ok := |log| !in faults;
      if ok && None !in manufacturers {
        manufacturers := manufacturers + [None];
      }
      log := log + [Attempt(InsertNullManufacturer, ok)];
    }

    /** `IF NOT EXISTS (... WHERE M2.Name = @P1) INSERT INTO dbo.Manufacturer(Name) VALUES (@P1)`. */
    method InsertManufacturerIfAbsent(name: string) returns (ok: bool)
      modifies this`manufacturers, this`log
      ensures ok == (|old(log)| !in faults)
      ensures manufacturers == if ok && Some(name) !in old(manufacturers)
                               then old(manufacturers) + [Some(name)] else old(manufacturers)
      ensures log == old(log) + [Attempt(InsertManufacturer(name), ok)]
    {
      ok := |log| !in faults;
      if ok && Some(name) !in manufacturers {
        manufacturers := manufacturers + [Some(name)];
      }
      log := log + [Attempt(InsertManufacturer(name), ok)];
    }
  }
}
