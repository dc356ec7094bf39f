/** `aggregate_data` (src/atspm/data_aggregator.py): compose one SQL string for
    a named aggregation, then either return it or send it to the store, with a
    volume follow-up for `full_ped`.

    The composition half is the pure function `Compose`. The execution half is
    `AggregateData`, a method on a `Connection` whose only state is the log of
    statements issued to `conn.query`; `Execute` is the pure function that
    specifies it. */
module DataAggregator {
  import opened Wrappers
  import opened PythonValues

  /** The `**kwargs` mapping passed through to the template and inspected here. */
  type Kwargs = map<string, Value>

  /** The template engine behind `render_query(name, **kwargs)`, seen from
      outside. `None` stands for any error it raises: a template that cannot be
      found, a syntax error in it, an undefined variable. */
  type Renderer = (string, Kwargs) -> Option<string>

  datatype Error =
    | RenderFailure(name: string)          // raised while rendering the template
    | DuplicateArgument(key: string)       // TypeError: kwargs repeats a parameter of render_query
    | MissingKey(key: string)              // KeyError from kwargs[key]
    | UnformattableValue(key: string)      // ValueError from str() of kwargs[key]
    | StoreFailure(statement: string)      // raised by conn.query(statement)

  const HasData := "has_data"
  const UnmatchedEvents := "unmatched_events"
  const Timeline := "timeline"
  const SplitFailures := "split_failures"
  const FullPed := "full_ped"

  /** The positional parameter of `render_query` that `**kwargs` must not repeat. */
  const QueryName := "query_name"
  const RemoveIncomplete := "remove_incomplete"
  const MinDuration := "min_duration"
  const ReturnVolumes := "return_volumes"

  /** Names whose rendered query is never wrapped in the `has_data` join. */
  const CompletenessExempt: set<string> := {HasData, UnmatchedEvents, Timeline, SplitFailures}

  const SplitFailuresJoined := " CREATE TABLE split_failures AS SELECT * FROM sf_final NATURAL JOIN has_data; "
  const SplitFailuresPlain := " CREATE TABLE split_failures AS SELECT * FROM sf_final; "

  const CreateUnmatchedEvents :=
    " CREATE TABLE unmatched_events AS\n            SELECT StartTime AS TimeStamp, DeviceId, EventId, Parameter\n            FROM timeline WHERE EndTime IS NULL; "
  const DropEventId := " ALTER TABLE timeline DROP COLUMN EventId; "
  const DropParameter := " ALTER TABLE timeline DROP COLUMN Parameter; "

  const ReadFullPed := "SELECT * FROM full_ped"
  const ReplaceFullPed :=
    "\n"
    + "                    CREATE OR REPLACE TABLE full_ped AS\n"
    + "                    SELECT * EXCLUDE (Estimated_Hourly)\n"
    + "                    FROM ped_data\n"
    + "                    WHERE PedServices >0 OR PedActuation >0 OR Unique_Actuations >0 OR Estimated_Volumes\n"
    + "                    "

  /** `kwargs[key]`: the value, or the KeyError Python raises. */
  function Lookup(kw: Kwargs, key: string): (r: Result<Value, Error>)
    ensures r.Success? <==> key in kw
    ensures r.Success? ==> r.value == kw[key]
    ensures r.Failure? ==> r.error == MissingKey(key)
  {
    if key in kw then Success(kw[key]) else Failure(MissingKey(key))
  }

  /** The completeness filter: an outer query joining the rendered one with `has_data`. */
  function JoinHasData(query: string): string {
    "SELECT * FROM (" + query + ") main_query NATURAL JOIN has_data "
  }

  function CreateTable(name: string, query: string): string {
    "CREATE TABLE " + name + " AS " + query + "; "
  }

  const DeleteUnmatchedPrefix := " DELETE FROM timeline WHERE EndTime IS NULL OR Duration < "

  function DeleteUnmatched(minDuration: string): string {
    DeleteUnmatchedPrefix + minDuration + "; "
  }

  /** `f"{kwargs[key]}"`: the value's text, or the ValueError `str()` raises. */
  function Interpolate(v: Value, key: string): (r: Result<string, Error>)
    ensures r.Failure? <==> Format(v).None?
    ensures r.Failure? ==> r.error == UnformattableValue(key)
    ensures r.Success? ==> r.value == Format(v).value
  {
    match Format(v)
    case None => Failure(UnformattableValue(key))
    case Some(text) => Success(text)
  }

  /** The keys composition reads for `name`; the short-circuiting `and` of
      the completeness test never reads `remove_incomplete` of an exempt name. */
  function RequiredKeys(name: string): (keys: set<string>)
    ensures RemoveIncomplete in keys <==> name !in {HasData, UnmatchedEvents, Timeline}
    ensures MinDuration in keys <==> name == Timeline
    ensures keys <= {RemoveIncomplete, MinDuration}
  {
    if name == HasData || name == UnmatchedEvents then {}
    else if name == Timeline then {MinDuration}
    else {RemoveIncomplete}
  }

  /** The value of `min_duration` makes timeline's composition raise. */
  predicate Unformattable(name: string, kw: Kwargs) {
    name == Timeline && MinDuration in kw && Format(kw[MinDuration]).None?
  }

  /** Line 19: `render_query(aggregation_name, **kwargs)`. A `query_name` key
      clashes with the positional parameter before the template is touched. */
  function RenderQuery(render: Renderer, name: string, kw: Kwargs): (r: Result<string, Error>)
    ensures r.Failure? <==> QueryName in kw || render(name, kw).None?
    ensures QueryName in kw ==> r == Failure(DuplicateArgument(QueryName))
    ensures QueryName !in kw && render(name, kw).None? ==> r == Failure(RenderFailure(name))
    ensures r.Success? ==> r.value == render(name, kw).value
  {
    if QueryName in kw then Failure(DuplicateArgument(QueryName))
    else match render(name, kw)
      case None => Failure(RenderFailure(name))
      case Some(text) => Success(text)
  }

  /** Lines 21-24: the completeness filter, applied outside the exempt names
      when `remove_incomplete` is truthy. */
  function FilterStep(rendered: string, name: string, kw: Kwargs): (r: Result<string, Error>)
    ensures r.Failure? <==> name !in CompletenessExempt && RemoveIncomplete !in kw
    ensures r.Failure? ==> r.error == MissingKey(RemoveIncomplete)
  {
    if name in CompletenessExempt then Success(rendered)
    else
      var flag :- Lookup(kw, RemoveIncomplete);
      Success(if Truthy(flag) then JoinHasData(rendered) else rendered)
  }

  /** Lines 26-33: the create statement, or for `split_failures` the rendered
      text followed by its own create statement. */
  function CreateStep(filtered: string, name: string, kw: Kwargs): (r: Result<string, Error>)
    ensures r.Failure? <==> name == SplitFailures && RemoveIncomplete !in kw
    ensures r.Failure? ==> r.error == MissingKey(RemoveIncomplete)
    ensures r.Success? && name != SplitFailures ==> "CREATE TABLE " + name + " AS " <= r.value
    ensures r.Success? && name == SplitFailures ==> filtered <= r.value
  {
    if name == SplitFailures then
      var flag :- Lookup(kw, RemoveIncomplete);
      Success(filtered + if Truthy(flag) then SplitFailuresJoined else SplitFailuresPlain)
    else Success(CreateTable(name, filtered))
  }

  /** Lines 35-45: the four statements that follow the create statement of `timeline`. */
  function TimelineStep(created: string, name: string, kw: Kwargs): (r: Result<string, Error>)
    ensures r.Failure? <==> name == Timeline && (MinDuration !in kw || Unformattable(name, kw))
    ensures r.Failure? ==>
              r.error == if MinDuration in kw then UnformattableValue(MinDuration) else MissingKey(MinDuration)
    ensures r.Success? ==> created <= r.value
    ensures r.Success? && name != Timeline ==> r.value == created
  {
    if name == Timeline then
      var minDuration :- Lookup(kw, MinDuration);
      var text :- Interpolate(minDuration, MinDuration);
      Success(created + CreateUnmatchedEvents + DeleteUnmatched(text) + DropEventId + DropParameter)
    else Success(created)
  }

  /** Prefixes compose. */
  lemma PrefixTransitive(a: string, b: string, c: string)
    requires a <= b && b <= c
    ensures a <= c
  {
    assert a == b[..|a|] && b == c[..|b|];
  }

  /** The SQL text `aggregate_data` builds in its local `query`, or the error
      raised while building it. */
  function Compose(render: Renderer, name: string, kw: Kwargs): (r: Result<string, Error>)
    ensures r.Failure? <==>
              RenderQuery(render, name, kw).Failure? || !(RequiredKeys(name) <= kw.Keys) || Unformattable(name, kw)
    ensures RenderQuery(render, name, kw).Failure? ==> r == Failure(RenderQuery(render, name, kw).error)
    ensures RenderQuery(render, name, kw).Success? && r.Failure? ==>
              || (r.error.MissingKey? && r.error.key in RequiredKeys(name) && r.error.key !in kw)
              || (r.error == UnformattableValue(MinDuration) && Unformattable(name, kw))
    ensures r.Success? && name != SplitFailures ==> "CREATE TABLE " + name + " AS " <= r.value
    ensures r.Success? && name == SplitFailures ==> render(name, kw).value <= r.value
  {
    match RenderQuery(render, name, kw)
    case Failure(e) => Failure(e)
    case Success(rendered) =>
      var filtered :- FilterStep(rendered, name, kw);
      var created :- CreateStep(filtered, name, kw);
      var r := TimelineStep(created, name, kw);
      assert r.Success? && name != SplitFailures ==> "CREATE TABLE " + name + " AS " <= r.value by {
        if r.Success? && name != SplitFailures {
          PrefixTransitive("CREATE TABLE " + name + " AS ", created, r.value);
        }
      }
      assert r.Success? && name == SplitFailures ==> rendered <= r.value by {
        if r.Success? && name == SplitFailures {
          assert filtered == rendered;
        }
      }
      r
  }

  /** What one call does: its result (`Some(text)` for `to_sql`, `None` after
      execution, or the error it raises) and the statements it issued. */
  datatype Trace = Trace(result: Result<Option<string>, Error>, issued: seq<string>)

  /** The specification of `AggregateData`. `fails(history, s)` says whether the
      store rejects statement `s` after the statements `history`. */
  function Execute(render: Renderer, fails: (seq<string>, string) -> bool, history: seq<string>,
                   name: string, toSql: bool, kw: Kwargs): (t: Trace)
    ensures toSql ==> t.issued == []
    ensures Compose(render, name, kw).Failure? ==> t == Trace(Failure(Compose(render, name, kw).error), [])
    ensures t.issued != [] ==> Compose(render, name, kw).Success? && t.issued[0] == Compose(render, name, kw).value
    ensures |t.issued| <= 1 || (name == FullPed && t.issued[1..] <= [ReadFullPed, ReplaceFullPed])
    ensures t.result.Success? && t.result.value.Some? <==> toSql && Compose(render, name, kw).Success?
    ensures t.result.Failure? && t.result.error.StoreFailure? ==>
              t.issued != [] && t.issued[|t.issued| - 1] == t.result.error.statement
  {
    match Compose(render, name, kw)
    case Failure(e) => Trace(Failure(e), [])
    case Success(query) =>
      if toSql then Trace(Success(Some(query)), [])
      else if fails(history, query) then Trace(Failure(StoreFailure(query)), [query])
      else if name != FullPed then Trace(Success(None), [query])
      else if ReturnVolumes !in kw then Trace(Failure(MissingKey(ReturnVolumes)), [query])
      else if !Truthy(kw[ReturnVolumes]) then Trace(Success(None), [query])
      else if fails(history + [query], ReadFullPed) then
        Trace(Failure(StoreFailure(ReadFullPed)), [query, ReadFullPed])
      else if fails(history + [query, ReadFullPed], ReplaceFullPed) then
        Trace(Failure(StoreFailure(ReplaceFullPed)), [query, ReadFullPed, ReplaceFullPed])
      else Trace(Success(None), [query, ReadFullPed, ReplaceFullPed])
  }

  /** The store connection, reduced to the statements sent through `query`. */
  class Connection {
    /** Every statement passed to `query`, in order, including one that failed. */
    var log: seq<string>
    /** Which statements the store rejects, given what it has already run. */
    const fails: (seq<string>, string) -> bool

    constructor (fails: (seq<string>, string) -> bool)
      ensures log == [] && this.fails == fails
    {
      log := [];
      this.fails := fails;
    }

    /** `conn.query(statement)`; the rows it returns are not modelled. */
    method Query(statement: string) returns (o: Outcome<Error>)
      modifies this
      ensures log == old(log) + [statement]
      ensures o == if fails(old(log), statement) then Fail(StoreFailure(statement)) else Pass
    {
      o := if fails(log, statement) then Fail(StoreFailure(statement)) else Pass;
      log := log + [statement];
    }
  }

  /** `aggregate_data(conn, name, to_sql, **kwargs)`. */
  method AggregateData(conn: Connection, render: Renderer, name: string, toSql: bool, kw: Kwargs)
    returns (r: Result<Option<string>, Error>)
    modifies conn
    ensures r == Execute(render, conn.fails, old(conn.log), name, toSql, kw).result
    ensures conn.log == old(conn.log) + Execute(render, conn.fails, old(conn.log), name, toSql, kw).issued
  {
    var composed := Compose(render, name, kw);
    if composed.Failure? {
      return Failure(composed.error);
    }
    var query := composed.value;
    if toSql {
      return Success(Some(query));
    }
    var o := conn.Query(query);
    if o.Fail? {
      return Failure(o.error);
    }
    if name == FullPed {
      var flag := Lookup(kw, ReturnVolumes);
      if flag.Failure? {
        return Failure(flag.error);
      }
      if Truthy(flag.value) {
        o := conn.Query(ReadFullPed);
        if o.Fail? {
          return Failure(o.error);
        }
        // The per-(DeviceId, Phase) undo_rolling_sum on the dataframe happens here.
        assert conn.log == old(conn.log) + [query, ReadFullPed];
        o := conn.Query(ReplaceFullPed);
        if o.Fail? {
          return Failure(o.error);
        }
      }
    }
    return Success(None);
  }
}
