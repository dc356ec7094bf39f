/** What `aggregate_data` promises, stated against `Compose` and `Execute`. */
module AggregatorProperties {
  import opened Wrappers
  import opened PythonValues
  import opened DataAggregator

  // ---------------------------------------------------------------------------
  // Composition

  /** Outside the exempt names, a true `remove_incomplete` wraps the rendered
      query in the `has_data` natural join, a false one leaves it bare, and
      nothing follows the create statement. */
  lemma CompletenessFilter(render: Renderer, name: string, kw: Kwargs, base: string)
    requires name !in CompletenessExempt
    requires RenderQuery(render, name, kw) == Success(base)
    requires RemoveIncomplete in kw
    ensures Compose(render, name, kw) == Success(
              if Truthy(kw[RemoveIncomplete])
              then "CREATE TABLE " + name + " AS " + ("SELECT * FROM (" + base + ") main_query NATURAL JOIN has_data ") + "; "
              else "CREATE TABLE " + name + " AS " + base + "; ")
  {
  }

  /** Past the call of `render_query`, composition looks at no key outside
      `RequiredKeys(name)`: two mappings that render alike and agree there
      compose to the same text or the same error. */
  lemma ComposeReadsOnlyRequiredKeys(render: Renderer, name: string, kw1: Kwargs, kw2: Kwargs)
    requires RenderQuery(render, name, kw1) == RenderQuery(render, name, kw2)
    requires forall k :: k in RequiredKeys(name) ==> (k in kw1 <==> k in kw2)
    requires forall k :: k in RequiredKeys(name) && k in kw1 && k in kw2 ==> kw1[k] == kw2[k]
    ensures Compose(render, name, kw1) == Compose(render, name, kw2)
  {
    if name == Timeline {
      assert MinDuration in RequiredKeys(name);
    } else if name != HasData && name != UnmatchedEvents {
      assert RemoveIncomplete in RequiredKeys(name);
    }
  }

  /** For `has_data`, `unmatched_events` and `timeline` the short-circuiting
      `and` never reads `remove_incomplete`: its presence, absence or value
      makes no difference. */
  lemma ExemptNamesIgnoreRemoveIncomplete(render: Renderer, name: string, kw1: Kwargs, kw2: Kwargs)
    requires name == HasData || name == UnmatchedEvents || name == Timeline
    requires render(name, kw1) == render(name, kw2)
    requires kw1 - {RemoveIncomplete} == kw2 - {RemoveIncomplete}
    ensures Compose(render, name, kw1) == Compose(render, name, kw2)
  {
    forall k | k in RequiredKeys(name)
      ensures (k in kw1 <==> k in kw2) && (k in kw1 && k in kw2 ==> kw1[k] == kw2[k])
    {
      assert k != RemoveIncomplete;
      assert k in kw1 <==> k in kw1 - {RemoveIncomplete};
      assert k in kw2 <==> k in kw2 - {RemoveIncomplete};
      if k in kw1 && k in kw2 {
        assert kw1[k] == (kw1 - {RemoveIncomplete})[k];
        assert kw2[k] == (kw2 - {RemoveIncomplete})[k];
      }
    }
    assert QueryName in kw1 <==> QueryName in kw1 - {RemoveIncomplete};
    assert QueryName in kw2 <==> QueryName in kw2 - {RemoveIncomplete};
    ComposeReadsOnlyRequiredKeys(render, name, kw1, kw2);
  }

  /** `has_data` and `unmatched_events` need no key at all and are never wrapped. */
  lemma ExemptNamesNeverWrapped(render: Renderer, name: string, kw: Kwargs, base: string)
    requires name == HasData || name == UnmatchedEvents
    requires RenderQuery(render, name, kw) == Success(base)
    ensures Compose(render, name, kw) == Success("CREATE TABLE " + name + " AS " + base + "; ")
  {
  }

  /** `split_failures` keeps its rendered text as is and appends one create
      statement, which joins `has_data` exactly when `remove_incomplete` is true. */
  lemma SplitFailuresAppendsOneStatement(render: Renderer, kw: Kwargs, base: string)
    requires RenderQuery(render, SplitFailures, kw) == Success(base)
    requires RemoveIncomplete in kw
    ensures Compose(render, SplitFailures, kw) == Success(
              base + if Truthy(kw[RemoveIncomplete])
                     then " CREATE TABLE split_failures AS SELECT * FROM sf_final NATURAL JOIN has_data; "
                     else " CREATE TABLE split_failures AS SELECT * FROM sf_final; ")
  {
  }

  /** `split_failures` without `remove_incomplete` raises the KeyError of line 28. */
  lemma SplitFailuresNeedsRemoveIncomplete(render: Renderer, kw: Kwargs)
    requires RenderQuery(render, SplitFailures, kw).Success?
    requires RemoveIncomplete !in kw
    ensures Compose(render, SplitFailures, kw) == Failure(MissingKey(RemoveIncomplete))
  {
  }

  /** `timeline`: the unwrapped create statement, then exactly four statements in
      this order: create `unmatched_events` from the rows with a null EndTime,
      delete those rows and the ones shorter than `min_duration`, drop EventId,
      drop Parameter; or the ValueError of `str()` when the threshold is an int
      too long to write out. */
  lemma TimelineStatements(render: Renderer, kw: Kwargs, base: string)
    requires RenderQuery(render, Timeline, kw) == Success(base)
    requires MinDuration in kw
    ensures Compose(render, Timeline, kw) ==
            match Format(kw[MinDuration])
            case None => Failure(UnformattableValue(MinDuration))
            case Some(text) => Success(
              ("CREATE TABLE " + "timeline" + " AS " + base + "; ")
              + " CREATE TABLE unmatched_events AS\n            SELECT StartTime AS TimeStamp, DeviceId, EventId, Parameter\n            FROM timeline WHERE EndTime IS NULL; "
              + (" DELETE FROM timeline WHERE EndTime IS NULL OR Duration < " + text + "; ")
              + " ALTER TABLE timeline DROP COLUMN EventId; "
              + " ALTER TABLE timeline DROP COLUMN Parameter; ")
  {
  }

  /** An int `min_duration` of magnitude `10^4300` or more makes line 42 raise
      ValueError, before anything reaches the store. */
  lemma HugeThresholdRaises(render: Renderer, fails: (seq<string>, string) -> bool, history: seq<string>,
                            kw: Kwargs, toSql: bool, i: int)
    requires RenderQuery(render, Timeline, kw).Success?
    requires MinDuration in kw && kw[MinDuration] == IntValue(i)
    requires Abs(i) >= Pow10(MaxStrDigits)
    ensures Compose(render, Timeline, kw) == Failure(UnformattableValue(MinDuration))
    ensures Execute(render, fails, history, Timeline, toSql, kw) ==
            Trace(Failure(UnformattableValue(MinDuration)), [])
  {
    IntStrLimit(i);
  }

  lemma {:induction false} CancelAround(pre: string, x: string, y: string, post: string)
    requires pre + x + post == pre + y + post
    ensures x == y
  {
    var s := pre + x + post;
    assert |x| == |y|;
    assert x == s[|pre|..|pre| + |x|];
    assert y == (pre + y + post)[|pre|..|pre| + |y|];
  }

  /** The composed `timeline` text determines the `str()` of `min_duration`:
      the value is interpolated verbatim, with nothing around it that could
      absorb a difference. */
  lemma TimelineDeterminesMinDuration(render: Renderer, kw1: Kwargs, kw2: Kwargs)
    requires RenderQuery(render, Timeline, kw1) == RenderQuery(render, Timeline, kw2)
    requires Compose(render, Timeline, kw1).Success?
    requires Compose(render, Timeline, kw1) == Compose(render, Timeline, kw2)
    ensures MinDuration in kw1 && MinDuration in kw2
    ensures Format(kw1[MinDuration]).Some? && Format(kw1[MinDuration]) == Format(kw2[MinDuration])
  {
    var base := RenderQuery(render, Timeline, kw1).value;
    assert MinDuration in RequiredKeys(Timeline);
    TimelineStatements(render, kw1, base);
    TimelineStatements(render, kw2, base);
    var pre := CreateTable(Timeline, base) + CreateUnmatchedEvents + DeleteUnmatchedPrefix;
    var post := "; " + DropEventId + DropParameter;
    var x, y := Format(kw1[MinDuration]).value, Format(kw2[MinDuration]).value;
    SplitAround(CreateTable(Timeline, base) + CreateUnmatchedEvents, DeleteUnmatchedPrefix, x, DropEventId, DropParameter);
    SplitAround(CreateTable(Timeline, base) + CreateUnmatchedEvents, DeleteUnmatchedPrefix, y, DropEventId, DropParameter);
    CancelAround(pre, x, y, post);
  }

  lemma SplitAround(a: string, p: string, x: string, d: string, e: string)
    ensures a + (p + x + "; ") + d + e == (a + p) + x + ("; " + d + e)
  {
  }

  /** An integer `min_duration` can be read back from the composed text. */
  lemma TimelineDeterminesIntMinDuration(render: Renderer, kw1: Kwargs, kw2: Kwargs, a: int, b: int)
    requires RenderQuery(render, Timeline, kw1) == RenderQuery(render, Timeline, kw2)
    requires MinDuration in kw1 && kw1[MinDuration] == IntValue(a)
    requires MinDuration in kw2 && kw2[MinDuration] == IntValue(b)
    requires Compose(render, Timeline, kw1).Success?
    requires Compose(render, Timeline, kw1) == Compose(render, Timeline, kw2)
    ensures a == b
  {
    TimelineDeterminesMinDuration(render, kw1, kw2);
    IntToDecimalInjective(a, b);
  }

  // ---------------------------------------------------------------------------
  // Execution

  /** With `to_sql` the call returns the composed text (or the composition
      error) and never touches the store, whatever the store would do. */
  lemma ToSqlTouchesNothing(render: Renderer, fails1: (seq<string>, string) -> bool, history1: seq<string>,
                            fails2: (seq<string>, string) -> bool, history2: seq<string>,
                            name: string, kw: Kwargs)
    ensures Execute(render, fails1, history1, name, true, kw) == Execute(render, fails2, history2, name, true, kw)
    ensures Execute(render, fails1, history1, name, true, kw) ==
            match Compose(render, name, kw)
            case Success(q) => Trace(Success(Some(q)), [])
            case Failure(e) => Trace(Failure(e), [])
  {
  }

  /** Without `to_sql`, a name other than `full_ped` issues the whole composed
      text in one `conn.query` call and returns None unless that call raises. */
  lemma OneQueryPerAggregation(render: Renderer, fails: (seq<string>, string) -> bool, history: seq<string>,
                               name: string, kw: Kwargs, q: string)
    requires name != FullPed
    requires Compose(render, name, kw) == Success(q)
    ensures Execute(render, fails, history, name, false, kw).issued == [q]
    ensures Execute(render, fails, history, name, false, kw).result ==
            if fails(history, q) then Failure(StoreFailure(q)) else Success(None)
  {
  }

  /** `return_volumes` is read only after the main query ran: when it is
      missing, the query has already been issued and the KeyError follows. */
  lemma ReturnVolumesReadAfterQuery(render: Renderer, fails: (seq<string>, string) -> bool, history: seq<string>,
                                    kw: Kwargs, q: string)
    requires Compose(render, FullPed, kw) == Success(q)
    requires !fails(history, q)
    requires ReturnVolumes !in kw
    ensures Execute(render, fails, history, FullPed, false, kw) == Trace(Failure(MissingKey(ReturnVolumes)), [q])
  {
  }

  /** `full_ped` with a true `return_volumes`: the main query, then the read of
      `full_ped`, then its replacement without Estimated_Hourly. A failure stops
      the sequence there; nothing already issued is taken back. With a false
      `return_volumes` only the main query is issued. */
  lemma FullPedVolumeStatements(render: Renderer, fails: (seq<string>, string) -> bool, history: seq<string>,
                                kw: Kwargs, q: string)
    requires Compose(render, FullPed, kw) == Success(q)
    requires ReturnVolumes in kw
    ensures var t := Execute(render, fails, history, FullPed, false, kw);
            t.issued == (if fails(history, q) || !Truthy(kw[ReturnVolumes]) then [q]
                         else if fails(history + [q], ReadFullPed) then [q, ReadFullPed]
                         else [q, ReadFullPed, ReplaceFullPed])
    ensures var t := Execute(render, fails, history, FullPed, false, kw);
            t.result.Success? <==>
              !fails(history, q)
              && (Truthy(kw[ReturnVolumes]) ==>
                    !fails(history + [q], ReadFullPed) && !fails(history + [q, ReadFullPed], ReplaceFullPed))
    ensures var t := Execute(render, fails, history, FullPed, false, kw);
            t.result.Success? ==> t.result.value == None
  {
  }

  /** A store error is re-raised unchanged: it names the last statement issued,
      the one the store rejected given everything issued before it. */
  lemma StoreErrorReraised(render: Renderer, fails: (seq<string>, string) -> bool, history: seq<string>,
                           name: string, toSql: bool, kw: Kwargs)
    ensures var t := Execute(render, fails, history, name, toSql, kw);
            t.result.Failure? && t.result.error.StoreFailure? ==>
              fails(history + t.issued[..|t.issued| - 1], t.issued[|t.issued| - 1])
  {
    var t := Execute(render, fails, history, name, toSql, kw);
    if t.result.Failure? && t.result.error.StoreFailure? {
      assert |t.issued| == 1 ==> history + t.issued[..0] == history;
      assert |t.issued| == 2 ==> t.issued[..1] == [t.issued[0]];
      assert |t.issued| == 3 ==> t.issued[..2] == [t.issued[0], t.issued[1]];
    }
  }

  /** A composition error (missing template or missing key) is raised before
      anything reaches the store. */
  lemma CompositionErrorsPrecedeStore(render: Renderer, fails: (seq<string>, string) -> bool, history: seq<string>,
                                      name: string, toSql: bool, kw: Kwargs)
    requires RenderQuery(render, name, kw).Failure? || !(RequiredKeys(name) <= kw.Keys) || Unformattable(name, kw)
    ensures Execute(render, fails, history, name, toSql, kw).issued == []
    ensures Execute(render, fails, history, name, toSql, kw).result.Failure?
  {
  }
}
