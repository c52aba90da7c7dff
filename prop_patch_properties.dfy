/**
  What one `setProperties` call guarantees, proved about its specification
  `SetPropertiesSpec` (which `PropertySourcePatchSetter.SetProperties` is
  proved to implement).
*/
module PropPatchProperties {
  import opened Wrappers
  import opened PropPatch

  // ---------------------------------------------------------------------
  // Choosing the source for one name
  // ---------------------------------------------------------------------

  /** First match wins and there is no fallback: once a source claims the
      name, appending further sources after it changes nothing, whatever
      those sources would have answered and however the claiming source's
      write ends (success, 401, 403 or its own status). */
  lemma NoFallbackToLaterSources(sources: seq<PropertySource>, more: seq<PropertySource>,
                                 writers: ValueWriters, r: Resource, op: Op)
    requires FirstClaim(sources, op.name, r, 0).Some?
    ensures Dispatch(sources + more, writers, r, op) == Dispatch(sources, writers, r, op)
  {
    var k := FirstClaim(sources, op.name, r, 0).value;
    assert (sources + more)[k] == sources[k];
    forall j | 0 <= j < k ensures !Claims((sources + more)[j], op.name, r) {
      assert (sources + more)[j] == sources[j];
    }
    FirstClaimAt(sources + more, op.name, r, k);
  }

  /** The calls made for one name: metadata lookups on the sources up to the
      claiming one and no further, then at most a parse and one write or
      clear, and only on the claiming source. */
  lemma LaterSourcesNotConsulted(sources: seq<PropertySource>, writers: ValueWriters, r: Resource, op: Op)
    requires FirstClaim(sources, op.name, r, 0).Some?
    ensures var k := FirstClaim(sources, op.name, r, 0).value;
      forall c :: c in Dispatch(sources, writers, r, op).calls ==>
        && c.name == op.name
        && (c.GetPropertyMetaData? ==> c.source <= k)
        && (c.SetProperty? ==> c.source == k && op.SetField?)
        && (c.ClearProperty? ==> c.source == k && op.RemoveField?)
        && !c.DoCommit?
  {
  }

  /** A name that no source claims fails with 404 "Unknown property" after
      every source has been asked, for sets and removes alike. */
  lemma UnclaimedIsNotFound(sources: seq<PropertySource>, writers: ValueWriters, r: Resource, op: Op)
    requires forall j :: 0 <= j < |sources| ==> !Claims(sources[j], op.name, r)
    ensures Dispatch(sources, writers, r, op)
         == Step(Lookups(op.name, |sources|), Recorded(Failed(StatusNotFound, UnknownPropertyNote)))
  {
  }

  /** A claimed but read-only property fails with 403 "Property is read only";
      neither the codec nor `setProperty` nor `clearProperty` is called, so
      the outcome is the same with any codec. */
  lemma ReadOnlyIsForbidden(sources: seq<PropertySource>, writers: ValueWriters, otherWriters: ValueWriters,
                            r: Resource, op: Op)
    requires FirstClaim(sources, op.name, r, 0).Some?
    requires !sources[FirstClaim(sources, op.name, r, 0).value].getPropertyMetaData(op.name, r).value.writable
    ensures Dispatch(sources, writers, r, op).result == Recorded(Failed(StatusForbidden, ReadOnlyNote))
    ensures forall c :: c in Dispatch(sources, writers, r, op).calls ==> c.GetPropertyMetaData?
    ensures Dispatch(sources, otherWriters, r, op) == Dispatch(sources, writers, r, op)
  {
  }

  /** A writable property to set: the value is parsed with the declared type;
      a parse failure aborts; otherwise `setProperty` decides the outcome:
      success records the declared type, `NotAuthorizedException` gives 401
      "Not authorised", and `PropertySetException` gives exactly its own
      status and notes. */
  lemma SetOutcome(sources: seq<PropertySource>, writers: ValueWriters, r: Resource, name: QName, raw: string)
    requires FirstClaim(sources, name, r, 0).Some?
    requires sources[FirstClaim(sources, name, r, 0).value].getPropertyMetaData(name, r).value.writable
    ensures var k := FirstClaim(sources, name, r, 0).value;
      var meta := sources[k].getPropertyMetaData(name, r).value;
      var parsed := writers.parse(name, meta.valueType, raw);
      var step := Dispatch(sources, writers, r, SetField(name, raw));
      && (parsed.None? <==> step.result.ParseFailed?)
      && (parsed.Some? ==>
            var w := sources[k].setProperty(name, parsed.value, r);
            && step.calls[|step.calls| - 1] == SetProperty(k, name, parsed.value)
            && (w.Written? ==> step.result.outcome == Applied(meta.valueType))
            && (w.NotAuthorized? ==> step.result.outcome == Failed(StatusUnauthorized, NotAuthorisedNote))
            && (w.PropertySetException? ==> step.result.outcome == Failed(w.status, w.errorNotes)))
  {
  }

  /** A writable property to remove: `clearProperty` decides the outcome, as
      `setProperty` does for a set; a remove never calls the codec. */
  lemma RemoveOutcome(sources: seq<PropertySource>, writers: ValueWriters, r: Resource, name: QName)
    requires FirstClaim(sources, name, r, 0).Some?
    requires sources[FirstClaim(sources, name, r, 0).value].getPropertyMetaData(name, r).value.writable
    ensures var k := FirstClaim(sources, name, r, 0).value;
      var meta := sources[k].getPropertyMetaData(name, r).value;
      var w := sources[k].clearProperty(name, r);
      var step := Dispatch(sources, writers, r, RemoveField(name));
      && step.calls == Lookups(name, k + 1) + [ClearProperty(k, name)]
      && (w.Written? ==> step.result == Recorded(Applied(meta.valueType)))
      && (w.NotAuthorized? ==> step.result == Recorded(Failed(StatusUnauthorized, NotAuthorisedNote)))
      && (w.PropertySetException? ==> step.result == Recorded(Failed(w.status, w.errorNotes)))
  {
  }

  /** The claiming source's own `setProperty` or `clearProperty` raised
      `PropertySetException` with this status and these notes. */
  ghost predicate RaisedByClaimingSource(sources: seq<PropertySource>, writers: ValueWriters, r: Resource,
                                         op: Op, status: int, notes: string)
  {
    var k := FirstClaim(sources, op.name, r, 0);
    && k.Some?
    && var meta := sources[k.value].getPropertyMetaData(op.name, r).value;
    && meta.writable
    && match op
       case RemoveField(name) => sources[k.value].clearProperty(name, r) == PropertySetException(status, notes)
       case SetField(name, raw) =>
         var v := writers.parse(name, meta.valueType, raw);
         v.Some? && sources[k.value].setProperty(name, v.value, r) == PropertySetException(status, notes)
  }

  /** The claiming source's own `setProperty` or `clearProperty` raised
      `NotAuthorizedException`. */
  ghost predicate RefusedByClaimingSource(sources: seq<PropertySource>, writers: ValueWriters, r: Resource, op: Op)
  {
    var k := FirstClaim(sources, op.name, r, 0);
    && k.Some?
    && var meta := sources[k.value].getPropertyMetaData(op.name, r).value;
    && meta.writable
    && match op
       case RemoveField(name) => sources[k.value].clearProperty(name, r) == NotAuthorized
       case SetField(name, raw) =>
         var v := writers.parse(name, meta.valueType, raw);
         v.Some? && sources[k.value].setProperty(name, v.value, r) == NotAuthorized
  }

  /** The claiming source declares the property read-only. */
  ghost predicate ClaimedReadOnly(sources: seq<PropertySource>, r: Resource, name: QName)
  {
    var k := FirstClaim(sources, name, r, 0);
    k.Some? && !sources[k.value].getPropertyMetaData(name, r).value.writable
  }

  /** Every failure has its cause: 404 "Unknown property" when no source
      claims the name, 403 "Property is read only" when the claiming source
      declares it read-only, 401 "Not authorised" when the claiming source
      refused the write or clear, or a status and notes the claiming source
      raised itself. */
  lemma FailureComesFromKnownCause(sources: seq<PropertySource>, writers: ValueWriters, r: Resource, op: Op)
    requires Dispatch(sources, writers, r, op).result.Recorded?
    requires Dispatch(sources, writers, r, op).result.outcome.Failed?
    ensures var o := Dispatch(sources, writers, r, op).result.outcome;
      || (o == Failed(StatusNotFound, UnknownPropertyNote) && FirstClaim(sources, op.name, r, 0).None?)
      || (o == Failed(StatusForbidden, ReadOnlyNote) && ClaimedReadOnly(sources, r, op.name))
      || (o == Failed(StatusUnauthorized, NotAuthorisedNote) && RefusedByClaimingSource(sources, writers, r, op))
      || RaisedByClaimingSource(sources, writers, r, op, o.status, o.notes)
  {
  }

  /** A remove never aborts the call. */
  lemma RemoveNeverAborts(sources: seq<PropertySource>, writers: ValueWriters, r: Resource, name: QName)
    ensures Dispatch(sources, writers, r, RemoveField(name)).result.Recorded?
  {
  }

  // ---------------------------------------------------------------------
  // Runs over several names
  // ---------------------------------------------------------------------

  /** Continuing a run with more names. */
  function Then(sources: seq<PropertySource>, writers: ValueWriters, r: Resource, run: Run, ops: seq<Op>): Run
  {
    match run.report
    case None => run
    case Some(rep) => Prepend(run.calls, RunOps(sources, writers, r, ops, rep))
  }

  lemma PrependTwice(first: seq<Call>, second: seq<Call>, run: Run)
    ensures Prepend(first, Prepend(second, run)) == Prepend(first + second, run)
  {
    assert first + (second + run.calls) == (first + second) + run.calls;
  }

  /** Processing `a + b` is processing all of `a`, then, unless a parse failure
      ended it, all of `b` from where `a` left the maps. */
  lemma {:induction false} RunOpsAppend(sources: seq<PropertySource>, writers: ValueWriters, r: Resource,
                                        a: seq<Op>, b: seq<Op>, acc: Report)
    decreases |a|
    ensures RunOps(sources, writers, r, a + b, acc) == Then(sources, writers, r, RunOps(sources, writers, r, a, acc), b)
  {
    if a == [] {
      assert a + b == b;
      assert [] + RunOps(sources, writers, r, b, acc).calls == RunOps(sources, writers, r, b, acc).calls;
    } else {
      assert (a + b)[0] == a[0];
      assert (a + b)[1..] == a[1..] + b;
      var step := Dispatch(sources, writers, r, a[0]);
      match step.result
      case ParseFailed =>
      case Recorded(o) =>
        var acc' := Record(acc, a[0].name, o);
        RunOpsAppend(sources, writers, r, a[1..], b, acc');
        var tail := RunOps(sources, writers, r, a[1..], acc');
        if tail.report.Some? {
          PrependTwice(step.calls, tail.calls, RunOps(sources, writers, r, b, tail.report.value));
        }
    }
  }

  /** A run is aborted exactly when one of its names hits a parse failure. */
  lemma {:induction false} RunAbortsIff(sources: seq<PropertySource>, writers: ValueWriters, r: Resource,
                                        ops: seq<Op>, acc: Report)
    decreases |ops|
    ensures RunOps(sources, writers, r, ops, acc).report.None?
        <==> exists i :: 0 <= i < |ops| && Dispatch(sources, writers, r, ops[i]).result.ParseFailed?
  {
    if ops != [] {
      var step := Dispatch(sources, writers, r, ops[0]);
      match step.result
      case ParseFailed =>
      case Recorded(o) =>
        RunAbortsIff(sources, writers, r, ops[1..], Record(acc, ops[0].name, o));
        if exists i :: 0 <= i < |ops| && Dispatch(sources, writers, r, ops[i]).result.ParseFailed? {
          var i :| 0 <= i < |ops| && Dispatch(sources, writers, r, ops[i]).result.ParseFailed?;
          assert ops[1..][i - 1] == ops[i];
        }
        forall i | 0 <= i < |ops| - 1 && Dispatch(sources, writers, r, ops[1..][i]).result.ParseFailed?
          ensures Dispatch(sources, writers, r, ops[i + 1]).result.ParseFailed?
        {
          assert ops[1..][i] == ops[i + 1];
        }
    }
  }

  // ---------------------------------------------------------------------
  // Exactly one outcome per name
  // ---------------------------------------------------------------------

  /** How many entries of an error list are about `name`. */
  function CountName(list: seq<NameAndError>, name: QName): nat
  {
    if list == [] then 0
    else CountName(list[..|list| - 1], name) + (if list[|list| - 1].name == name then 1 else 0)
  }

  lemma CountNameAppend(list: seq<NameAndError>, ne: NameAndError, name: QName)
    ensures CountName(list + [ne], name) == CountName(list, name) + (if ne.name == name then 1 else 0)
  {
    assert (list + [ne])[..|list|] == list;
  }

  /** Nothing is recorded about `name` in either map. */
  ghost predicate Untouched(rep: Report, name: QName)
  {
    && name !in rep.knownProps
    && forall s :: s in rep.errorProps ==> CountName(rep.errorProps[s], name) == 0
  }

  /** `name` is recorded exactly once, as outcome `o`: in `knownProps` for a
      success, as one entry of the list of its status for a failure. */
  ghost predicate RecordedOnce(rep: Report, name: QName, o: Outcome)
  {
    match o
    case Applied(valueType) =>
      && name in rep.knownProps && rep.knownProps[name] == ValueAndType(None, valueType)
      && forall s :: s in rep.errorProps ==> CountName(rep.errorProps[s], name) == 0
    case Failed(status, notes) =>
      && name !in rep.knownProps
      && status in rep.errorProps
      && CountName(rep.errorProps[status], name) == 1
      && NameAndError(name, notes) in rep.errorProps[status]
      && forall s :: s in rep.errorProps && s != status ==> CountName(rep.errorProps[s], name) == 0
  }

  /** Recording an outcome for `name` affects no other name, and records
      `name` once when it was untouched. */
  lemma RecordEffect(rep: Report, name: QName, o: Outcome)
    ensures Untouched(rep, name) ==> RecordedOnce(Record(rep, name, o), name, o)
    ensures forall n :: n != name && Untouched(rep, n) ==> Untouched(Record(rep, name, o), n)
    ensures forall n, o' :: n != name && RecordedOnce(rep, n, o') ==> RecordedOnce(Record(rep, name, o), n, o')
  {
    var rep' := Record(rep, name, o);
    match o
    case Applied(_) =>
    case Failed(status, notes) =>
      var ne := NameAndError(name, notes);
      var old_ := ErrorsFor(rep.errorProps, status);
      assert rep'.errorProps[status] == old_ + [ne];
      forall n ensures CountName(rep'.errorProps[status], n) == CountName(old_, n) + (if name == n then 1 else 0) {
        CountNameAppend(old_, ne, n);
      }
      assert ne in rep'.errorProps[status];
      forall n, o' | n != name && RecordedOnce(rep, n, o') ensures RecordedOnce(rep', n, o') {
        if o'.Failed? && o'.status == status {
          assert NameAndError(n, o'.notes) in rep'.errorProps[status];
        }
      }
  }

  function Names(ops: seq<Op>): (names: seq<QName>)
    ensures |names| == |ops| && forall i :: 0 <= i < |ops| ==> names[i] == ops[i].name
  {
    seq(|ops|, i requires 0 <= i < |ops| => ops[i].name)
  }

  ghost predicate NamesDistinct(ops: seq<Op>)
  {
    forall i, j :: 0 <= i < j < |ops| ==> ops[i].name != ops[j].name
  }

  /** The outcome the run records for one of its names. */
  function OutcomeOf(sources: seq<PropertySource>, writers: ValueWriters, r: Resource, op: Op): Outcome
  {
    var res := Dispatch(sources, writers, r, op).result;
    if res.Recorded? then res.outcome else Failed(0, "")
  }

  /** A name the run does not process keeps what it had: untouched, or
      recorded once as the same outcome. */
  lemma {:induction false} RunKeepsOthers(sources: seq<PropertySource>, writers: ValueWriters, r: Resource,
                                          ops: seq<Op>, acc: Report, n: QName, o: Outcome)
    decreases |ops|
    requires n !in Names(ops)
    requires RunOps(sources, writers, r, ops, acc).report.Some?
    ensures var fin := RunOps(sources, writers, r, ops, acc).report.value;
      && (Untouched(acc, n) ==> Untouched(fin, n))
      && (RecordedOnce(acc, n, o) ==> RecordedOnce(fin, n, o))
  {
    if ops != [] {
      var step := Dispatch(sources, writers, r, ops[0]);
      var acc' := Record(acc, ops[0].name, step.result.outcome);
      RecordEffect(acc, ops[0].name, step.result.outcome);
      assert Names(ops) == [ops[0].name] + Names(ops[1..]);
      RunKeepsOthers(sources, writers, r, ops[1..], acc', n, o);
    }
  }

  /** The tail of a list of distinct, untouched names is one as well, after
      the head's outcome is recorded. */
  lemma TailStaysDistinct(ops: seq<Op>, acc: Report, acc': Report)
    requires ops != [] && NamesDistinct(ops)
    requires forall i :: 0 <= i < |ops| ==> Untouched(acc, ops[i].name)
    requires forall n :: n != ops[0].name && Untouched(acc, n) ==> Untouched(acc', n)
    ensures NamesDistinct(ops[1..])
    ensures forall i :: 0 <= i < |ops| - 1 ==> Untouched(acc', ops[1..][i].name)
    ensures ops[0].name !in Names(ops[1..])
  {
    var tail := ops[1..];
    forall i, j | 0 <= i < j < |tail| ensures tail[i].name != tail[j].name {
      assert tail[i] == ops[i + 1] && tail[j] == ops[j + 1];
    }
    forall i | 0 <= i < |tail| ensures Untouched(acc', tail[i].name) {
      assert tail[i] == ops[i + 1];
    }
    forall i | 0 <= i < |tail| ensures Names(tail)[i] != ops[0].name {
      assert tail[i] == ops[i + 1];
    }
  }

  /** Over a run that ends normally and whose names are distinct and start
      untouched, each name ends recorded exactly once, as its own outcome. */
  lemma {:induction false} RunRecordsEachOnce(sources: seq<PropertySource>, writers: ValueWriters, r: Resource,
                                              ops: seq<Op>, acc: Report)
    decreases |ops|
    requires NamesDistinct(ops)
    requires forall i :: 0 <= i < |ops| ==> Untouched(acc, ops[i].name)
    requires RunOps(sources, writers, r, ops, acc).report.Some?
    ensures var fin := RunOps(sources, writers, r, ops, acc).report.value;
      forall i :: 0 <= i < |ops| ==> RecordedOnce(fin, ops[i].name, OutcomeOf(sources, writers, r, ops[i]))
  {
    if ops != [] {
      var step := Dispatch(sources, writers, r, ops[0]);
      var o := step.result.outcome;
      var acc' := Record(acc, ops[0].name, o);
      RecordEffect(acc, ops[0].name, o);
      var tail := ops[1..];
      TailStaysDistinct(ops, acc, acc');
      RunRecordsEachOnce(sources, writers, r, tail, acc');
      RunKeepsOthers(sources, writers, r, tail, acc', ops[0].name, o);
      var fin := RunOps(sources, writers, r, ops, acc).report.value;
      assert RecordedOnce(fin, ops[0].name, OutcomeOf(sources, writers, r, ops[0]));
      forall i | 0 <= i < |ops| ensures RecordedOnce(fin, ops[i].name, OutcomeOf(sources, writers, r, ops[i])) {
        if i > 0 {
          assert ops[i] == tail[i - 1];
        }
      }
    }
  }

  // ---------------------------------------------------------------------
  // The whole call
  // ---------------------------------------------------------------------

  /** All fields to set are processed before any field to remove: the call is
      one run over the sets followed by the removes, then the end of the call. */
  lemma SetsBeforeRemoves(sources: seq<PropertySource>, writers: ValueWriters, href: string, pr: ParseResult, r: Resource)
    ensures SetPropertiesSpec(sources, writers, href, pr, r)
         == Finish([], RunOps(sources, writers, r, Ops(pr), EmptyReport), href, r)
  {
    RunOpsAppend(sources, writers, r, SetOps(pr.fieldsToSet), RemoveOps(pr.fieldsToRemove), EmptyReport);
    var setRun := RunOps(sources, writers, r, SetOps(pr.fieldsToSet), EmptyReport);
    if setRun.report.Some? {
      var rest := RunOps(sources, writers, r, RemoveOps(pr.fieldsToRemove), setRun.report.value);
      assert [] + (setRun.calls + rest.calls) == setRun.calls + rest.calls;
    } else {
      assert [] + setRun.calls == setRun.calls;
    }
  }

  /** The codec raises for this field to set. */
  predicate SetParseFails(sources: seq<PropertySource>, writers: ValueWriters, r: Resource, field: (QName, string))
  {
    Dispatch(sources, writers, r, SetField(field.0, field.1)).result.ParseFailed?
  }

  /** The call ends without a response exactly when the codec raised for one
      of the fields to set; it then never reaches `doCommit`. */
  lemma ParseFailureAbortsCall(sources: seq<PropertySource>, writers: ValueWriters, href: string, pr: ParseResult, r: Resource)
    ensures var p := SetPropertiesSpec(sources, writers, href, pr, r);
      && (p.response.None? <==>
            exists i :: 0 <= i < |pr.fieldsToSet| && SetParseFails(sources, writers, r, pr.fieldsToSet[i]))
      && (p.response.None? ==> forall c :: c in p.calls ==> !c.DoCommit?)
  {
    var setOps := SetOps(pr.fieldsToSet);
    var setRun := RunOps(sources, writers, r, setOps, EmptyReport);
    RunAbortsIff(sources, writers, r, setOps, EmptyReport);
    if setRun.report.Some? {
      var removeOps := RemoveOps(pr.fieldsToRemove);
      RunAbortsIff(sources, writers, r, removeOps, setRun.report.value);
    }
  }

  /** How many `doCommit` calls a trace holds. */
  function CommitCount(calls: seq<Call>): nat
  {
    if calls == [] then 0
    else CommitCount(calls[..|calls| - 1]) + (if calls[|calls| - 1].DoCommit? then 1 else 0)
  }

  lemma {:induction false} CommitCountNone(calls: seq<Call>)
    requires forall c :: c in calls ==> !c.DoCommit?
    ensures CommitCount(calls) == 0
  {
    if calls != [] {
      assert forall c :: c in calls[..|calls| - 1] ==> c in calls;
      CommitCountNone(calls[..|calls| - 1]);
    }
  }

  /** `doCommit` is called once, as the last call, with exactly the two maps of
      the response, when the call succeeds on a commitable resource; it is
      not called otherwise. */
  lemma CommitCalledOnce(sources: seq<PropertySource>, writers: ValueWriters, href: string, pr: ParseResult, r: Resource)
    ensures var p := SetPropertiesSpec(sources, writers, href, pr, r);
      CommitCount(p.calls) == if p.response.Some? && r.commitable then 1 else 0
    ensures var p := SetPropertiesSpec(sources, writers, href, pr, r);
      p.response.Some? && r.commitable ==>
        p.calls[|p.calls| - 1] == DoCommit(p.response.value.knownProps, p.response.value.errorProps)
  {
    SetsBeforeRemoves(sources, writers, href, pr, r);
    var run := RunOps(sources, writers, r, Ops(pr), EmptyReport);
    assert [] + run.calls == run.calls;
    CommitCountNone(run.calls);
    if run.report.Some? && r.commitable {
      var rep := run.report.value;
      var all := run.calls + [DoCommit(rep.knownProps, rep.errorProps)];
      assert all[..|all| - 1] == run.calls;
    } else if run.report.Some? {
      assert run.calls + [] == run.calls;
    }
  }

  /** Every requested name that the request names once is accounted for
      exactly once in the response: in `knownProps` when written or cleared,
      as one entry of the list of its status when it failed, never in both;
      and nothing else appears in either map. */
  lemma EachNameRecordedOnce(sources: seq<PropertySource>, writers: ValueWriters, href: string, pr: ParseResult, r: Resource)
    requires NamesDistinct(Ops(pr))
    requires SetPropertiesSpec(sources, writers, href, pr, r).response.Some?
    ensures var resp := SetPropertiesSpec(sources, writers, href, pr, r).response.value;
      var ops := Ops(pr);
      forall i :: 0 <= i < |ops| ==>
        RecordedOnce(Report(resp.knownProps, resp.errorProps), ops[i].name, OutcomeOf(sources, writers, r, ops[i]))
    ensures var resp := SetPropertiesSpec(sources, writers, href, pr, r).response.value;
      forall n :: n !in Names(Ops(pr)) ==> Untouched(Report(resp.knownProps, resp.errorProps), n)
  {
    SetsBeforeRemoves(sources, writers, href, pr, r);
    RunRecordsEachOnce(sources, writers, r, Ops(pr), EmptyReport);
    forall n | n !in Names(Ops(pr))
      ensures Untouched(Report(SetPropertiesSpec(sources, writers, href, pr, r).response.value.knownProps,
                               SetPropertiesSpec(sources, writers, href, pr, r).response.value.errorProps), n)
    {
      RunKeepsOthers(sources, writers, r, Ops(pr), EmptyReport, n, Applied(""));
    }
  }

  // ---------------------------------------------------------------------
  // A name that is both set and removed
  // ---------------------------------------------------------------------

  lemma ShowsExtends(a: Report, b: Report, name: QName, o: Outcome)
    requires Shows(a, name, o) && Extends(a, b)
    ensures Shows(b, name, o)
  {
    if o.Failed? {
      assert a.errorProps[o.status] <= b.errorProps[o.status];
    }
  }

  /** In a run that is not aborted every name records an outcome, and that
      outcome is still visible in the final maps: later names never drop a
      known property or an error entry. */
  lemma {:induction false} RunShowsEveryOutcome(sources: seq<PropertySource>, writers: ValueWriters, r: Resource,
                                                ops: seq<Op>, acc: Report, i: nat)
    requires i < |ops|
    requires RunOps(sources, writers, r, ops, acc).report.Some?
    ensures Dispatch(sources, writers, r, ops[i]).result.Recorded?
    ensures Shows(RunOps(sources, writers, r, ops, acc).report.value, ops[i].name,
                  Dispatch(sources, writers, r, ops[i]).result.outcome)
    decreases |ops|
  {
    var step := Dispatch(sources, writers, r, ops[0]);
    var acc' := Record(acc, ops[0].name, step.result.outcome);
    var fin := RunOps(sources, writers, r, ops, acc).report.value;
    assert fin == RunOps(sources, writers, r, ops[1..], acc').report.value;
    if i == 0 {
      ShowsExtends(acc', fin, ops[0].name, step.result.outcome);
    } else {
      assert ops[1..][i - 1] == ops[i];
      RunShowsEveryOutcome(sources, writers, r, ops[1..], acc', i - 1);
    }
  }

  /** The setter does not guard against a name that is both in the fields to
      set and in the fields to remove: both are processed, and the response
      shows both outcomes. So when one of them succeeds and the other fails,
      the name is in `knownProps` and in an error list at once. */
  lemma SetAndRemovedShowsBoth(sources: seq<PropertySource>, writers: ValueWriters, href: string,
                               pr: ParseResult, r: Resource, i: nat, j: nat)
    requires i < |pr.fieldsToSet| && pr.fieldsToRemove.Some? && j < |pr.fieldsToRemove.value|
    requires pr.fieldsToSet[i].0 == pr.fieldsToRemove.value[j]
    requires SetPropertiesSpec(sources, writers, href, pr, r).response.Some?
    ensures var name := pr.fieldsToSet[i].0;
      && Dispatch(sources, writers, r, SetField(name, pr.fieldsToSet[i].1)).result.Recorded?
      && Dispatch(sources, writers, r, RemoveField(name)).result.Recorded?
    ensures var name := pr.fieldsToSet[i].0;
      var resp := SetPropertiesSpec(sources, writers, href, pr, r).response.value;
      var rep := Report(resp.knownProps, resp.errorProps);
      && Shows(rep, name, Dispatch(sources, writers, r, SetField(name, pr.fieldsToSet[i].1)).result.outcome)
      && Shows(rep, name, Dispatch(sources, writers, r, RemoveField(name)).result.outcome)
  {
    SetsBeforeRemoves(sources, writers, href, pr, r);
    var run := RunOps(sources, writers, r, Ops(pr), EmptyReport);
    assert run.report.Some?;
    FinishProceeds([], run, href, r);
    OpsAt(pr, i, j);
    RunShowsEveryOutcome(sources, writers, r, Ops(pr), EmptyReport, i);
    RunShowsEveryOutcome(sources, writers, r, Ops(pr), EmptyReport, |pr.fieldsToSet| + j);
  }

  /** Where a field to set and a field to remove sit in the request's operations. */
  lemma OpsAt(pr: ParseResult, i: nat, j: nat)
    requires i < |pr.fieldsToSet| && pr.fieldsToRemove.Some? && j < |pr.fieldsToRemove.value|
    ensures |pr.fieldsToSet| + j < |Ops(pr)|
    ensures Ops(pr)[i] == SetField(pr.fieldsToSet[i].0, pr.fieldsToSet[i].1)
    ensures Ops(pr)[|pr.fieldsToSet| + j] == RemoveField(pr.fieldsToRemove.value[j])
  {
    var sets := SetOps(pr.fieldsToSet);
    assert Ops(pr)[|sets| + j] == RemoveOps(pr.fieldsToRemove)[j];
  }

  /** The setter does not guard against a name that is both in the fields to
      set and in the fields to remove: both are processed, and when the set
      succeeds and the remove is refused the name ends up in both maps. */
  lemma NameSetAndRemovedLandsInBothMaps()
    ensures var name := QName("DAV:", "displayname");
      var source := PropertySource(
        (n: QName, r: Resource) => Some(PropertyMetaData(false, true, "string")),
        (n: QName, v: Value, r: Resource) => Written,
        (n: QName, r: Resource) => NotAuthorized);
      var writers := ValueWriters((n: QName, t: ValueType, raw: string) => Some(Value(raw)));
      var pr := ParseResult([(name, "x")], Some([name]));
      var resp := SetPropertiesSpec([source], writers, "/a", pr, Resource("/a", false)).response;
      && resp.Some?
      && name in resp.value.knownProps
      && StatusUnauthorized in resp.value.errorProps
      && resp.value.errorProps[StatusUnauthorized] == [NameAndError(name, NotAuthorisedNote)]
  {
    var name := QName("DAV:", "displayname");
    var source := PropertySource(
      (n: QName, r: Resource) => Some(PropertyMetaData(false, true, "string")),
      (n: QName, v: Value, r: Resource) => Written,
      (n: QName, r: Resource) => NotAuthorized);
    var r := Resource("/a", false);
    FirstClaimAt([source], name, r, 0);
  }

  // ---------------------------------------------------------------------
  // A worked request
  // ---------------------------------------------------------------------

  /** A source that knows a single property. */
  function SingleSource(known: QName, writable: bool, valueType: ValueType): PropertySource
  {
    PropertySource(
      (n: QName, r: Resource) => if n == known then Some(PropertyMetaData(false, writable, valueType)) else None,
      (n: QName, v: Value, r: Resource) => Written,
      (n: QName, r: Resource) => Written)
  }

  /** The three sources of the worked request, each knowing one property;
      `size` is read-only. */
  function MixedSources(color: QName, size: QName, owner: QName): seq<PropertySource>
  {
    [SingleSource(color, true, "string"), SingleSource(size, false, "int"), SingleSource(owner, true, "string")]
  }

  const EchoWriters: ValueWriters := ValueWriters((n: QName, t: ValueType, raw: string) => Some(Value(raw)))

  /** The run over the worked request's names: `color` written, `size`
      refused with 403, `owner` cleared. */
  lemma MixedRequestRun(color: QName, size: QName, owner: QName, r: Resource)
    requires color == QName("ns", "color") && size == QName("ns", "size") && owner == QName("ns", "owner")
    ensures RunOps(MixedSources(color, size, owner), EchoWriters, r,
                   Ops(ParseResult([(color, "red"), (size, "99")], Some([owner]))), EmptyReport).report
         == Some(Report(map[color := ValueAndType(None, "string"), owner := ValueAndType(None, "string")],
                        map[StatusForbidden := [NameAndError(size, ReadOnlyNote)]]))
  {
    var sources := MixedSources(color, size, owner);
    var writers := EchoWriters;
    FirstClaimAt(sources, color, r, 0);
    FirstClaimAt(sources, size, r, 1);
    FirstClaimAt(sources, owner, r, 2);
    var ops := Ops(ParseResult([(color, "red"), (size, "99")], Some([owner])));
    assert ops == [SetField(color, "red"), SetField(size, "99"), RemoveField(owner)];
    var s1 := Dispatch(sources, writers, r, SetField(color, "red"));
    assert s1.result == Recorded(Applied("string"));
    var s2 := Dispatch(sources, writers, r, SetField(size, "99"));
    assert s2.result == Recorded(Failed(StatusForbidden, ReadOnlyNote));
    var s3 := Dispatch(sources, writers, r, RemoveField(owner));
    assert s3.result == Recorded(Applied("string"));
    var a1 := Record(EmptyReport, color, s1.result.outcome);
    var a2 := Record(a1, size, s2.result.outcome);
    var a3 := Record(a2, owner, s3.result.outcome);
    assert ops[1..] == [SetField(size, "99"), RemoveField(owner)];
    assert ops[1..][1..] == [RemoveField(owner)] && ops[1..][1..][1..] == [];
    assert RunOps(sources, writers, r, [], a3).report == Some(a3);
    assert RunOps(sources, writers, r, [RemoveField(owner)], a2).report == Some(a3);
    assert RunOps(sources, writers, r, ops[1..], a1).report == Some(a3);
    assert a2.errorProps == AddErrorProp(map[], StatusForbidden, size, ReadOnlyNote);
    assert ErrorsFor(map[], StatusForbidden) + [NameAndError(size, ReadOnlyNote)] == [NameAndError(size, ReadOnlyNote)];
    assert a3.errorProps == map[StatusForbidden := [NameAndError(size, ReadOnlyNote)]];
    assert a3.knownProps == map[color := ValueAndType(None, "string"), owner := ValueAndType(None, "string")];
  }

  /** Setting `color` and `size` and removing `owner` with three sources that
      know one of them each, `size` being read-only: `color` and `owner` are
      written, `size` fails with 403, and nothing fails with 404. */
  lemma MixedRequestExample()
    ensures var color, size, owner := QName("ns", "color"), QName("ns", "size"), QName("ns", "owner");
      var pr := ParseResult([(color, "red"), (size, "99")], Some([owner]));
      var p := SetPropertiesSpec(MixedSources(color, size, owner), EchoWriters, "/doc", pr, Resource("/doc", true));
      && p.response == Some(PropFindResponse("/doc",
           map[color := ValueAndType(None, "string"), owner := ValueAndType(None, "string")],
           map[StatusForbidden := [NameAndError(size, ReadOnlyNote)]]))
      && CommitCount(p.calls) == 1
  {
    var color, size, owner := QName("ns", "color"), QName("ns", "size"), QName("ns", "owner");
    var sources := MixedSources(color, size, owner);
    var pr := ParseResult([(color, "red"), (size, "99")], Some([owner]));
    var r := Resource("/doc", true);
    MixedRequestRun(color, size, owner, r);
    SetsBeforeRemoves(sources, EchoWriters, "/doc", pr, r);
    FinishProceeds([], RunOps(sources, EchoWriters, r, Ops(pr), EmptyReport), "/doc", r);
    CommitCalledOnce(sources, EchoWriters, "/doc", pr, r);
  }
}
