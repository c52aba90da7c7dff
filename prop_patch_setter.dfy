/**
  `PropertySourcePatchSetter`: applies a parsed PROPPATCH request to a
  resource through an ordered list of property sources.
*/
module PropPatchSetter {
  import opened Wrappers
  import opened PropPatch

  class PropertySourcePatchSetter {
    const propertySources: seq<PropertySource>
    const valueWriters: ValueWriters

    constructor (propertySources: seq<PropertySource>, valueWriters: ValueWriters)
      ensures this.propertySources == propertySources && this.valueWriters == valueWriters
    {
      this.propertySources := propertySources;
      this.valueWriters := valueWriters;
    }

    /** Every field to set, then every field to remove, then `doCommit` when
        the resource is commitable. `resp` is `None` when the codec raised;
        `calls` is every call made into the collaborators, in order. */
    method SetProperties(href: string, parseResult: ParseResult, r: Resource)
      returns (resp: Option<PropFindResponse>, calls: seq<Call>)
      ensures Patch(calls, resp) == SetPropertiesSpec(propertySources, valueWriters, href, parseResult, r)
    {
      var parsed, knownProps, errorProps;
      parsed, knownProps, errorProps, calls := SetFields(parseResult.fieldsToSet, r);
      if !parsed {
        resp := None;
        return;
      }
      ghost var setCalls := calls;
      ghost var afterSets := Report(knownProps, errorProps);
      SpecAfterSets(propertySources, valueWriters, href, parseResult, r, setCalls, afterSets);
      var removeCalls := [];
      if parseResult.fieldsToRemove.Some? {
        knownProps, errorProps, removeCalls := RemoveFields(parseResult.fieldsToRemove.value, r, knownProps, errorProps);
      }
      calls := calls + removeCalls;
      FinishProceeds(setCalls, Run(removeCalls, Some(Report(knownProps, errorProps))), href, r);
      if r.commitable {
        calls := calls + [DoCommit(knownProps, errorProps)];
      }
      resp := Some(PropFindResponse(href, knownProps, errorProps));
    }

    /** The loop over the fields to set, from two empty maps. `parsed` is false
        when the codec raised, which ends the whole call. */
    method SetFields(fields: seq<(QName, string)>, r: Resource)
      returns (parsed: bool, knownProps: KnownProps, errorProps: ErrorProps, calls: seq<Call>)
      ensures RunOps(propertySources, valueWriters, r, SetOps(fields), EmptyReport)
           == Run(calls, if parsed then Some(Report(knownProps, errorProps)) else None)
    {
      knownProps, errorProps := map[], map[];
      calls := [];
      parsed := true;
      ghost var setOps := SetOps(fields);
      ghost var setRun := RunOps(propertySources, valueWriters, r, setOps, EmptyReport);
      var e := 0;
      while e < |fields|
        invariant 0 <= e <= |fields|
        invariant setRun == Prepend(calls, RunOps(propertySources, valueWriters, r, setOps[e..], Report(knownProps, errorProps)))
      {
        ghost var before := Report(knownProps, errorProps);
        var ok, stepCalls;
        ok, knownProps, errorProps, stepCalls := SetOne(fields[e].0, fields[e].1, r, knownProps, errorProps);
        if !ok {
          RunOpsAbort(propertySources, valueWriters, r, setOps, e, before);
          assert setRun == Prepend(calls, Run(stepCalls, None));
          calls := calls + stepCalls;
          parsed := false;
          return;
        }
        RunOpsStep(propertySources, valueWriters, r, setOps, e, before, Report(knownProps, errorProps), calls, stepCalls);
        calls := calls + stepCalls;
        e := e + 1;
      }
      assert setOps[|fields|..] == [];
      assert setRun == Prepend(calls, Run([], Some(Report(knownProps, errorProps))));
      assert calls + [] == calls;
    }

    /** The loop over the fields to remove, continuing the two maps. */
    method RemoveFields(toRemove: seq<QName>, r: Resource, knownProps: KnownProps, errorProps: ErrorProps)
      returns (knownOut: KnownProps, errorOut: ErrorProps, calls: seq<Call>)
      ensures RunOps(propertySources, valueWriters, r, RemoveOps(Some(toRemove)), Report(knownProps, errorProps))
           == Run(calls, Some(Report(knownOut, errorOut)))
    {
      knownOut, errorOut := knownProps, errorProps;
      calls := [];
      ghost var removeOps := RemoveOps(Some(toRemove));
      ghost var removeRun := RunOps(propertySources, valueWriters, r, removeOps, Report(knownProps, errorProps));
      var d := 0;
      while d < |toRemove|
        invariant 0 <= d <= |toRemove|
        invariant removeRun == Prepend(calls, RunOps(propertySources, valueWriters, r, removeOps[d..], Report(knownOut, errorOut)))
      {
        ghost var before := Report(knownOut, errorOut);
        var stepCalls;
        knownOut, errorOut, stepCalls := RemoveOne(toRemove[d], r, knownOut, errorOut);
        RunOpsStep(propertySources, valueWriters, r, removeOps, d, before, Report(knownOut, errorOut), calls, stepCalls);
        calls := calls + stepCalls;
        d := d + 1;
      }
      assert removeOps[|toRemove|..] == [];
    }

    /** The body of the loop over the fields to set: walk the sources until one
        claims `name`, then record one outcome for it. `parsed` is false when
        the codec raised; the maps are then those of the aborted call. */
    method SetOne(name: QName, raw: string, r: Resource, knownProps: KnownProps, errorProps: ErrorProps)
      returns (parsed: bool, knownOut: KnownProps, errorOut: ErrorProps, calls: seq<Call>)
      ensures var step := Dispatch(propertySources, valueWriters, r, SetField(name, raw));
        && calls == step.calls
        && parsed == step.result.Recorded?
        && (parsed ==> Report(knownOut, errorOut) == Record(Report(knownProps, errorProps), name, step.result.outcome))
    {
      knownOut, errorOut := knownProps, errorProps;
      calls := [];
      parsed := true;
      var found := false;
      var i := 0;
      while i < |propertySources|
        invariant 0 <= i <= |propertySources|
        invariant !found && knownOut == knownProps && errorOut == errorProps
        invariant forall j :: 0 <= j < i ==> !Claims(propertySources[j], name, r)
        invariant calls == Lookups(name, i)
      {
        var source := propertySources[i];
        var meta := source.getPropertyMetaData(name, r);
        calls := calls + [GetPropertyMetaData(i, name)];
        if meta.Some? && !meta.value.unknown {
          found := true;
          FirstClaimAt(propertySources, name, r, i);
          assert calls == Lookups(name, i + 1);
          if meta.value.writable {
            var val := valueWriters.parse(name, meta.value.valueType, raw);
            calls := calls + [Parse(name, meta.value.valueType, raw)];
            if val.None? {
              parsed := false;
              return;
            }
            var w := source.setProperty(name, val.value, r);
            calls := calls + [SetProperty(i, name, val.value)];
            match w {
              case Written =>
                knownOut := knownOut[name := ValueAndType(None, meta.value.valueType)];
              case NotAuthorized =>
                errorOut := AddErrorProp(errorOut, StatusUnauthorized, name, NotAuthorisedNote);
              case PropertySetException(status, notes) =>
                errorOut := AddErrorProp(errorOut, status, name, notes);
            }
            break;
          } else {
            errorOut := AddErrorProp(errorOut, StatusForbidden, name, ReadOnlyNote);
            break;
          }
        }
        i := i + 1;
      }
      if !found {
        errorOut := AddErrorProp(errorOut, StatusNotFound, name, UnknownPropertyNote);
      }
    }

    /** The body of the loop over the fields to remove: as `SetOne`, with
        `clearProperty` in place of parsing and `setProperty`. */
    method RemoveOne(name: QName, r: Resource, knownProps: KnownProps, errorProps: ErrorProps)
      returns (knownOut: KnownProps, errorOut: ErrorProps, calls: seq<Call>)
      ensures var step := Dispatch(propertySources, valueWriters, r, RemoveField(name));
        && calls == step.calls
        && step.result.Recorded?
        && Report(knownOut, errorOut) == Record(Report(knownProps, errorProps), name, step.result.outcome)
    {
      knownOut, errorOut := knownProps, errorProps;
      calls := [];
      var found := false;
      var i := 0;
      while i < |propertySources|
        invariant 0 <= i <= |propertySources|
        invariant !found && knownOut == knownProps && errorOut == errorProps
        invariant forall j :: 0 <= j < i ==> !Claims(propertySources[j], name, r)
        invariant calls == Lookups(name, i)
      {
        var source := propertySources[i];
        var meta := source.getPropertyMetaData(name, r);
        calls := calls + [GetPropertyMetaData(i, name)];
        if meta.Some? && !meta.value.unknown {
          found := true;
          FirstClaimAt(propertySources, name, r, i);
          assert calls == Lookups(name, i + 1);
          if meta.value.writable {
            var w := source.clearProperty(name, r);
            calls := calls + [ClearProperty(i, name)];
            match w {
              case Written =>
                knownOut := knownOut[name := ValueAndType(None, meta.value.valueType)];
              case NotAuthorized =>
                errorOut := AddErrorProp(errorOut, StatusUnauthorized, name, NotAuthorisedNote);
              case PropertySetException(status, notes) =>
                errorOut := AddErrorProp(errorOut, status, name, notes);
            }
            break;
          } else {
            errorOut := AddErrorProp(errorOut, StatusForbidden, name, ReadOnlyNote);
            break;
          }
        }
        i := i + 1;
      }
      if !found {
        errorOut := AddErrorProp(errorOut, StatusNotFound, name, UnknownPropertyNote);
      }
    }
  }
}
