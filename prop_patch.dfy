/**
  The PROPPATCH property setter of the WebDAV server (section 9.2 of RFC 4918):
  the entities it handles and the specification of what one call of
  `setProperties` does.

  The collaborators that the setter only calls (the property sources, the
  value codec and the target resource) are oracles: their answers are the
  fields of the datatypes below and are fixed for the duration of one
  request. Every call the setter makes into them is recorded, in order, as a
  `Call`, so the trace of foreign calls is part of the observable result.
*/
module PropPatch {
  import opened Wrappers

  /** A qualified property name: namespace URI and local part. */
  datatype QName = QName(namespaceUri: string, localPart: string)

  /** The type token a source declares for a property (a Java class in the server). */
  type ValueType = string

  /** A value produced by the value codec; the setter never looks inside it. */
  datatype Value = Value(repr: string)

  /** The target resource; `commitable` is whether it implements `CommitableResource`. */
  datatype Resource = Resource(id: string, commitable: bool)

  /** HTTP status codes the setter produces itself. */
  const StatusUnauthorized: int := 401
  const StatusForbidden: int := 403
  const StatusNotFound: int := 404

  /** Error notes the setter produces itself. */
  const NotAuthorisedNote: string := "Not authorised"
  const ReadOnlyNote: string := "Property is read only"
  const UnknownPropertyNote: string := "Unknown property"

  /** What a source says about a property of a resource. */
  datatype PropertyMetaData = PropertyMetaData(unknown: bool, writable: bool, valueType: ValueType)

  /** How a source's `setProperty` or `clearProperty` ends: normally, with
      `NotAuthorizedException`, or with `PropertySetException` carrying its own
      status and notes. */
  datatype WriteResult =
    | Written
    | NotAuthorized
    | PropertySetException(status: int, errorNotes: string)

  /** A property source. `getPropertyMetaData` answering `None` is Java's `null`. */
  datatype PropertySource = PropertySource(
    getPropertyMetaData: (QName, Resource) -> Option<PropertyMetaData>,
    setProperty: (QName, Value, Resource) -> WriteResult,
    clearProperty: (QName, Resource) -> WriteResult)

  /** The value codec; `parse` answering `None` is a parse exception. */
  datatype ValueWriters = ValueWriters(parse: (QName, ValueType, string) -> Option<Value>)

  /** The parsed PROPPATCH body: the fields to set, in iteration order, with
      their raw values, and the fields to remove (`None` is a null set). */
  datatype ParseResult = ParseResult(fieldsToSet: seq<(QName, string)>, fieldsToRemove: Option<seq<QName>>)

  datatype ValueAndType = ValueAndType(value: Option<Value>, valueType: ValueType)
  datatype NameAndError = NameAndError(name: QName, error: string)

  /** `knownProps`: the properties that were written or cleared. */
  type KnownProps = map<QName, ValueAndType>
  /** `errorProps`: for each status, the failed properties in the order they failed. */
  type ErrorProps = map<int, seq<NameAndError>>

  datatype PropFindResponse = PropFindResponse(href: string, knownProps: KnownProps, errorProps: ErrorProps)

  /** One call from the setter into a collaborator; `source` is the index of the
      property source in the configured list. */
  datatype Call =
    | GetPropertyMetaData(source: nat, name: QName)
    | Parse(name: QName, valueType: ValueType, raw: string)
    | SetProperty(source: nat, name: QName, value: Value)
    | ClearProperty(source: nat, name: QName)
    | DoCommit(knownProps: KnownProps, errorProps: ErrorProps)

  /** One requested mutation: a field to set or a field to remove. */
  datatype Op = SetField(name: QName, raw: string) | RemoveField(name: QName)

  /** The one outcome recorded for a processed name. */
  datatype Outcome = Applied(valueType: ValueType) | Failed(status: int, notes: string)

  datatype StepResult = Recorded(outcome: Outcome) | ParseFailed

  /** Processing one name: the calls it makes and how it ends. */
  datatype Step = Step(calls: seq<Call>, result: StepResult)

  /** The two maps the setter accumulates. */
  datatype Report = Report(knownProps: KnownProps, errorProps: ErrorProps)

  /** Processing a sequence of names: the calls made and, unless a parse
      failure aborted it, the accumulated report. */
  datatype Run = Run(calls: seq<Call>, report: Option<Report>)

  /** A whole `setProperties` call: every foreign call made, and the response
      (`None` when the call ended with the codec's exception). */
  datatype Patch = Patch(calls: seq<Call>, response: Option<PropFindResponse>)

  /** The source claims the name: its metadata is non-null and not unknown. */
  predicate Claims(source: PropertySource, name: QName, r: Resource)
  {
    var meta := source.getPropertyMetaData(name, r);
    meta.Some? && !meta.value.unknown
  }

  /** The first source at or after `from` that claims the name. */
  function FirstClaim(sources: seq<PropertySource>, name: QName, r: Resource, from: nat): (k: Option<nat>)
    requires from <= |sources|
    decreases |sources| - from
    ensures k.Some? ==> from <= k.value < |sources| && Claims(sources[k.value], name, r)
    ensures k.Some? ==> forall j :: from <= j < k.value ==> !Claims(sources[j], name, r)
    ensures k.None? <==> forall j :: from <= j < |sources| ==> !Claims(sources[j], name, r)
  {
    if from == |sources| then None
    else if Claims(sources[from], name, r) then Some(from)
    else FirstClaim(sources, name, r, from + 1)
  }

  /** The metadata lookups on sources 0 .. n-1, in order. */
  function Lookups(name: QName, n: nat): (calls: seq<Call>)
    ensures |calls| == n
    ensures forall j :: 0 <= j < n ==> calls[j] == GetPropertyMetaData(j, name)
  {
    seq(n, j requires 0 <= j < n => GetPropertyMetaData(j, name))
  }

  /** The outcome of a write or clear of a property of the given type. */
  function WriteOutcome(w: WriteResult, valueType: ValueType): Outcome
  {
    match w
    case Written => Applied(valueType)
    case NotAuthorized => Failed(StatusUnauthorized, NotAuthorisedNote)
    case PropertySetException(status, notes) => Failed(status, notes)
  }

  /** Processing one set or remove: the inner loop over the sources and the
      `found` check after it. */
  function Dispatch(sources: seq<PropertySource>, writers: ValueWriters, r: Resource, op: Op): (s: Step)
    ensures s.result.ParseFailed? ==> op.SetField?
    ensures forall j :: 0 <= j < |s.calls| ==> !s.calls[j].DoCommit? && s.calls[j].name == op.name
  {
    var k := FirstClaim(sources, op.name, r, 0);
    if k.None? then
      Step(Lookups(op.name, |sources|), Recorded(Failed(StatusNotFound, UnknownPropertyNote)))
    else
      var i := k.value;
      var meta := sources[i].getPropertyMetaData(op.name, r).value;
      var looked := Lookups(op.name, i + 1);
      if !meta.writable then
        Step(looked, Recorded(Failed(StatusForbidden, ReadOnlyNote)))
      else
        match op
        case SetField(name, raw) =>
          var parsed := writers.parse(name, meta.valueType, raw);
          var upToParse := looked + [Parse(name, meta.valueType, raw)];
          if parsed.None? then Step(upToParse, ParseFailed)
          else
            var w := sources[i].setProperty(name, parsed.value, r);
            Step(upToParse + [SetProperty(i, name, parsed.value)], Recorded(WriteOutcome(w, meta.valueType)))
        case RemoveField(name) =>
          var w := sources[i].clearProperty(name, r);
          Step(looked + [ClearProperty(i, name)], Recorded(WriteOutcome(w, meta.valueType)))
  }

  /** The list recorded for a status, empty when there is none. */
  function ErrorsFor(errorProps: ErrorProps, stat: int): seq<NameAndError>
  {
    if stat in errorProps then errorProps[stat] else []
  }

  /** `addErrorProp`: append one entry to the list of `stat`, creating the list
      when absent; every list only grows, and only the one for `stat` changes. */
  function AddErrorProp(errorProps: ErrorProps, stat: int, name: QName, err: string): (r: ErrorProps)
    ensures r.Keys == errorProps.Keys + {stat}
    ensures forall s :: s in errorProps ==> errorProps[s] <= r[s]
    ensures forall s :: s in errorProps && s != stat ==> r[s] == errorProps[s]
    ensures |r[stat]| == |ErrorsFor(errorProps, stat)| + 1
    ensures r[stat][|r[stat]| - 1] == NameAndError(name, err)
  {
    errorProps[stat := ErrorsFor(errorProps, stat) + [NameAndError(name, err)]]
  }

  /** `later` keeps everything `earlier` recorded: no known property is
      dropped and every error list only grows at its end. */
  predicate Extends(earlier: Report, later: Report)
  {
    && earlier.knownProps.Keys <= later.knownProps.Keys
    && forall s :: s in earlier.errorProps ==> s in later.errorProps && earlier.errorProps[s] <= later.errorProps[s]
  }

  /** The report carries outcome `o` for `name`: a known property for a
      success, the name with its notes in the list of its status for a failure. */
  predicate Shows(rep: Report, name: QName, o: Outcome)
  {
    match o
    case Applied(_) => name in rep.knownProps
    case Failed(status, notes) => status in rep.errorProps && NameAndError(name, notes) in rep.errorProps[status]
  }

  /** Recording one outcome into the two maps. */
  function Record(report: Report, name: QName, o: Outcome): (rep: Report)
    ensures Shows(rep, name, o)
    ensures o.Applied? ==> rep.knownProps[name] == ValueAndType(None, o.valueType)
    ensures Extends(report, rep)
    ensures forall n :: n in report.knownProps && n != name ==> rep.knownProps[n] == report.knownProps[n]
  {
    match o
    case Applied(valueType) =>
      Report(report.knownProps[name := ValueAndType(None, valueType)], report.errorProps)
    case Failed(status, notes) =>
      Report(report.knownProps, AddErrorProp(report.errorProps, status, name, notes))
  }

  function Prepend(calls: seq<Call>, run: Run): Run
  {
    Run(calls + run.calls, run.report)
  }

  /** Processing the names in order, starting from the maps `acc`; a parse
      failure ends the run with no report. */
  function RunOps(sources: seq<PropertySource>, writers: ValueWriters, r: Resource, ops: seq<Op>, acc: Report): (run: Run)
    decreases |ops|
    ensures forall j :: 0 <= j < |run.calls| ==> !run.calls[j].DoCommit?
    ensures run.report.Some? ==> Extends(acc, run.report.value)
  {
    if ops == [] then Run([], Some(acc))
    else
      var step := Dispatch(sources, writers, r, ops[0]);
      match step.result
      case ParseFailed => Run(step.calls, None)
      case Recorded(o) => Prepend(step.calls, RunOps(sources, writers, r, ops[1..], Record(acc, ops[0].name, o)))
  }

  /** The first claiming source is `i` when `i` claims and no earlier one does. */
  lemma FirstClaimAt(sources: seq<PropertySource>, name: QName, r: Resource, i: nat)
    requires i < |sources| && Claims(sources[i], name, r)
    requires forall j :: 0 <= j < i ==> !Claims(sources[j], name, r)
    ensures FirstClaim(sources, name, r, 0) == Some(i)
  {
  }

  /** One step of a run that is not aborted: the calls made so far grow by
      the step's calls and the maps by its outcome. */
  lemma RunOpsStep(sources: seq<PropertySource>, writers: ValueWriters, r: Resource, ops: seq<Op>, k: nat,
                   acc: Report, acc': Report, calls: seq<Call>, stepCalls: seq<Call>)
    requires k < |ops|
    requires Dispatch(sources, writers, r, ops[k]).result.Recorded?
    requires Dispatch(sources, writers, r, ops[k]).calls == stepCalls
    requires acc' == Record(acc, ops[k].name, Dispatch(sources, writers, r, ops[k]).result.outcome)
    ensures Prepend(calls, RunOps(sources, writers, r, ops[k..], acc))
         == Prepend(calls + stepCalls, RunOps(sources, writers, r, ops[k + 1..], acc'))
  {
    assert ops[k..][1..] == ops[k + 1..];
    var rest := RunOps(sources, writers, r, ops[k + 1..], acc');
    assert calls + (stepCalls + rest.calls) == (calls + stepCalls) + rest.calls;
  }

  /** A run whose next step is a parse failure ends there. */
  lemma RunOpsAbort(sources: seq<PropertySource>, writers: ValueWriters, r: Resource, ops: seq<Op>, e: nat, acc: Report)
    requires e < |ops|
    requires Dispatch(sources, writers, r, ops[e]).result.ParseFailed?
    ensures RunOps(sources, writers, r, ops[e..], acc) == Run(Dispatch(sources, writers, r, ops[e]).calls, None)
  {
    assert ops[e..][0] == ops[e];
  }

  function SetOps(fields: seq<(QName, string)>): (ops: seq<Op>)
    ensures |ops| == |fields|
    ensures forall i :: 0 <= i < |fields| ==> ops[i] == SetField(fields[i].0, fields[i].1)
  {
    seq(|fields|, i requires 0 <= i < |fields| => SetField(fields[i].0, fields[i].1))
  }

  function RemoveOps(fields: Option<seq<QName>>): (ops: seq<Op>)
    ensures fields.None? ==> ops == []
    ensures fields.Some? ==> |ops| == |fields.value|
    ensures fields.Some? ==> forall i :: 0 <= i < |fields.value| ==> ops[i] == RemoveField(fields.value[i])
  {
    if fields.None? then []
    else seq(|fields.value|, i requires 0 <= i < |fields.value| => RemoveField(fields.value[i]))
  }

  /** Every requested mutation, sets first, each group in request order. */
  function Ops(pr: ParseResult): seq<Op>
  {
    SetOps(pr.fieldsToSet) + RemoveOps(pr.fieldsToRemove)
  }

  const EmptyReport: Report := Report(map[], map[])

  /** The end of the call: `doCommit` with the two maps when the resource is
      commitable, then the response built from the same maps. */
  function Finish(calls: seq<Call>, run: Run, href: string, r: Resource): (p: Patch)
    ensures calls + run.calls <= p.calls
    ensures p.response.Some? <==> run.report.Some?
    ensures p.response.Some? ==>
      p.response.value == PropFindResponse(href, run.report.value.knownProps, run.report.value.errorProps)
    ensures |p.calls| == |calls| + |run.calls| + (if run.report.Some? && r.commitable then 1 else 0)
    ensures p.response.Some? && r.commitable ==>
      p.calls[|p.calls| - 1] == DoCommit(p.response.value.knownProps, p.response.value.errorProps)
  {
    match run.report
    case None => Patch(calls + run.calls, None)
    case Some(rep) =>
      var commit := if r.commitable then [DoCommit(rep.knownProps, rep.errorProps)] else [];
      Patch(calls + run.calls + commit, Some(PropFindResponse(href, rep.knownProps, rep.errorProps)))
  }

  /** The specification of one `setProperties` call: the loop over the fields
      to set, then, unless the codec raised, the loop over the fields to
      remove and the end of the call. */
  function SetPropertiesSpec(sources: seq<PropertySource>, writers: ValueWriters, href: string,
                             pr: ParseResult, r: Resource): (p: Patch)
    ensures p.response.Some? ==> p.response.value.href == href
    ensures p.response.Some? && r.commitable ==>
      |p.calls| > 0 && p.calls[|p.calls| - 1] == DoCommit(p.response.value.knownProps, p.response.value.errorProps)
  {
    var setRun := RunOps(sources, writers, r, SetOps(pr.fieldsToSet), EmptyReport);
    match setRun.report
    case None => Patch(setRun.calls, None)
    case Some(afterSets) =>
      Finish(setRun.calls, RunOps(sources, writers, r, RemoveOps(pr.fieldsToRemove), afterSets), href, r)
  }

  /** Once the sets ran to the end, the call is the removes from their maps,
      then the end of the call. */
  lemma SpecAfterSets(sources: seq<PropertySource>, writers: ValueWriters, href: string, pr: ParseResult, r: Resource,
                      setCalls: seq<Call>, afterSets: Report)
    requires RunOps(sources, writers, r, SetOps(pr.fieldsToSet), EmptyReport) == Run(setCalls, Some(afterSets))
    ensures SetPropertiesSpec(sources, writers, href, pr, r)
         == Finish(setCalls, RunOps(sources, writers, r, RemoveOps(pr.fieldsToRemove), afterSets), href, r)
    ensures pr.fieldsToRemove.None? ==> RunOps(sources, writers, r, RemoveOps(pr.fieldsToRemove), afterSets) == Run([], Some(afterSets))
  {
  }

  /** The end of a call whose loops finished: the optional `doCommit`, then the response. */
  lemma FinishProceeds(calls: seq<Call>, run: Run, href: string, r: Resource)
    requires run.report.Some?
    ensures Finish(calls, run, href, r).response == Some(PropFindResponse(href, run.report.value.knownProps, run.report.value.errorProps))
    ensures Finish(calls, run, href, r).calls
         == calls + run.calls + (if r.commitable then [DoCommit(run.report.value.knownProps, run.report.value.errorProps)] else [])
  {
  }
}
