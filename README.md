# PROPPATCH dispatch and AXFR RRset ordering in milton

This project models two parts of the milton WebDAV/DNS server in Dafny and proves properties of them.

**PROPPATCH.** `PropertySourcePatchSetter.setProperties` applies a parsed PROPPATCH request to a resource.
- It handles every field to set, then every field to remove.
- It asks the property sources in order for the name's metadata. The first source that claims the name (metadata non-null and not unknown) handles it, and no later source is consulted.
- Each name gets exactly one outcome:
  - success: `knownProps[name] = (null, type)`;
  - not writable: 403 "Property is read only";
  - `NotAuthorizedException`: 401 "Not authorised";
  - `PropertySetException`: its own status and notes;
  - no source claims it: 404 "Unknown property".
- A failure of the value codec (`parse`) aborts the whole call.
- A commitable resource gets `doCommit` with the two maps before the response is built.

The property sources, the codec and the resource are *oracles*: function-typed fields that answer for the collaborators. The model also returns the trace of every call made into them (`Call`), so properties such as "later sources are never consulted" and "`doCommit` is called once" become statements about that trace.

The modules for this part:
- `PropPatch` holds the data and the specification functions. `Dispatch` is one name (the inner loop over the sources). `RunOps` is a sequence of names. `SetPropertiesSpec` is the whole call.
- `PropPatchSetter.PropertySourcePatchSetter` is the class. Its methods keep the source's loops, with the `found` flag and `break`, and are proved equal to the specification functions.
- `PropPatchProperties` holds the lemmas.

**AXFR.** `RRsetIterator` hands out every RRset of a zone for an outward zone transfer. Section 2.2 of RFC 5936 requires such a transfer to begin and end with the zone's SOA.
- The constructor validates the zone. It then lays the origin's RRsets out in an array: SOA, NS, the rest.
- `next()` drains that array. When the array runs out, it loads the next domain that is not the root (compared ignoring case), not missing and not empty.
- When no domain is left, `next()` emits the origin SOA once more.

The modules for this part:
- `Axfr` holds the data and the specification functions. `Layout` is the constructor's array. `AdvanceFrom` is the skipping loop. `StreamFrom` is every result still to come from a state.
- `RRsetIteration.RRsetIterator` is the class. It keeps the source's fields `current` (an `array?`), `count`, `wantLastSoa` and the remaining domain names. `Next` is proved to pop the first element of the ghost `Stream()`.
- `AxfrProperties` gives an independent description of the whole transfer (`ExpectedTransfer`) and proves the iterator produces it. It then derives the ordering properties.

## Model

| member | source | states |
|---|---|---|
| PropPatch.FirstClaim | milton-server/src/main/java/io/milton/http/webdav/PropertySourcePatchSetter.java:83-86 | the chosen source claims the name and no earlier source does; there is none exactly when no source claims it |
| PropPatch.AddErrorProp | milton-server/src/main/java/io/milton/http/webdav/PropertySourcePatchSetter.java:171-180 | the list for `stat` is created if absent and grows by exactly the new entry at its end; every other status keeps its list; no list loses entries |
| PropPatch.Dispatch | milton-server/src/main/java/io/milton/http/webdav/PropertySourcePatchSetter.java:82-115 | processing one name only ever aborts for a field to set (removes have no parse step), never calls `doCommit`, and makes calls about that name only |
| PropPatch.Record | milton-server/src/main/java/io/milton/http/webdav/PropertySourcePatchSetter.java:92-105 | the new maps show the outcome (the name is known with its declared type, or listed with its notes under its status), keep everything recorded before, and leave the known entries of other names as they were |
| PropPatchSetter.PropertySourcePatchSetter.constructor | milton-server/src/main/java/io/milton/http/webdav/PropertySourcePatchSetter.java:49-52 | keeps the given sources and value writers |
| PropPatchSetter.PropertySourcePatchSetter.SetProperties | milton-server/src/main/java/io/milton/http/webdav/PropertySourcePatchSetter.java:75-169 | the response and the full trace of collaborator calls are those of `SetPropertiesSpec`: sets, then removes unless the codec raised, then `doCommit` when commitable |
| PropPatchSetter.PropertySourcePatchSetter.SetFields | milton-server/src/main/java/io/milton/http/webdav/PropertySourcePatchSetter.java:77-116 | the loop over the fields to set, from two empty maps, produces the run of `RunOps` over them, including the abort on a parse failure |
| PropPatchSetter.PropertySourcePatchSetter.RemoveFields | milton-server/src/main/java/io/milton/http/webdav/PropertySourcePatchSetter.java:117-151 | the loop over the fields to remove continues the two maps exactly as `RunOps` over the removes does |
| PropPatchSetter.PropertySourcePatchSetter.SetOne | milton-server/src/main/java/io/milton/http/webdav/PropertySourcePatchSetter.java:81-115 | the inner loop for one field to set makes the calls of `Dispatch` and records its outcome with `Record`, or reports the parse failure |
| PropPatchSetter.PropertySourcePatchSetter.RemoveOne | milton-server/src/main/java/io/milton/http/webdav/PropertySourcePatchSetter.java:118-149 | the inner loop for one field to remove makes the calls of `Dispatch` and records its outcome; it never aborts |
| PropPatchProperties.NoFallbackToLaterSources | milton-server/src/main/java/io/milton/http/webdav/PropertySourcePatchSetter.java:83-107 | once a source claims the name, appending any sources after the list changes neither the calls nor the outcome, whatever the claimed write does |
| PropPatchProperties.LaterSourcesNotConsulted | milton-server/src/main/java/io/milton/http/webdav/PropertySourcePatchSetter.java:83-107 | for one name, metadata is asked only of sources up to the claiming one; the write or clear goes only to the claiming source; `doCommit` is not called |
| PropPatchProperties.UnclaimedIsNotFound | milton-server/src/main/java/io/milton/http/webdav/PropertySourcePatchSetter.java:112-115 | an unclaimed name asks every source once and ends with 404 "Unknown property", for sets and removes |
| PropPatchProperties.ReadOnlyIsForbidden | milton-server/src/main/java/io/milton/http/webdav/PropertySourcePatchSetter.java:87-106 | a claimed read-only name ends with 403 "Property is read only"; only metadata lookups are made (no parse, no write, no clear), so the outcome does not depend on the codec |
| PropPatchProperties.SetOutcome | milton-server/src/main/java/io/milton/http/webdav/PropertySourcePatchSetter.java:87-102 | a writable set aborts exactly when parsing with the declared type fails; otherwise the write succeeds with the declared type, or gives 401 "Not authorised", or gives the exception's own status and notes |
| PropPatchProperties.RemoveOutcome | milton-server/src/main/java/io/milton/http/webdav/PropertySourcePatchSetter.java:124-136 | a writable remove makes the lookups then one `clearProperty`, and maps its result as a write is mapped |
| PropPatchProperties.FailureComesFromKnownCause | milton-server/src/main/java/io/milton/http/webdav/PropertySourcePatchSetter.java:94-115 | a failed outcome is 404 "Unknown property" exactly because no source claims the name, 403 "Property is read only" because the claiming source declares it read-only, 401 "Not authorised" because the claiming source refused the write or clear, or a status and notes the claiming source raised itself |
| PropPatchProperties.RemoveNeverAborts | milton-server/src/main/java/io/milton/http/webdav/PropertySourcePatchSetter.java:118-149 | processing a name to remove always records an outcome |
| PropPatchProperties.RunOpsAppend | milton-server/src/main/java/io/milton/http/webdav/PropertySourcePatchSetter.java:80-151 | running two lists of names is running the first, then the second from its maps, unless the first aborted |
| PropPatchProperties.RunAbortsIff | milton-server/src/main/java/io/milton/http/webdav/PropertySourcePatchSetter.java:88 | a run ends without maps exactly when some name in it hits a parse failure |
| PropPatch.RunOps | milton-server/src/main/java/io/milton/http/webdav/PropertySourcePatchSetter.java:80-151 | the loops over the names never call `doCommit`; when not aborted, the maps only grow: no known property is dropped and every error list keeps its entries, in order, at its front |
| PropPatchProperties.RecordEffect | milton-server/src/main/java/io/milton/http/webdav/PropertySourcePatchSetter.java:92-114 | recording one outcome for an untouched name leaves it recorded exactly once and leaves every other name as it was |
| PropPatchProperties.RunRecordsEachOnce | milton-server/src/main/java/io/milton/http/webdav/PropertySourcePatchSetter.java:80-151 | over a run of distinct, untouched names, each ends recorded exactly once as its own outcome |
| PropPatchProperties.RunKeepsOthers | milton-server/src/main/java/io/milton/http/webdav/PropertySourcePatchSetter.java:80-151 | a name the run does not process stays untouched, or stays recorded once as the same outcome |
| PropPatchProperties.RunShowsEveryOutcome | milton-server/src/main/java/io/milton/http/webdav/PropertySourcePatchSetter.java:80-151 | in a run that is not aborted, every name records an outcome and that outcome is still visible in the final maps |
| PropPatchProperties.SetAndRemovedShowsBoth | milton-server/src/main/java/io/milton/http/webdav/PropertySourcePatchSetter.java:80-151 | for any request naming the same property among the fields to set and the fields to remove, both outcomes are recorded and both are visible in the response; so a set that succeeds with a clear that fails, or the reverse, leaves the name in `knownProps` and in an error list |
| PropPatchProperties.SetsBeforeRemoves | milton-server/src/main/java/io/milton/http/webdav/PropertySourcePatchSetter.java:80-117 | the call is a single run over all sets followed by all removes, then the end of the call |
| PropPatch.Finish | milton-server/src/main/java/io/milton/http/webdav/PropertySourcePatchSetter.java:160-168 | the end of the call keeps every call of the loops, answers exactly when the loops were not aborted, with a response holding the loops' two maps, and adds one call, `doCommit` with the response's maps, exactly for a commitable resource |
| PropPatch.SetPropertiesSpec | milton-server/src/main/java/io/milton/http/webdav/PropertySourcePatchSetter.java:75-169 | the response carries the request's `href`; on a commitable resource a successful call ends with `doCommit` on the response's maps |
| PropPatchProperties.ParseFailureAbortsCall | milton-server/src/main/java/io/milton/http/webdav/PropertySourcePatchSetter.java:88-168 | there is no response exactly when the codec raised for some field to set, and then `doCommit` was never called |
| PropPatchProperties.CommitCalledOnce | milton-server/src/main/java/io/milton/http/webdav/PropertySourcePatchSetter.java:160-168 | `doCommit` is called once iff the call succeeds on a commitable resource; it is then the last call, with exactly the maps of the response; otherwise it is never called |
| PropPatchProperties.EachNameRecordedOnce | milton-server/src/main/java/io/milton/http/webdav/PropertySourcePatchSetter.java:80-168 | with distinct requested names, each appears exactly once in the response (known or one error entry, never both) and no other name appears |
| PropPatchProperties.NameSetAndRemovedLandsInBothMaps | milton-server/src/main/java/io/milton/http/webdav/PropertySourcePatchSetter.java:80-151 | a concrete request that sets and removes the same name, whose set is written and whose clear is refused with 401, ends up with the name in `knownProps` and in the 401 list |
| PropPatchProperties.MixedRequestExample | milton-server/src/main/java/io/milton/http/webdav/PropertySourcePatchSetter.java:75-169 | a concrete request (one set written, one read-only, one removal) gives the stated response and one `doCommit` |
| PropPatchProperties.MixedRequestRun | milton-server/src/main/java/io/milton/http/webdav/PropertySourcePatchSetter.java:80-151 | the loops of that request record `color` and `owner` as known and `size` under 403 |
| Axfr.EqualsIgnoreCaseIffSameLower | milton-server/src/main/java/io/milton/dns/RRsetIterator.java:86 | two names compare equal ignoring case exactly when their lower-cased forms are equal |
| Axfr.EqualsIgnoreCaseIsEquivalence | milton-server/src/main/java/io/milton/dns/RRsetIterator.java:86 | comparing ignoring case is reflexive, symmetric and transitive, and only relates names of the same length |
| Axfr.EqualsIgnoreCaseCases | milton-server/src/main/java/io/milton/dns/RRsetIterator.java:86 | a name differing from the root only in letter case matches it; a different letter or an extra trailing dot does not |
| Axfr.GetRRset | milton-server/src/main/java/io/milton/dns/RRsetIterator.java:43-46 | the RRset found has the requested type and comes from the domain; there is none exactly when no RRset of the domain has that type |
| Axfr.LastOfType | milton-server/src/main/java/io/milton/dns/RRsetIterator.java:56-59 | the RRset the constructor's loop leaves in slot 0 or 1 has that type and comes from the origin; there is none only when no RRset has the type |
| Axfr.Others | milton-server/src/main/java/io/milton/dns/RRsetIterator.java:60-62 | the RRsets that go from slot 2 on are RRsets of the origin, each neither SOA nor NS, and no more of them than the origin holds |
| Axfr.Layout | milton-server/src/main/java/io/milton/dns/RRsetIterator.java:50-63 | the array has the requested length; slot 0, when filled, holds an SOA of the origin and slot 1 an NS of the origin |
| Axfr.Validate | milton-server/src/main/java/io/milton/dns/RRsetIterator.java:35-48 | each constructor failure happens exactly in its own case, in the source's order: null domain iterator, lookup of the root throws, root missing, no SOA, no NS; on success the origin has both and room for the rest |
| Axfr.AdvanceFrom | milton-server/src/main/java/io/milton/dns/RRsetIterator.java:83-101 | a loaded domain has RRsets, and the names left afterwards are fewer than before |
| Axfr.StreamFrom | milton-server/src/main/java/io/milton/dns/RRsetIterator.java:72-104 | the results still to come never include `NoSuchElementException`, and while `wantLastSoa` holds they end with the origin's SOA |
| Axfr.OthersBound | milton-server/src/main/java/io/milton/dns/RRsetIterator.java:51-61 | with an SOA and an NS in the origin, the other RRsets fit from slot 2 on (no index overflow in `current[j++]`) |
| Axfr.LayoutStepSoa | milton-server/src/main/java/io/milton/dns/RRsetIterator.java:56-57 | one turn of the constructor's loop on an SOA RRset overwrites slot 0 and nothing else |
| Axfr.LayoutStepNs | milton-server/src/main/java/io/milton/dns/RRsetIterator.java:58-59 | one turn on an NS RRset overwrites slot 1 and nothing else |
| Axfr.LayoutStepOther | milton-server/src/main/java/io/milton/dns/RRsetIterator.java:60-62 | one turn on any other RRset writes the next free slot `j`, which is within the array |
| RRsetIteration.RRsetIterator.constructor | milton-server/src/main/java/io/milton/dns/RRsetIterator.java:31-64 | on a valid zone: a fresh array laid out by `Layout`, `count` 0, `wantLastSoa` true, all domain names ahead, so the whole `Transfer` is ahead |
| RRsetIteration.RRsetIterator.FillSlots | milton-server/src/main/java/io/milton/dns/RRsetIterator.java:50-63 | the loop with the second index `j` fills an array of the origin's size exactly as `Layout` says |
| RRsetIteration.RRsetIterator.Create | milton-server/src/main/java/io/milton/dns/RRsetIterator.java:31-64 | construction fails with the error of `Validate` when there is one; otherwise a fresh iterator with the whole transfer ahead |
| RRsetIteration.RRsetIterator.HasNext | milton-server/src/main/java/io/milton/dns/RRsetIterator.java:67-69 | true exactly when some result is still to come |
| RRsetIteration.RRsetIterator.Next | milton-server/src/main/java/io/milton/dns/RRsetIterator.java:72-104 | returns the first result still to come and drops it; once nothing is left, it throws `NoSuchElementException` and nothing is left after it |
| RRsetIteration.RRsetIterator.SkipToNextDomain | milton-server/src/main/java/io/milton/dns/RRsetIterator.java:83-101 | the skipping loop stops where `AdvanceFrom` says: loads that domain's RRsets with `count` 0, or leaves `current` null, or reports the domain whose lookup threw |
| RRsetIteration.RRsetIterator.Remove | milton-server/src/main/java/io/milton/dns/RRsetIterator.java:107-109 | always the unsupported-operation error, with no state changed |
| AxfrProperties.FirstFailure | milton-server/src/main/java/io/milton/dns/RRsetIterator.java:111-124 | the first domain whose lookup throws is one of the zone's non-root domains; there is none exactly when no lookup throws |
| AxfrProperties.AdvanceDelivers | milton-server/src/main/java/io/milton/dns/RRsetIterator.java:83-101 | each stop of the skipping loop accounts for the domains it passed in the reference description |
| AxfrProperties.AdvanceExhaustedIff | milton-server/src/main/java/io/milton/dns/RRsetIterator.java:83-101 | the skipping loop runs out iff every remaining domain is the root (ignoring case), missing or empty |
| AxfrProperties.AdvanceStopsAtFirstUnskipped | milton-server/src/main/java/io/milton/dns/RRsetIterator.java:83-101 | otherwise it stops at the first other domain, with every domain before it skipped, loads its RRsets or reports its failure, and continues from the names after it |
| AxfrProperties.StreamIsExpected | milton-server/src/main/java/io/milton/dns/RRsetIterator.java:72-104 | from any state with a current array, the results of the coming `next()` calls are the reference description |
| AxfrProperties.TransferIsExpected | milton-server/src/main/java/io/milton/dns/RRsetIterator.java:31-104 | the transfer of a validated zone is the reference transfer |
| AxfrProperties.OthersMembers | milton-server/src/main/java/io/milton/dns/RRsetIterator.java:60-62 | the RRsets from slot 2 on are exactly the origin's RRsets that are neither SOA nor NS |
| AxfrProperties.LayoutShape | milton-server/src/main/java/io/milton/dns/RRsetIterator.java:50-63 | the array has the origin's length; slot 0 holds an SOA and slot 1 an NS of the origin; slots 2 onward hold the other RRsets (`Others`), in original order; any slots left over stay null |
| AxfrProperties.SlotsFilledIffUniqueSoaNs | milton-server/src/main/java/io/milton/dns/RRsetIterator.java:50-63 | no slot stays null iff the origin has exactly one SOA and one NS RRset |
| AxfrProperties.FirstIsLastWhenUnique | milton-server/src/main/java/io/milton/dns/RRsetIterator.java:56-59 | with a single RRset of a type, the one the loop stores and the one `getRRset` returns coincide |
| AxfrProperties.TransferWithoutFailures | milton-server/src/main/java/io/milton/dns/RRsetIterator.java:72-104 | with no lookup failure: the origin's array, then the RRsets of every other non-root domain found, in zone order, then the origin SOA; no failure appears |
| AxfrProperties.TransferWithFailure | milton-server/src/main/java/io/milton/dns/RRsetIterator.java:80-101 | a lookup that throws is reported once, the second-to-last result, in place of the RRset that preceded it; only the origin SOA follows |
| AxfrProperties.TransferBeginsAndEndsWithSoa | milton-server/src/main/java/io/milton/dns/RRsetIterator.java:52-79 | the first result is an SOA of the origin and the last is the origin's SOA; with a single SOA RRset the two are the same |
| AxfrProperties.TransferSecondIsNs | milton-server/src/main/java/io/milton/dns/RRsetIterator.java:52-101 | the second result is the origin's NS, except exactly when a lookup throws right after an origin that holds only its SOA and NS |

## Left out

- Logging: every slf4j call, including the debug listing of sources. None of it affects behaviour.
- `supports()` is left out. It always answers true.
- The constructor that defaults `ValueWriters` is left out. It differs from the modelled one only in its codec, which here is a parameter.
- The internals of `PropertySource`, `ValueWriters.parse`, `PropFindResponse` and `CommitableResource.doCommit` are not part of this model. They are oracles fixed per call, so a write cannot change what a later metadata lookup answers.
- `Response.Status` is an integer code, and `QName` is a pair of strings.
- The resource's class test (`instanceof CommitableResource`) is a boolean `commitable`.
- Modelled exceptions: `NotAuthorizedException` and `PropertySetException` from `setProperty` or `clearProperty`, and a failed parse in the codec. Left out: any exception from `getPropertyMetaData`, any other exception from `setProperty` or `clearProperty`, and any exception from `doCommit`.
- `PropPatch.Finish`: `doCommit` receives the very map objects that the response is then built from, so anything `doCommit` changes in them shows in the response. The model passes the maps as values and takes `doCommit` to leave both unchanged; this aliasing is not modelled, and `CommitCalledOnce`'s "the maps of the response" holds only for a `doCommit` that does not mutate its arguments.
- The fields to set are a sequence of pairs, and the fields to remove a sequence of names. The source iterates a map and a set; their iteration order is taken as the sequence order. Distinctness within each group is a hypothesis of the lemmas that need it (`NamesDistinct`), not a type invariant.
- Exactly one outcome per name holds only when no name is both set and removed. The source has no guard against that case, and `SetAndRemovedShowsBoth` shows what then happens for every such request. The model follows the code.
- `PropertySourcePatchSetter.SetProperties`: the loop bodies are separate methods (`SetFields`, `RemoveFields`, `SetOne`, `RemoveOne`). The source has one method with nested loops; the statements and their order are the same.
- `RRsetIterator.getDomainResource` is an oracle from domain name to found, missing or failed. The steps inside it (`factory.getDomain`, `Utils.stringToName`, `DomainResource.fromDomain`) are not part of this model. Its two wrapped exceptions become one failure outcome.
- The dnsjava types are opaque. An RRset is a type code, an owner and opaque records. `Type.SOA` and `Type.NS` are the codes 6 and 2.
- `DomainResource.getRRset(type)` is not part of this model. It is taken to return the first RRset of that type in `getAllRRsets` order.
- `getAllRRsets` returning `null` is not modelled; a domain's RRsets are always a sequence. The empty case, which the source skips in the same branch, is modelled.
- `equalsIgnoreCase` is modelled for ASCII letters only. Unicode case folding is not modelled.
- `RRsetIteration.RRsetIterator.Next`: an exception thrown by `next()` is a returned `LookupFailed` or `NoSuchElement` value. Its effect on the state is kept exactly.
- `RRsetIteration.RRsetIterator.Remove`: the `UnsupportedOperationException` is a returned message.
- The constructor's exceptions are `Create`'s `Err` results. The plain constructor requires a zone that passes validation.
- `RRsetIteration.RRsetIterator.SkipToNextDomain`: the skipping `while` loop is a separate method called from `Next`. It returns where the source breaks out of the loop.
- Zone iteration (`zone.iterator()`) is taken as a finite sequence of domain names, read once.
- `milton-api/src/main/java/io/milton/principal/PriviledgeList.java` is not part of this model. It only copies a list.
- Concurrency is left out. The code has none.
