/**
  What the whole zone transfer looks like: a reference description of the
  sequence `RRsetIterator` produces, and the properties RFC 5936 asks of it.
*/
module AxfrProperties {
  import opened Wrappers
  import opened Axfr

  // ---------------------------------------------------------------------
  // Reference description of the transfer

  /** Looking `d` up throws, and the iterator does look it up. */
  predicate Fails(root: string, factory: DomainFactory, d: string) {
    !EqualsIgnoreCase(d, root) && factory.getDomainResource(d).LookupError?
  }

  /** The RRsets of every domain after the origin that is looked up and
      found, in zone order, up to the first lookup that throws. */
  function Delivered(root: string, factory: DomainFactory, pending: seq<string>): seq<RRset> {
    if pending == [] then []
    else if EqualsIgnoreCase(pending[0], root) then Delivered(root, factory, pending[1..])
    else match factory.getDomainResource(pending[0])
      case LookupError => []
      case Missing => Delivered(root, factory, pending[1..])
      case Found(dr) => dr.rrsets + Delivered(root, factory, pending[1..])
  }

  /** The first domain whose lookup throws, if any. */
  function FirstFailure(root: string, factory: DomainFactory, pending: seq<string>): (r: Option<string>)
    ensures r.None? <==> forall i :: 0 <= i < |pending| ==> !Fails(root, factory, pending[i])
    ensures r.Some? ==> r.value in pending && Fails(root, factory, r.value)
  {
    if pending == [] then None
    else if Fails(root, factory, pending[0]) then Some(pending[0])
    else
      var r := FirstFailure(root, factory, pending[1..]);
      assert forall i :: 0 < i < |pending| ==> pending[i] == pending[1..][i - 1];
      r
  }

  /** One `next()` result per array slot. */
  function Emits(cells: seq<Option<RRset>>): (r: seq<NextResult>)
    ensures |r| == |cells| && forall i :: 0 <= i < |cells| ==> r[i] == Emitted(cells[i])
  {
    seq(|cells|, i requires 0 <= i < |cells| => Emitted(cells[i]))
  }

  function FinalSoa(soa: Option<RRset>, wantLastSoa: bool): seq<NextResult> {
    if wantLastSoa then [Emitted(soa)] else []
  }

  /** The results still to come when `full` is every RRset still to be handed
      out: all of them, or, when a lookup throws, all but the last followed by
      that failure; then the final SOA if it is still wanted. */
  function Close(full: seq<NextResult>, failure: Option<string>, soa: Option<RRset>, wantLastSoa: bool): seq<NextResult>
    requires |full| > 0
  {
    match failure
    case None => full + FinalSoa(soa, wantLastSoa)
    case Some(d) => full[..|full| - 1] + [LookupFailed(d)] + FinalSoa(soa, wantLastSoa)
  }

  /** The results still to come, from `count` in `cells`: every slot and every
      delivered RRset, then the final SOA if it is still wanted. A lookup that
      throws takes the place of the RRset before it, and nothing but the final
      SOA comes after it. */
  function Expected(root: string, factory: DomainFactory, soa: Option<RRset>,
                    cells: seq<Option<RRset>>, count: nat, pending: seq<string>, wantLastSoa: bool): seq<NextResult>
    requires count < |cells|
  {
    Close(Emits(cells[count..]) + Emits(Slots(Delivered(root, factory, pending))),
          FirstFailure(root, factory, pending), soa, wantLastSoa)
  }

  /** The reference transfer of a zone that passed validation. */
  function ExpectedTransfer(zone: Zone, factory: DomainFactory): seq<NextResult>
    requires Validate(zone, factory).Ok?
  {
    var origin := Validate(zone, factory).value.rrsets;
    Expected(zone.rootDomain, factory, GetRRset(origin, TypeSOA),
             Layout(origin, |origin|), 0, zone.domains.value, true)
  }

  // ---------------------------------------------------------------------
  // The iterator produces the reference transfer

  lemma EmitsAppend(a: seq<Option<RRset>>, b: seq<Option<RRset>>)
    ensures Emits(a + b) == Emits(a) + Emits(b)
  {
  }

  lemma SlotsAppend(a: seq<RRset>, b: seq<RRset>)
    ensures Slots(a + b) == Slots(a) + Slots(b)
  {
  }

  /** Where the skipping loop stops, in terms of the reference description. */
  lemma {:induction false} AdvanceDelivers(root: string, factory: DomainFactory, pending: seq<string>)
    ensures match AdvanceFrom(root, factory, pending)
      case Exhausted =>
        Delivered(root, factory, pending) == [] && FirstFailure(root, factory, pending) == None
      case Loaded(sets, rest) =>
        && Delivered(root, factory, pending) == sets + Delivered(root, factory, rest)
        && FirstFailure(root, factory, pending) == FirstFailure(root, factory, rest)
      case Threw(d, rest) =>
        Delivered(root, factory, pending) == [] && FirstFailure(root, factory, pending) == Some(d)
    decreases |pending|
  {
    if pending != [] {
      AdvanceDelivers(root, factory, pending[1..]);
    }
  }

  lemma CloseCons(e: NextResult, tail: seq<NextResult>, failure: Option<string>, soa: Option<RRset>, wantLastSoa: bool)
    requires |tail| > 0
    ensures Close([e] + tail, failure, soa, wantLastSoa) == [e] + Close(tail, failure, soa, wantLastSoa)
  {
    assert ([e] + tail)[..|tail|] == [e] + tail[..|tail| - 1];
  }

  /** Inside the array, the reference description emits the slot at `count`
      and then continues from `count + 1`. */
  lemma ExpectedInside(root: string, factory: DomainFactory, soa: Option<RRset>,
                       cells: seq<Option<RRset>>, count: nat, pending: seq<string>, wantLastSoa: bool)
    requires count + 1 < |cells|
    ensures Expected(root, factory, soa, cells, count, pending, wantLastSoa)
         == [Emitted(cells[count])] + Expected(root, factory, soa, cells, count + 1, pending, wantLastSoa)
  {
    var delivered := Emits(Slots(Delivered(root, factory, pending)));
    var tail := Emits(cells[count + 1..]) + delivered;
    assert cells[count..] == [cells[count]] + cells[count + 1..];
    EmitsAppend([cells[count]], cells[count + 1..]);
    assert Emits(cells[count..]) + delivered == [Emitted(cells[count])] + tail;
    CloseCons(Emitted(cells[count]), tail, FirstFailure(root, factory, pending), soa, wantLastSoa);
  }

  /** At the last slot, when the skipping loop loads a domain, the reference
      description emits the slot and continues with that domain's RRsets. */
  lemma ExpectedLoaded(root: string, factory: DomainFactory, soa: Option<RRset>,
                       cells: seq<Option<RRset>>, count: nat, pending: seq<string>, wantLastSoa: bool)
    requires count + 1 == |cells| && AdvanceFrom(root, factory, pending).Loaded?
    ensures var next := AdvanceFrom(root, factory, pending);
      Expected(root, factory, soa, cells, count, pending, wantLastSoa)
      == [Emitted(cells[count])] + Expected(root, factory, soa, Slots(next.sets), 0, next.rest, wantLastSoa)
  {
    AdvanceDelivers(root, factory, pending);
    var next := AdvanceFrom(root, factory, pending);
    var later := Delivered(root, factory, next.rest);
    SlotsAppend(next.sets, later);
    EmitsAppend(Slots(next.sets), Slots(later));
    assert cells[count..] == [cells[count]];
    assert Slots(next.sets)[0..] == Slots(next.sets);
    var tail := Emits(Slots(next.sets)) + Emits(Slots(later));
    assert Emits(cells[count..]) + Emits(Slots(next.sets + later)) == [Emitted(cells[count])] + tail;
    CloseCons(Emitted(cells[count]), tail, FirstFailure(root, factory, next.rest), soa, wantLastSoa);
  }

  /** At the last slot, when the skipping loop finds nothing more or a lookup
      throws, the reference description has at most the final SOA left. */
  lemma ExpectedLast(root: string, factory: DomainFactory, soa: Option<RRset>,
                     cells: seq<Option<RRset>>, count: nat, pending: seq<string>, wantLastSoa: bool)
    requires count + 1 == |cells| && !AdvanceFrom(root, factory, pending).Loaded?
    ensures Expected(root, factory, soa, cells, count, pending, wantLastSoa)
         == StreamFrom(root, factory, soa, Some(cells), count, pending, wantLastSoa)
  {
    AdvanceDelivers(root, factory, pending);
    StreamAtLastSlot(root, factory, soa, cells, count, pending, wantLastSoa);
    assert cells[count..] == [cells[count]];
  }

  /** `StreamFrom`, which follows the iterator's state step by step, agrees
      with the reference description. */
  lemma {:induction false} StreamIsExpected(root: string, factory: DomainFactory, soa: Option<RRset>,
                                            cells: seq<Option<RRset>>, count: nat, pending: seq<string>, wantLastSoa: bool)
    requires count < |cells|
    ensures StreamFrom(root, factory, soa, Some(cells), count, pending, wantLastSoa)
         == Expected(root, factory, soa, cells, count, pending, wantLastSoa)
    decreases |pending|, |cells| - count + 1
  {
    if count + 1 < |cells| {
      StreamIsExpected(root, factory, soa, cells, count + 1, pending, wantLastSoa);
      ExpectedInside(root, factory, soa, cells, count, pending, wantLastSoa);
    } else if AdvanceFrom(root, factory, pending).Loaded? {
      var next := AdvanceFrom(root, factory, pending);
      StreamAtLastSlot(root, factory, soa, cells, count, pending, wantLastSoa);
      StreamIsExpected(root, factory, soa, Slots(next.sets), 0, next.rest, wantLastSoa);
      ExpectedLoaded(root, factory, soa, cells, count, pending, wantLastSoa);
    } else {
      ExpectedLast(root, factory, soa, cells, count, pending, wantLastSoa);
    }
  }

  /** The iterator a validated zone starts with hands out the reference transfer. */
  lemma TransferIsExpected(zone: Zone, factory: DomainFactory)
    requires Validate(zone, factory).Ok?
    ensures Transfer(zone, factory) == ExpectedTransfer(zone, factory)
  {
    var origin := Validate(zone, factory).value.rrsets;
    StreamIsExpected(zone.rootDomain, factory, GetRRset(origin, TypeSOA),
                     Layout(origin, |origin|), 0, zone.domains.value, true);
  }

  // ---------------------------------------------------------------------
  // The skipping loop

  /** A domain the skipping loop passes over: the root again (compared
      ignoring case), one the factory does not find, or one with no RRsets. */
  predicate Skipped(root: string, factory: DomainFactory, d: string) {
    || EqualsIgnoreCase(d, root)
    || factory.getDomainResource(d).Missing?
    || (factory.getDomainResource(d).Found? && |factory.getDomainResource(d).resource.rrsets| == 0)
  }

  /** The skipping loop runs out only when it passes over every remaining domain. */
  lemma {:induction false} AdvanceExhaustedIff(root: string, factory: DomainFactory, pending: seq<string>)
    ensures AdvanceFrom(root, factory, pending).Exhausted?
        <==> forall j :: 0 <= j < |pending| ==> Skipped(root, factory, pending[j])
    decreases |pending|
  {
    if pending != [] {
      var tail := pending[1..];
      AdvanceExhaustedIff(root, factory, tail);
      assert forall j :: 0 < j < |pending| ==> pending[j] == tail[j - 1];
    }
  }

  /** Otherwise it stops at the first domain it does not pass over: it loads
      that domain's RRsets or reports that its lookup threw, and continues
      later from the names after it. */
  lemma {:induction false} AdvanceStopsAtFirstUnskipped(root: string, factory: DomainFactory, pending: seq<string>)
    requires !AdvanceFrom(root, factory, pending).Exhausted?
    ensures var next := AdvanceFrom(root, factory, pending);
      var i := |pending| - |next.rest| - 1;
      && 0 <= i
      && next.rest == pending[i + 1..]
      && !Skipped(root, factory, pending[i])
      && (forall j :: 0 <= j < i ==> Skipped(root, factory, pending[j]))
      && (next.Loaded? ==> factory.getDomainResource(pending[i]) == Found(DomainResource(next.sets)))
      && (next.Threw? ==> next.domain == pending[i] && Fails(root, factory, pending[i]))
    decreases |pending|
  {
    var tail := pending[1..];
    if Skipped(root, factory, pending[0]) {
      assert AdvanceFrom(root, factory, pending) == AdvanceFrom(root, factory, tail);
      AdvanceStopsAtFirstUnskipped(root, factory, tail);
      var next := AdvanceFrom(root, factory, tail);
      var i := |pending| - |next.rest| - 1;
      assert tail[i..] == pending[i + 1..];
      assert pending[i] == tail[i - 1];
      forall j | 0 <= j < i
        ensures Skipped(root, factory, pending[j])
      {
        if j > 0 {
          assert pending[j] == tail[j - 1];
        }
      }
    }
  }

  // ---------------------------------------------------------------------
  // The constructor's array

  lemma {:induction false} OthersMembers(sets: seq<RRset>, x: RRset)
    ensures x in Others(sets) <==> x in sets && IsOther(x)
    decreases |sets|
  {
    if sets != [] {
      var init := sets[..|sets| - 1];
      OthersMembers(init, x);
      assert sets == init + [sets[|sets| - 1]];
    }
  }

  lemma ArrangeShape(soa: Option<RRset>, ns: Option<RRset>, others: seq<RRset>, n: nat)
    requires 2 + |others| <= n
    ensures var cells := Arrange(soa, ns, others, n);
      && cells[0] == soa && cells[1] == ns
      && cells[2..2 + |others|] == Slots(others)
      && (forall i :: 2 + |others| <= i < n ==> cells[i].None?)
  {
    var cells := Arrange(soa, ns, others, n);
    assert cells[2..2 + |others|] == Slots(others);
  }

  /** The array the constructor builds: the origin's SOA in slot 0, its NS in
      slot 1, the other RRsets (`OthersMembers`) from slot 2 on in the origin's
      order, and `null` in whatever is left over. */
  lemma LayoutShape(sets: seq<RRset>)
    requires GetRRset(sets, TypeSOA).Some? && GetRRset(sets, TypeNS).Some?
    ensures 2 + |Others(sets)| <= |sets|
    ensures var cells := Layout(sets, |sets|);
      && |cells| == |sets|
      && cells[0].Some? && cells[0].value.rrType == TypeSOA && cells[0].value in sets
      && cells[1].Some? && cells[1].value.rrType == TypeNS && cells[1].value in sets
      && cells[2..2 + |Others(sets)|] == Slots(Others(sets))
      && (forall i :: 2 + |Others(sets)| <= i < |sets| ==> cells[i].None?)
  {
    OthersBound(sets);
    LastOfTypeExists(sets, TypeSOA);
    LastOfTypeExists(sets, TypeNS);
    ArrangeShape(LastOfType(sets, TypeSOA), LastOfType(sets, TypeNS), Others(sets), |sets|);
  }

  lemma LastOfTypeExists(sets: seq<RRset>, t: int)
    requires GetRRset(sets, t).Some?
    ensures LastOfType(sets, t).Some?
  {
    var i :| 0 <= i < |sets| && sets[i] == GetRRset(sets, t).value;
  }

  lemma LayoutFilledIffFull(sets: seq<RRset>)
    requires GetRRset(sets, TypeSOA).Some? && GetRRset(sets, TypeNS).Some?
    ensures 2 + |Others(sets)| <= |sets|
    ensures (forall i :: 0 <= i < |sets| ==> Layout(sets, |sets|)[i].Some?)
        <==> 2 + |Others(sets)| == |sets|
  {
    LayoutShape(sets);
    var cells, m := Layout(sets, |sets|), 2 + |Others(sets)|;
    if m < |sets| {
      assert cells[|sets| - 1].None?;
    } else {
      forall i | 0 <= i < |sets|
        ensures cells[i].Some?
      {
        if 2 <= i {
          assert cells[i] == cells[2..m][i - 2];
        }
      }
    }
  }

  /** No slot stays `null` exactly when the origin has one SOA and one NS RRset. */
  lemma SlotsFilledIffUniqueSoaNs(sets: seq<RRset>)
    requires GetRRset(sets, TypeSOA).Some? && GetRRset(sets, TypeNS).Some?
    ensures 2 + |Others(sets)| <= |sets|
    ensures (forall i :: 0 <= i < |sets| ==> Layout(sets, |sets|)[i].Some?)
        <==> CountType(sets, TypeSOA) == 1 && CountType(sets, TypeNS) == 1
  {
    LayoutFilledIffFull(sets);
    OthersCount(sets);
    CountTypePositive(sets, TypeSOA);
    CountTypePositive(sets, TypeNS);
  }

  /** With one RRset of a type, the first and the last of that type are the same. */
  lemma {:induction false} FirstIsLastWhenUnique(sets: seq<RRset>, t: int)
    requires CountType(sets, t) == 1
    ensures GetRRset(sets, t) == LastOfType(sets, t)
    decreases |sets|
  {
    var init := sets[..|sets| - 1];
    if sets[|sets| - 1].rrType == t {
      assert CountType(init, t) == 0;
      if GetRRset(init, t).Some? {
        CountTypePositive(init, t);
      }
      GetRRsetSnoc(init, sets[|sets| - 1], t);
      assert sets == init + [sets[|sets| - 1]];
    } else {
      FirstIsLastWhenUnique(init, t);
      GetRRsetSnoc(init, sets[|sets| - 1], t);
      assert sets == init + [sets[|sets| - 1]];
    }
  }

  lemma {:induction false} GetRRsetSnoc(init: seq<RRset>, x: RRset, t: int)
    ensures GetRRset(init + [x], t) == if GetRRset(init, t).Some? then GetRRset(init, t)
                                      else if x.rrType == t then Some(x) else None
    decreases |init|
  {
    if init != [] {
      assert (init + [x])[1..] == init[1..] + [x];
      GetRRsetSnoc(init[1..], x, t);
    }
  }

  // ---------------------------------------------------------------------
  // The transfer

  /** With every lookup succeeding: the origin's array, the RRsets of every
      other domain found, in zone order, then the origin's SOA once more; no
      lookup failure is reported. */
  lemma TransferWithoutFailures(zone: Zone, factory: DomainFactory)
    requires Validate(zone, factory).Ok?
    requires FirstFailure(zone.rootDomain, factory, zone.domains.value).None?
    ensures var origin := Validate(zone, factory).value.rrsets;
      && Transfer(zone, factory)
         == Emits(Layout(origin, |origin|))
          + Emits(Slots(Delivered(zone.rootDomain, factory, zone.domains.value)))
          + [Emitted(GetRRset(origin, TypeSOA))]
      && forall k :: 0 <= k < |Transfer(zone, factory)| ==> !Transfer(zone, factory)[k].LookupFailed?
  {
    TransferIsExpected(zone, factory);
    var origin := Validate(zone, factory).value.rrsets;
    assert Layout(origin, |origin|)[0..] == Layout(origin, |origin|);
  }

  /** When a lookup throws: it is reported once, in the place of the RRset that
      would have come before it, and only the origin's SOA follows. */
  lemma TransferWithFailure(zone: Zone, factory: DomainFactory)
    requires Validate(zone, factory).Ok?
    requires FirstFailure(zone.rootDomain, factory, zone.domains.value).Some?
    ensures var origin := Validate(zone, factory).value.rrsets;
      var full := Emits(Layout(origin, |origin|)) + Emits(Slots(Delivered(zone.rootDomain, factory, zone.domains.value)));
      var t := Transfer(zone, factory);
      && |t| == |full| + 1
      && t[..|t| - 2] == full[..|full| - 1]
      && t[|t| - 2] == LookupFailed(FirstFailure(zone.rootDomain, factory, zone.domains.value).value)
      && t[|t| - 1] == Emitted(GetRRset(origin, TypeSOA))
      && forall k :: 0 <= k < |t| ==> (t[k].LookupFailed? <==> k == |t| - 2)
  {
    TransferIsExpected(zone, factory);
    var origin := Validate(zone, factory).value.rrsets;
    assert Layout(origin, |origin|)[0..] == Layout(origin, |origin|);
  }

  /** Section 2.2 of RFC 5936: the transfer begins with an SOA of the origin
      (then its NS) and ends with the origin's SOA; with a single SOA RRset
      the two are the same RRset. */
  lemma TransferBeginsAndEndsWithSoa(zone: Zone, factory: DomainFactory)
    requires Validate(zone, factory).Ok?
    ensures var origin := Validate(zone, factory).value.rrsets;
      var t := Transfer(zone, factory);
      && |t| >= 2
      && t[0] == Emitted(LastOfType(origin, TypeSOA))
      && t[0].rrset.Some? && t[0].rrset.value.rrType == TypeSOA
      && t[|t| - 1] == Emitted(GetRRset(origin, TypeSOA))
      && t[|t| - 1].rrset.Some? && t[|t| - 1].rrset.value.rrType == TypeSOA
      && (CountType(origin, TypeSOA) == 1 ==> t[0] == t[|t| - 1])
  {
    var origin := Validate(zone, factory).value.rrsets;
    LayoutShape(origin);
    if FirstFailure(zone.rootDomain, factory, zone.domains.value).None? {
      TransferWithoutFailures(zone, factory);
    } else {
      TransferWithFailure(zone, factory);
    }
    if CountType(origin, TypeSOA) == 1 {
      FirstIsLastWhenUnique(origin, TypeSOA);
    }
  }

  /** The second result is the origin's NS, unless a lookup throws right after
      an origin that holds only its SOA and NS. */
  lemma TransferSecondIsNs(zone: Zone, factory: DomainFactory)
    requires Validate(zone, factory).Ok?
    ensures var origin := Validate(zone, factory).value.rrsets;
      var t := Transfer(zone, factory);
      && |t| >= 2
      && (t[1] == Emitted(LastOfType(origin, TypeNS)) <==>
            || |origin| > 2
            || FirstFailure(zone.rootDomain, factory, zone.domains.value).None?
            || |Delivered(zone.rootDomain, factory, zone.domains.value)| > 0)
  {
    var origin := Validate(zone, factory).value.rrsets;
    var cells := Layout(origin, |origin|);
    var full := Emits(cells) + Emits(Slots(Delivered(zone.rootDomain, factory, zone.domains.value)));
    assert full[1] == Emitted(LastOfType(origin, TypeNS));
    if FirstFailure(zone.rootDomain, factory, zone.domains.value).None? {
      TransferWithoutFailures(zone, factory);
    } else {
      TransferWithFailure(zone, factory);
      var t := Transfer(zone, factory);
      if |full| > 2 {
        assert t[1] == full[..|full| - 1][1];
      } else {
        assert t[1].LookupFailed?;
      }
    }
  }
}
