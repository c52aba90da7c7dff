/**
  `RRsetIterator`: hands out every RRset of a zone for an outward zone
  transfer, beginning and ending with the zone's SOA.
*/
module RRsetIteration {
  import opened Wrappers
  import opened Axfr

  /** The message of the `UnsupportedOperationException` that `remove()` throws. */
  const RemoveUnsupported := "Can't remove RRset"

  class RRsetIterator {
    const zone: Zone
    const factory: DomainFactory
    const originNode: DomainResource
    /** The domain names the zone's iterator has not returned yet. */
    var domainIter: seq<string>
    /** The RRsets of the domain being emitted; `null` once the domains are used up. */
    var current: array?<Option<RRset>>
    var count: nat
    var wantLastSoa: bool

    ghost predicate Valid()
      reads this
    {
      current != null ==> count < current.Length
    }

    /** Every result the coming `next()` calls produce, up to the one after
        which `hasNext()` is false. */
    ghost function Stream(): seq<NextResult>
      requires Valid()
      reads this, current
    {
      StreamFrom(zone.rootDomain, factory, GetRRset(originNode.rrsets, TypeSOA),
                 if current == null then None else Some(current[..]), count,
                 domainIter, wantLastSoa)
    }

    /** The constructor, for a zone that passes its checks: the origin's
        RRsets laid out SOA, NS, the rest, and the whole transfer ahead. */
    constructor (zone: Zone, factory: DomainFactory)
      requires Validate(zone, factory).Ok?
      ensures this.zone == zone && this.factory == factory
      ensures originNode == Validate(zone, factory).value
      ensures domainIter == zone.domains.value && count == 0 && wantLastSoa
      ensures fresh(current) && current[..] == Layout(originNode.rrsets, |originNode.rrsets|)
      ensures Valid() && Stream() == Transfer(zone, factory)
    {
      this.zone := zone;
      this.factory := factory;
      domainIter := zone.domains.value;
      var origin := factory.getDomainResource(zone.rootDomain).resource;
      originNode := origin;
      var slots := FillSlots(origin.rrsets);
      current := slots;
      count := 0;
      wantLastSoa := true;
    }

    /** The constructor's loop: the last SOA in slot 0, the last NS in slot 1,
        the other RRsets from slot 2 on, in order. */
    static method FillSlots(sets: seq<RRset>) returns (arr: array<Option<RRset>>)
      requires GetRRset(sets, TypeSOA).Some? && GetRRset(sets, TypeNS).Some?
      ensures fresh(arr) && 2 + |Others(sets)| <= |sets| && arr[..] == Layout(sets, |sets|)
    {
      OthersBound(sets);
      arr := new Option<RRset>[|sets|](_ => None);
      assert sets[..0] == [];
      LayoutEmpty(|sets|);
      assert arr[..] == Layout(sets[..0], |sets|);
      var j, k := 2, 0;
      while k < |sets|
        invariant 0 <= k <= |sets|
        invariant 2 + |Others(sets[..k])| <= |sets|
        invariant j == 2 + |Others(sets[..k])|
        invariant arr[..] == Layout(sets[..k], |sets|)
      {
        ghost var prev := sets[..k];
        var rrset := sets[k];
        PrefixStep(sets, k);
        var t := rrset.rrType;
        if t == TypeSOA {
          LayoutStepSoa(prev, rrset, |sets|);
          arr[0] := Some(rrset);
        } else if t == TypeNS {
          LayoutStepNs(prev, rrset, |sets|);
          arr[1] := Some(rrset);
        } else {
          LayoutStepOther(prev, rrset, |sets|);
          OthersSnoc(prev, rrset);
          arr[j] := Some(rrset);
          j := j + 1;
        }
        k := k + 1;
      }
      assert sets[..k] == sets;
    }

    /** The constructor with its checks: the first failing one is the
        exception it throws. */
    static method Create(zone: Zone, factory: DomainFactory) returns (r: Result<RRsetIterator, ConstructionError>)
      ensures Validate(zone, factory).Err? ==> r == Err(Validate(zone, factory).error)
      ensures Validate(zone, factory).Ok? ==>
        && r.Ok? && fresh(r.value) && fresh(r.value.current)
        && r.value.Valid() && r.value.Stream() == Transfer(zone, factory)
    {
      if zone.domains.None? {
        return Err(NullDomainIterator);
      }
      var lookup := factory.getDomainResource(zone.rootDomain);
      if lookup.LookupError? {
        return Err(OriginLookupFailed);
      }
      if lookup.Missing? {
        return Err(NullOrigin);
      }
      if GetRRset(lookup.resource.rrsets, TypeSOA).None? {
        return Err(MissingSoa);
      }
      if GetRRset(lookup.resource.rrsets, TypeNS).None? {
        return Err(MissingNs);
      }
      var it := new RRsetIterator(zone, factory);
      return Ok(it);
    }

    predicate HasNext()
      requires Valid()
      reads this, current
      ensures HasNext() <==> Stream() != []
    {
      current != null || wantLastSoa
    }

    /** One `next()`: the first result of `Stream()`, which it then drops;
        `NoSuchElement` once nothing is left. */
    method Next() returns (res: NextResult)
      requires Valid()
      modifies this
      ensures Valid()
      ensures old(Stream()) == [] ==> res == NoSuchElement && Stream() == []
      ensures old(Stream()) != [] ==> res == old(Stream())[0] && Stream() == old(Stream())[1..]
    {
      if !HasNext() {
        return NoSuchElement;
      }
      if current == null {
        wantLastSoa := false;
        return Emitted(GetRRset(originNode.rrsets, TypeSOA));
      }
      ghost var soa := GetRRset(originNode.rrsets, TypeSOA);
      ghost var cells, from, names := current[..], count, domainIter;
      var slot := current[count];
      count := count + 1;
      if count == current.Length {
        current := null;
        var failed := SkipToNextDomain();
        StreamAtLastSlot(zone.rootDomain, factory, soa, cells, from, names, wantLastSoa);
        if failed.Some? {
          return LookupFailed(failed.value);
        }
      }
      return Emitted(slot);
    }

    /** The skipping loop of `next()`, entered with `current` already `null`:
        it stops where `AdvanceFrom` says, loading that domain's RRsets, or
        passes on the name whose lookup threw. */
    method SkipToNextDomain() returns (failed: Option<string>)
      requires current == null
      modifies this
      ensures wantLastSoa == old(wantLastSoa)
      ensures match AdvanceFrom(zone.rootDomain, factory, old(domainIter))
        case Exhausted =>
          failed.None? && current == null && domainIter == [] && count == old(count)
        case Loaded(sets, rest) =>
          && failed.None? && current != null && fresh(current)
          && current[..] == Slots(sets) && count == 0 && domainIter == rest
        case Threw(d, rest) =>
          failed == Some(d) && current == null && domainIter == rest && count == old(count)
    {
      ghost var adv := AdvanceFrom(zone.rootDomain, factory, domainIter);
      while domainIter != []
        invariant current == null && count == old(count) && wantLastSoa == old(wantLastSoa)
        invariant AdvanceFrom(zone.rootDomain, factory, domainIter) == adv
      {
        var domainString := domainIter[0];
        domainIter := domainIter[1..];
        if EqualsIgnoreCase(domainString, zone.rootDomain) {
          continue;
        }
        var dr := factory.getDomainResource(domainString);
        if dr.LookupError? {
          return Some(domainString);
        }
        if dr.Missing? {
          continue;
        }
        var sets := dr.resource.rrsets;
        if |sets| == 0 {
          continue;
        }
        current := new Option<RRset>[|sets|](i requires 0 <= i < |sets| => Some(sets[i]));
        count := 0;
        assert current[..] == Slots(sets);
        return None;
      }
      return None;
    }

    /** `remove()` is unsupported: it throws and changes nothing. */
    method Remove() returns (error: string)
      ensures error == RemoveUnsupported
    {
      error := RemoveUnsupported;
    }
  }
}
