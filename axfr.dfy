/**
  The data of an outward zone transfer (AXFR) and the sequence of RRsets
  that `RRsetIterator` hands out, stated as functions of the zone.
*/
module Axfr {
  import opened Wrappers

  /** DNS type codes the iterator singles out. */
  const TypeNS: int := 2
  const TypeSOA: int := 6

  /** An RRset: its type code, its owner name and its records, kept opaque. */
  datatype RRset = RRset(rrType: int, owner: string, records: seq<string>)

  /** A domain as served: its RRsets in the order `getAllRRsets` lists them. */
  datatype DomainResource = DomainResource(rrsets: seq<RRset>)

  /** What looking a domain up yields: its RRsets, `null`, or a wrapped
      `ForeignDomainException` / `TextParseException`. */
  datatype DomainLookup = Found(resource: DomainResource) | Missing | LookupError

  /** The domain factory, as an oracle from domain name to lookup outcome. */
  datatype DomainFactory = DomainFactory(getDomainResource: string -> DomainLookup)

  /** A zone: its root domain and the iterator over its domain names, which
      can be `null`. */
  datatype Zone = Zone(rootDomain: string, domains: Option<seq<string>>)

  /** What one `next()` call does: return an RRset (possibly a `null` array
      slot), throw `NoSuchElementException`, or throw the lookup failure of
      the named domain. */
  datatype NextResult = Emitted(rrset: Option<RRset>) | NoSuchElement | LookupFailed(domain: string)

  /** Why the constructor throws. `NullOrigin` is the `NullPointerException`
      from calling `getRRset` on a root domain that was not found. */
  datatype ConstructionError =
    | NullDomainIterator
    | OriginLookupFailed
    | NullOrigin
    | MissingSoa
    | MissingNs

  // ---------------------------------------------------------------------
  // Domain names

  /** ASCII case folding, as `equalsIgnoreCase` does it on ASCII letters. */
  function ToLowerAscii(c: char): (l: char)
    ensures 'A' <= c <= 'Z' ==> l as int == c as int + 32
    ensures !('A' <= c <= 'Z') ==> l == c
  {
    if 'A' <= c <= 'Z' then (c as int + 32) as char else c
  }

  /** `equalsIgnoreCase`: the same length, and each pair of characters equal
      once folded. */
  predicate EqualsIgnoreCase(a: string, b: string) {
    |a| == |b| && forall i :: 0 <= i < |a| ==> ToLowerAscii(a[i]) == ToLowerAscii(b[i])
  }

  /** A string folded to lower case, character by character. */
  function LowerAscii(s: string): string {
    seq(|s|, i requires 0 <= i < |s| => ToLowerAscii(s[i]))
  }

  /** Comparing ignoring case is comparing the strings folded to lower case. */
  lemma EqualsIgnoreCaseIffSameLower(a: string, b: string)
    ensures EqualsIgnoreCase(a, b) <==> LowerAscii(a) == LowerAscii(b)
  {
    if LowerAscii(a) == LowerAscii(b) {
      assert |a| == |LowerAscii(a)|;
      forall i | 0 <= i < |a| ensures ToLowerAscii(a[i]) == ToLowerAscii(b[i]) {
        assert LowerAscii(a)[i] == LowerAscii(b)[i];
      }
    }
  }

  /** Comparing ignoring case is an equivalence that only relates strings of
      the same length, so the root can be matched whatever its case. */
  lemma EqualsIgnoreCaseIsEquivalence(a: string, b: string, c: string)
    ensures EqualsIgnoreCase(a, a)
    ensures EqualsIgnoreCase(a, b) ==> |a| == |b| && EqualsIgnoreCase(b, a)
    ensures EqualsIgnoreCase(a, b) && EqualsIgnoreCase(b, c) ==> EqualsIgnoreCase(a, c)
  {
  }

  /** Only ASCII letter case is ignored; every other character must match. */
  lemma EqualsIgnoreCaseCases()
    ensures EqualsIgnoreCase("Example.COM", "example.com")
    ensures !EqualsIgnoreCase("example.com", "example.org")
    ensures !EqualsIgnoreCase("example.com", "example.com.")
  {
    assert ToLowerAscii('c') != ToLowerAscii('o');
    assert "example.com"[8] == 'c' && "example.org"[8] == 'o';
  }

  // ---------------------------------------------------------------------
  // RRsets of a domain

  /** `getRRset(type)`: the first RRset of that type, if any. */
  function GetRRset(sets: seq<RRset>, t: int): (r: Option<RRset>)
    ensures r.Some? ==> r.value in sets && r.value.rrType == t
    ensures r.None? <==> forall i :: 0 <= i < |sets| ==> sets[i].rrType != t
  {
    if sets == [] then None
    else if sets[0].rrType == t then Some(sets[0])
    else GetRRset(sets[1..], t)
  }

  /** The last RRset of type `t`: the one the constructor's loop leaves in
      its slot when the type occurs more than once. */
  function LastOfType(sets: seq<RRset>, t: int): (r: Option<RRset>)
    ensures r.Some? ==> r.value in sets && r.value.rrType == t
    ensures r.None? <==> forall i :: 0 <= i < |sets| ==> sets[i].rrType != t
  {
    if sets == [] then None
    else if sets[|sets| - 1].rrType == t then Some(sets[|sets| - 1])
    else LastOfType(sets[..|sets| - 1], t)
  }

  predicate IsOther(s: RRset) {
    s.rrType != TypeSOA && s.rrType != TypeNS
  }

  /** The RRsets that are neither SOA nor NS, in their original order. */
  function Others(sets: seq<RRset>): (r: seq<RRset>)
    ensures |r| <= |sets|
    ensures forall i :: 0 <= i < |r| ==> r[i] in sets && IsOther(r[i])
  {
    if sets == [] then []
    else Others(sets[..|sets| - 1]) + (if IsOther(sets[|sets| - 1]) then [sets[|sets| - 1]] else [])
  }

  /** How many RRsets have type `t`. */
  function CountType(sets: seq<RRset>, t: int): nat {
    if sets == [] then 0
    else CountType(sets[..|sets| - 1], t) + (if sets[|sets| - 1].rrType == t then 1 else 0)
  }

  /** Wraps each RRset as a filled array slot. */
  function Slots(sets: seq<RRset>): (r: seq<Option<RRset>>)
    ensures |r| == |sets| && forall i :: 0 <= i < |sets| ==> r[i] == Some(sets[i])
  {
    seq(|sets|, i requires 0 <= i < |sets| => Some(sets[i]))
  }

  /** An array of length `n` holding `soa` in slot 0, `ns` in slot 1,
      `others` from slot 2 on, and `null` in the slots left over. */
  function Arrange(soa: Option<RRset>, ns: Option<RRset>, others: seq<RRset>, n: nat): (r: seq<Option<RRset>>)
    requires 2 + |others| <= n
    ensures |r| == n
  {
    seq(n, i requires 0 <= i < n =>
      if i == 0 then soa
      else if i == 1 then ns
      else if i - 2 < |others| then Some(others[i - 2])
      else None)
  }

  /** The array the constructor fills from `sets`, of length `n`: the last SOA
      in slot 0, the last NS in slot 1, every other RRset from slot 2 on in
      its original order, and `null` in the slots left over. */
  function Layout(sets: seq<RRset>, n: nat): (r: seq<Option<RRset>>)
    requires 2 + |Others(sets)| <= n
    ensures |r| == n
    ensures r[0].Some? ==> r[0].value in sets && r[0].value.rrType == TypeSOA
    ensures r[1].Some? ==> r[1].value in sets && r[1].value.rrType == TypeNS
  {
    Arrange(LastOfType(sets, TypeSOA), LastOfType(sets, TypeNS), Others(sets), n)
  }

  // ---------------------------------------------------------------------
  // Construction

  /** What the constructor checks, in its order, and the origin it keeps. */
  function Validate(zone: Zone, factory: DomainFactory): (r: Result<DomainResource, ConstructionError>)
    ensures r.Ok? ==>
      && zone.domains.Some?
      && factory.getDomainResource(zone.rootDomain) == Found(r.value)
      && GetRRset(r.value.rrsets, TypeSOA).Some?
      && GetRRset(r.value.rrsets, TypeNS).Some?
      && 2 + |Others(r.value.rrsets)| <= |r.value.rrsets|
    ensures r == Err(NullDomainIterator) <==> zone.domains.None?
    ensures r == Err(OriginLookupFailed) <==>
      zone.domains.Some? && factory.getDomainResource(zone.rootDomain).LookupError?
    ensures r == Err(NullOrigin) <==>
      zone.domains.Some? && factory.getDomainResource(zone.rootDomain).Missing?
    ensures r == Err(MissingSoa) <==>
      && zone.domains.Some? && factory.getDomainResource(zone.rootDomain).Found?
      && GetRRset(factory.getDomainResource(zone.rootDomain).resource.rrsets, TypeSOA).None?
    ensures r == Err(MissingNs) <==>
      && zone.domains.Some? && factory.getDomainResource(zone.rootDomain).Found?
      && GetRRset(factory.getDomainResource(zone.rootDomain).resource.rrsets, TypeSOA).Some?
      && GetRRset(factory.getDomainResource(zone.rootDomain).resource.rrsets, TypeNS).None?
  {
    if zone.domains.None? then Err(NullDomainIterator)
    else match factory.getDomainResource(zone.rootDomain)
      case LookupError => Err(OriginLookupFailed)
      case Missing => Err(NullOrigin)
      case Found(origin) =>
        if GetRRset(origin.rrsets, TypeSOA).None? then Err(MissingSoa)
        else if GetRRset(origin.rrsets, TypeNS).None? then Err(MissingNs)
        else OthersBound(origin.rrsets); Ok(origin)
  }

  // ---------------------------------------------------------------------
  // Iteration

  /** Where the skipping loop of `next()` stops when it starts on the domain
      names still to come: no domain left, a domain with RRsets (and the names
      after it), or a lookup that threw (and the names after it). */
  datatype Advance = Exhausted | Loaded(sets: seq<RRset>, rest: seq<string>) | Threw(domain: string, rest: seq<string>)

  function AdvanceFrom(root: string, factory: DomainFactory, pending: seq<string>): (a: Advance)
    ensures a.Loaded? ==> |a.sets| > 0 && |a.rest| < |pending|
    ensures a.Threw? ==> |a.rest| < |pending|
    decreases |pending|
  {
    if pending == [] then Exhausted
    else if EqualsIgnoreCase(pending[0], root) then AdvanceFrom(root, factory, pending[1..])
    else match factory.getDomainResource(pending[0])
      case LookupError => Threw(pending[0], pending[1..])
      case Missing => AdvanceFrom(root, factory, pending[1..])
      case Found(dr) =>
        if |dr.rrsets| == 0 then AdvanceFrom(root, factory, pending[1..])
        else Loaded(dr.rrsets, pending[1..])
  }

  /** Every result that successive `next()` calls produce until `hasNext()`
      turns false, from the state `current` (`None` for `null`), `count`,
      the remaining domain names and `wantLastSoa`. `soa` is the origin's SOA. */
  function StreamFrom(root: string, factory: DomainFactory, soa: Option<RRset>,
                      current: Option<seq<Option<RRset>>>, count: nat,
                      pending: seq<string>, wantLastSoa: bool): (s: seq<NextResult>)
    requires current.Some? ==> count < |current.value|
    ensures forall i :: 0 <= i < |s| ==> !s[i].NoSuchElement?
    ensures wantLastSoa ==> |s| > 0 && s[|s| - 1] == Emitted(soa)
    decreases |pending|, if current.Some? then |current.value| - count + 1 else 0
  {
    if current.None? then
      (if wantLastSoa then [Emitted(soa)] else [])
    else
      var slot := current.value[count];
      if count + 1 < |current.value| then
        [Emitted(slot)] + StreamFrom(root, factory, soa, current, count + 1, pending, wantLastSoa)
      else match AdvanceFrom(root, factory, pending)
        case Exhausted =>
          [Emitted(slot)] + StreamFrom(root, factory, soa, None, count + 1, pending, wantLastSoa)
        case Loaded(sets, rest) =>
          [Emitted(slot)] + StreamFrom(root, factory, soa, Some(Slots(sets)), 0, rest, wantLastSoa)
        case Threw(d, rest) =>
          [LookupFailed(d)] + StreamFrom(root, factory, soa, None, count + 1, rest, wantLastSoa)
  }

  /** The last slot of the current array: what follows it depends on where
      the skipping loop stops. */
  lemma StreamAtLastSlot(root: string, factory: DomainFactory, soa: Option<RRset>,
                         cells: seq<Option<RRset>>, count: nat, pending: seq<string>, wantLastSoa: bool)
    requires count + 1 == |cells|
    ensures var s := StreamFrom(root, factory, soa, Some(cells), count, pending, wantLastSoa);
      match AdvanceFrom(root, factory, pending)
      case Exhausted => s == [Emitted(cells[count])] + StreamFrom(root, factory, soa, None, count + 1, pending, wantLastSoa)
      case Loaded(sets, rest) => s == [Emitted(cells[count])] + StreamFrom(root, factory, soa, Some(Slots(sets)), 0, rest, wantLastSoa)
      case Threw(d, rest) => s == [LookupFailed(d)] + StreamFrom(root, factory, soa, None, count + 1, rest, wantLastSoa)
  {
  }

  /** The whole transfer of a zone that passed validation. */
  function Transfer(zone: Zone, factory: DomainFactory): seq<NextResult>
    requires Validate(zone, factory).Ok?
  {
    var origin := Validate(zone, factory).value.rrsets;
    StreamFrom(zone.rootDomain, factory, GetRRset(origin, TypeSOA),
               Some(Layout(origin, |origin|)), 0, zone.domains.value, true)
  }

  // ---------------------------------------------------------------------
  // Counting lemmas used by the constructor

  lemma {:induction false} CountTypePositive(sets: seq<RRset>, t: int)
    requires GetRRset(sets, t).Some?
    ensures CountType(sets, t) >= 1
    decreases |sets|
  {
    if sets[|sets| - 1].rrType != t {
      var i :| 0 <= i < |sets| && sets[i].rrType == t;
      assert sets[..|sets| - 1][i] == sets[i];
      CountTypePositive(sets[..|sets| - 1], t);
    }
  }

  lemma {:induction false} OthersCount(sets: seq<RRset>)
    ensures |Others(sets)| + CountType(sets, TypeSOA) + CountType(sets, TypeNS) == |sets|
    decreases |sets|
  {
    if sets != [] {
      OthersCount(sets[..|sets| - 1]);
    }
  }

  /** An origin with an SOA and an NS leaves at least the two first slots to them. */
  lemma OthersBound(sets: seq<RRset>)
    requires GetRRset(sets, TypeSOA).Some? && GetRRset(sets, TypeNS).Some?
    ensures 2 + |Others(sets)| <= |sets|
  {
    OthersCount(sets);
    CountTypePositive(sets, TypeSOA);
    CountTypePositive(sets, TypeNS);
  }

  /** The RRsets kept from a prefix lead those kept from the whole list. */
  lemma {:induction false} OthersPrefix(sets: seq<RRset>, k: nat)
    requires k <= |sets|
    ensures Others(sets[..k]) <= Others(sets)
    decreases |sets|
  {
    if k < |sets| {
      var init := sets[..|sets| - 1];
      assert init[..k] == sets[..k];
      OthersPrefix(init, k);
    } else {
      assert sets[..k] == sets;
    }
  }

  lemma LastOfTypeSnoc(prev: seq<RRset>, x: RRset, t: int)
    ensures LastOfType(prev + [x], t) == if x.rrType == t then Some(x) else LastOfType(prev, t)
  {
    assert (prev + [x])[..|prev|] == prev;
  }

  lemma OthersSnoc(prev: seq<RRset>, x: RRset)
    ensures Others(prev + [x]) == Others(prev) + if IsOther(x) then [x] else []
  {
    assert (prev + [x])[..|prev|] == prev;
  }

  /** One turn of the constructor's loop on an SOA: it overwrites slot 0. */
  lemma LayoutStepSoa(prev: seq<RRset>, x: RRset, n: nat)
    requires x.rrType == TypeSOA && 2 + |Others(prev + [x])| <= n
    ensures 2 + |Others(prev)| <= n
    ensures Layout(prev + [x], n) == Layout(prev, n)[0 := Some(x)]
  {
    OthersSnoc(prev, x);
    LastOfTypeSnoc(prev, x, TypeSOA);
    LastOfTypeSnoc(prev, x, TypeNS);
    var ns, others := LastOfType(prev, TypeNS), Others(prev);
    var before, after := Arrange(LastOfType(prev, TypeSOA), ns, others, n), Arrange(Some(x), ns, others, n);
    assert after == before[0 := Some(x)];
  }

  /** One turn of the constructor's loop on an NS: it overwrites slot 1. */
  lemma LayoutStepNs(prev: seq<RRset>, x: RRset, n: nat)
    requires x.rrType == TypeNS && 2 + |Others(prev + [x])| <= n
    ensures 2 + |Others(prev)| <= n
    ensures Layout(prev + [x], n) == Layout(prev, n)[1 := Some(x)]
  {
    OthersSnoc(prev, x);
    LastOfTypeSnoc(prev, x, TypeSOA);
    LastOfTypeSnoc(prev, x, TypeNS);
    var soa, others := LastOfType(prev, TypeSOA), Others(prev);
    var before, after := Arrange(soa, LastOfType(prev, TypeNS), others, n), Arrange(soa, Some(x), others, n);
    assert after == before[1 := Some(x)];
  }

  /** Appending to the other RRsets fills the next free slot. */
  lemma ArrangeAppend(soa: Option<RRset>, ns: Option<RRset>, others: seq<RRset>, x: RRset, n: nat)
    requires 2 + |others| < n
    ensures Arrange(soa, ns, others + [x], n) == Arrange(soa, ns, others, n)[2 + |others| := Some(x)]
  {
    var before, after := Arrange(soa, ns, others, n), Arrange(soa, ns, others + [x], n);
    forall i | 0 <= i < n
      ensures after[i] == before[2 + |others| := Some(x)][i]
    {
      if 2 <= i < 2 + |others| {
        assert (others + [x])[i - 2] == others[i - 2];
      }
    }
  }

  /** One turn of the constructor's loop on any other RRset: it takes the
      next free slot `j`, which is in range. */
  lemma LayoutStepOther(prev: seq<RRset>, x: RRset, n: nat)
    requires IsOther(x) && 2 + |Others(prev + [x])| <= n
    ensures 2 + |Others(prev)| < n
    ensures Layout(prev + [x], n) == Layout(prev, n)[2 + |Others(prev)| := Some(x)]
  {
    OthersSnoc(prev, x);
    LastOfTypeSnoc(prev, x, TypeSOA);
    LastOfTypeSnoc(prev, x, TypeNS);
    ArrangeAppend(LastOfType(prev, TypeSOA), LastOfType(prev, TypeNS), Others(prev), x, n);
  }

  /** The layout of no RRsets at all: every slot `null`. */
  lemma LayoutEmpty(n: nat)
    requires 2 <= n
    ensures Layout([], n) == seq(n, _ => None)
  {
    assert Others([]) == [];
    assert LastOfType([], TypeSOA) == None && LastOfType([], TypeNS) == None;
    forall i | 0 <= i < n
      ensures Layout([], n)[i] == None
    {
    }
  }

  /** The constructor's loop moves on by one RRset and still has room. */
  lemma PrefixStep(sets: seq<RRset>, k: nat)
    requires k < |sets| && 2 + |Others(sets)| <= |sets|
    ensures sets[..k + 1] == sets[..k] + [sets[k]]
    ensures 2 + |Others(sets[..k + 1])| <= |sets|
  {
    OthersPrefix(sets, k + 1);
  }
}
