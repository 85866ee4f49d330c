/** Host port reservation: the lowest free ports of the range, in order. */
module Ports {
  import opened Wrappers

  datatype Mapping = Mapping(host: nat, container: nat)

  /** A parsed port range, 1 <= low <= high <= 65535. */
  datatype Span = Span(low: nat, high: nat)

  /** The ports from p to high that are not busy, in increasing order. */
  function FreeFrom(p: nat, high: nat, busy: set<nat>): seq<nat>
    decreases high + 1 - p
  {
    if p > high then [] else (if p in busy then [] else [p]) + FreeFrom(p + 1, high, busy)
  }

  /** It lists exactly the free ports of the range, strictly increasing. */
  lemma {:induction false} FreeFromIs(p: nat, high: nat, busy: set<nat>)
    ensures forall x: nat :: x in FreeFrom(p, high, busy) <==> p <= x <= high && x !in busy
    ensures forall i, j | 0 <= i < j < |FreeFrom(p, high, busy)| :: FreeFrom(p, high, busy)[i] < FreeFrom(p, high, busy)[j]
    decreases high + 1 - p
  {
    if p <= high {
      FreeFromIs(p + 1, high, busy);
      var rest := FreeFrom(p + 1, high, busy);
      forall i | 0 <= i < |rest| ensures p < rest[i] {
        assert rest[i] in rest;
      }
    }
  }

  /** How many of the ports from low to high are not busy. */
  function FreeCount(low: nat, high: nat, busy: set<nat>): nat {
    |(set x: nat | low <= x <= high && x !in busy)|
  }

  lemma {:induction false} FreeFromLength(p: nat, high: nat, busy: set<nat>)
    ensures |FreeFrom(p, high, busy)| == FreeCount(p, high, busy)
    decreases high + 1 - p
  {
    var here := set x: nat | p <= x <= high && x !in busy;
    if p <= high {
      FreeFromLength(p + 1, high, busy);
      var above := set x: nat | p + 1 <= x <= high && x !in busy;
      assert here == above + if p in busy then {} else {p};
    } else {
      assert here == {};
    }
  }

  function Hosts(m: seq<Mapping>): seq<nat> {
    seq(|m|, i requires 0 <= i < |m| => m[i].host)
  }

  lemma FreeFromEnds(p: nat, high: nat, busy: set<nat>)
    requires p > high
    ensures FreeFrom(p, high, busy) == []
  {
  }

  lemma FreeFromNext(p: nat, high: nat, busy: set<nat>)
    requires p <= high && p !in busy
    ensures FreeFrom(p, high, busy) == [p] + FreeFrom(p + 1, high, busy)
  {
  }

  /** The inner loop: past busy ports to the next free one, or past the range. */
  method SkipBusy(start: nat, high: nat, busy: set<nat>) returns (candidate: nat)
    ensures FreeFrom(candidate, high, busy) == FreeFrom(start, high, busy)
    ensures candidate > high || candidate !in busy
  {
    candidate := start;
    while candidate <= high && candidate in busy
      invariant FreeFrom(candidate, high, busy) == FreeFrom(start, high, busy)
      decreases high as int - candidate
    {
      candidate := candidate + 1;
    }
  }

  /** `reserve_ports` after the range is parsed and the busy ports are read. */
  method ReservePorts(ports: seq<Mapping>, containerPorts: seq<nat>, span: Option<Span>, busy: set<nat>)
    returns (r: Result<seq<Mapping>>)
    requires span.Some? ==> 1 <= span.value.low <= span.value.high <= 65535
    ensures ports != [] || containerPorts == [] ==> r == Ok(ports)
    ensures ports == [] && containerPorts != [] && span.None? ==> r.Err?
    ensures ports == [] && containerPorts != [] && span.Some? ==>
      (r.Err? <==> FreeCount(span.value.low, span.value.high, busy) < |containerPorts|)
    ensures ports == [] && containerPorts != [] && r.Ok? ==>
      && span.Some? && |r.value| == |containerPorts|
      && Hosts(r.value) <= FreeFrom(span.value.low, span.value.high, busy)
      && forall i | 0 <= i < |r.value| :: r.value[i].container == containerPorts[i]
  {
    hide FreeCount, FreeFrom;
    if ports != [] || containerPorts == [] { return Ok(ports); }
    if span.None? { return Err("port range is not usable"); }
    var low, high := span.value.low, span.value.high;
    FreeFromLength(low, high, busy);
    var mappings: seq<Mapping> := [];
    var candidate := low;
    for k := 0 to |containerPorts|
      invariant |mappings| == k && forall i | 0 <= i < k :: mappings[i].container == containerPorts[i]
      invariant Hosts(mappings) + FreeFrom(candidate, high, busy) == FreeFrom(low, high, busy)
    {
      candidate := SkipBusy(candidate, high, busy);
      if candidate > high {
        FreeFromEnds(candidate, high, busy);
        return Err("no free port left in the reserved range");
      }
      FreeFromNext(candidate, high, busy);
      assert Hosts(mappings + [Mapping(candidate, containerPorts[k])]) == Hosts(mappings) + [candidate];
      mappings := mappings + [Mapping(candidate, containerPorts[k])];
      candidate := candidate + 1;
    }
    r := Ok(mappings);
  }
}
