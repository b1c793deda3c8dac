/**
 * Fragments of video units: what the sender of rtpsession.cpp cuts and the two receivers of
 * VirtualCameraService.cpp and jrtplibutil_jni.cpp put together again. A fragment is two header
 * bytes and a piece of the unit; the first five bits of the unit stay inside the piece.
 */
module Fragments {
  import opened Bits

  type Packet = seq<byte>

  datatype Kind = Single | First | Middle | Last

  /** How a receiver reads a packet: type 28 in the first byte, then the top two bits of the second. */
  function KindOf(p: Packet): Kind
    requires WellFormed(p)
  {
    if p[0] % 32 != 28 then Single
    else if p[1] / 64 == 2 then First
    else if p[1] / 64 == 1 then Last
    else Middle
  }

  /** The bytes the receivers read without looking at the length. */
  predicate WellFormed(p: Packet) {
    |p| >= 1 && (p[0] % 32 == 28 ==> |p| >= 2)
  }

  ghost predicate AllWellFormed(packets: seq<Packet>) {
    forall i :: 0 <= i < |packets| ==> WellFormed(packets[i])
  }

  /** What is in the buffer, and what has been handed to the decoder. */
  datatype Assembly = Assembly(buffer: seq<byte>, units: seq<seq<byte>>)

  /** What one packet does; only the receiver that resets empties the buffer with each unit. */
  function Step(resets: bool, a: Assembly, p: Packet): Assembly
    requires WellFormed(p)
  {
    match KindOf(p)
    case First => a.(buffer := p[2..])
    case Middle => a.(buffer := a.buffer + p[2..])
    case Last => Deliver(resets, a, a.buffer + p[2..])
    case Single => Deliver(resets, a, p)
  }

  function Deliver(resets: bool, a: Assembly, unit: seq<byte>): Assembly {
    Assembly(if resets then [] else unit, a.units + [unit])
  }

  function Run(resets: bool, a: Assembly, packets: seq<Packet>): Assembly
    requires AllWellFormed(packets)
    decreases |packets|
  {
    if packets == [] then a else Run(resets, Step(resets, a, packets[0]), packets[1..])
  }

  /** It does not matter how the packets are spread over polls. */
  lemma {:induction false} RunConcat(resets: bool, a: Assembly, xs: seq<Packet>, ys: seq<Packet>)
    requires AllWellFormed(xs) && AllWellFormed(ys)
    ensures AllWellFormed(xs + ys)
    ensures Run(resets, a, xs + ys) == Run(resets, Run(resets, a, xs), ys)
    decreases |xs|
  {
    hide Step;
    if xs == [] {
      assert xs + ys == ys;
    } else {
      assert (xs + ys)[1..] == xs[1..] + ys;
      RunConcat(resets, Step(resets, a, xs[0]), xs[1..], ys);
    }
  }

  function Joined(polls: seq<seq<Packet>>): seq<Packet> {
    if polls == [] then [] else polls[0] + Joined(polls[1..])
  }

  ghost predicate AllPollsWellFormed(polls: seq<seq<Packet>>) {
    forall i :: 0 <= i < |polls| ==> AllWellFormed(polls[i])
  }

  function RunPolls(resets: bool, a: Assembly, polls: seq<seq<Packet>>): Assembly
    requires AllPollsWellFormed(polls)
    decreases |polls|
  {
    if polls == [] then a else RunPolls(resets, Run(resets, a, polls[0]), polls[1..])
  }

  /** Polling is one run over all the packets, wherever the polls cut the stream. */
  lemma {:induction false} PollsAreOneRun(resets: bool, a: Assembly, polls: seq<seq<Packet>>)
    requires AllPollsWellFormed(polls)
    ensures AllWellFormed(Joined(polls))
    ensures RunPolls(resets, a, polls) == Run(resets, a, Joined(polls))
    decreases |polls|
  {
    if polls == [] {
    } else {
      PollsAreOneRun(resets, Run(resets, a, polls[0]), polls[1..]);
      RunConcat(resets, a, polls[0], Joined(polls[1..]));
    }
  }

  /** Units delivered earlier have no influence. */
  lemma {:induction false} RunUnits(resets: bool, a: Assembly, packets: seq<Packet>)
    requires AllWellFormed(packets)
    ensures Run(resets, a, packets)
      == Assembly(Run(resets, a.(units := []), packets).buffer, a.units + Run(resets, a.(units := []), packets).units)
    decreases |packets|
  {
    if packets == [] {
      assert a.units + [] == a.units;
    } else {
      var b := Step(resets, a, packets[0]);
      var c := Step(resets, a.(units := []), packets[0]);
      RunUnits(resets, b, packets[1..]);
      RunUnits(resets, c, packets[1..]);
      assert b.(units := []) == c.(units := []);
      assert b.units == a.units + c.units;
      Assoc(a.units, c.units, Run(resets, c.(units := []), packets[1..]).units);
    }
  }

  // ----- units sent whole or in fragments ---------------------------------------

  /** One unit as it travels. */
  datatype Sending = Whole(bytes: Packet) | Cut(first: Packet, middle: seq<Packet>, last: Packet)

  ghost predicate AllMiddle(packets: seq<Packet>) {
    && AllWellFormed(packets)
    && forall i :: 0 <= i < |packets| ==> |packets[i]| >= 2 && KindOf(packets[i]) == Middle
  }

  ghost predicate Proper(s: Sending) {
    match s
    case Whole(p) => WellFormed(p) && KindOf(p) == Single
    case Cut(first, middle, last) =>
      && WellFormed(first) && KindOf(first) == First
      && WellFormed(last) && KindOf(last) == Last
      && AllMiddle(middle)
  }

  function Packets(s: Sending): seq<Packet> {
    match s
    case Whole(p) => [p]
    case Cut(first, middle, last) => [first] + middle + [last]
  }

  /** The payloads of the pieces in a row. */
  ghost function Pieces(packets: seq<Packet>): seq<byte>
    requires AllMiddle(packets)
  {
    if packets == [] then [] else packets[0][2..] + Pieces(packets[1..])
  }

  ghost function Unit(s: Sending): seq<byte>
    requires Proper(s)
  {
    match s
    case Whole(p) => p
    case Cut(first, middle, last) => first[2..] + Pieces(middle) + last[2..]
  }

  function AllPackets(ss: seq<Sending>): seq<Packet> {
    if ss == [] then [] else Packets(ss[0]) + AllPackets(ss[1..])
  }

  ghost function AllUnits(ss: seq<Sending>): seq<seq<byte>>
    requires forall i :: 0 <= i < |ss| ==> Proper(ss[i])
  {
    if ss == [] then [] else [Unit(ss[0])] + AllUnits(ss[1..])
  }

  lemma {:induction false} RunMiddle(resets: bool, a: Assembly, middle: seq<Packet>)
    requires AllMiddle(middle)
    ensures Run(resets, a, middle) == a.(buffer := a.buffer + Pieces(middle))
    decreases |middle|
  {
    if middle == [] {
      assert a.buffer + [] == a.buffer;
    } else {
      var b := Step(resets, a, middle[0]);
      RunMiddle(resets, b, middle[1..]);
      Assoc(a.buffer, middle[0][2..], Pieces(middle[1..]));
    }
  }

  /** One unit comes out whole, whatever the buffer held. */
  lemma RunSending(resets: bool, a: Assembly, s: Sending)
    requires Proper(s)
    ensures AllWellFormed(Packets(s))
    ensures Run(resets, a, Packets(s)) == Deliver(resets, a, Unit(s))
  {
    match s
    case Whole(p) =>
      assert Packets(s)[1..] == [];
    case Cut(first, middle, last) =>
      var b := Step(resets, a, first);
      RunConcat(resets, a, [first], middle);
      assert [first][1..] == [];
      RunMiddle(resets, b, middle);
      RunConcat(resets, a, [first] + middle, [last]);
      assert [last][1..] == [];
  }

  /**
   * Whatever the buffer held before, a sequence of units, each whole or cut, comes out unit for
   * unit, in order and complete, of either receiver.
   */
  lemma {:induction false} UnitForUnit(resets: bool, a: Assembly, ss: seq<Sending>)
    requires forall i :: 0 <= i < |ss| ==> Proper(ss[i])
    ensures AllWellFormed(AllPackets(ss))
    ensures Run(resets, a, AllPackets(ss)).units == a.units + AllUnits(ss)
    ensures resets && ss != [] ==> Run(resets, a, AllPackets(ss)).buffer == []
    decreases |ss|
  {
    hide Unit, Packets, Proper, WellFormed, Step;
    if ss == [] {
      assert a.units + [] == a.units;
    } else {
      RunSending(resets, a, ss[0]);
      var b := Deliver(resets, a, Unit(ss[0]));
      UnitForUnit(resets, b, ss[1..]);
      RunConcat(resets, a, Packets(ss[0]), AllPackets(ss[1..]));
      Assoc(a.units, [Unit(ss[0])], AllUnits(ss[1..]));
      if ss[1..] == [] {
        assert AllPackets(ss[1..]) == [];
      }
    }
  }

  /** After any junk, however it is spread over polls, the units that follow come out complete. */
  lemma AfterJunk(resets: bool, a: Assembly, junk: seq<Packet>, ss: seq<Sending>)
    requires AllWellFormed(junk) && forall i :: 0 <= i < |ss| ==> Proper(ss[i])
    ensures AllWellFormed(junk + AllPackets(ss))
    ensures Run(resets, a, junk + AllPackets(ss)).units == Run(resets, a, junk).units + AllUnits(ss)
  {
    UnitForUnit(resets, Run(resets, a, junk), ss);
    RunConcat(resets, a, junk, AllPackets(ss));
  }

  // ----- the receiver that does not reset ---------------------------------------------

  /**
   * No last fragment arrives while the buffer still starts with an old unit: `stale` is the length
   * of that unit and `added` what has been added since.
   */
  function EndsClean(stale: nat, added: nat, packets: seq<Packet>): bool
    requires AllWellFormed(packets)
    decreases |packets|
  {
    if packets == [] then true
    else
      var p := packets[0];
      match KindOf(p)
      case First => EndsClean(0, |p| - 2, packets[1..])
      case Middle => EndsClean(stale, added + |p| - 2, packets[1..])
      case Last => stale == 0 && EndsClean(added + |p| - 2, 0, packets[1..])
      case Single => EndsClean(|p|, 0, packets[1..])
  }

  /** Units once delivered stay delivered. */
  lemma {:induction false} UnitsGrow(resets: bool, a: Assembly, packets: seq<Packet>)
    requires AllWellFormed(packets)
    ensures a.units <= Run(resets, a, packets).units
  {
    RunUnits(resets, a, packets);
  }

  lemma {:induction false} SameUnitsFrom(a: Assembly, b: Assembly, stale: seq<byte>, packets: seq<Packet>)
    requires AllWellFormed(packets)
    requires a.units == b.units && b.buffer == stale + a.buffer
    ensures Run(true, a, packets).units == Run(false, b, packets).units <==> EndsClean(|stale|, |a.buffer|, packets)
    decreases |packets|
  {
    if packets != [] {
      var p, rest := packets[0], packets[1..];
      var a', b' := Step(true, a, p), Step(false, b, p);
      match KindOf(p)
      case First => SameUnitsFrom(a', b', [], rest);
      case Middle =>
        Assoc(stale, a.buffer, p[2..]);
        SameUnitsFrom(a', b', stale, rest);
      case Single => SameUnitsFrom(a', b', p, rest);
      case Last =>
        if stale == [] {
          assert b.buffer == a.buffer;
          SameUnitsFrom(a', b', b'.buffer, rest);
        } else {
          UnitsGrow(true, a', rest);
          UnitsGrow(false, b', rest);
          var i := |a.units|;
          assert a'.units[i] != b'.units[i];
        }
    }
  }

  /** From an empty buffer both receivers deliver the same units if and only if every last fragment arrives clean. */
  lemma SameUnits(packets: seq<Packet>)
    requires AllWellFormed(packets)
    ensures Run(true, Assembly([], []), packets).units == Run(false, Assembly([], []), packets).units
      <==> EndsClean(0, 0, packets)
  {
    SameUnitsFrom(Assembly([], []), Assembly([], []), [], packets);
  }

  /** A unit, and a last fragment without its first one. */
  const STRAY: seq<Packet> := [[0], [28, 64]]

  /** The receiver that does not reset delivers the old unit once more. */
  lemma StrayRepeats()
    ensures AllWellFormed(STRAY)
    ensures Run(true, Assembly([], []), STRAY).units == [[0], []]
    ensures Run(false, Assembly([], []), STRAY).units == [[0], [0]]
  {
    RunTwo(true, [0], [28, 64]);
    RunTwo(false, [0], [28, 64]);
    var unit: Packet, stray: Packet := [0], [28, 64];
    assert stray[2..] == [] && [] + stray[2..] == [] && unit + stray[2..] == unit;
    assert KindOf(unit) == Single && KindOf(stray) == Last;
    assert [] + [unit] == [unit] && [unit] + [[]] == [unit, []] && [unit] + [unit] == [unit, unit];
    hide Run;
  }

  lemma RunTwo(resets: bool, p: Packet, q: Packet)
    requires WellFormed(p) && WellFormed(q)
    ensures Run(resets, Assembly([], []), [p, q]) == Step(resets, Step(resets, Assembly([], []), p), q)
  {
    hide Step;
    assert [p, q][1..] == [q] && [q][1..] == [];
    assert Run(resets, Step(resets, Assembly([], []), p), [q]) == Run(resets, Step(resets, Step(resets, Assembly([], []), p), q), []);
  }

  /** No middle or last fragment follows a completed unit without a first fragment in between. */
  function Orderly(completed: bool, packets: seq<Packet>): bool
    requires AllWellFormed(packets)
    decreases |packets|
  {
    if packets == [] then true
    else
      match KindOf(packets[0])
      case First => Orderly(false, packets[1..])
      case Middle => !completed && Orderly(false, packets[1..])
      case Last => !completed && Orderly(true, packets[1..])
      case Single => Orderly(true, packets[1..])
  }

  lemma {:induction false} OrderlyEndsClean(completed: bool, stale: nat, added: nat, packets: seq<Packet>)
    requires AllWellFormed(packets) && Orderly(completed, packets) && (completed || stale == 0)
    ensures EndsClean(stale, added, packets)
    decreases |packets|
  {
    if packets != [] {
      var n, rest := |packets[0]|, packets[1..];
      match KindOf(packets[0])
      case First => OrderlyEndsClean(false, 0, n - 2, rest);
      case Middle => OrderlyEndsClean(false, stale, added + n - 2, rest);
      case Last => OrderlyEndsClean(true, added + n - 2, 0, rest);
      case Single => OrderlyEndsClean(true, n, 0, rest);
    }
  }

  // ----- the sender ----------------------------------------------------------------------

  /** The pieces of a unit that is too long for one packet. */
  function Slices(unit: seq<byte>, header: byte, first: bool, max: nat): seq<Packet>
    requires max > 0
    decreases |unit|
  {
    if |unit| <= max then [[Indicator(header), FragmentHeader(header, Last)] + unit]
    else [[Indicator(header), FragmentHeader(header, if first then First else Middle)] + unit[..max]]
         + Slices(unit[max..], header, false, max)
  }

  /** The unit's top three bits with type 28. */
  function Indicator(header: byte): byte {
    header / 32 * 32 + 28
  }

  /** The unit's low five bits with the fragment's flag. */
  function FragmentHeader(header: byte, kind: Kind): byte {
    header % 32 + (match kind case First => 128 case Last => 64 case _ => 0)
  }

  /** What is sent for one unit. */
  function Sent(unit: seq<byte>, max: nat): seq<Packet>
    requires max >= 4
  {
    if |unit| > max then Slices(unit, unit[4], true, max) else [unit]
  }

  lemma HeadersRead(header: byte, kind: Kind, piece: seq<byte>)
    requires kind != Single
    ensures var p := [Indicator(header), FragmentHeader(header, kind)] + piece;
      WellFormed(p) && KindOf(p) == kind && p[2..] == piece
  {
  }

  /**
   * A fragment of a unit with this header byte (sections 5.3 and 5.8 of RFC 6184): type 28, the byte
   * spread over the two header bytes, and at most max bytes of the unit behind them.
   */
  predicate FragmentOf(p: Packet, header: byte, kind: Kind, max: nat) {
    && 2 <= |p| <= max + 2 && p[0] % 32 == 28 && p[0] / 32 * 32 + p[1] % 32 == header
    && p[1] / 64 == (match kind case First => 2 case Last => 1 case _ => 0)
    && (kind != Last ==> |p| == max + 2)
  }

  lemma {:induction false} SlicesAreFragments(unit: seq<byte>, header: byte, first: bool, max: nat)
    requires max > 0 && unit != [] && (first ==> |unit| > max)
    ensures var packets := Slices(unit, header, first, max);
      && packets != []
      && forall i :: 0 <= i < |packets| ==>
           FragmentOf(packets[i], header, if i == |packets| - 1 then Last else if i == 0 && first then First else Middle, max)
    decreases |unit|
  {
    if |unit| > max {
      SlicesAreFragments(unit[max..], header, false, max);
    }
  }

  /** A long unit goes out as fragments with the header byte behind its start code: one first, one last, the others full. */
  lemma CutIntoFragments(unit: seq<byte>, max: nat)
    requires 4 <= max < |unit|
    ensures var packets := Sent(unit, max);
      && |packets| >= 2
      && forall i :: 0 <= i < |packets| ==>
           FragmentOf(packets[i], unit[4], if i == |packets| - 1 then Last else if i == 0 then First else Middle, max)
  {
    hide FragmentOf;
    SlicesAreFragments(unit, unit[4], true, max);
    SlicesAreFragments(unit[max..], unit[4], false, max);
  }

  lemma {:induction false} SlicesRun(resets: bool, a: Assembly, unit: seq<byte>, header: byte, max: nat)
    requires max > 0
    ensures AllWellFormed(Slices(unit, header, false, max))
    ensures Run(resets, a, Slices(unit, header, false, max)) == Deliver(resets, a, a.buffer + unit)
    decreases |unit|
  {
    var packets := Slices(unit, header, false, max);
    hide Indicator, FragmentHeader, KindOf, WellFormed;
    if |unit| <= max {
      HeadersRead(header, Last, unit);
      assert packets[1..] == [];
    } else {
      HeadersRead(header, Middle, unit[..max]);
      var b := Step(resets, a, packets[0]);
      SlicesRun(resets, b, unit[max..], header, max);
      assert packets[1..] == Slices(unit[max..], header, false, max);
      Assoc(a.buffer, unit[..max], unit[max..]);
      assert unit[..max] + unit[max..] == unit;
    }
  }

  /** A unit that needs cutting arrives whole, whatever the receiver's buffer held. */
  lemma CutArrives(resets: bool, a: Assembly, unit: seq<byte>, header: byte, max: nat)
    requires 0 < max < |unit|
    ensures AllWellFormed(Slices(unit, header, true, max))
    ensures Run(resets, a, Slices(unit, header, true, max)) == Deliver(resets, a, unit)
  {
    var packets := Slices(unit, header, true, max);
    HeadersRead(header, First, unit[..max]);
    var b := Step(resets, a, packets[0]);
    SlicesRun(resets, b, unit[max..], header, max);
    assert packets[1..] == Slices(unit[max..], header, false, max);
    assert unit[..max] + unit[max..] == unit;
    hide Indicator, FragmentHeader, KindOf, WellFormed;
  }

  /** What sending needs for the receiver to see the unit: it is cut, or does not look like a fragment. */
  predicate Sendable(unit: seq<byte>, max: nat) {
    |unit| > max || (|unit| >= 1 && unit[0] % 32 != 28)
  }

  lemma SentArrives(resets: bool, a: Assembly, unit: seq<byte>, max: nat)
    requires max >= 4 && Sendable(unit, max)
    ensures AllWellFormed(Sent(unit, max))
    ensures Run(resets, a, Sent(unit, max)) == Deliver(resets, a, unit)
  {
    if |unit| > max {
      CutArrives(resets, a, unit, unit[4], max);
    } else {
      assert [unit][1..] == [];
    }
  }

  /** For a unit the receiver can read at all, the round trip works exactly when the unit is sendable. */
  lemma SentArrivesExactly(resets: bool, unit: seq<byte>, max: nat)
    requires max >= 4
    ensures AllWellFormed(Sent(unit, max)) && Run(resets, Assembly([], []), Sent(unit, max)).units == [unit]
      <==> Sendable(unit, max)
  {
    if Sendable(unit, max) {
      SentArrives(resets, Assembly([], []), unit, max);
    } else {
      assert Sent(unit, max)[0] == unit && [unit][1..] == [];
      if |unit| >= 2 {
        assert |unit[2..]| != |unit|;
      }
    }
  }

  function SentAll(units: seq<seq<byte>>, max: nat): seq<Packet>
    requires max >= 4
  {
    if units == [] then [] else Sent(units[0], max) + SentAll(units[1..], max)
  }

  /** Sending and receiving any list of sendable units gives back the list, from any buffer. */
  lemma {:induction false} SendThenReceive(resets: bool, a: Assembly, units: seq<seq<byte>>, max: nat)
    requires max >= 4 && forall i :: 0 <= i < |units| ==> Sendable(units[i], max)
    ensures AllWellFormed(SentAll(units, max))
    ensures Run(resets, a, SentAll(units, max)).units == a.units + units
    decreases |units|
  {
    hide Sent, Sendable, WellFormed, Step;
    if units == [] {
      assert a.units + [] == a.units;
    } else {
      SentArrives(resets, a, units[0], max);
      var b := Deliver(resets, a, units[0]);
      SendThenReceive(resets, b, units[1..], max);
      RunConcat(resets, a, Sent(units[0], max), SentAll(units[1..], max));
      Assoc(a.units, [units[0]], units[1..]);
      assert [units[0]] + units[1..] == units;
    }
  }

  /** A unit that starts with a start code is sendable. */
  lemma StartCodeSendable(unit: seq<byte>, max: nat)
    requires |unit| >= 4 && unit[..4] == [0, 0, 0, 1]
    ensures Sendable(unit, max)
  {
    assert unit[0] == unit[..4][0];
  }
}

/** The receivers' buffer and the sender's loop. */
module Reassembly {
  import opened Bits
  import opened Fragments

  /** What the packet needs of the buffer, which nothing checks. */
  predicate Fits(capacity: nat, a: Assembly, p: Packet)
    requires WellFormed(p)
  {
    match KindOf(p)
    case First => |p| - 2 <= capacity
    case Single => |p| <= capacity
    case _ => |a.buffer| + |p| - 2 <= capacity
  }

  predicate AllFit(capacity: nat, resets: bool, a: Assembly, packets: seq<Packet>)
    requires AllWellFormed(packets)
    decreases |packets|
  {
    packets != [] ==>
      Fits(capacity, a, packets[0]) && AllFit(capacity, resets, Step(resets, a, packets[0]), packets[1..])
  }

  // ----- what fits ----------------------------------------------------------------------

  lemma {:induction false} AllFitConcat(capacity: nat, resets: bool, a: Assembly, xs: seq<Packet>, ys: seq<Packet>)
    requires AllWellFormed(xs) && AllWellFormed(ys)
    ensures AllWellFormed(xs + ys)
    ensures AllFit(capacity, resets, a, xs + ys)
      <==> AllFit(capacity, resets, a, xs) && AllFit(capacity, resets, Run(resets, a, xs), ys)
    decreases |xs|
  {
    hide Step, Fits, WellFormed;
    if xs == [] {
      assert xs + ys == ys;
    } else {
      assert (xs + ys)[1..] == xs[1..] + ys;
      AllFitConcat(capacity, resets, Step(resets, a, xs[0]), xs[1..], ys);
    }
  }

  lemma {:induction false} MiddleFits(capacity: nat, resets: bool, a: Assembly, middle: seq<Packet>)
    requires AllMiddle(middle) && |a.buffer| + |Pieces(middle)| <= capacity
    ensures AllFit(capacity, resets, a, middle)
    decreases |middle|
  {
    if middle == [] {
    } else {
      MiddleFits(capacity, resets, Step(resets, a, middle[0]), middle[1..]);
    }
  }

  /** A unit, whole or cut, fits a buffer of its own size, whatever the buffer held. */
  lemma SendingFits(capacity: nat, resets: bool, a: Assembly, s: Sending)
    requires Proper(s) && |Unit(s)| <= capacity
    ensures AllWellFormed(Packets(s)) && AllFit(capacity, resets, a, Packets(s))
  {
    match s
    case Whole(p) =>
      assert Packets(s)[1..] == [];
    case Cut(first, middle, last) =>
      var b := Step(resets, a, first);
      RunMiddle(resets, b, middle);
      MiddleFits(capacity, resets, b, middle);
      AllFitConcat(capacity, resets, b, middle, [last]);
      assert [last][1..] == [];
      assert Packets(s)[1..] == middle + [last];
  }

  /** So any sequence of such units fits a buffer as large as the largest of them. */
  lemma {:induction false} SendingsFit(capacity: nat, resets: bool, a: Assembly, ss: seq<Sending>)
    requires forall i :: 0 <= i < |ss| ==> Proper(ss[i]) && |Unit(ss[i])| <= capacity
    ensures AllWellFormed(AllPackets(ss)) && AllFit(capacity, resets, a, AllPackets(ss))
    decreases |ss|
  {
    hide Unit, Packets, Proper, WellFormed, Step, Fits;
    if ss == [] {
      assert AllPackets(ss) == [];
    } else {
      SendingFits(capacity, resets, a, ss[0]);
      SendingsFit(capacity, resets, Run(resets, a, Packets(ss[0])), ss[1..]);
      AllFitConcat(capacity, resets, a, Packets(ss[0]), AllPackets(ss[1..]));
    }
  }

  lemma {:induction false} SlicesFit(capacity: nat, resets: bool, a: Assembly, unit: seq<byte>, header: byte, max: nat)
    requires max > 0 && |a.buffer| + |unit| <= capacity
    ensures AllWellFormed(Slices(unit, header, false, max)) && AllFit(capacity, resets, a, Slices(unit, header, false, max))
    decreases |unit|
  {
    var packets := Slices(unit, header, false, max);
    if |unit| <= max {
      HeadersRead(header, Last, unit);
      assert packets[1..] == [];
    } else {
      HeadersRead(header, Middle, unit[..max]);
      SlicesFit(capacity, resets, Step(resets, a, packets[0]), unit[max..], header, max);
      assert packets[1..] == Slices(unit[max..], header, false, max);
    }
    hide Indicator, FragmentHeader, KindOf, WellFormed;
  }

  /** What the sender makes of a unit no longer than the buffer fits the buffer, whatever it held. */
  lemma SentFits(capacity: nat, resets: bool, a: Assembly, unit: seq<byte>, max: nat)
    requires max >= 4 && Sendable(unit, max) && |unit| <= capacity
    ensures AllWellFormed(Sent(unit, max)) && AllFit(capacity, resets, a, Sent(unit, max))
  {
    if |unit| > max {
      var packets := Slices(unit, unit[4], true, max);
      HeadersRead(unit[4], First, unit[..max]);
      SlicesFit(capacity, resets, Step(resets, a, packets[0]), unit[max..], unit[4], max);
      assert packets[1..] == Slices(unit[max..], unit[4], false, max);
    } else {
      assert [unit][1..] == [];
    }
    hide Indicator, FragmentHeader, Slices;
  }

  lemma {:induction false} SentAllFit(capacity: nat, resets: bool, a: Assembly, units: seq<seq<byte>>, max: nat)
    requires max >= 4 && forall i :: 0 <= i < |units| ==> Sendable(units[i], max) && |units[i]| <= capacity
    ensures AllWellFormed(SentAll(units, max)) && AllFit(capacity, resets, a, SentAll(units, max))
    decreases |units|
  {
    hide Sent, Sendable, WellFormed, Step, Fits;
    if units == [] {
      assert SentAll(units, max) == [];
    } else {
      SentFits(capacity, resets, a, units[0], max);
      SentAllFit(capacity, resets, Run(resets, a, Sent(units[0], max)), units[1..], max);
      AllFitConcat(capacity, resets, a, Sent(units[0], max), SentAll(units[1..], max));
    }
  }

  /** The byte buffer of one receiver; `units` are its calls to the decoder. */
  class Receiver {
    const data: array<byte>
    const resets: bool
    var dataLen: nat
    var units: seq<seq<byte>>

    predicate Valid()
      reads `dataLen
    {
      dataLen <= data.Length
    }

    function State(): Assembly
      requires Valid()
      reads `dataLen, `units, data
    {
      Assembly(data[..dataLen], units)
    }

    /** The receiver of VirtualCameraService.cpp resets, the one of jrtplibutil_jni.cpp does not. */
    constructor (data: array<byte>, resets: bool)
      ensures this.data == data && this.resets == resets
      ensures Valid() && State() == Assembly([], [])
    {
      this.data, this.resets, dataLen, units := data, resets, 0, [];
    }

    /** memcpy of p from its byte `skip` on to position `at`. */
    method Copy(p: Packet, skip: nat, at: nat)
      requires skip <= |p| && at + |p| - skip <= data.Length
      modifies data
      ensures data[..at + |p| - skip] == old(data[..at]) + p[skip..]
      ensures data[at + |p| - skip..] == old(data[at + |p| - skip..])
    {
      var i := skip;
      while i < |p|
        invariant skip <= i <= |p|
        invariant data[..at + i - skip] == old(data[..at]) + p[skip..i]
        invariant data[at + i - skip..] == old(data[at + i - skip..])
      {
        data[at + i - skip] := p[i];
        assert p[skip..i + 1] == p[skip..i] + [p[i]];
        i := i + 1;
      }
      assert p[skip..] == p[skip..i];
    }

    method Deliver()
      requires Valid()
      modifies `units
      ensures units == old(units) + [data[..dataLen]]
    {
      units := units + [data[..dataLen]];
    }

    method Take(p: Packet)
      requires Valid() && WellFormed(p) && Fits(data.Length, State(), p)
      modifies this, data
      ensures Valid() && State() == Step(resets, old(State()), p)
    {
      if p[0] % 32 == 28 {
        var flag := p[1] / 64;
        if flag == 2 {
          Copy(p, 2, 0);
          dataLen := |p| - 2;
        } else if flag == 1 {
          Copy(p, 2, dataLen);
          dataLen := dataLen + |p| - 2;
          Deliver();
          if resets {
            dataLen := 0;
          }
        } else {
          Copy(p, 2, dataLen);
          dataLen := dataLen + |p| - 2;
        }
      } else {
        Copy(p, 0, 0);
        assert data[..|p|] == p;
        dataLen := |p|;
        Deliver();
        if resets {
          dataLen := 0;
        }
      }
    }

    /** One poll: every packet that has arrived, in order. */
    method Poll(packets: seq<Packet>)
      requires Valid() && AllWellFormed(packets) && AllFit(data.Length, resets, State(), packets)
      modifies this, data
      ensures Valid() && State() == Run(resets, old(State()), packets)
    {
      var i := 0;
      assert packets[0..] == packets;
      while i < |packets|
        invariant 0 <= i <= |packets| && Valid()
        invariant AllWellFormed(packets[i..]) && AllFit(data.Length, resets, State(), packets[i..])
        invariant Run(resets, State(), packets[i..]) == Run(resets, old(State()), packets)
      {
        assert packets[i..][0] == packets[i] && packets[i..][1..] == packets[i + 1..];
        Take(packets[i]);
        i := i + 1;
      }
    }

    /** Poll after poll, however the packets are spread over them. */
    method PollAll(polls: seq<seq<Packet>>)
      requires Valid() && AllPollsWellFormed(polls)
      requires AllWellFormed(Joined(polls)) && AllFit(data.Length, resets, State(), Joined(polls))
      modifies this, data
      ensures Valid() && State() == Run(resets, old(State()), Joined(polls))
    {
      hide Run, AllFit, AllWellFormed;
      var i := 0;
      assert polls[0..] == polls;
      while i < |polls|
        invariant 0 <= i <= |polls| && Valid() && AllPollsWellFormed(polls[i..])
        invariant AllWellFormed(Joined(polls[i..])) && AllFit(data.Length, resets, State(), Joined(polls[i..]))
        invariant Run(resets, State(), Joined(polls[i..])) == Run(resets, old(State()), Joined(polls))
      {
        assert polls[i..][0] == polls[i] && polls[i..][1..] == polls[i + 1..];
        NextPoll(data.Length, resets, State(), polls[i..]);
        Poll(polls[i]);
        i := i + 1;
      }
      RunNothing(resets, State());
    }
  }

  lemma NextPoll(capacity: nat, resets: bool, a: Assembly, polls: seq<seq<Packet>>)
    requires polls != [] && AllPollsWellFormed(polls)
    requires AllWellFormed(Joined(polls)) && AllFit(capacity, resets, a, Joined(polls))
    ensures AllWellFormed(polls[0]) && AllPollsWellFormed(polls[1..]) && AllWellFormed(Joined(polls[1..]))
    ensures AllFit(capacity, resets, a, polls[0])
    ensures AllFit(capacity, resets, Run(resets, a, polls[0]), Joined(polls[1..]))
    ensures Run(resets, a, Joined(polls)) == Run(resets, Run(resets, a, polls[0]), Joined(polls[1..]))
  {
    hide Run, AllFit, WellFormed;
    PollsAreOneRun(resets, a, polls[1..]);
    AllFitConcat(capacity, resets, a, polls[0], Joined(polls[1..]));
    RunConcat(resets, a, polls[0], Joined(polls[1..]));
  }

  lemma RunNothing(resets: bool, a: Assembly)
    ensures Run(resets, a, []) == a
  {
  }

  /** The pieces fill the unit: n - 1 full ones and a last one. */
  predicate Divides(len: nat, max: nat, n: nat, l: nat) {
    n >= 2 && l < max && (n - 1) * max + (if l == 0 then max else l) == len
  }

  lemma CountPieces(len: nat, max: nat, n: nat, l: nat)
    requires 0 < max < len && l == len % max && n == len / max + (if l != 0 then 1 else 0)
    ensures Divides(len, max, n, l)
  {
    assert len == len / max * max + len % max;
    if l == 0 {
      assert (len / max - 1) * max == len / max * max - max;
    }
  }

  lemma PieceStart(step: nat, n: nat, max: nat)
    ensures 0 * max == 0
    ensures (step + 1) * max == step * max + max
    ensures step < n - 1 ==> step * max + max <= (n - 1) * max
    decreases n
  {
    if step + 1 < n - 1 {
      PieceStart(step, n - 1, max);
      assert (n - 1) * max == (n - 2) * max + max;
    }
  }

  /** The packet for the piece of data that starts at byte `at`, the step-th of n. */
  method SlicePacket(data: seq<byte>, header: byte, max: nat, at: nat, step: nat, n: nat, l: nat) returns (packet: Packet)
    requires 0 < max && l < max && step < n && n >= 2
    requires step < n - 1 ==> at + max < |data|
    requires step == n - 1 ==> at + (if l == 0 then max else l) == |data|
    requires step == 0 ==> at == 0
    ensures Slices(data[at..], header, step == 0, max)
      == [packet] + (if step < n - 1 then Slices(data[at + max..], header, false, max) else [])
  {
    if step == 0 {
      packet := [Indicator(header), FragmentHeader(header, First)] + data[..max];
      assert data[at..][..max] == data[..max];
    } else if step == n - 1 {
      packet := [Indicator(header), FragmentHeader(header, Last)]
        + if l == 0 then data[at..at + max] else data[at..at + l];
      assert data[at..] == if l == 0 then data[at..at + max] else data[at..at + l];
      assert [packet] + [] == [packet];
    } else {
      packet := [Indicator(header), FragmentHeader(header, Middle)] + data[at..at + max];
      assert data[at..][..max] == data[at..at + max];
    }
    assert step < n - 1 ==> data[at..][max..] == data[at + max..];
  }

  /** The number of packets and what is left for the last one. */
  method Count(len: nat, max: nat) returns (n: nat, l: nat)
    requires 0 < max < len
    ensures Divides(len, max, n, l)
  {
    n, l := len / max, len % max;
    if l != 0 {
      n := n + 1;
    }
    CountPieces(len, max, n, l);
  }

  method SendSlices(data: seq<byte>, header: byte, max: nat) returns (sent: seq<Packet>)
    requires 0 < max < |data|
    ensures sent == Slices(data, header, true, max)
  {
    hide Slices;
    var n, l := Count(|data|, max);
    var step := 0;
    sent := [];
    PieceStart(0, n, max);
    assert data[0..] == data;
    while step < n
      invariant 0 <= step <= n
      invariant step < n ==> step * max <= (n - 1) * max
      invariant step < n ==> sent + Slices(data[step * max..], header, step == 0, max) == Slices(data, header, true, max)
      invariant step == n ==> sent == Slices(data, header, true, max)
    {
      PieceStart(step, n, max);
      var packet := SlicePacket(data, header, max, step * max, step, n, l);
      ghost var rest := if step < n - 1 then Slices(data[step * max + max..], header, false, max) else [];
      Assoc(sent, [packet], rest);
      assert (sent + [packet]) + [] == sent + [packet];
      sent := sent + [packet];
      step := step + 1;
    }
  }

  /** SendPacketAfterSlice: the payloads of the packets it sends for one unit. */
  method SendPacketAfterSlice(data: seq<byte>, max: nat) returns (sent: seq<Packet>)
    requires max >= 4
    ensures sent == Sent(data, max)
  {
    if |data| > max {
      sent := SendSlices(data, data[4], max);
    } else {
      sent := [data];
    }
  }

  /** All the packets for a list of units. */
  method SendUnits(units: seq<seq<byte>>, max: nat) returns (sent: seq<Packet>)
    requires max >= 4
    ensures sent == SentAll(units, max)
  {
    hide Sent;
    sent := [];
    var i := 0;
    assert units[0..] == units;
    while i < |units|
      invariant 0 <= i <= |units|
      invariant sent + SentAll(units[i..], max) == SentAll(units, max)
    {
      var packets := SendPacketAfterSlice(units[i], max);
      assert units[i..][0] == units[i] && units[i..][1..] == units[i + 1..];
      Assoc(sent, packets, SentAll(units[i + 1..], max));
      sent := sent + packets;
      i := i + 1;
    }
    assert sent + [] == sent;
  }

  /**
   * Units are sent, travel in order and are polled for in any portions: a receiver whose buffer is
   * as large as the largest unit delivers exactly the units, whatever the buffer held before.
   */
  method Transfer(units: seq<seq<byte>>, max: nat, r: Receiver, portions: seq<nat>)
    requires max >= 4 && r.Valid()
    requires forall i :: 0 <= i < |units| ==> Sendable(units[i], max) && |units[i]| <= r.data.Length
    modifies r, r.data
    ensures r.Valid() && r.units == old(r.units) + units
  {
    hide Run, AllFit, AllWellFormed, SentAll, Sendable;
    var sent := SendUnits(units, max);
    SentAllFit(r.data.Length, r.resets, r.State(), units, max);
    SendThenReceive(r.resets, r.State(), units, max);
    var polls := Portion(sent, portions);
    r.PollAll(polls);
  }

  /** Cuts a stream of packets into polls of the given sizes, and one for the rest. */
  method Portion(packets: seq<Packet>, portions: seq<nat>) returns (polls: seq<seq<Packet>>)
    requires AllWellFormed(packets)
    ensures AllPollsWellFormed(polls) && Joined(polls) == packets
    decreases |portions|
  {
    if portions == [] || portions[0] > |packets| {
      polls := [packets];
      assert polls[1..] == [] && packets + [] == packets;
    } else {
      var n := portions[0];
      var rest := Portion(packets[n..], portions[1..]);
      polls := [packets[..n]] + rest;
      assert polls[1..] == rest && packets[..n] + packets[n..] == packets;
    }
  }

  /**
   * A receiver that has taken any packets its buffer had room for delivers the units that follow,
   * whole or cut, each no longer than the buffer, unit for unit.
   */
  method ReceiveAfterJunk(r: Receiver, junk: seq<Packet>, packets: seq<Packet>, ghost ss: seq<Sending>)
    requires r.Valid() && AllWellFormed(junk) && AllFit(r.data.Length, r.resets, r.State(), junk)
    requires forall i :: 0 <= i < |ss| ==> Proper(ss[i]) && |Unit(ss[i])| <= r.data.Length
    requires packets == AllPackets(ss)
    modifies r, r.data
    ensures r.Valid() && r.units == Run(r.resets, old(r.State()), junk).units + AllUnits(ss)
  {
    hide Run, AllFit, AllWellFormed, AllPackets, Proper, Unit, AllUnits;
    r.Poll(junk);
    SendingsFit(r.data.Length, r.resets, r.State(), ss);
    UnitForUnit(r.resets, r.State(), ss);
    r.Poll(packets);
  }
}
