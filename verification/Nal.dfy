// Annex-B splitting and access-unit assembly (Annex B of ITU-T H.264).
module Nal {
  import opened Bytes
  import opened Optional

  // 00 00 01 at position i.
  predicate Code3At(s: seq<Byte>, i: nat) {
    i + 3 <= |s| && s[i] == 0 && s[i + 1] == 0 && s[i + 2] == 1
  }

  // 00 00 00 01 at position i.
  predicate Code4At(s: seq<Byte>, i: nat) {
    i + 4 <= |s| && s[i] == 0 && s[i + 1] == 0 && s[i + 2] == 0 && s[i + 3] == 1
  }

  // The length of the start code at position i, or 0.
  function CodeLength(s: seq<Byte>, i: nat): (n: nat)
    ensures n > 0 ==> i + n <= |s|
  {
    if Code4At(s, i) then 4 else if Code3At(s, i) then 3 else 0
  }

  // The first start code at or after i, or the end.
  function FirstCode(s: seq<Byte>, i: nat): (e: nat)
    requires i <= |s|
    ensures i <= e <= |s|
    ensures e < |s| ==> CodeLength(s, e) > 0
    ensures forall k :: i <= k < e ==> CodeLength(s, k) == 0
    decreases |s| - i
  {
    if i == |s| || CodeLength(s, i) > 0 then i else FirstCode(s, i + 1)
  }

  // What is before the first code, then the units, the last one included even
  // when it is empty.
  function Units(s: seq<Byte>): (units: seq<seq<Byte>>)
    ensures units != []
    decreases |s|
  {
    var e := FirstCode(s, 0);
    if e == |s| then [s] else [s[..e]] + Units(s[e + CodeLength(s, e)..])
  }

  function DropEmptyLast(units: seq<seq<Byte>>): seq<seq<Byte>> {
    if units != [] && units[|units| - 1] == [] then units[..|units| - 1] else units
  }

  // splitNalus: nothing before the first code, no empty unit at the end.
  function Split(s: seq<Byte>): seq<seq<Byte>> {
    DropEmptyLast(Units(s)[1..])
  }

  // ----- what comes out -----

  ghost predicate Free(u: seq<Byte>) {
    forall k :: 0 <= k < |u| ==> !Code3At(u, k)
  }

  predicate IsCode(c: seq<Byte>) { c == [0, 0, 1] || c == [0, 0, 0, 1] }

  // Codes and units in turn.
  function Weave(codes: seq<seq<Byte>>, units: seq<seq<Byte>>): seq<Byte>
    requires |codes| == |units|
  {
    if units == [] then [] else codes[0] + units[0] + Weave(codes[1..], units[1..])
  }

  lemma UpToCodeFree(s: seq<Byte>)
    ensures Free(s[..FirstCode(s, 0)])
  {
    var e := FirstCode(s, 0);
    forall k | 0 <= k < e ensures !Code3At(s[..e], k) {
      assert CodeLength(s, k) == 0;
    }
  }

  lemma {:induction false} UnitsFree(s: seq<Byte>)
    ensures forall u :: u in Units(s) ==> Free(u)
    decreases |s|
  {
    var e := FirstCode(s, 0);
    UpToCodeFree(s);
    assert e == |s| ==> s[..e] == s;
    if e < |s| {
      UnitsFree(s[e + CodeLength(s, e)..]);
    }
  }

  // No unit of any input contains a start code.
  lemma SplitFree(s: seq<Byte>)
    ensures forall u :: u in Split(s) ==> Free(u)
  {
    UnitsFree(s);
  }

  lemma CodeSlice(s: seq<Byte>, i: nat)
    requires CodeLength(s, i) > 0
    ensures IsCode(s[i..i + CodeLength(s, i)])
  {
  }

  // The codes between the units.
  function Codes(s: seq<Byte>): (codes: seq<seq<Byte>>)
    ensures |codes| + 1 == |Units(s)|
    decreases |s|
  {
    var e := FirstCode(s, 0);
    if e == |s| then [] else [s[e..e + CodeLength(s, e)]] + Codes(s[e + CodeLength(s, e)..])
  }

  lemma {:induction false} CodesAreCodes(s: seq<Byte>, i: nat)
    requires i < |Codes(s)|
    ensures IsCode(Codes(s)[i])
    decreases |s|
  {
    hide CodeLength, IsCode;
    var e := FirstCode(s, 0);
    CodeSlice(s, e);
    if i > 0 {
      CodesAreCodes(s[e + CodeLength(s, e)..], i - 1);
    }
  }

  lemma {:induction false} UnitsReassemble(s: seq<Byte>)
    ensures Units(s)[0] + Weave(Codes(s), Units(s)[1..]) == s
    decreases |s|
  {
    hide CodeLength;
    var e := FirstCode(s, 0);
    if e < |s| {
      var n := CodeLength(s, e);
      var rest := s[e + n..];
      UnitsReassemble(rest);
      assert Units(s)[1..] == Units(rest);
      assert Codes(s)[1..] == Codes(rest);
      assert Codes(s)[0] == s[e..e + n];
      assert Weave(Codes(s), Units(rest)) == s[e..e + n] + Units(rest)[0] + Weave(Codes(rest), Units(rest)[1..]);
      Regroup(s[..e], s[e..e + n], Units(rest)[0], Weave(Codes(rest), Units(rest)[1..]));
      assert s == s[..e] + (s[e..e + n] + rest);
    } else {
      assert Units(s)[1..] == [];
    }
  }

  lemma Regroup(a: seq<Byte>, b: seq<Byte>, c: seq<Byte>, d: seq<Byte>)
    ensures a + (b + c + d) == a + (b + (c + d))
  {
    assert b + c + d == b + (c + d);
  }

  // Nothing is lost: the code-free bytes before the first code, then codes and
  // units in turn, make up the input; the one unit that may be left out of the
  // result is an empty last one.
  lemma SplitReassembles(s: seq<Byte>)
    ensures var prefix, units := Units(s)[0], Units(s)[1..];
            && Free(prefix)
            && (forall i :: 0 <= i < |Codes(s)| ==> IsCode(Codes(s)[i]))
            && prefix + Weave(Codes(s), units) == s
            && Split(s) == DropEmptyLast(units)
  {
    hide CodeLength, IsCode, Free;
    UnitsFree(s);
    UnitsReassemble(s);
    forall i | 0 <= i < |Codes(s)| ensures IsCode(Codes(s)[i]) {
      CodesAreCodes(s, i);
    }
  }

  // ----- the round trip -----

  // A unit that is kept apart from what follows it: no code inside, and no zero
  // at its end for a 3-byte code to swallow.
  ghost predicate Apart(unit: seq<Byte>, nextIsShort: bool) {
    Free(unit) && !(nextIsShort && unit != [] && unit[|unit| - 1] == 0)
  }

  ghost predicate Recoverable(codes: seq<seq<Byte>>, units: seq<seq<Byte>>)
    requires |codes| == |units|
  {
    units == [] || (Apart(units[0], ShortFirst(codes[1..])) && Recoverable(codes[1..], units[1..]))
  }

  predicate ShortFirst(codes: seq<seq<Byte>>) { codes != [] && codes[0] == [0, 0, 1] }

  // The only code that can start inside a code-free unit is a 3-byte code that
  // takes the zero before it.
  lemma CodeInside(u: seq<Byte>, code: seq<Byte>, rest: seq<Byte>, k: nat)
    requires Free(u) && IsCode(code) && k < |u|
    requires CodeLength(u + code + rest, k) > 0
    ensures k == |u| - 1 && code == [0, 0, 1] && u[k] == 0
  {
    var s, m := u + code + rest, |u|;
    assert forall i :: 0 <= i < m ==> s[i] == u[i];
    assert s[m] == code[0] && s[m + 1] == code[1] && s[m + 2] == code[2];
    FreeAt(u, k);
    FreeAt(u, k + 1);
  }

  lemma FreeAt(u: seq<Byte>, k: nat)
    requires Free(u)
    ensures !Code3At(u, k)
  {
  }

  // Where a unit followed by a code ends.
  lemma UnitEnds(u: seq<Byte>, code: seq<Byte>, rest: seq<Byte>)
    requires Free(u) && IsCode(code)
    ensures var s, e := u + code + rest, FirstCode(u + code + rest, 0);
            if Apart(u, code == [0, 0, 1]) then e == |u| && CodeLength(s, e) == |code| else e < |u|
  {
    var s, e, m := u + code + rest, FirstCode(u + code + rest, 0), |u|;
    assert s[m] == code[0] && s[m + 1] == code[1] && s[m + 2] == code[2];
    assert |code| == 4 ==> s[m + 3] == code[3];
    assert CodeLength(s, m) == |code|;
    if e < m {
      CodeInside(u, code, rest, e);
    }
    if !Apart(u, code == [0, 0, 1]) {
      assert s[m - 1] == u[m - 1];
      assert Code4At(s, m - 1);
      assert CodeLength(s, m - 1) > 0;
    }
  }

  lemma NoCode(u: seq<Byte>, k: nat)
    requires Free(u) && k < |u|
    ensures CodeLength(u, k) == 0
  {
    FreeAt(u, k);
    FreeAt(u, k + 1);
  }

  lemma UnitAlone(u: seq<Byte>)
    requires Free(u)
    ensures FirstCode(u, 0) == |u|
  {
    var e := FirstCode(u, 0);
    if e < |u| {
      NoCode(u, e);
    }
  }

  lemma PrefixHead(u: seq<Byte>, units: seq<seq<Byte>>, found: seq<seq<Byte>>)
    ensures [u] + units <= found ==> found != [] && found[0] == u
  {
    assert ([u] + units)[0] == u;
  }

  // The units between codes are found exactly when each is kept apart.
  lemma {:induction false} UnitsRoundTrip(u: seq<Byte>, codes: seq<seq<Byte>>, units: seq<seq<Byte>>)
    requires |codes| == |units| && forall c :: c in codes ==> IsCode(c)
    ensures var found := Units(u + Weave(codes, units));
            var apart := Apart(u, ShortFirst(codes)) && Recoverable(codes, units);
            && ([u] + units <= found <==> apart)
            && (apart ==> found == [u] + units)
    decreases |units|
  {
    hide CodeLength;
    var s := u + Weave(codes, units);
    var e := FirstCode(s, 0);
    var found := Units(s);
    UpToCodeFree(s);
    if !Free(u) {
      PrefixHead(u, units, found);
    } else if units == [] {
      assert s == u;
      UnitAlone(u);
    } else {
      var rest := units[0] + Weave(codes[1..], units[1..]);
      assert s == u + codes[0] + rest;
      assert codes[0] in codes;
      UnitEnds(u, codes[0], rest);
      if e == |u| {
        assert s[..|u|] == u && s[|u| + |codes[0]|..] == rest;
        UnitsRoundTrip(units[0], codes[1..], units[1..]);
        assert units == [units[0]] + units[1..];
        assert found == [u] + Units(rest);
        assert Recoverable(codes, units)
               <==> Apart(units[0], ShortFirst(codes[1..])) && Recoverable(codes[1..], units[1..]);
        HeadRest(u, Units(rest), units);
      } else {
        PrefixHead(u, units, found);
      }
    }
  }

  lemma HeadRest(u: seq<Byte>, found: seq<seq<Byte>>, units: seq<seq<Byte>>)
    ensures [u] + units <= [u] + found <==> units <= found
    ensures units == found ==> [u] + units == [u] + found
  {
    if [u] + units <= [u] + found {
      assert forall k :: 0 <= k < |units| ==> units[k] == ([u] + units)[k + 1] == ([u] + found)[k + 1];
    }
  }

  // Units woven with start codes come back exactly when none contains a code,
  // none that ends in a zero precedes a 3-byte code, and the last is not empty.
  lemma SplitRoundTrip(codes: seq<seq<Byte>>, units: seq<seq<Byte>>)
    requires |codes| == |units| && forall c :: c in codes ==> IsCode(c)
    ensures Split(Weave(codes, units)) == units
            <==> units == [] || (Recoverable(codes, units) && units[|units| - 1] != [])
  {
    hide IsCode, CodeLength, ShortFirst, DropEmptyLast, Apart;
    if units == [] {
      NothingDropped();
    } else {
      var found, apart := Units(Weave(codes, units)), Recoverable(codes, units);
      assert [] + Weave(codes, units) == Weave(codes, units);
      UnitsRoundTrip([], codes, units);
      NothingBefore(codes, units);
      DropDecides(found, units, apart);
    }
  }

  lemma NothingDropped()
    ensures DropEmptyLast([]) == [] && Units([])[1..] == []
  {
  }

  // Woven codes and units start with a code, and nothing is kept apart from one.
  lemma NothingBefore(codes: seq<seq<Byte>>, units: seq<seq<Byte>>)
    requires |codes| == |units| != 0 && IsCode(codes[0])
    ensures Units(Weave(codes, units))[0] == []
    ensures Apart([], ShortFirst(codes))
  {
    var s, rest := Weave(codes, units), units[0] + Weave(codes[1..], units[1..]);
    assert s == [] + codes[0] + rest;
    UnitEnds([], codes[0], rest);
  }

  // Dropping an empty last unit never makes up for another difference.
  lemma DropDecides(found: seq<seq<Byte>>, units: seq<seq<Byte>>, apart: bool)
    requires found != [] && units != [] && found[0] == []
    requires [[]] + units <= found <==> apart
    requires apart ==> found == [[]] + units
    ensures DropEmptyLast(found[1..]) == units <==> apart && units[|units| - 1] != []
  {
    assert found == [[]] + found[1..];
    if apart {
      assert found[1..] == units;
    }
    if DropEmptyLast(found[1..]) == units {
      assert units <= found[1..];
      assert [[]] + units <= [[]] + found[1..];
    }
  }

  // ----- the loop of the program -----

  lemma CodeLengthSuffix(s: seq<Byte>, from: nat, i: nat)
    requires from + i <= |s|
    ensures CodeLength(s[from..], i) == CodeLength(s, from + i)
  {
  }

  lemma FirstCodeSuffix(s: seq<Byte>, from: nat)
    requires from <= |s|
    ensures FirstCode(s[from..], 0) == FirstCode(s, from) - from
  {
    hide CodeLength;
    var e := FirstCode(s, from);
    forall k | 0 <= k <= e - from ensures CodeLength(s[from..], k) == CodeLength(s, from + k) {
      CodeLengthSuffix(s, from, k);
    }
    assert CodeLength(s[from..], e - from) == CodeLength(s, e);
  }

  ghost function Tail(s: seq<Byte>, from: nat): (units: seq<seq<Byte>>)
    requires from <= |s|
    ensures units != []
  {
    Units(s[from..])
  }

  // The units from a position on, by the next code.
  lemma TailStep(s: seq<Byte>, from: nat)
    requires from <= |s|
    ensures var e := FirstCode(s, from);
            Tail(s, from) == if e == |s| then [s[from..]] else [s[from..e]] + Tail(s, e + CodeLength(s, e))
  {
    hide CodeLength;
    var e := FirstCode(s, from);
    FirstCodeSuffix(s, from);
    if e < |s| {
      CodeLengthSuffix(s, from, e - from);
      assert s[from..][..e - from] == s[from..e];
      assert s[from..][e - from + CodeLength(s, e)..] == s[e + CodeLength(s, e)..];
    }
  }

  lemma SplitOfTail(s: seq<Byte>)
    ensures Split(s) == DropEmptyLast(Tail(s, 0)[1..])
  {
    assert s[0..] == s;
  }

  method SplitNalus(buf: seq<Byte>) returns (nalus: seq<seq<Byte>>)
    ensures nalus == Split(buf)
  {
    hide CodeLength, DropEmptyLast, Split, Tail;
    nalus := [];
    var i, naluStart := 0, -1;
    // Where the current unit starts; the bytes before the first code are one.
    ghost var from, done := 0, [];
    assert [] + Tail(buf, 0) == Tail(buf, 0);
    while i < |buf|
      invariant from <= i <= |buf| && (naluStart < 0 ==> from == 0) && (naluStart >= 0 ==> from == naluStart)
      invariant FirstCode(buf, from) == FirstCode(buf, i)
      invariant done + Tail(buf, from) == Tail(buf, 0)
      invariant if naluStart < 0 then done == [] && nalus == [] else done != [] && nalus == done[1..]
      decreases |buf| - i
    {
      var scLen := CodeLength(buf, i);
      if scLen > 0 {
        TailStep(buf, from);
        Shift(done, buf[from..i], Tail(buf, i + scLen));
        done := done + [buf[from..i]];
        if naluStart >= 0 {
          nalus := nalus + [buf[naluStart..i]];
        }
        naluStart := i + scLen;
        from := naluStart;
        i := i + scLen;
      } else {
        i := i + 1;
      }
    }
    TailStep(buf, from);
    SplitOfTail(buf);
    if naluStart >= 0 && naluStart < |buf| {
      nalus := nalus + [buf[naluStart..]];
    }
    LastUnit(done, buf[from..], nalus);
  }

  lemma Shift(done: seq<seq<Byte>>, unit: seq<Byte>, rest: seq<seq<Byte>>)
    ensures done + ([unit] + rest) == done + [unit] + rest
  {
  }

  lemma LastUnit(done: seq<seq<Byte>>, last: seq<Byte>, nalus: seq<seq<Byte>>)
    requires nalus == if done == [] then [] else if last == [] then done[1..] else done[1..] + [last]
    requires done != [] ==> done[1..] + [] == done[1..]
    ensures nalus == DropEmptyLast((done + [last])[1..])
  {
    if done != [] {
      assert (done + [last])[1..] == done[1..] + [last];
      assert (done[1..] + [last])[..|done| - 1] == done[1..];
    }
  }

  // ----- access units -----

  datatype Pending = Pending(complete: Option<seq<Byte>>, frags: seq<seq<Byte>>)

  // One video packet: its channel, whether it is COMPLETE, its body.
  datatype Part = Part(channel: nat, complete: bool, payload: seq<Byte>)

  function UnitBytes(p: Pending): seq<Byte> {
    (if p.complete.Some? then p.complete.value else []) + Concat(p.frags)
  }

  function Open(pending: map<nat, Pending>, channel: nat): Pending {
    if channel in pending then pending[channel] else Pending(None, [])
  }

  function Feed(pending: map<nat, Pending>, p: Part): (map<nat, Pending>, Option<seq<Byte>>) {
    var entry := Open(pending, p.channel);
    if p.complete then
      (pending[p.channel := Pending(Some(p.payload), [])],
       if entry.complete.Some? || entry.frags != [] then Some(UnitBytes(entry)) else None)
    else
      (pending[p.channel := entry.(frags := entry.frags + [p.payload])], None)
  }

  function FeedAll(parts: seq<Part>): map<nat, Pending> {
    if parts == [] then map[]
    else Feed(FeedAll(parts[..|parts| - 1]), parts[|parts| - 1]).0
  }

  // The access units of a channel, in order.
  function UnitsOf(parts: seq<Part>, channel: nat): seq<seq<Byte>> {
    if parts == [] then []
    else
      var n := |parts| - 1;
      var unit := Feed(FeedAll(parts[..n]), parts[n]).1;
      UnitsOf(parts[..n], channel) + (if parts[n].channel == channel && unit.Some? then [unit.value] else [])
  }

  // The bodies fed to a channel, cut in front of every COMPLETE.
  function Groups(parts: seq<Part>, channel: nat): seq<seq<Byte>> {
    if parts == [] then []
    else
      var n := |parts| - 1;
      var g, p := Groups(parts[..n], channel), parts[n];
      if p.channel != channel then g
      else if p.complete || g == [] then g + [p.payload]
      else g[..|g| - 1] + [g[|g| - 1] + p.payload]
  }

  lemma {:induction false} ConcatAppend(parts: seq<seq<Byte>>, last: seq<Byte>)
    ensures Concat(parts + [last]) == Concat(parts) + last
  {
    if parts == [] {
      assert [last][1..] == [];
    } else {
      ConcatAppend(parts[1..], last);
      assert (parts + [last])[1..] == parts[1..] + [last];
    }
  }

  // What one packet does to a channel.
  lemma FeedChannel(pending: map<nat, Pending>, p: Part, channel: nat)
    ensures var (after, unit) := Feed(pending, p);
            var was, now := Open(pending, channel), Open(after, channel);
            if p.channel != channel then now == was
            else if p.complete then
              now == Pending(Some(p.payload), []) && UnitBytes(now) == p.payload
              && unit == if was == Pending(None, []) then None else Some(UnitBytes(was))
            else
              now == was.(frags := was.frags + [p.payload]) && UnitBytes(now) == UnitBytes(was) + p.payload
              && unit.None?
  {
    if p.channel == channel && !p.complete {
      ConcatAppend(Open(pending, channel).frags, p.payload);
    }
  }

  // Every channel's units are its packets cut in front of every COMPLETE, all but
  // the group still open; other channels do not matter and no byte is lost.
  lemma {:induction false} Assembled(parts: seq<Part>, channel: nat)
    ensures var g, entry := Groups(parts, channel), Open(FeedAll(parts), channel);
            && (g == [] <==> entry == Pending(None, []))
            && (g == [] ==> UnitsOf(parts, channel) == [])
            && (g != [] ==> UnitsOf(parts, channel) == g[..|g| - 1] && UnitBytes(entry) == g[|g| - 1])
  {
    if parts != [] {
      hide Feed, Open;
      var n := |parts| - 1;
      Assembled(parts[..n], channel);
      FeedChannel(FeedAll(parts[..n]), parts[n], channel);
      assert UnitBytes(Pending(None, [])) == [];
    } else {
      assert Open(FeedAll(parts), channel) == Pending(None, []);
    }
  }

  class AccessUnitAssembler {
    var pending: map<nat, Pending>

    constructor ()
      ensures pending == map[]
    {
      pending := map[];
    }

    method FeedPacket(p: Part) returns (unit: Option<seq<Byte>>)
      modifies this
      ensures (pending, unit) == Feed(old(pending), p)
    {
      var entry := if p.channel in pending then Some(pending[p.channel]) else None;
      if p.complete {
        pending := pending[p.channel := Pending(Some(p.payload), [])];
        if entry.Some? && (entry.value.complete.Some? || entry.value.frags != []) {
          var head := if entry.value.complete.Some? then entry.value.complete.value else [];
          return Some(head + Concat(entry.value.frags));
        }
        return None;
      }
      if entry.None? {
        entry := Some(Pending(None, []));
      }
      pending := pending[p.channel := entry.value.(frags := entry.value.frags + [p.payload])];
      unit := None;
    }

    method Reset()
      modifies this
      ensures pending == map[]
    {
      pending := map[];
    }
  }
}
