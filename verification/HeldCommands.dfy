// Commands held while a device has no authenticated socket, and what is sent of
// them once it has one: of the commands for one camera only the latest.
module HeldCommands {
  import opened Bytes
  import opened Optional

  datatype Request = Request(commandId: string, deviceId: string, commandCode: string,
                             payloadText: Option<string>, payloadHex: Option<string>)

  datatype Held = Held(request: Request, heldAt: int)

  // Whose stream a live control is about: a camera's, its own, or the shared one
  // of bodies that name no camera.
  datatype Bucket = Shared | Camera(channel: Byte) | Own(payload: string)

  const HOLD_TTL_MS := 600_000
  const COMMA: Byte := 44

  predicate IsLiveStart(code: string) { code == "AB2" || code == "A9A" }
  predicate IsLiveStop(code: string) { code == "AB3" || code == "A9B" }
  predicate IsLiveControl(code: string)
    ensures IsLiveControl(code) <==> code in {"AB2", "A9A", "AB3", "A9B"}
  {
    IsLiveStart(code) || IsLiveStop(code)
  }

  // ----- the camera a body names -----

  function HexValue(c: char): (v: int)
    ensures -1 <= v < 16
  {
    if '0' <= c <= '9' then c as int - 48
    else if 'a' <= c <= 'f' then c as int - 87
    else if 'A' <= c <= 'F' then c as int - 55
    else -1
  }

  // Decoding stops at the first pair that is not two hex digits.
  function HexDecode(s: string): seq<Byte> {
    if |s| < 2 || HexValue(s[0]) < 0 || HexValue(s[1]) < 0 then []
    else [16 * HexValue(s[0]) + HexValue(s[1])] + HexDecode(s[2..])
  }

  // An ASCII decoder looks at seven bits.
  function Ascii(s: seq<Byte>): string {
    seq(|s|, i requires 0 <= i < |s| => (s[i] % 128) as char)
  }

  function MediaChannel(request: Request): Bucket {
    if request.payloadHex.None? || request.payloadHex.value == "" then Shared
    else
      var buf := HexDecode(request.payloadHex.value);
      var comma := IndexOf(buf, COMMA, 0);
      if comma < 0 then Shared
      else
        var code := Ascii(buf[..comma]);
        if IsLiveStop(code) then
          if comma + 1 < |buf| then Camera(buf[comma + 1]) else Shared
        else if IsLiveStart(code) then
          if comma + 1 < |buf| && comma + 2 + buf[comma + 1] < |buf|
          then Camera(buf[comma + 2 + buf[comma + 1]])
          else Own(request.payloadHex.value)
        else Shared
  }

  // A hex digit of either case.
  ghost predicate IsDigit(c: char, v: nat) {
    v < 16 && (c == "0123456789abcdef"[v] || c == "0123456789ABCDEF"[v])
  }

  lemma HexChars(c: char)
    ensures HexValue(c) >= 0 <==> c in "0123456789abcdefABCDEF"
  {
    var digits := "0123456789abcdefABCDEF";
    var v := HexValue(c);
    if v >= 0 {
      assert digits[if c <= 'F' && v >= 10 then v + 6 else v] == c;
    }
  }

  ghost predicate TwoDigits(s: string) {
    |s| >= 2 && s[0] in "0123456789abcdefABCDEF" && s[1] in "0123456789abcdefABCDEF"
  }

  // The text starts with the bytes, two digits each, and then no two digits follow.
  ghost predicate Spells(s: string, bytes: seq<Byte>)
    decreases |bytes|
  {
    if bytes == [] then !TwoDigits(s)
    else |s| >= 2 && IsDigit(s[0], bytes[0] / 16) && IsDigit(s[1], bytes[0] % 16) && Spells(s[2..], bytes[1..])
  }

  lemma HexValueIs(c: char, v: nat)
    requires v < 16
    ensures HexValue(c) == v <==> IsDigit(c, v)
  {
  }

  lemma FirstDecoded(s: string)
    ensures if TwoDigits(s) then HexDecode(s) != [] && HexDecode(s)[1..] == HexDecode(s[2..]) else HexDecode(s) == []
  {
    if |s| >= 2 {
      HexChars(s[0]);
      HexChars(s[1]);
      hide HexValue;
    }
  }

  lemma FirstByte(s: string, b: Byte)
    requires |s| >= 2
    ensures TwoDigits(s) && HexDecode(s) != [] && HexDecode(s)[0] == b <==>
            IsDigit(s[0], b / 16) && IsDigit(s[1], b % 16)
  {
    HexChars(s[0]);
    HexChars(s[1]);
    HexValueIs(s[0], b / 16);
    HexValueIs(s[1], b % 16);
    hide IsDigit, HexValue;
  }

  // What a text is decoded to is what it spells.
  lemma {:induction false} HexDecodes(s: string, bytes: seq<Byte>)
    ensures HexDecode(s) == bytes <==> Spells(s, bytes)
    decreases |bytes|
  {
    hide HexValue, IsDigit, TwoDigits;
    FirstDecoded(s);
    if |s| >= 2 && bytes != [] {
      FirstByte(s, bytes[0]);
      HexDecodes(s[2..], bytes[1..]);
      HeadAndTail(HexDecode(s), bytes);
    } else {
      Short(s);
    }
  }

  lemma HeadAndTail(a: seq<Byte>, b: seq<Byte>)
    requires b != []
    ensures a == b <==> a != [] && a[0] == b[0] && a[1..] == b[1..]
  {
    if a != [] {
      assert a == [a[0]] + a[1..] && b == [b[0]] + b[1..];
    }
  }

  lemma Short(s: string)
    ensures |s| < 2 ==> !TwoDigits(s)
  {
  }

  lemma AfterCode(code: seq<Byte>, body: seq<Byte>)
    requires COMMA !in code
    ensures var buf := code + [COMMA] + body;
            && IndexOf(buf, COMMA, 0) == |code| && buf[..|code|] == code && |buf| == |code| + 1 + |body|
            && forall k, i :: 0 <= i < |body| && k == |code| + 1 + i ==> buf[k] == body[i]
  {
    var buf := code + [COMMA] + body;
    assert buf[|code|] == COMMA;
    assert forall k :: 0 <= k < |code| ==> buf[k] == code[k] != COMMA;
  }

  // The bytes read as those letters, as an ASCII decoder reads seven bits of each.
  ghost predicate ReadsAs(code: seq<Byte>, letters: seq<Byte>) {
    |code| == |letters| && forall i :: 0 <= i < |code| ==> code[i] % 128 == letters[i]
  }

  // AB2 and A9A, AB3 and A9B.
  ghost predicate ReadsStart(code: seq<Byte>) { ReadsAs(code, [65, 66, 50]) || ReadsAs(code, [65, 57, 65]) }
  ghost predicate ReadsStop(code: seq<Byte>) { ReadsAs(code, [65, 66, 51]) || ReadsAs(code, [65, 57, 66]) }

  lemma AsciiIs(code: seq<Byte>, letters: seq<Byte>, text: string)
    requires |letters| == |text| && forall i :: 0 <= i < |text| ==> text[i] as int == letters[i]
    ensures Ascii(code) == text <==> ReadsAs(code, letters)
  {
    if ReadsAs(code, letters) {
      assert forall i :: 0 <= i < |code| ==> Ascii(code)[i] == text[i];
    }
    if Ascii(code) == text {
      assert forall i :: 0 <= i < |code| ==> Ascii(code)[i] == (code[i] % 128) as char;
    }
  }

  lemma CodeIs(code: seq<Byte>)
    ensures IsLiveStart(Ascii(code)) <==> ReadsStart(code)
    ensures IsLiveStop(Ascii(code)) <==> ReadsStop(code)
  {
    hide Ascii, ReadsAs;
    AsciiIs(code, [65, 66, 50], "AB2");
    AsciiIs(code, [65, 57, 65], "A9A");
    AsciiIs(code, [65, 66, 51], "AB3");
    AsciiIs(code, [65, 57, 66], "A9B");
  }

  // The stream that a body in hex is about: a stop names its camera at once and a
  // start behind a length-prefixed address, whatever follows; one cut short shares
  // the common stream, or has its own.
  lemma ChannelExactly(r: Request, hex: string, code: seq<Byte>, body: seq<Byte>)
    requires r.payloadHex == Some(hex) && HexDecode(hex) == code + [COMMA] + body && COMMA !in code
    ensures MediaChannel(r) ==
            if ReadsStop(code) then (if body == [] then Shared else Camera(body[0]))
            else if ReadsStart(code) then
              (if |body| < 1 || |body| < 2 + body[0] as int then Own(hex) else Camera(body[1 + body[0] as int]))
            else Shared
  {
    hide Ascii, ReadsStart, ReadsStop, IsLiveStart, IsLiveStop;
    AfterCode(code, body);
    CodeIs(code);
  }

  // Without a body, or a comma in it, there is no camera.
  lemma NoChannel(r: Request)
    requires r.payloadHex.None? || COMMA !in HexDecode(r.payloadHex.value)
    ensures MediaChannel(r) == Shared
  {
  }

  lemma StartNamesCamera(r: Request, hex: string, code: seq<Byte>, address: seq<Byte>, channel: Byte, rest: seq<Byte>)
    requires ReadsStart(code) && COMMA !in code && |address| < 256 && r.payloadHex == Some(hex)
    requires Spells(hex, code + [COMMA] + ([|address|] + address + [channel] + rest))
    ensures MediaChannel(r) == Camera(channel)
  {
    var body := [|address|] + address + [channel] + rest;
    assert body[0] == |address| && body[1 + |address|] == channel;
    assert code[2] % 128 != 51 && code[2] % 128 != 66;
    HexDecodes(hex, code + [COMMA] + body);
    ChannelExactly(r, hex, code, body);
  }

  lemma StopNamesCamera(r: Request, hex: string, code: seq<Byte>, channel: Byte, rest: seq<Byte>)
    requires ReadsStop(code) && COMMA !in code && r.payloadHex == Some(hex)
    requires Spells(hex, code + [COMMA] + ([channel] + rest))
    ensures MediaChannel(r) == Camera(channel)
  {
    HexDecodes(hex, code + [COMMA] + ([channel] + rest));
    ChannelExactly(r, hex, code, [channel] + rest);
  }

  // ----- which are sent -----

  predicate LiveAt(held: seq<Held>, i: nat)
    requires i < |held|
  {
    IsLiveControl(held[i].request.commandCode)
  }

  function BucketAt(held: seq<Held>, i: nat): Bucket
    requires i < |held|
  {
    MediaChannel(held[i].request)
  }

  // i was held no earlier than j; of two held at once the later in the list.
  predicate NoEarlier(held: seq<Held>, i: nat, j: nat)
    requires i < |held| && j < |held|
  {
    held[j].heldAt < held[i].heldAt || (held[j].heldAt == held[i].heldAt && j <= i)
  }

  // Two live controls about one stream.
  predicate SameStream(g: Held, h: Held) {
    && IsLiveControl(g.request.commandCode) && IsLiveControl(h.request.commandCode)
    && MediaChannel(g.request) == MediaChannel(h.request)
  }

  predicate Rivals(held: seq<Held>, i: nat, j: nat)
    requires i < |held| && j < |held|
  {
    SameStream(held[i], held[j])
  }

  // A live control is to be sent when it is the latest for its camera; any other
  // command always is.
  ghost predicate ToSend(held: seq<Held>, i: nat)
    requires i < |held|
  {
    forall j :: 0 <= j < |held| && Rivals(held, i, j) ==> NoEarlier(held, i, j)
  }

  // ----- the two-stage selection -----

  // Positions in a list, ascending.
  ghost predicate Group(held: seq<Held>, g: seq<nat>) {
    && (forall x :: 0 <= x < |g| ==> g[x] < |held|)
    && (forall x, y :: 0 <= x < y < |g| ==> g[x] < g[y])
  }

  // The reduce over a group: the current one wins a tie.
  function Latest(held: seq<Held>, g: seq<nat>): (best: nat)
    requires g != [] && forall x :: 0 <= x < |g| ==> g[x] < |held|
    ensures best in g
  {
    var cur := g[|g| - 1];
    if |g| == 1 then cur
    else
      var best := Latest(held, g[..|g| - 1]);
      if held[cur].heldAt >= held[best].heldAt then cur else best
  }

  function Matching(held: seq<Held>, g: seq<nat>, start: bool): (m: seq<nat>)
    requires forall x :: 0 <= x < |g| ==> g[x] < |held|
    ensures forall x :: 0 <= x < |m| ==> m[x] in g && m[x] < |held|
  {
    if g == [] then []
    else
      var i := g[|g| - 1];
      Matching(held, g[..|g| - 1], start)
      + (if IsLiveStart(held[i].request.commandCode) == start then [i] else [])
  }

  lemma {:induction false} LatestIs(held: seq<Held>, g: seq<nat>)
    requires g != [] && Group(held, g)
    ensures forall x :: 0 <= x < |g| ==> NoEarlier(held, Latest(held, g), g[x])
  {
    if |g| > 1 {
      LatestIs(held, g[..|g| - 1]);
      assert Latest(held, g[..|g| - 1]) in g[..|g| - 1];
    }
  }

  lemma {:induction false} MatchingIs(held: seq<Held>, g: seq<nat>, start: bool)
    requires Group(held, g)
    ensures Group(held, Matching(held, g, start))
    ensures forall i :: i in Matching(held, g, start) <==>
                          i in g && i < |held| && IsLiveStart(held[i].request.commandCode) == start
  {
    if g != [] {
      var h, i := g[..|g| - 1], g[|g| - 1];
      MatchingIs(held, h, start);
      assert g == h + [i];
      var m := Matching(held, h, start);
      forall x | 0 <= x < |m| ensures m[x] < i {
        assert m[x] in h;
      }
    }
  }

  // Looking for the newest among those that agree with the latest finds the
  // latest: the second stage changes nothing.
  lemma TwoStages(held: seq<Held>, g: seq<nat>)
    requires g != [] && Group(held, g)
    ensures var latest := Latest(held, g);
            var matching := Matching(held, g, IsLiveStart(held[latest].request.commandCode));
            matching != [] && Latest(held, matching) == latest
  {
    var latest := Latest(held, g);
    var start := IsLiveStart(held[latest].request.commandCode);
    var matching := Matching(held, g, start);
    MatchingIs(held, g, start);
    LatestIs(held, g);
    LatestIs(held, matching);
    var newest := Latest(held, matching);
    assert newest in matching && newest in g && latest in matching;
    var x :| 0 <= x < |g| && g[x] == newest;
    var y :| 0 <= y < |matching| && matching[y] == latest;
    assert NoEarlier(held, latest, g[x]) && NoEarlier(held, newest, matching[y]);
  }

  // ----- the partition -----

  ghost predicate NoRepeats<T>(s: seq<T>) {
    forall x, y :: 0 <= x < y < |s| ==> s[x] != s[y]
  }

  ghost predicate Ascending(s: seq<nat>) {
    forall x, y :: 0 <= x < y < |s| ==> s[x] < s[y]
  }

  // The stream of i comes first: some live control about it stands before every one
  // about the stream of j.
  ghost predicate Sooner(held: seq<Held>, i: nat, j: nat) {
    && i < |held| && j < |held|
    && exists k: nat :: k < |held| && Rivals(held, i, k) && forall l: nat :: l < |held| && Rivals(held, j, l) ==> k < l
  }

  // Sent are the other commands as held, then the cameras by first appearance;
  // dropped, the cameras by first appearance and each one's commands as held.
  ghost predicate SendOrder(held: seq<Held>, send: seq<nat>) {
    forall x, y :: 0 <= x < y < |send| ==> SentBefore(held, send[x], send[y])
  }

  ghost predicate SentBefore(held: seq<Held>, i: nat, j: nat) {
    && i < |held| && j < |held|
    && (if LiveAt(held, j) then LiveAt(held, i) ==> Sooner(held, i, j) else !LiveAt(held, i) && i < j)
  }

  ghost predicate DropOrder(held: seq<Held>, drop: seq<nat>) {
    forall x, y :: 0 <= x < y < |drop| ==> DroppedBefore(held, drop[x], drop[y])
  }

  ghost predicate DroppedBefore(held: seq<Held>, i: nat, j: nat) {
    && i < |held| && j < |held|
    && (Sooner(held, i, j) || (Rivals(held, i, j) && i < j))
  }

  // The group of a bucket: all live controls among the first k that are about it.
  ghost predicate GroupOf(held: seq<Held>, k: nat, b: Bucket, g: seq<nat>)
    requires k <= |held|
  {
    Group(held, g) && (forall i: nat :: i in g <==> i < k && LiveAt(held, i) && BucketAt(held, i) == b)
  }

  // The latest of a whole group is the one to send, and the only one.
  lemma LatestIsToSend(held: seq<Held>, b: Bucket, g: seq<nat>)
    requires g != [] && GroupOf(held, |held|, b, g)
    ensures forall i :: i in g ==> (ToSend(held, i) <==> i == Latest(held, g))
  {
    hide IsLiveControl, MediaChannel;
    var latest := Latest(held, g);
    LatestIs(held, g);
    forall i | i in g ensures ToSend(held, i) <==> i == latest {
      if i == latest {
        forall j | 0 <= j < |held| && Rivals(held, latest, j) ensures NoEarlier(held, latest, j) {
          assert j in g;
          var x :| 0 <= x < |g| && g[x] == j;
        }
      } else {
        assert Rivals(held, i, latest);
        var x :| 0 <= x < |g| && g[x] == i;
        assert NoEarlier(held, latest, g[x]);
      }
    }
  }

  lemma GroupGrows(held: seq<Held>, k: nat, b: Bucket, g: seq<nat>)
    requires k < |held| && GroupOf(held, k, b, g)
    ensures LiveAt(held, k) && BucketAt(held, k) == b ==> GroupOf(held, k + 1, b, g + [k])
    ensures !(LiveAt(held, k) && BucketAt(held, k) == b) ==> GroupOf(held, k + 1, b, g)
  {
    hide IsLiveControl, MediaChannel;
    forall x | 0 <= x < |g| ensures g[x] < k {
      assert g[x] in g;
    }
  }

  // The others of a group.
  method Others(g: seq<nat>, newest: nat) returns (others: seq<nat>)
    requires Ascending(g)
    ensures Ascending(others) && forall i: nat :: i in others <==> i in g && i != newest
  {
    others := [];
    for k := 0 to |g|
      invariant Ascending(others) && forall i: nat :: i in others <==> i in g[..k] && i != newest
    {
      assert g[..k + 1] == g[..k] + [g[k]];
      if g[k] != newest {
        forall x | 0 <= x < |others| ensures others[x] < g[k] {
          assert others[x] in others;
        }
        others := others + [g[k]];
      }
    }
    assert g[..|g|] == g;
  }

  ghost predicate Grouped(held: seq<Held>, k: nat, groups: map<Bucket, seq<nat>>, order: seq<Bucket>)
    requires k <= |held|
  {
    && NoRepeats(order) && (forall b :: b in order <==> b in groups)
    && (forall b :: b in groups ==> groups[b] != [] && GroupOf(held, k, b, groups[b]))
    && (forall i :: 0 <= i < k && LiveAt(held, i) ==> BucketAt(held, i) in groups)
  }

  // The buckets stand in the order in which they first appear.
  ghost predicate InAppearance(groups: map<Bucket, seq<nat>>, order: seq<Bucket>) {
    && (forall a :: 0 <= a < |order| ==> order[a] in groups && groups[order[a]] != [])
    && (forall a, b :: 0 <= a < b < |order| ==> groups[order[a]][0] < groups[order[b]][0])
  }

  lemma AppearanceStep(held: seq<Held>, k: nat, groups: map<Bucket, seq<nat>>, order: seq<Bucket>, key: Bucket)
    requires k < |held| && Grouped(held, k, groups, order) && InAppearance(groups, order)
    ensures key in groups ==> InAppearance(groups[key := groups[key] + [k]], order)
    ensures key !in groups ==> InAppearance(groups[key := [k]], order + [key])
  {
    hide IsLiveControl, MediaChannel;
    forall a | 0 <= a < |order| ensures groups[order[a]][0] < k {
      assert order[a] in order;
      assert groups[order[a]][0] in groups[order[a]];
    }
  }

  lemma GroupingStep(held: seq<Held>, k: nat, groups: map<Bucket, seq<nat>>, order: seq<Bucket>)
    requires k < |held| && Grouped(held, k, groups, order)
    ensures !LiveAt(held, k) ==> Grouped(held, k + 1, groups, order)
    ensures LiveAt(held, k) ==>
              var b := BucketAt(held, k);
              if b in groups then Grouped(held, k + 1, groups[b := groups[b] + [k]], order)
              else Grouped(held, k + 1, groups[b := [k]], order + [b])
  {
    hide IsLiveControl, MediaChannel, GroupOf;
    forall b | b in groups
      ensures LiveAt(held, k) && BucketAt(held, k) == b ==> GroupOf(held, k + 1, b, groups[b] + [k])
      ensures !(LiveAt(held, k) && BucketAt(held, k) == b) ==> GroupOf(held, k + 1, b, groups[b])
    {
      GroupGrows(held, k, b, groups[b]);
    }
    var b := BucketAt(held, k);
    if LiveAt(held, k) && b !in groups {
      EmptyGroup(held, k, b, groups);
      GroupGrows(held, k, b, []);
      assert [] + [k] == [k];
      assert b !in order;
    }
  }

  lemma EmptyGroup(held: seq<Held>, k: nat, b: Bucket, groups: map<Bucket, seq<nat>>)
    requires k < |held| && b !in groups
    requires forall i :: 0 <= i < k && LiveAt(held, i) ==> BucketAt(held, i) in groups
    ensures GroupOf(held, k, b, [])
  {
  }

  // The live controls by stream, the streams by first appearance; the other
  // commands are sent as they are.
  method GroupHeld(held: seq<Held>) returns (send: seq<nat>, groups: map<Bucket, seq<nat>>, order: seq<Bucket>)
    ensures Ascending(send) && forall i: nat :: i in send <==> i < |held| && !LiveAt(held, i)
    ensures Grouped(held, |held|, groups, order) && InAppearance(groups, order)
  {
    hide IsLiveControl, MediaChannel, GroupOf;
    send, groups, order := [], map[], [];
    for k := 0 to |held|
      invariant Grouped(held, k, groups, order) && InAppearance(groups, order)
      invariant Ascending(send) && forall i: nat :: i in send <==> i < k && !LiveAt(held, i)
    {
      GroupingStep(held, k, groups, order);
      AppearanceStep(held, k, groups, order, BucketAt(held, k));
      hide InAppearance, Grouped, Ascending;
      if !LiveAt(held, k) {
        PushAscending(send, k);
        send := send + [k];
        continue;
      }
      var key := BucketAt(held, k);
      if key in groups {
        groups := groups[key := groups[key] + [k]];
      } else {
        groups := groups[key := [k]];
        order := order + [key];
      }
    }
  }

  // Every other command as held, and of each camera's group the latest; the rest
  // of a group is dropped. Positions in the list stand for the commands.
  method PartitionHeld(held: seq<Held>) returns (send: seq<nat>, drop: seq<nat>)
    ensures NoRepeats(send) && forall i: nat :: i in send <==> i < |held| && ToSend(held, i)
    ensures NoRepeats(drop) && forall i: nat :: i in drop <==> i < |held| && !ToSend(held, i)
    ensures SendOrder(held, send) && DropOrder(held, drop)
  {
    hide *;
    drop := [];
    var groups, order;
    send, groups, order := GroupHeld(held);
    ghost var done: set<Bucket> := {};
    ChoiceStarts(held, send);
    OrderStarts(held, groups, order, send);
    for a := 0 to |order|
      invariant ChosenToSend(held, send, done) && ChosenToDrop(held, drop, done)
      invariant forall b :: b in done <==> b in order[..a]
      invariant OrderSoFar(held, groups, order, a, send, drop)
    {
      ChoiceStep(held, groups, order, a);
      var newest := Newest(held, groups[order[a]]);
      var others := Others(groups[order[a]], newest);
      OrderStep(held, groups, order, a, send, drop, newest, others);
      DistinctOthers(others);
      SendOneMore(held, order[a], groups[order[a]], send, done);
      DropTheOthers(held, order[a], groups[order[a]], drop, others, done);
      send := send + [newest];
      drop := drop + others;
      assert order[..a + 1] == order[..a] + [order[a]];
      done := done + {order[a]};
    }
    assert order[..|order|] == order;
    ChoiceEnds(held, groups, order, send, drop, done);
    OrderEnds(held, groups, order, send, drop);
  }

  lemma PushAscending(s: seq<nat>, k: nat)
    requires Ascending(s) && forall i: nat :: i in s ==> i < k
    ensures Ascending(s + [k])
  {
    forall x | 0 <= x < |s| ensures s[x] < k {
      assert s[x] in s;
    }
  }

  lemma DistinctOthers(s: seq<nat>)
    requires Ascending(s)
    ensures NoRepeats(s)
  {
  }

  // The order of what is chosen for the first a buckets.
  ghost predicate OrderSoFar(held: seq<Held>, groups: map<Bucket, seq<nat>>, order: seq<Bucket>, a: nat,
                             send: seq<nat>, drop: seq<nat>)
  {
    && SendOrder(held, send) && DropOrder(held, drop)
    && (forall i: nat :: i in send && i < |held| && LiveAt(held, i) ==> AmongFirst(held, order, a, i))
    && (forall i: nat :: i in send ==> i < |held|)
    && (forall i: nat :: i in drop ==> i < |held| && AmongFirst(held, order, a, i))
  }

  ghost predicate AmongFirst(held: seq<Held>, order: seq<Bucket>, a: nat, i: nat)
    requires i < |held|
  {
    LiveAt(held, i) && exists x: nat :: x < a && x < |order| && BucketAt(held, i) == order[x]
  }

  lemma OrderStarts(held: seq<Held>, groups: map<Bucket, seq<nat>>, order: seq<Bucket>, send: seq<nat>)
    requires Ascending(send) && forall i: nat :: i in send <==> i < |held| && !LiveAt(held, i)
    ensures OrderSoFar(held, groups, order, 0, send, [])
  {
    hide LiveAt;
    forall x, y | 0 <= x < y < |send| ensures SentBefore(held, send[x], send[y]) {
      assert send[x] in send && send[y] in send;
    }
  }

  // A stream of a bucket ahead comes sooner.
  lemma BucketsSooner(held: seq<Held>, groups: map<Bucket, seq<nat>>, order: seq<Bucket>, a: nat, i: nat, j: nat)
    requires Grouped(held, |held|, groups, order) && InAppearance(groups, order) && a < |order|
    requires i < |held| && AmongFirst(held, order, a, i) && j in groups[order[a]]
    ensures Sooner(held, i, j)
  {
    hide IsLiveControl, MediaChannel;
    var x: nat :| x < a && BucketAt(held, i) == order[x];
    var g, h := groups[order[x]], groups[order[a]];
    assert order[x] in order && order[a] in order;
    assert GroupOf(held, |held|, order[x], g) && GroupOf(held, |held|, order[a], h);
    var k := g[0];
    assert k in g && Rivals(held, i, k);
    forall l: nat | l < |held| && Rivals(held, j, l) ensures k < l {
      assert l in h;
      var y :| 0 <= y < |h| && h[y] == l;
      assert h[0] <= h[y];
    }
  }

  lemma OrderStep(held: seq<Held>, groups: map<Bucket, seq<nat>>, order: seq<Bucket>, a: nat,
                  send: seq<nat>, drop: seq<nat>, newest: nat, others: seq<nat>)
    requires Grouped(held, |held|, groups, order) && InAppearance(groups, order) && a < |order|
    requires order[a] in groups && GroupOf(held, |held|, order[a], groups[order[a]])
    requires OrderSoFar(held, groups, order, a, send, drop)
    requires newest in groups[order[a]]
    requires Ascending(others) && forall i: nat :: i in others ==> i in groups[order[a]]
    ensures OrderSoFar(held, groups, order, a + 1, send + [newest], drop + others)
  {
    hide IsLiveControl, MediaChannel, Grouped, InAppearance, Sooner, LiveAt, BucketAt;
    var g := groups[order[a]];
    forall i: nat | i in g ensures i < |held| && LiveAt(held, i) && AmongFirst(held, order, a + 1, i) {
      assert BucketAt(held, i) == order[a];
    }
    forall i: nat | i < |held| && AmongFirst(held, order, a, i) ensures AmongFirst(held, order, a + 1, i) {
    }
    OrderSend(held, groups, order, a, send, newest);
    OrderDrop(held, groups, order, a, drop, others);
  }

  lemma OrderSend(held: seq<Held>, groups: map<Bucket, seq<nat>>, order: seq<Bucket>, a: nat,
                  send: seq<nat>, newest: nat)
    requires Grouped(held, |held|, groups, order) && InAppearance(groups, order) && a < |order|
    requires order[a] in groups && GroupOf(held, |held|, order[a], groups[order[a]]) && newest in groups[order[a]]
    requires SendOrder(held, send) && forall i: nat :: i in send ==> i < |held|
    requires forall i: nat :: i in send && i < |held| && LiveAt(held, i) ==> AmongFirst(held, order, a, i)
    ensures SendOrder(held, send + [newest])
  {
    hide IsLiveControl, MediaChannel, Grouped, InAppearance, Sooner, AmongFirst, LiveAt, BucketAt, Group;
    var more := send + [newest];
    forall x, y | 0 <= x < y < |more| ensures SentBefore(held, more[x], more[y]) {
      if y == |send| {
        assert send[x] in send;
        if LiveAt(held, send[x]) {
          BucketsSooner(held, groups, order, a, send[x], newest);
        }
      }
    }
  }

  lemma OrderDrop(held: seq<Held>, groups: map<Bucket, seq<nat>>, order: seq<Bucket>, a: nat, drop: seq<nat>,
                  others: seq<nat>)
    requires Grouped(held, |held|, groups, order) && InAppearance(groups, order) && a < |order|
    requires order[a] in groups && GroupOf(held, |held|, order[a], groups[order[a]])
    requires DropOrder(held, drop) && forall i: nat :: i in drop ==> i < |held| && AmongFirst(held, order, a, i)
    requires Ascending(others) && forall i: nat :: i in others ==> i in groups[order[a]]
    ensures DropOrder(held, drop + others)
  {
    hide IsLiveControl, MediaChannel, Grouped, InAppearance, Sooner, AmongFirst, Group;
    var more := drop + others;
    forall x, y | 0 <= x < y < |more| ensures DroppedBefore(held, more[x], more[y]) {
      if y >= |drop| {
        assert more[y] in others;
        if x < |drop| {
          assert drop[x] in drop;
          BucketsSooner(held, groups, order, a, drop[x], more[y]);
        } else {
          assert more[x] in others;
        }
      }
    }
  }

  lemma OrderEnds(held: seq<Held>, groups: map<Bucket, seq<nat>>, order: seq<Bucket>, send: seq<nat>, drop: seq<nat>)
    requires OrderSoFar(held, groups, order, |order|, send, drop)
    ensures SendOrder(held, send) && DropOrder(held, drop)
  {
    hide SendOrder, DropOrder;
  }

  // Chosen so far: all that is no live control, and for the buckets done.
  ghost predicate ChosenToSend(held: seq<Held>, send: seq<nat>, done: set<Bucket>) {
    && NoRepeats(send)
    && (forall i: nat :: i in send <==>
          i < |held| && (LiveAt(held, i) ==> BucketAt(held, i) in done && ToSend(held, i)))
  }

  ghost predicate ChosenToDrop(held: seq<Held>, drop: seq<nat>, done: set<Bucket>) {
    && NoRepeats(drop)
    && (forall i: nat :: i in drop <==> i < |held| && LiveAt(held, i) && BucketAt(held, i) in done && !ToSend(held, i))
  }

  lemma ChoiceStarts(held: seq<Held>, send: seq<nat>)
    requires Ascending(send) && forall i: nat :: i in send <==> i < |held| && !LiveAt(held, i)
    ensures ChosenToSend(held, send, {}) && ChosenToDrop(held, [], {})
  {
    hide IsLiveControl, MediaChannel, ToSend;
  }

  lemma ChoiceStep(held: seq<Held>, groups: map<Bucket, seq<nat>>, order: seq<Bucket>, a: nat)
    requires Grouped(held, |held|, groups, order) && a < |order|
    ensures order[a] in groups && order[a] !in order[..a]
    ensures groups[order[a]] != [] && GroupOf(held, |held|, order[a], groups[order[a]])
    ensures Group(held, groups[order[a]]) && Ascending(groups[order[a]])
  {
    hide IsLiveControl, MediaChannel;
    assert order[a] in order;
  }

  lemma SendOneMore(held: seq<Held>, b: Bucket, g: seq<nat>, send: seq<nat>, done: set<Bucket>)
    requires ChosenToSend(held, send, done) && g != [] && Group(held, g) && GroupOf(held, |held|, b, g) && b !in done
    ensures ChosenToSend(held, send + [Latest(held, g)], done + {b})
  {
    hide ToSend, LiveAt, BucketAt;
    var newest := Latest(held, g);
    LatestIsToSend(held, b, g);
    assert newest !in send;
    forall i: nat
      ensures i in send + [newest] <==>
              i < |held| && (LiveAt(held, i) ==> BucketAt(held, i) in done + {b} && ToSend(held, i))
    {
      assert i in g ==> (ToSend(held, i) <==> i == newest);
    }
  }

  lemma DropTheOthers(held: seq<Held>, b: Bucket, g: seq<nat>, drop: seq<nat>, others: seq<nat>, done: set<Bucket>)
    requires ChosenToDrop(held, drop, done) && g != [] && Group(held, g) && GroupOf(held, |held|, b, g) && b !in done
    requires NoRepeats(others) && forall i: nat :: i in others <==> i in g && i != Latest(held, g)
    ensures ChosenToDrop(held, drop + others, done + {b})
  {
    hide ToSend, LiveAt, BucketAt, Group;
    LatestIsToSend(held, b, g);
    forall x, y | 0 <= x < |drop| && 0 <= y < |others| ensures drop[x] != others[y] {
      assert drop[x] in drop && others[y] in others;
    }
  }

  lemma ChoiceEnds(held: seq<Held>, groups: map<Bucket, seq<nat>>, order: seq<Bucket>, send: seq<nat>, drop: seq<nat>,
                   done: set<Bucket>)
    requires Grouped(held, |held|, groups, order) && ChosenToSend(held, send, done) && ChosenToDrop(held, drop, done)
    requires forall b :: b in done <==> b in order
    ensures NoRepeats(send) && forall i: nat :: i in send <==> i < |held| && ToSend(held, i)
    ensures NoRepeats(drop) && forall i: nat :: i in drop <==> i < |held| && !ToSend(held, i)
  {
    hide GroupOf, BucketAt;
  }

  // The two stages as they are run.
  method Newest(held: seq<Held>, g: seq<nat>) returns (newest: nat)
    requires g != [] && Group(held, g)
    ensures newest == Latest(held, g)
  {
    TwoStages(held, g);
    var latest := Latest(held, g);
    var keepStart := IsLiveStart(held[latest].request.commandCode);
    var matching := Matching(held, g, keepStart);
    newest := Latest(held, matching);
  }

  // Of the live controls for one camera exactly one is sent.
  lemma OnePerCamera(held: seq<Held>, i: nat) returns (j: nat)
    requires i < |held| && LiveAt(held, i)
    ensures j < |held| && Rivals(held, i, j) && ToSend(held, j)
    ensures forall k: nat :: k < |held| && Rivals(held, i, k) && ToSend(held, k) ==> k == j
  {
    hide IsLiveControl, MediaChannel;
    j := i;
    for k := 0 to |held|
      invariant j < |held| && Rivals(held, i, j)
      invariant forall x :: 0 <= x < k && Rivals(held, i, x) ==> NoEarlier(held, j, x)
    {
      if Rivals(held, i, k) && !NoEarlier(held, j, k) {
        j := k;
      }
    }
    forall k: nat | k < |held| && Rivals(held, i, k) && ToSend(held, k) ensures k == j {
      assert Rivals(held, k, j) && NoEarlier(held, k, j) && NoEarlier(held, j, k);
    }
    assert ToSend(held, j) by {
      forall x | 0 <= x < |held| && Rivals(held, j, x) ensures NoEarlier(held, j, x) {
        assert Rivals(held, i, x);
      }
    }
  }

  // ----- holding -----

  const HOLD_WHEN_OFFLINE := {
    "AB2", "AB3", "AB4", "AB5", "AB8", "A9A", "A9B", "A9D", "A9E", "A10", "A11", "A12", "A13", "A14", "A15",
    "A16", "A17", "A21", "A23", "A25", "A70", "AA3", "ABB", "DA6", "DB4", "D00", "D01", "E91", "CD1"}

  function HoldKey(r: Request): string {
    if r.commandCode in HOLD_WHEN_OFFLINE then
      r.commandCode + ":" + (if r.payloadHex.Some? then r.payloadHex.value
                             else if r.payloadText.Some? then r.payloadText.value else r.commandId)
    else r.commandCode
  }

  // What a command is about: its body, in hex or as text, or failing those itself.
  ghost predicate About(r: Request, what: string) {
    || r.payloadHex == Some(what)
    || (r.payloadHex == None && r.payloadText == Some(what))
    || (r.payloadHex == None && r.payloadText == None && r.commandId == what)
  }

  lemma KeyExactly(r: Request)
    ensures r.commandCode !in HOLD_WHEN_OFFLINE ==> HoldKey(r) == r.commandCode
    ensures forall what :: r.commandCode in HOLD_WHEN_OFFLINE && About(r, what) ==>
              HoldKey(r) == r.commandCode + ":" + what && |r.commandCode| == 3
  {
  }

  lemma {:induction false} SamePrefix(a: string, b: string, x: string, y: string)
    requires |a| == |b| && a + ":" + x == b + ":" + y
    ensures a == b && x == y
  {
    assert a == (a + ":" + x)[..|a|] && b == (b + ":" + y)[..|b|];
    assert x == (a + ":" + x)[|a| + 1..] && y == (b + ":" + y)[|b| + 1..];
  }

  // One command replaces another exactly when both have one code and are about one
  // thing: of two cameras, none costs the other its command.
  lemma ReplacesExactly(r: Request, q: Request, what: string, other: string)
    requires r.commandCode in HOLD_WHEN_OFFLINE && q.commandCode in HOLD_WHEN_OFFLINE
    requires About(r, what) && About(q, other)
    ensures HoldKey(r) == HoldKey(q) <==> r.commandCode == q.commandCode && what == other
  {
    KeyExactly(r);
    KeyExactly(q);
    if HoldKey(r) == HoldKey(q) {
      SamePrefix(r.commandCode, q.commandCode, what, other);
    }
  }

  lemma TwoCameras(r: Request, q: Request)
    requires r.commandCode in {"AB2", "A9A", "AB3", "A9B"} && q.commandCode in {"AB2", "A9A", "AB3", "A9B"}
    requires MediaChannel(r).Camera? && MediaChannel(q).Camera? && MediaChannel(r) != MediaChannel(q)
    ensures HoldKey(r) != HoldKey(q)
  {
    hide HexDecode, HexValue, Ascii;
    ReplacesExactly(r, q, r.payloadHex.value, q.payloadHex.value);
  }

  // The pending commands of a device, in the order their keys were first held.
  type Entries = seq<(string, Held)>

  // A key held again keeps its place.
  function Put(entries: Entries, key: string, h: Held): Entries {
    if entries == [] then [(key, h)]
    else if entries[0].0 == key then [(key, h)] + entries[1..]
    else [entries[0]] + Put(entries[1..], key, h)
  }

  predicate Expired(h: Held, now: int) { now - h.heldAt > HOLD_TTL_MS }

  function Pending(entries: Entries, now: int): seq<Held> {
    if entries == [] then []
    else
      var k := |entries| - 1;
      Pending(entries[..k], now) + (if Expired(entries[k].1, now) then [] else [entries[k].1])
  }

  // One device's commands, held one after the other.
  function Holding(hs: seq<Held>, n: nat): Entries
    requires n <= |hs|
  {
    if n == 0 then [] else Put(Holding(hs, n - 1), HoldKey(hs[n - 1].request), hs[n - 1])
  }

  lemma {:induction false} PutHas(entries: Entries, key: string, h: Held)
    ensures (key, h) in Put(entries, key, h)
    ensures forall e :: e in Put(entries, key, h) ==> e == (key, h) || (e in entries)
    ensures forall e :: e in entries && e.0 != key ==> e in Put(entries, key, h)
  {
    if entries != [] {
      PutHas(entries[1..], key, h);
      assert entries == [entries[0]] + entries[1..];
    }
  }

  // ----- what is pending, in terms of the holds alone -----

  // The first of the first n holds under a key, or n.
  ghost function FirstOf(hs: seq<Held>, n: nat, key: string): (f: nat)
    requires n <= |hs|
    ensures f <= n
  {
    if n == 0 then 0
    else
      var f := FirstOf(hs, n - 1, key);
      if f < n - 1 || HoldKey(hs[n - 1].request) == key then f else n
  }

  lemma {:induction false} FirstOfIs(hs: seq<Held>, n: nat, key: string)
    requires n <= |hs|
    ensures var f := FirstOf(hs, n, key);
            && (forall j :: 0 <= j < f ==> HoldKey(hs[j].request) != key)
            && (f < n ==> HoldKey(hs[f].request) == key)
  {
    hide HoldKey;
    if n > 0 {
      FirstOfIs(hs, n - 1, key);
    }
  }

  // One key was first held before another.
  ghost predicate HeldBefore(hs: seq<Held>, n: nat, one: string, two: string)
    requires n <= |hs|
  {
    FirstOf(hs, n, one) < FirstOf(hs, n, two)
  }

  // The i-th of the first n holds is the last under its key.
  ghost predicate LastAmong(hs: seq<Held>, n: nat, i: nat)
    requires n <= |hs|
  {
    i < n && forall j :: i < j < n ==> HoldKey(hs[j].request) != HoldKey(hs[i].request)
  }

  function EntryOf(h: Held): (string, Held) { (HoldKey(h.request), h) }

  // An entry is the last hold of its key.
  ghost predicate IsLast(hs: seq<Held>, n: nat, e: (string, Held))
    requires n <= |hs|
  {
    exists i: nat :: i < n && LastAmong(hs, n, i) && e == EntryOf(hs[i])
  }

  // The entries are the last hold of every key, in the order the keys were first
  // held.
  ghost predicate LastHolds(hs: seq<Held>, n: nat, entries: Entries)
    requires n <= |hs|
  {
    && (forall a :: 0 <= a < |entries| ==> IsLast(hs, n, entries[a]))
    && (forall i: nat :: i < n && LastAmong(hs, n, i) ==> EntryOf(hs[i]) in entries)
  }

  ghost predicate ByFirstHold(hs: seq<Held>, n: nat, entries: Entries)
    requires n <= |hs|
  {
    forall a, b :: 0 <= a < b < |entries| ==> HeldBefore(hs, n, entries[a].0, entries[b].0)
  }

  // The last command held under a key is pending.
  lemma {:induction false} LastIsHolding(hs: seq<Held>, n: nat, i: nat)
    requires n <= |hs| && LastAmong(hs, n, i)
    ensures EntryOf(hs[i]) in Holding(hs, n)
    decreases n
  {
    hide HoldKey;
    PutHas(Holding(hs, n - 1), HoldKey(hs[n - 1].request), hs[n - 1]);
    if i < n - 1 {
      LastIsHolding(hs, n - 1, i);
    }
  }

  // Every hold has a last one under its key.
  lemma LastExists(hs: seq<Held>, n: nat, j: nat) returns (i: nat)
    requires j < n <= |hs|
    ensures LastAmong(hs, n, i) && HoldKey(hs[i].request) == HoldKey(hs[j].request)
  {
    hide HoldKey;
    i := j;
    for k := j + 1 to n
      invariant i < k && HoldKey(hs[i].request) == HoldKey(hs[j].request)
      invariant forall x :: i < x < k ==> HoldKey(hs[x].request) != HoldKey(hs[i].request)
    {
      if HoldKey(hs[k].request) == HoldKey(hs[j].request) {
        i := k;
      }
    }
  }

  // Where a key stands among the entries, or their number.
  ghost function PlaceOf(entries: Entries, key: string): (x: nat)
    ensures x <= |entries| && (x < |entries| ==> entries[x].0 == key)
    ensures forall y :: 0 <= y < x ==> entries[y].0 != key
  {
    if entries == [] || entries[0].0 == key then 0 else 1 + PlaceOf(entries[1..], key)
  }

  lemma {:induction false} PutInPlace(entries: Entries, key: string, h: Held)
    ensures var x := PlaceOf(entries, key);
            Put(entries, key, h) == if x < |entries| then entries[x := (key, h)] else entries + [(key, h)]
  {
    if entries != [] && entries[0].0 != key {
      PutInPlace(entries[1..], key, h);
      var x := PlaceOf(entries[1..], key);
      assert entries == [entries[0]] + entries[1..];
    }
  }

  lemma {:induction false} HoldingIs(hs: seq<Held>, n: nat)
    requires n <= |hs|
    ensures LastHolds(hs, n, Holding(hs, n)) && ByFirstHold(hs, n, Holding(hs, n))
  {
    hide HoldKey, LastAmong, IsLast;
    if n > 0 {
      hide LastHolds, ByFirstHold;
      var entries := Holding(hs, n - 1);
      HoldingIs(hs, n - 1);
      HoldKeepsLast(hs, n, entries);
      HoldKeepsOrder(hs, n, entries);
    } else {
      NoneLast(hs);
    }
  }

  lemma NoneLast(hs: seq<Held>)
    ensures LastHolds(hs, 0, Holding(hs, 0))
  {
  }

  lemma StaysLast(hs: seq<Held>, n: nat, e: (string, Held))
    requires 0 < n <= |hs| && IsLast(hs, n - 1, e) && e.0 != HoldKey(hs[n - 1].request)
    ensures IsLast(hs, n, e)
  {
    hide HoldKey;
    var i: nat :| i < n - 1 && LastAmong(hs, n - 1, i) && e == EntryOf(hs[i]);
    assert LastAmong(hs, n, i);
  }

  lemma NewestIsLast(hs: seq<Held>, n: nat)
    requires 0 < n <= |hs|
    ensures IsLast(hs, n, EntryOf(hs[n - 1]))
  {
    assert LastAmong(hs, n, n - 1);
  }

  lemma HoldKeepsLast(hs: seq<Held>, n: nat, entries: Entries)
    requires 0 < n <= |hs| && LastHolds(hs, n - 1, entries) && ByFirstHold(hs, n - 1, entries)
    requires entries == Holding(hs, n - 1)
    ensures LastHolds(hs, n, Holding(hs, n))
  {
    hide HoldKey, LastAmong, IsLast;
    var key, h := HoldKey(hs[n - 1].request), hs[n - 1];
    var x, q := PlaceOf(entries, key), Holding(hs, n);
    PutInPlace(entries, key, h);
    forall i: nat | i < n && LastAmong(hs, n, i) ensures EntryOf(hs[i]) in q {
      LastIsHolding(hs, n, i);
    }
    forall a | 0 <= a < |q| ensures IsLast(hs, n, q[a]) {
      if a == x {
        NewestIsLast(hs, n);
      } else {
        OtherKey(hs, n, entries, x, a);
        StaysLast(hs, n, entries[a]);
      }
    }
  }

  // Off its place the key does not occur again.
  lemma OtherKey(hs: seq<Held>, n: nat, entries: Entries, x: nat, a: nat)
    requires 0 < n <= |hs| && ByFirstHold(hs, n - 1, entries) && a < |entries| && a != x
    requires x == PlaceOf(entries, HoldKey(hs[n - 1].request))
    ensures entries[a].0 != HoldKey(hs[n - 1].request)
  {
    hide HoldKey;
    if x < a {
      assert HeldBefore(hs, n - 1, entries[x].0, entries[a].0);
    }
  }

  lemma FirstStays(hs: seq<Held>, n: nat, e: (string, Held))
    requires 0 < n <= |hs| && IsLast(hs, n - 1, e)
    ensures FirstOf(hs, n, e.0) == FirstOf(hs, n - 1, e.0) < n - 1
  {
    hide HoldKey, LastAmong;
    FirstOfIs(hs, n - 1, e.0);
    var i: nat :| i < n - 1 && LastAmong(hs, n - 1, i) && e == EntryOf(hs[i]);
    assert HoldKey(hs[i].request) == e.0;
  }

  // Putting keeps the keys, and a new one comes last.
  lemma PutKeys(entries: Entries, key: string, h: Held)
    ensures var q, x := Put(entries, key, h), PlaceOf(entries, key);
            && |q| == (if x == |entries| then |entries| + 1 else |entries|)
            && (forall a :: 0 <= a < |entries| ==> q[a].0 == entries[a].0)
            && (x == |entries| ==> q[x].0 == key)
  {
    PutInPlace(entries, key, h);
  }

  lemma EntryIsLast(hs: seq<Held>, n: nat, entries: Entries, a: nat)
    requires n <= |hs| && LastHolds(hs, n, entries) && a < |entries|
    ensures IsLast(hs, n, entries[a])
  {
  }

  lemma OldBefore(hs: seq<Held>, n: nat, entries: Entries, a: nat, b: nat)
    requires 0 < n <= |hs| && LastHolds(hs, n - 1, entries) && ByFirstHold(hs, n - 1, entries)
    requires a < b < |entries|
    ensures HeldBefore(hs, n, entries[a].0, entries[b].0)
  {
    hide HoldKey, IsLast, LastHolds;
    assert HeldBefore(hs, n - 1, entries[a].0, entries[b].0);
    EntryIsLast(hs, n - 1, entries, a);
    EntryIsLast(hs, n - 1, entries, b);
    FirstStays(hs, n, entries[a]);
    FirstStays(hs, n, entries[b]);
  }

  lemma NewLast(hs: seq<Held>, n: nat, entries: Entries, a: nat)
    requires 0 < n <= |hs| && LastHolds(hs, n - 1, entries) && a < |entries|
    requires PlaceOf(entries, HoldKey(hs[n - 1].request)) == |entries|
    ensures HeldBefore(hs, n, entries[a].0, HoldKey(hs[n - 1].request))
  {
    hide HoldKey, IsLast, LastHolds;
    NewKey(hs, n, entries, HoldKey(hs[n - 1].request));
    EntryIsLast(hs, n - 1, entries, a);
    FirstStays(hs, n, entries[a]);
  }

  lemma OldPair(hs: seq<Held>, n: nat, entries: Entries, q: Entries, a: nat, b: nat)
    requires 0 < n <= |hs| && LastHolds(hs, n - 1, entries) && ByFirstHold(hs, n - 1, entries)
    requires a < b < |entries| <= |q| && q[a].0 == entries[a].0 && q[b].0 == entries[b].0
    ensures HeldBefore(hs, n, q[a].0, q[b].0)
  {
    hide *;
    OldBefore(hs, n, entries, a, b);
  }

  lemma NewPair(hs: seq<Held>, n: nat, entries: Entries, q: Entries, a: nat)
    requires 0 < n <= |hs| && LastHolds(hs, n - 1, entries)
    requires PlaceOf(entries, HoldKey(hs[n - 1].request)) == |entries|
    requires a < |entries| < |q| && q[a].0 == entries[a].0 && q[|entries|].0 == HoldKey(hs[n - 1].request)
    ensures HeldBefore(hs, n, q[a].0, q[|entries|].0)
  {
    hide *;
    NewLast(hs, n, entries, a);
  }

  lemma Ordered(hs: seq<Held>, n: nat, q: Entries)
    requires n <= |hs| && forall a, b :: 0 <= a < b < |q| ==> HeldBefore(hs, n, q[a].0, q[b].0)
    ensures ByFirstHold(hs, n, q)
  {
    hide HeldBefore;
  }

  lemma OrderFrom(hs: seq<Held>, n: nat, entries: Entries, q: Entries, x: nat)
    requires 0 < n <= |hs| && LastHolds(hs, n - 1, entries) && ByFirstHold(hs, n - 1, entries)
    requires x == PlaceOf(entries, HoldKey(hs[n - 1].request)) <= |entries|
    requires |q| == (if x == |entries| then |entries| + 1 else |entries|)
    requires forall a :: 0 <= a < |entries| ==> q[a].0 == entries[a].0
    requires x == |entries| ==> q[x].0 == HoldKey(hs[n - 1].request)
    ensures ByFirstHold(hs, n, q)
  {
    hide *;
    forall a, b | 0 <= a < b < |q| ensures HeldBefore(hs, n, q[a].0, q[b].0) {
      if b < |entries| {
        OldPair(hs, n, entries, q, a, b);
      } else {
        NewPair(hs, n, entries, q, a);
      }
    }
    Ordered(hs, n, q);
  }

  lemma HoldKeepsOrder(hs: seq<Held>, n: nat, entries: Entries)
    requires 0 < n <= |hs| && LastHolds(hs, n - 1, entries) && ByFirstHold(hs, n - 1, entries)
    requires entries == Holding(hs, n - 1)
    ensures ByFirstHold(hs, n, Holding(hs, n))
  {
    hide HoldKey, LastHolds, ByFirstHold;
    var key := HoldKey(hs[n - 1].request);
    PutKeys(entries, key, hs[n - 1]);
    OrderFrom(hs, n, entries, Holding(hs, n), PlaceOf(entries, key));
  }

  lemma PlaceFound(entries: Entries, key: string, y: nat)
    requires y < |entries| && entries[y].0 == key
    ensures PlaceOf(entries, key) < |entries|
  {
  }

  lemma KeyHeld(hs: seq<Held>, n: nat, entries: Entries, f: nat, key: string)
    requires f < n <= |hs| && LastHolds(hs, n, entries) && HoldKey(hs[f].request) == key
    ensures PlaceOf(entries, key) < |entries|
  {
    hide HoldKey;
    var i := LastExists(hs, n, f);
    hide LastAmong, IsLast;
    assert EntryOf(hs[i]) in entries;
    var y :| 0 <= y < |entries| && entries[y] == EntryOf(hs[i]);
    PlaceFound(entries, key, y);
  }

  lemma NoneUnder(hs: seq<Held>, n: nat, entries: Entries, key: string)
    requires n <= |hs| && LastHolds(hs, n, entries) && PlaceOf(entries, key) == |entries|
    ensures FirstOf(hs, n, key) == n
  {
    hide HoldKey, LastHolds;
    var f := FirstOf(hs, n, key);
    FirstOfIs(hs, n, key);
    if f < n {
      KeyHeld(hs, n, entries, f, key);
    }
  }

  lemma NewKey(hs: seq<Held>, n: nat, entries: Entries, key: string)
    requires 0 < n <= |hs| && LastHolds(hs, n - 1, entries) && PlaceOf(entries, key) == |entries|
    requires key == HoldKey(hs[n - 1].request)
    ensures FirstOf(hs, n, key) == n - 1
  {
    hide HoldKey, LastHolds;
    NoneUnder(hs, n - 1, entries, key);
  }

  lemma EntryHold(hs: seq<Held>, b: nat) returns (j: nat)
    requires b < |Holding(hs, |hs|)|
    ensures LastAmong(hs, |hs|, j) && Holding(hs, |hs|)[b] == EntryOf(hs[j])
  {
    hide HoldKey, LastAmong;
    HoldingIs(hs, |hs|);
    assert IsLast(hs, |hs|, Holding(hs, |hs|)[b]);
    j :| j < |hs| && LastAmong(hs, |hs|, j) && Holding(hs, |hs|)[b] == EntryOf(hs[j]);
  }

  // The place of an entry among the pending commands.
  ghost function Rank(entries: Entries, a: nat, now: int): nat
    requires a <= |entries|
  {
    |Pending(entries[..a], now)|
  }

  lemma RankNext(entries: Entries, a: nat, now: int)
    requires a < |entries|
    ensures Rank(entries, a + 1, now) == Rank(entries, a, now) + (if Expired(entries[a].1, now) then 0 else 1)
  {
    assert entries[..a + 1][..a] == entries[..a];
  }

  lemma {:induction false} RankGrows(entries: Entries, a: nat, b: nat, now: int)
    requires a < b <= |entries|
    ensures Rank(entries, a, now) <= Rank(entries, b, now)
    ensures !Expired(entries[a].1, now) ==> Rank(entries, a, now) < Rank(entries, b, now)
    decreases b
  {
    hide Rank, Expired;
    RankNext(entries, b - 1, now);
    if a < b - 1 {
      RankGrows(entries, a, b - 1, now);
    }
  }

  lemma {:induction false} PendingAtRank(entries: Entries, n: nat, a: nat, now: int)
    requires a < n <= |entries| && !Expired(entries[a].1, now)
    ensures Rank(entries, a, now) < |Pending(entries[..n], now)|
    ensures Pending(entries[..n], now)[Rank(entries, a, now)] == entries[a].1
    decreases n
  {
    hide Expired;
    assert entries[..n][..n - 1] == entries[..n - 1];
    if a < n - 1 {
      PendingAtRank(entries, n - 1, a, now);
    }
  }

  lemma {:induction false} PendingFrom(entries: Entries, n: nat, q: nat, now: int) returns (b: nat)
    requires n <= |entries| && q < |Pending(entries[..n], now)|
    ensures b < n && !Expired(entries[b].1, now) && Rank(entries, b, now) == q
    decreases n
  {
    hide Expired;
    assert n > 0 && entries[..n][..n - 1] == entries[..n - 1];
    if q < |Pending(entries[..n - 1], now)| {
      b := PendingFrom(entries, n - 1, q, now);
    } else {
      b := n - 1;
    }
  }

  // Pending are the last holds of their keys of the last ten minutes.
  lemma PendingExactly(hs: seq<Held>, now: int, h: Held)
    ensures h in Pending(Holding(hs, |hs|), now) <==>
            exists i: nat :: LastAmong(hs, |hs|, i) && h == hs[i] && now <= h.heldAt + 600_000
  {
    var pending := Pending(Holding(hs, |hs|), now);
    if i: nat :| LastAmong(hs, |hs|, i) && h == hs[i] && now <= h.heldAt + 600_000 {
      var a, p := PlaceOfHold(hs, i, now);
      assert pending[p] == h;
    }
    if h in pending {
      var q: nat :| q < |pending| && pending[q] == h;
      var b, j := HoldOfPlace(hs, q, now);
      assert LastAmong(hs, |hs|, j) && h == hs[j] && now <= h.heldAt + 600_000;
    }
  }

  // ----- intent -----

  // The j-th hold keeps the i-th from being sent: it is pending too, about the same
  // stream, and was held later; or at the same time, under a key first held later.
  ghost predicate Beats(hs: seq<Held>, i: nat, j: nat, now: int)
    requires i < |hs|
  {
    && LastAmong(hs, |hs|, j) && !Expired(hs[j], now) && SameStream(hs[i], hs[j])
    && (hs[j].heldAt > hs[i].heldAt
        || (hs[j].heldAt == hs[i].heldAt
            && HeldBefore(hs, |hs|, HoldKey(hs[i].request), HoldKey(hs[j].request))))
  }

  // The entry of a hold that is pending, and its place.
  lemma PlaceOfHold(hs: seq<Held>, i: nat, now: int) returns (a: nat, p: nat)
    requires LastAmong(hs, |hs|, i) && !Expired(hs[i], now)
    ensures var entries := Holding(hs, |hs|);
            && a < |entries| && entries[a] == EntryOf(hs[i]) && p == Rank(entries, a, now)
            && p < |Pending(entries, now)| && Pending(entries, now)[p] == hs[i]
  {
    hide HoldKey, Expired;
    var entries := Holding(hs, |hs|);
    LastIsHolding(hs, |hs|, i);
    a :| 0 <= a < |entries| && entries[a] == EntryOf(hs[i]);
    p := Rank(entries, a, now);
    PendingAtRank(entries, |entries|, a, now);
    assert entries[..|entries|] == entries;
  }

  lemma HoldOfPlace(hs: seq<Held>, q: nat, now: int) returns (b: nat, j: nat)
    requires q < |Pending(Holding(hs, |hs|), now)|
    ensures var entries := Holding(hs, |hs|);
            && b < |entries| && LastAmong(hs, |hs|, j) && entries[b] == EntryOf(hs[j]) && q == Rank(entries, b, now)
            && Pending(entries, now)[q] == hs[j] && !Expired(hs[j], now)
  {
    hide HoldKey, Expired;
    var entries := Holding(hs, |hs|);
    assert entries[..|entries|] == entries;
    b := PendingFrom(entries, |entries|, q, now);
    PendingAtRank(entries, |entries|, b, now);
    j := EntryHold(hs, b);
  }

  lemma FirstBefore(hs: seq<Held>, a: nat, b: nat)
    requires a < b < |Holding(hs, |hs|)|
    ensures HeldBefore(hs, |hs|, Holding(hs, |hs|)[a].0, Holding(hs, |hs|)[b].0)
  {
    hide HoldKey, LastHolds, HeldBefore;
    HoldingIs(hs, |hs|);
  }

  lemma RankBefore(entries: Entries, a: nat, b: nat, now: int)
    requires a < b < |entries| && !Expired(entries[a].1, now)
    ensures Rank(entries, a, now) < Rank(entries, b, now)
  {
    hide Rank, Expired;
    RankGrows(entries, a, b, now);
  }

  // Pending commands stand in the order their keys were first held.
  lemma SameOrder(hs: seq<Held>, a: nat, b: nat, now: int)
    requires var entries := Holding(hs, |hs|);
             && a < |entries| && b < |entries| && !Expired(entries[a].1, now) && !Expired(entries[b].1, now)
    ensures var entries := Holding(hs, |hs|);
            Rank(entries, a, now) < Rank(entries, b, now) <==> HeldBefore(hs, |hs|, entries[a].0, entries[b].0)
  {
    hide Rank, Expired, HoldKey;
    if a < b {
      RankBefore(Holding(hs, |hs|), a, b, now);
      FirstBefore(hs, a, b);
    } else if b < a {
      RankBefore(Holding(hs, |hs|), b, a, now);
      FirstBefore(hs, b, a);
    }
  }

  // Two pending holds, in the list and by themselves.
  lemma Beaten(hs: seq<Held>, i: nat, j: nat, a: nat, b: nat, p: nat, q: nat, now: int)
    requires LastAmong(hs, |hs|, i) && LastAmong(hs, |hs|, j) && !Expired(hs[i], now) && !Expired(hs[j], now)
    requires var entries := Holding(hs, |hs|);
             && a < |entries| && entries[a] == EntryOf(hs[i]) && p == Rank(entries, a, now)
             && b < |entries| && entries[b] == EntryOf(hs[j]) && q == Rank(entries, b, now)
    requires var pending := Pending(Holding(hs, |hs|), now);
             && p < |pending| && q < |pending| && pending[p] == hs[i] && pending[q] == hs[j]
    ensures var pending := Pending(Holding(hs, |hs|), now);
            Rivals(pending, p, q) && !NoEarlier(pending, p, q) <==> Beats(hs, i, j, now)
  {
    hide Rank, Expired, SameStream, HoldKey, LastAmong, HeldBefore;
    SameOrder(hs, a, b, now);
  }

  // For every sequence of holds, whatever the clock: of the live controls that are
  // pending, a hold is sent just when no other beats it.
  lemma LastIntentIsSent(hs: seq<Held>, i: nat, now: int) returns (p: nat)
    requires LastAmong(hs, |hs|, i) && !Expired(hs[i], now)
    ensures var pending := Pending(Holding(hs, |hs|), now);
            && p < |pending| && pending[p] == hs[i]
            && (ToSend(pending, p) <==> forall j: nat :: !Beats(hs, i, j, now))
  {
    var a;
    a, p := PlaceOfHold(hs, i, now);
    hide Beats, Rank, Expired, LastAmong, Rivals, NoEarlier;
    var pending := Pending(Holding(hs, |hs|), now);
    forall j: nat | Beats(hs, i, j, now) ensures !ToSend(pending, p) {
      BeatsIsPending(hs, i, j, now);
      var b, q := PlaceOfHold(hs, j, now);
      Beaten(hs, i, j, a, b, p, q, now);
      assert Rivals(pending, p, q) && !NoEarlier(pending, p, q);
    }
    if !ToSend(pending, p) {
      var q: nat :| q < |pending| && Rivals(pending, p, q) && !NoEarlier(pending, p, q);
      var b, j := HoldOfPlace(hs, q, now);
      Beaten(hs, i, j, a, b, p, q, now);
      assert Beats(hs, i, j, now);
    }
  }

  lemma BeatsIsPending(hs: seq<Held>, i: nat, j: nat, now: int)
    requires i < |hs| && Beats(hs, i, j, now)
    ensures LastAmong(hs, |hs|, j) && !Expired(hs[j], now)
  {
  }

  // The i-th hold is the last live control for its camera, and the last under its
  // key.
  ghost predicate LastForCamera(hs: seq<Held>, i: nat) {
    && LastAmong(hs, |hs|, i) && LiveAt(hs, i)
    && (forall j :: i < j < |hs| ==> !Rivals(hs, i, j))
  }

  // So where the clock has moved on since every other for its camera, the command
  // held last for it is the one sent.
  lemma LaterHoldIsSent(hs: seq<Held>, i: nat, now: int) returns (p: nat)
    requires LastForCamera(hs, i) && !Expired(hs[i], now)
    requires forall j :: 0 <= j < i && Rivals(hs, i, j) ==> hs[j].heldAt < hs[i].heldAt
    ensures var pending := Pending(Holding(hs, |hs|), now);
            p < |pending| && pending[p] == hs[i] && ToSend(pending, p)
  {
    p := LastIntentIsSent(hs, i, now);
    hide ToSend, Expired, SameStream;
    forall j: nat ensures !Beats(hs, i, j, now) {
      assert j < |hs| && j != i ==> (Rivals(hs, i, j) <==> SameStream(hs[i], hs[j]));
    }
  }

  // A clock that steps back loses it: a start, and a stop after it with an earlier
  // time; the start is sent and the stop is not.
  lemma ClockLosesIntent(device: string) returns (hs: seq<Held>)
    ensures |hs| == 2 && hs[0].heldAt == 100 && hs[1].heldAt == 90 && LastForCamera(hs, 1)
    ensures var pending := Pending(Holding(hs, 2), 100);
            pending == hs && ToSend(pending, 0) && !ToSend(pending, 1)
  {
    var start := Request("1", device, "AB2", Some("a"), None);
    var stop := Request("2", device, "AB3", Some("b"), None);
    hs := [Held(start, 100), Held(stop, 90)];
    assert HoldKey(start) == "AB2:a" && HoldKey(stop) == "AB3:b";
    var one := Holding(hs, 1);
    assert one == Put(Holding(hs, 0), "AB2:a", hs[0]) == [("AB2:a", hs[0])];
    var two := Holding(hs, 2);
    assert Put(one[1..], "AB3:b", hs[1]) == [("AB3:b", hs[1])];
    assert two == Put(one, "AB3:b", hs[1]) == [("AB2:a", hs[0]), ("AB3:b", hs[1])];
    assert two[..1] == one && one[..0] == [];
    assert Pending(one, 100) == [hs[0]];
    assert Pending(two, 100) == [hs[0]] + [hs[1]] == hs;
    assert Rivals(hs, 1, 0) && !NoEarlier(hs, 1, 0);
  }

  // Such a tie: start, stop and the same start again within a millisecond. The
  // start took its old place in the list, and so the stop is sent instead.
  lemma TieLosesIntent(device: string) returns (hs: seq<Held>)
    ensures |hs| == 3 && LastForCamera(hs, 2) && forall h :: h in hs ==> h.heldAt == 0
    ensures var pending := Pending(Holding(hs, 3), 0);
            pending == [hs[2], hs[1]] && !ToSend(pending, 0) && ToSend(pending, 1)
  {
    var start := Request("1", device, "AB2", Some("a"), None);
    var stop := Request("2", device, "AB3", Some("b"), None);
    var again := start.(commandId := "3");
    hs := [Held(start, 0), Held(stop, 0), Held(again, 0)];
    assert HoldKey(start) == HoldKey(again) == "AB2:a" && HoldKey(stop) == "AB3:b";
    var one := Holding(hs, 1);
    assert one == Put(Holding(hs, 0), HoldKey(start), hs[0]) == [("AB2:a", hs[0])];
    var two := Holding(hs, 2);
    assert two == Put(one, "AB3:b", hs[1]);
    assert Put(one[1..], "AB3:b", hs[1]) == [("AB3:b", hs[1])];
    assert two == [("AB2:a", hs[0]), ("AB3:b", hs[1])];
    var three := Holding(hs, 3);
    assert three == Put(two, "AB2:a", hs[2]) == [("AB2:a", hs[2]), ("AB3:b", hs[1])];
    assert three[..1] == [("AB2:a", hs[2])] && three[..1][..0] == [];
    assert Pending(three[..1], 0) == [hs[2]];
    assert Pending(three, 0) == [hs[2], hs[1]];
    var pending := Pending(three, 0);
    assert Rivals(pending, 0, 1) && !NoEarlier(pending, 0, 1);
  }

  ghost predicate Picked(held: seq<Held>, at: seq<nat>, picked: seq<Held>) {
    |picked| == |at| && forall k :: 0 <= k < |at| ==> at[k] < |held| && picked[k] == held[at[k]]
  }

  method Pick(held: seq<Held>, at: seq<nat>) returns (picked: seq<Held>)
    requires forall i: nat :: i in at ==> i < |held|
    ensures Picked(held, at, picked)
  {
    picked := [];
    for k := 0 to |at|
      invariant |picked| == k && forall x :: 0 <= x < k ==> at[x] < |held| && picked[x] == held[at[x]]
    {
      assert at[k] in at;
      picked := picked + [held[at[k]]];
    }
  }

  // ----- the dispatcher's holds -----

  class HoldQueue {
    var held: map<string, Entries>

    constructor ()
      ensures held == map[]
    {
      held := map[];
    }

    function Of(deviceId: string): Entries
      reads this
    {
      if deviceId in held then held[deviceId] else []
    }

    method Hold(request: Request, now: int)
      modifies this
      ensures Of(request.deviceId) == Put(old(Of(request.deviceId)), HoldKey(request), Held(request, now))
      ensures forall d :: d != request.deviceId ==> Of(d) == old(Of(d))
    {
      var byCode := if request.deviceId in held then held[request.deviceId] else [];
      held := held[request.deviceId := Put(byCode, HoldKey(request), Held(request, now))];
    }

    // Take the commands of a device out and part them: the expired go without a
    // word, the superseded are rejected, the rest is dispatched.
    method FlushHeld(deviceId: string, now: int)
      returns (rejected: seq<Held>, dispatched: seq<Held>, ghost drop: seq<nat>, ghost send: seq<nat>)
      modifies this
      ensures Of(deviceId) == [] && forall d :: d != deviceId ==> Of(d) == old(Of(d))
      ensures var pending := Pending(old(Of(deviceId)), now);
              && NoRepeats(send) && (forall i: nat :: i in send <==> i < |pending| && ToSend(pending, i))
              && NoRepeats(drop) && (forall i: nat :: i in drop <==> i < |pending| && !ToSend(pending, i))
              && SendOrder(pending, send) && DropOrder(pending, drop)
              && Picked(pending, drop, rejected) && Picked(pending, send, dispatched)
    {
      hide ToSend, Expired, SendOrder, DropOrder;
      var entries := Of(deviceId);
      held := held - {deviceId};
      var pending := [];
      for k := 0 to |entries|
        invariant pending == Pending(entries[..k], now)
      {
        assert entries[..k + 1][..k] == entries[..k];
        if !Expired(entries[k].1, now) {
          pending := pending + [entries[k].1];
        }
      }
      assert entries[..|entries|] == entries;
      var sending, dropping := PartitionHeld(pending);
      rejected := Pick(pending, dropping);
      dispatched := Pick(pending, sending);
      drop, send := dropping, sending;
    }
  }
}
