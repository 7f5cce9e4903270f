/** IPv6 addresses as their stored 16-bit groups, and the zero-compressing printed form. */
module Ipv6 {
  import opened Digits
  import opened Wrappers

  type Group = n: nat | n < 0x1_0000

  function Hex(n: Group): string {
    Show(n, 16)
  }

  /** Groups in hexadecimal, with a colon between neighbours. */
  function Joined(h: seq<Group>): string {
    if h == [] then ""
    else if |h| == 1 then Hex(h[0])
    else Joined(h[..|h| - 1]) + ":" + Hex(h[|h| - 1])
  }

  function FirstZero(g: seq<Group>): (z: nat)
    ensures z <= |g|
    ensures forall i :: 0 <= i < z ==> g[i] != 0
    ensures z < |g| ==> g[z] == 0
  {
    if g == [] || g[0] == 0 then 0 else 1 + FirstZero(g[1..])
  }

  /** Where the run of zero groups at `i` ends. */
  function ZerosEnd(g: seq<Group>, i: nat): (e: nat)
    requires i <= |g|
    ensures i <= e <= |g|
    ensures forall k :: i <= k < e ==> g[k] == 0
    ensures e < |g| ==> g[e] != 0
    decreases |g| - i
  {
    if i == |g| || g[i] != 0 then i else ZerosEnd(g, i + 1)
  }

  /** Where the first run of zero groups ends. */
  function RunEnd(g: seq<Group>): (e: nat)
    ensures FirstZero(g) <= e <= |g|
    ensures forall k :: FirstZero(g) <= k < e ==> g[k] == 0
    ensures e < |g| ==> FirstZero(g) < e && g[e] != 0
  {
    ZerosEnd(g, FirstZero(g))
  }

  /** What is printed between the brackets: the first run of zeros becomes `::`, but a first run that
      reaches the last group is dropped altogether. */
  function Text(g: seq<Group>): string {
    var e := RunEnd(g);
    if e == |g| then Joined(g[..FirstZero(g)]) else Joined(g[..FirstZero(g)]) + "::" + Joined(g[e..])
  }

  /** `ipv6_address::print`, for any number of groups. */
  method Print(addr: seq<Group>, port: nat) returns (stream: string)
    ensures stream == Line(Text(addr), port)
  {
    hide Line, Hex, FirstZero, RunEnd, Stage, Text;
    ghost var z, e := FirstZero(addr), RunEnd(addr);
    StageEnds(addr);
    stream := "[";
    var useZeros := false;
    for i := 0 to |addr|
      invariant useZeros <==> e < i
      invariant stream == "[" + Stage(addr, z, e, i)
    {
      StageStep(addr, i);
      if addr[i] == 0 && !useZeros {
        continue;
      }
      if i != 0 && addr[i - 1] == 0 && !useZeros {
        stream := stream + ":";
        useZeros := true;
      }
      if i != 0 {
        stream := stream + ":";
      }
      stream := stream + Hex(addr[i]);
    }
    stream := stream + "]";
    LineParts(Text(addr), port);
    stream := stream + ":" + Show(port, 10) + "\n";
  }

  /** What has been printed when the loop reaches group `i`. */
  ghost function Stage(g: seq<Group>, z: nat, e: nat, i: nat): string
    requires z <= e <= |g| && i <= |g|
  {
    if i <= z then Joined(g[..i])
    else if i <= e then Joined(g[..z])
    else Joined(g[..z]) + "::" + Joined(g[e..i])
  }

  lemma StageEnds(g: seq<Group>)
    ensures Stage(g, FirstZero(g), RunEnd(g), 0) == ""
    ensures Stage(g, FirstZero(g), RunEnd(g), |g|) == Text(g)
  {
    var z, e := FirstZero(g), RunEnd(g);
    hide FirstZero, RunEnd, Hex;
    assert g[..0] == [] && g[..|g|] == g;
    assert g[e..|g|] == g[e..];
  }

  lemma StageStep(g: seq<Group>, i: nat)
    requires i < |g|
    ensures var z, e := FirstZero(g), RunEnd(g);
            Stage(g, z, e, i + 1)
            == if z <= i < e then Stage(g, z, e, i)
               else if i == e then Stage(g, z, e, i) + "::" + Hex(g[i])
               else if i == 0 then Hex(g[i])
               else Stage(g, z, e, i) + ":" + Hex(g[i])
  {
    hide Joined, FirstZero, RunEnd, Hex;
    var z, e := FirstZero(g), RunEnd(g);
    if i < z {
      JoinedNext(g, 0, i);
    } else if i >= e {
      JoinedNext(g, e, i);
    }
  }

  lemma JoinedNext(g: seq<Group>, from: nat, i: nat)
    requires from <= i < |g|
    ensures Joined(g[from..i + 1]) == if i == from then Hex(g[i]) else Joined(g[from..i]) + ":" + Hex(g[i])
  {
    hide Hex;
    assert g[from..i + 1][..i - from] == g[from..i];
  }

  /* ---------- reading the text back ---------- */

  /** The position of the first `::`, or the length of the text. */
  function DoubleAt(s: string): (k: nat)
    ensures k <= |s| && (k < |s| ==> k + 2 <= |s|)
  {
    if |s| < 2 then |s|
    else if s[0] == ':' && s[1] == ':' then 0
    else 1 + DoubleAt(s[1..])
  }

  /** One to four hexadecimal digits. */
  predicate Field(s: string) {
    Numeral(s, 16) && |s| <= 4
  }

  function Fields(s: string): seq<string> {
    if s == "" then [] else Split(s, ':')
  }

  function Values(p: seq<string>): (h: seq<nat>)
    ensures |h| == |p|
  {
    seq(|p|, i requires 0 <= i < |p| => Read(p[i], 16))
  }

  function Nulls(n: nat): (h: seq<nat>)
    ensures |h| == n
  {
    seq(n, i => 0)
  }

  /** The `n` groups a text stands for: `::` stands for as many zeros as are missing, and when there is none
      the missing groups are the last ones. */
  function Decode(s: string, n: nat): Option<seq<nat>> {
    var k := DoubleAt(s);
    var left, right := Values(Fields(s[..k])), if k == |s| then [] else Values(Fields(s[k + 2..]));
    if |left| + |right| <= n then Some(left + Nulls(n - |left| - |right|) + right) else None
  }

  /** The forms of section 2.2 of RFC 4291, for `n` groups: all of them, or one `::` for at least one group. */
  predicate Valid(s: string, n: nat) {
    var k := DoubleAt(s);
    if k == |s| then |Fields(s)| == n && forall f <- Fields(s) :: Field(f)
    else
      && |Fields(s[..k])| + |Fields(s[k + 2..])| < n
      && (forall f <- Fields(s[..k]) :: Field(f))
      && (forall f <- Fields(s[k + 2..]) :: Field(f))
  }

  /** The printed text determines the groups, and the printed line determines the text and the port. */
  lemma RoundTrip(g: seq<Group>, port: nat)
    ensures Decode(Text(g), |g|) == Some(g)
    ensures Unline(Line(Text(g), port)) == Some((Text(g), port))
  {
    var z, e := FirstZero(g), RunEnd(g);
    hide Line, Unline, Joined, Fields, Values, DoubleAt, FirstZero, RunEnd, Text, Decode, Cut;
    TextShape(g);
    FieldsOfJoined(g[..z]);
    FieldsOfJoined(g[e..]);
    DecodeShape(g, z, e, Text(g), Joined(g[..z]), Joined(g[e..]));
    LineRead(Text(g), port);
  }

  /** So the printer is injective on addresses of the same length. */
  lemma Injective(g: seq<Group>, h: seq<Group>)
    requires |g| == |h|
    ensures Text(g) == Text(h) <==> g == h
  {
    hide Text, Decode;
    RoundTrip(g, 0);
    RoundTrip(h, 0);
  }

  /** The text is a valid form exactly when the first run of zeros does not reach the last group. */
  lemma ValidIff(g: seq<Group>)
    ensures Valid(Text(g), |g|) <==> !(FirstZero(g) < |g| && RunEnd(g) == |g|)
  {
    var z, e := FirstZero(g), RunEnd(g);
    hide Line, Unline, Joined, Fields, Values, DoubleAt, FirstZero, RunEnd, Text, Field;
    TextShape(g);
    FieldsOfJoined(g[..z]);
    FieldsOfJoined(g[e..]);
  }

  /** The decoder finds `a` alone in `s`, or `a` and `b` on the two sides of `::`. */
  predicate Cut(s: string, alone: bool, a: string, b: string) {
    if alone then DoubleAt(s) == |s| && s == a
    else
      && DoubleAt(s) == |a| < |s|
      && s[..DoubleAt(s)] == a
      && s[DoubleAt(s) + 2..] == b
  }

  /** A printed text is cut where the first run of zeros was. */
  lemma TextShape(g: seq<Group>)
    ensures Cut(Text(g), RunEnd(g) == |g|, Joined(g[..FirstZero(g)]), Joined(g[RunEnd(g)..]))
    ensures ']' !in Text(g)
  {
    var z, e := FirstZero(g), RunEnd(g);
    hide Joined, FirstZero, RunEnd, Cut, Plain;
    NoDouble(g[..z]);
    NoDouble(g[e..]);
    if e == |g| {
      CutAlone(Joined(g[..z]), Joined(g[e..]));
    } else {
      CutBetween(Joined(g[..z]), Joined(g[e..]));
    }
  }

  lemma CutAlone(a: string, b: string)
    requires Plain(a)
    ensures Cut(a, true, a, b) && ']' !in a
  {
    hide DoubleAt;
    DoubleIn(a, "");
    assert a + "" == a;
  }

  lemma CutBetween(a: string, b: string)
    requires Plain(a) && Plain(b)
    ensures Cut(a + "::" + b, false, a, b) && ']' !in a + "::" + b
  {
    hide DoubleAt;
    DoubleIn(a, "::" + b);
    assert a + "::" + b == a + ("::" + b);
  }

  predicate Plain(s: string) {
    && ']' !in s
    && (forall i :: 0 <= i < |s| - 1 ==> s[i] != ':' || s[i + 1] != ':')
    && (s != "" ==> s[|s| - 1] != ':')
  }

  lemma {:induction false} NoDouble(h: seq<Group>)
    ensures Plain(Joined(h))
  {
    hide Hex;
    if h != [] {
      HexRead(h[|h| - 1]);
      if |h| > 1 {
        NoDouble(h[..|h| - 1]);
      }
    }
  }

  lemma {:induction false} DoubleIn(a: string, t: string)
    requires Plain(a) && (t == "" || "::" <= t)
    ensures DoubleAt(a + t) == |a|
  {
    if a == "" {
      assert a + t == t;
    } else {
      assert (a + t)[1..] == a[1..] + t;
      DoubleIn(a[1..], t);
    }
  }

  lemma HexRead(n: Group)
    ensures Field(Hex(n)) && Read(Hex(n), 16) == n && ':' !in Hex(n) && ']' !in Hex(n) && Hex(n) != ""
  {
    hide Show, Read, Numeral;
    ReadShow(n, 16);
    NoOther(Hex(n), 16, ':');
    NoOther(Hex(n), 16, ']');
    assert Power(16, 4) == 0x1_0000 by {
      assert Power(16, 2) == 256;
    }
    ShowLength(n, 16, 4);
  }

  function HexAll(h: seq<Group>): (p: seq<string>)
    ensures |p| == |h|
  {
    seq(|h|, i requires 0 <= i < |h| => Hex(h[i]))
  }

  lemma {:induction false} SplitJoined(h: seq<Group>)
    requires h != []
    ensures Split(Joined(h), ':') == HexAll(h) && Joined(h) != ""
  {
    hide Hex, Split;
    var last := h[|h| - 1];
    HexRead(last);
    if |h| == 1 {
      SplitNone(Hex(last), ':');
    } else {
      SplitJoined(h[..|h| - 1]);
      SplitEnd(Joined(h[..|h| - 1]), ':', Hex(last));
      assert HexAll(h) == HexAll(h[..|h| - 1]) + [Hex(last)];
    }
  }

  lemma FieldsOfJoined(h: seq<Group>)
    ensures |Fields(Joined(h))| == |h| && Values(Fields(Joined(h))) == h
    ensures forall f <- Fields(Joined(h)) :: Field(f)
  {
    hide Hex, Split, Read, Field;
    if h != [] {
      SplitJoined(h);
      forall i | 0 <= i < |h| ensures Field(HexAll(h)[i]) && Read(HexAll(h)[i], 16) == h[i] {
        HexRead(h[i]);
      }
    }
  }

  lemma DecodeShape(g: seq<Group>, z: nat, e: nat, s: string, a: string, b: string)
    requires z <= e <= |g| && forall k :: z <= k < e ==> g[k] == 0
    requires Cut(s, e == |g|, a, b) && Values(Fields(a)) == g[..z] && Values(Fields(b)) == g[e..]
    ensures Decode(s, |g|) == Some(g)
  {
    hide Fields, Values, DoubleAt, Decode, Pieces;
    if e == |g| {
      ZeroTail(g, z);
      DecodeWhole(s, g[..z], |g| - z, g);
    } else {
      ZeroRun(g, z, e);
      DecodeCut(s, a, b, g[..z], e - z, g[e..], g);
    }
  }

  predicate Pieces(g: seq<nat>, left: seq<nat>, gap: nat, right: seq<nat>) {
    g == left + Nulls(gap) + right
  }

  lemma ZeroRun(g: seq<Group>, z: nat, e: nat)
    requires z <= e <= |g| && forall k :: z <= k < e ==> g[k] == 0
    ensures Pieces(g, g[..z], e - z, g[e..])
  {
  }

  lemma ZeroTail(g: seq<Group>, z: nat)
    requires z <= |g| && forall k :: z <= k < |g| ==> g[k] == 0
    ensures Pieces(g, g[..z], |g| - z, [])
  {
  }

  lemma DecodeWhole(s: string, left: seq<nat>, gap: nat, g: seq<nat>)
    requires DoubleAt(s) == |s| && Values(Fields(s)) == left && Pieces(g, left, gap, [])
    ensures Decode(s, |g|) == Some(g)
  {
    hide Fields, Values, DoubleAt, Nulls;
    assert s[..|s|] == s;
  }

  lemma DecodeCut(s: string, a: string, b: string, left: seq<nat>, gap: nat, right: seq<nat>, g: seq<nat>)
    requires DoubleAt(s) < |s| && Pieces(g, left, gap, right)
    requires s[..DoubleAt(s)] == a && s[DoubleAt(s) + 2..] == b
    requires Values(Fields(a)) == left && Values(Fields(b)) == right
    ensures Decode(s, |g|) == Some(g)
  {
  }
}
