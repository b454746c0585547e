/**
 Annex-B byte streams (section B.1 of ITU-T H.264 and Annex B of ITU-T H.265) and what the two
 scanners of the recorder read from them.

 Both scanners are given here on suffixes: what they read next depends only on the bytes ahead.
 */
module AnnexB {
  type byte = x: int | 0 <= x < 256

  type bytes = seq<byte>

  /** A unit as read: the length of the start code in front of it, its type and its bytes. */
  datatype Coded = Coded(code: nat, nalType: int, nal: bytes)

  const CODE3: bytes := [0, 0, 1]
  const CODE4: bytes := [0, 0, 0, 1]

  function NalType(b: byte, hevc: bool): int {
    if hevc then b / 2 % 64 else b % 32
  }

  /** SPS and PPS, with the VPS of HEVC. */
  predicate IsParamSet(nalType: int, hevc: bool) {
    if hevc then 32 <= nalType <= 34 else nalType == 7 || nalType == 8
  }

  /** The length of the start code at the front, 0 when there is none. */
  function CodeLen(s: bytes): (n: nat)
    ensures n <= |s|
  {
    if |s| >= 4 && s[0] == 0 && s[1] == 0 && s[2] == 0 && s[3] == 1 then 4
    else if |s| >= 3 && s[0] == 0 && s[1] == 0 && s[2] == 1 then 3
    else 0
  }

  /** The offset of the first start code, or the length when there is none. */
  function FirstStop(s: bytes): (n: nat)
    ensures n <= |s|
  {
    if s == [] || CodeLen(s) > 0 then 0 else 1 + FirstStop(s[1..])
  }

  /** The units `annexBToAvcc` reads. */
  function Scan(s: bytes, hevc: bool): seq<Coded>
    decreases |s|
  {
    var rest := s[FirstStop(s)..];
    var code := CodeLen(rest);
    if |rest| <= code then []
    else
      StopHasCode(s);
      var body := rest[code..];
      [Coded(code, NalType(body[0], hevc), body[..FirstStop(body)])] + Scan(body[FirstStop(body)..], hevc)
  }

  /** The length of u without its trailing zeros. */
  function Trimmed(u: bytes): (n: nat)
    ensures n <= |u|
  {
    if u == [] || u[|u| - 1] != 0 then |u| else Trimmed(u[..|u| - 1])
  }

  /** Where `parseAnnexBNalUnits` ends a unit: it never looks for a start code at the first byte. */
  function ParseEnd(body: bytes): (n: nat)
    requires body != []
    ensures n <= |body|
  {
    Trimmed(body[..1 + FirstStop(body[1..])])
  }

  /** The units `parseAnnexBNalUnits` reads. */
  function Parse(s: bytes, hevc: bool): seq<Coded>
    decreases |s|
  {
    var rest := s[FirstStop(s)..];
    var code := CodeLen(rest);
    if |rest| <= code then []
    else
      StopHasCode(s);
      var body := rest[code..];
      [Coded(code, NalType(body[0], hevc), body[..ParseEnd(body)])] + Parse(body[ParseEnd(body)..], hevc)
  }

  lemma StopHasCode(s: bytes)
    ensures FirstStop(s) < |s| ==> CodeLen(s[FirstStop(s)..]) > 0
  {
    if s != [] && CodeLen(s) == 0 {
      StopHasCode(s[1..]);
      assert s[FirstStop(s)..] == s[1..][FirstStop(s[1..])..];
    }
  }

  // ----- the position of the first start code -----

  predicate StopAt(s: bytes, j: nat)
    requires j <= |s|
  {
    CodeLen(s[j..]) > 0
  }

  /** The first stop is the least offset with a start code. */
  lemma {:induction false} FirstStopIsLeast(s: bytes, j: nat)
    requires j <= |s| && (j == |s| || StopAt(s, j))
    requires forall i: nat :: i < j ==> !StopAt(s, i)
    ensures FirstStop(s) == j
  {
    assert s[0..] == s;
    if j > 0 {
      assert !StopAt(s, 0);
      assert s[1..][j - 1..] == s[j..];
      forall i: nat | i < j - 1 ensures !StopAt(s[1..], i) {
        assert s[1..][i..] == s[i + 1..];
        assert !StopAt(s, i + 1);
      }
      FirstStopIsLeast(s[1..], j - 1);
    }
  }

  lemma {:induction false} NoStopBefore(s: bytes, i: nat)
    requires i < FirstStop(s)
    ensures !StopAt(s, i)
  {
    if i == 0 { assert s[0..] == s; }
    else {
      NoStopBefore(s[1..], i - 1);
      assert s[1..][i - 1..] == s[i..];
    }
  }

  /** A start code: two or three zero bytes and a one. */
  predicate CodeAt(s: bytes, j: int) {
    && 0 <= j && j + 2 < |s| && s[j] == 0 && s[j + 1] == 0
    && (s[j + 2] == 1 || (j + 3 < |s| && s[j + 2] == 0 && s[j + 3] == 1))
  }

  lemma StopIsCode(s: bytes, j: nat)
    requires j <= |s|
    ensures StopAt(s, j) <==> CodeAt(s, j)
    ensures CodeLen(s[j..]) == if !CodeAt(s, j) then 0 else if s[j + 2] == 1 then 3 else 4
  {
    var t := s[j..];
    assert forall k :: 0 <= k < |t| ==> t[k] == s[j + k];
  }

  /** A unit ends where the next start code begins, or at the end of the data. */
  lemma UnitEndsAtCode(s: bytes)
    ensures var n := FirstStop(s); (n == |s| || CodeAt(s, n)) && forall i :: 0 <= i < n ==> !CodeAt(s, i)
  {
    var n := FirstStop(s);
    StopHasCode(s);
    if n < |s| { StopIsCode(s, n); }
    forall i | 0 <= i < n ensures !CodeAt(s, i) {
      NoStopBefore(s, i);
      StopIsCode(s, i);
    }
  }

  // ----- writing a stream -----

  function StartCode(code: nat): bytes {
    if code == 4 then CODE4 else CODE3
  }

  /** The byte stream of units with their start codes. */
  function Stream(cs: seq<Coded>): bytes {
    if cs == [] then [] else StartCode(cs[0].code) + cs[0].nal + Stream(cs[1..])
  }

  /** A unit as section 7.4.1 of H.264 has it: not empty, no start code inside, last byte not zero. */
  predicate WellFormed(u: bytes) {
    && u != [] && u[|u| - 1] != 0
    && forall i :: 0 <= i && i + 2 < |u| ==> !(u[i] == 0 && u[i + 1] == 0 && u[i + 2] == 1)
  }

  predicate WellFormedStream(cs: seq<Coded>, hevc: bool) {
    forall k :: 0 <= k < |cs| ==>
      (cs[k].code == 3 || cs[k].code == 4) && WellFormed(cs[k].nal) && cs[k].nalType == NalType(cs[k].nal[0], hevc)
  }

  /** A start code is recognised with its own length, whatever follows it. */
  lemma CodeRecognised(code: nat, rest: bytes)
    requires code == 3 || code == 4
    ensures CodeLen(StartCode(code) + rest) == code
    ensures FirstStop(StartCode(code) + rest) == 0
    ensures (StartCode(code) + rest)[code..] == rest
  {
  }

  lemma StreamStarts(cs: seq<Coded>, hevc: bool)
    requires WellFormedStream(cs, hevc)
    ensures Stream(cs) == [] || CodeLen(Stream(cs)) > 0
  {
    if cs != [] {
      hide CodeLen, StartCode, FirstStop, WellFormed, NalType, Stream;
      StreamCons(cs);
      CodeRecognised(cs[0].code, cs[0].nal + Stream(cs[1..]));
    } else {
      EmptyStream();
    }
  }

  /** After a well-formed unit the next stop is the next start code, from whichever byte one looks. */
  lemma UnitEnds(u: bytes, rest: bytes, from: nat)
    requires WellFormed(u) && from <= |u| && (rest == [] || CodeLen(rest) > 0)
    ensures FirstStop((u + rest)[from..]) == |u| - from
  {
    var s := (u + rest)[from..];
    assert s[|u| - from..] == rest;
    forall i: nat | i < |u| - from ensures !StopAt(s, i) {
      var t := s[i..];
      var k := from + i;
      assert t == (u + rest)[k..];
      assert t[0] == u[k];
      assert k + 1 < |u| ==> t[1] == u[k + 1];
      assert k + 2 < |u| ==> t[2] == u[k + 2];
      assert k + 3 < |u| ==> t[3] == u[k + 3];
    }
    FirstStopIsLeast(s, |u| - from);
  }

  lemma ScanStep(code: nat, body: bytes, hevc: bool)
    requires (code == 3 || code == 4) && body != []
    ensures Scan(StartCode(code) + body, hevc)
            == [Coded(code, NalType(body[0], hevc), body[..FirstStop(body)])] + Scan(body[FirstStop(body)..], hevc)
    ensures Parse(StartCode(code) + body, hevc)
            == [Coded(code, NalType(body[0], hevc), body[..ParseEnd(body)])] + Parse(body[ParseEnd(body)..], hevc)
  {
    var s := StartCode(code) + body;
    CodeRecognised(code, body);
    assert s[0..] == s;
    hide FirstStop, CodeLen, ParseEnd;
  }

  lemma UnitParsed(u: bytes, rest: bytes)
    requires WellFormed(u) && FirstStop((u + rest)[1..]) == |u| - 1
    ensures ParseEnd(u + rest) == |u|
  {
    hide FirstStop;
    assert (u + rest)[..|u|] == u;
  }

  lemma StreamCons(cs: seq<Coded>)
    requires cs != []
    ensures Stream(cs) == StartCode(cs[0].code) + (cs[0].nal + Stream(cs[1..]))
  {
  }

  /** The converter's scanner reads back exactly the units that were written. */
  lemma {:induction false} ScanReadsStream(cs: seq<Coded>, hevc: bool)
    requires WellFormedStream(cs, hevc)
    ensures Scan(Stream(cs), hevc) == cs
    decreases |cs|
  {
    hide Stream, Scan, Parse, FirstStop, CodeLen, ParseEnd;
    if cs == [] {
      EmptyStream();
    } else {
      var u, rest := cs[0].nal, Stream(cs[1..]);
      StreamStarts(cs[1..], hevc);
      ScanReadsStream(cs[1..], hevc);
      StreamCons(cs);
      ScanStep(cs[0].code, u + rest, hevc);
      UnitEnds(u, rest, 0);
      assert (u + rest)[0..] == u + rest;
      assert (u + rest)[..|u|] == u && (u + rest)[|u|..] == rest;
    }
  }

  /** So does the parameter-set scanner. */
  lemma {:induction false} ParseReadsStream(cs: seq<Coded>, hevc: bool)
    requires WellFormedStream(cs, hevc)
    ensures Parse(Stream(cs), hevc) == cs
    decreases |cs|
  {
    hide Stream, Scan, Parse, FirstStop, CodeLen, ParseEnd;
    if cs == [] {
      EmptyStream();
    } else {
      var u, rest := cs[0].nal, Stream(cs[1..]);
      StreamStarts(cs[1..], hevc);
      ParseReadsStream(cs[1..], hevc);
      StreamCons(cs);
      ScanStep(cs[0].code, u + rest, hevc);
      UnitEnds(u, rest, 1);
      assert (u + rest)[..|u|] == u && (u + rest)[|u|..] == rest;
      UnitParsed(u, rest);
    }
  }

  // ----- arbitrary byte strings -----

  /** What is left after the last unit: nothing, or a start code at the very end. */
  function Leftover(s: bytes): bytes
    decreases |s|
  {
    var rest := s[FirstStop(s)..];
    var code := CodeLen(rest);
    if |rest| <= code then rest
    else
      StopHasCode(s);
      var body := rest[code..];
      Leftover(body[FirstStop(body)..])
  }

  lemma CodeIs(s: bytes)
    requires CodeLen(s) > 0
    ensures (CodeLen(s) == 3 || CodeLen(s) == 4) && s[..CodeLen(s)] == StartCode(CodeLen(s))
  {
  }

  /** One unit of the scan of an arbitrary string. */
  lemma ScanCons(s: bytes, hevc: bool)
    ensures var rest := s[FirstStop(s)..];
      var code := CodeLen(rest);
      if |rest| <= code then Scan(s, hevc) == [] && Leftover(s) == rest
      else
        var body := rest[code..];
        var tail := body[FirstStop(body)..];
        && code > 0
        && Scan(s, hevc) == [Coded(code, NalType(body[0], hevc), body[..FirstStop(body)])] + Scan(tail, hevc)
        && Leftover(s) == Leftover(tail)
  {
    StopHasCode(s);
    hide FirstStop, CodeLen;
  }

  lemma ParseCons(s: bytes, hevc: bool)
    ensures var rest := s[FirstStop(s)..];
      var code := CodeLen(rest);
      if |rest| <= code then Parse(s, hevc) == []
      else
        var body := rest[code..];
        Parse(s, hevc)
        == [Coded(code, NalType(body[0], hevc), body[..ParseEnd(body)])] + Parse(body[ParseEnd(body)..], hevc)
  {
    StopHasCode(s);
    hide FirstStop, CodeLen, ParseEnd;
  }

  /** Nothing is lost: from the first start code on, the string is the units read, in order. */
  lemma {:induction false} NothingLost(s: bytes, hevc: bool)
    ensures s[FirstStop(s)..] == Stream(Scan(s, hevc)) + Leftover(s)
    ensures Leftover(s) == [] || Leftover(s) == CODE3 || Leftover(s) == CODE4
    decreases |s|
  {
    hide *;
    var rest := s[FirstStop(s)..];
    var code := CodeLen(rest);
    ScanCons(s, hevc);
    if |rest| > code {
      CodeIs(rest);
      var body := rest[code..];
      var n := FirstStop(body);
      var tail := body[n..];
      NothingLost(tail, hevc);
      StopAtOnce(body);
      StreamUnit(Coded(code, NalType(body[0], hevc), body[..n]), Scan(tail, hevc));
      Rejoin(rest, code, n, Stream(Scan(tail, hevc)), Leftover(s));
    } else {
      EmptyStream();
      OnlyCode(rest);
    }
  }

  lemma StreamUnit(c: Coded, cs: seq<Coded>)
    ensures Stream([c] + cs) == StartCode(c.code) + (c.nal + Stream(cs))
  {
    assert ([c] + cs)[1..] == cs;
  }

  lemma Rejoin(rest: bytes, code: nat, n: nat, units: bytes, left: bytes)
    requires code + n <= |rest| && rest[code..][n..][0..] == units + left
    ensures rest == rest[..code] + (rest[code..][..n] + units) + left
  {
    assert rest[code..][n..] == units + left;
    assert rest == rest[..code] + (rest[code..][..n] + rest[code..][n..]);
  }

  lemma OnlyCode(rest: bytes)
    requires |rest| <= CodeLen(rest)
    ensures rest == [] + rest && (rest == [] || rest == CODE3 || rest == CODE4)
  {
    if rest != [] {
      CodeIs(rest);
      assert rest[..CodeLen(rest)] == rest;
    }
  }

  lemma EmptyStream()
    ensures Stream([]) == []
    ensures forall hevc :: Scan([], hevc) == [] && Parse([], hevc) == []
  {
  }

  /** What follows a unit starts with a start code, if there is anything. */
  lemma StopAtOnce(body: bytes)
    ensures FirstStop(body[FirstStop(body)..]) == 0
  {
    StopHasCode(body);
  }

  /** The two scanners agree on the unit at the front of body. */
  predicate SameEnd(body: bytes)
    requires body != []
  {
    var u := body[..FirstStop(body)];
    if u == [] then CodeLen(body) == 4 else u[|u| - 1] != 0
  }

  /** Every unit ends in a non-zero byte, or is empty and followed by a four-byte start code. */
  predicate Agreeable(s: bytes)
    decreases |s|
  {
    var rest := s[FirstStop(s)..];
    var code := CodeLen(rest);
    |rest| <= code ||
    (StopHasCode(s);
     var body := rest[code..];
     SameEnd(body) && Agreeable(body[FirstStop(body)..]))
  }

  lemma EndsDiffer(body: bytes)
    requires body != []
    ensures ParseEnd(body) == FirstStop(body) <==> SameEnd(body)
  {
    var n := FirstStop(body);
    if n == 0 {
      CodeIs(body);
      if CodeLen(body) == 4 {
        assert CodeLen(body[1..]) == 3;
        assert body[..1] == [0];
        assert Trimmed(body[..1]) == 0;
      } else {
        ThreeByteCode(body);
      }
    } else {
      assert n == 1 + FirstStop(body[1..]);
    }
  }

  /** A three-byte code at the front is kept by the parser as payload. */
  lemma ThreeByteCode(body: bytes)
    requires CodeLen(body) == 3
    ensures ParseEnd(body) > 0
  {
    assert CodeLen(body[1..]) == 0;
    assert CodeLen(body[1..][1..]) == 0;
    var n := 1 + FirstStop(body[1..]);
    assert FirstStop(body[1..]) >= 2;
    TrimmedKeeps(body[..n], 2);
  }

  lemma {:induction false} TrimmedKeeps(u: bytes, i: nat)
    requires i < |u| && u[i] != 0
    ensures Trimmed(u) > i
  {
    if u[|u| - 1] == 0 { TrimmedKeeps(u[..|u| - 1], i); }
  }

  /** The scanners agree on a byte string exactly when it is agreeable. */
  lemma {:induction false} ScannersAgreeIff(s: bytes, hevc: bool)
    ensures Parse(s, hevc) == Scan(s, hevc) <==> Agreeable(s)
    decreases |s|
  {
    var rest := s[FirstStop(s)..];
    var code := CodeLen(rest);
    StopHasCode(s);
    if |rest| > code {
      var body := rest[code..];
      var n, p := FirstStop(body), ParseEnd(body);
      EndsDiffer(body);
      assert Parse(s, hevc)[0].nal == body[..p] && Scan(s, hevc)[0].nal == body[..n];
      if n == p {
        ScannersAgreeIff(body[n..], hevc);
        assert Parse(s, hevc)[1..] == Parse(body[n..], hevc);
        assert Scan(s, hevc)[1..] == Scan(body[n..], hevc);
      } else {
        assert |body[..p]| != |body[..n]|;
      }
    }
  }

  /** They do differ: one scanner keeps a trailing zero byte of a unit, the other strips it. */
  lemma TrailingZeroSplits(b: byte, hevc: bool)
    requires b != 0
    ensures Scan([0, 0, 1, b, 0], hevc) == [Coded(3, NalType(b, hevc), [b, 0])]
    ensures Parse([0, 0, 1, b, 0], hevc) == [Coded(3, NalType(b, hevc), [b])]
  {
    var s, zero: bytes := [0, 0, 1, b, 0], [0];
    var body: bytes := [b, 0];
    assert s[0..] == s && s[3..] == body && body[1..] == zero && zero[1..] == [] && body[2..] == [];
    assert FirstStop(s) == 0 && CodeLen(s) == 3;
    assert FirstStop([]) == 0;
    assert FirstStop(zero) == 1;
    assert FirstStop(body) == 2;
    assert body[..2] == body && body[..2][..1] == [b] && body[..1] == [b];
    assert Trimmed([b]) == 1;
    assert Trimmed(body) == 1;
    EmptyStream();
    assert zero[FirstStop(zero)..] == [];
    assert Parse(zero, hevc) == [];
  }
}
