/**
 The recorder's passthrough path: Annex-B access units become length-prefixed samples, and the
 parameter sets of the first keyframe become the decoder configuration record
 (sections 5.3.3.1 and 8.3.3.1 of ISO/IEC 14496-15).
 */
module Passthrough {
  import opened AnnexB
  import opened Arith
  import opened Options

  // ----- big-endian numbers -----

  const TWO32 := 0x1_0000_0000

  /** The four bytes written for a length: what a 32-bit cast leaves of it. */
  function Len32(n: nat): (r: bytes)
    ensures |r| == 4
  {
    [n / 256 / 256 / 256 % 256, n / 256 / 256 % 256, n / 256 % 256, n % 256]
  }

  function Read32(s: bytes): (n: nat)
    requires |s| >= 4
    ensures n < TWO32
  {
    s[0] as int * 16777216 + s[1] as int * 65536 + s[2] as int * 256 + s[3]
  }

  function Len16(n: nat): (r: bytes)
    ensures |r| == 2
  {
    [n / 256 % 256, n % 256]
  }

  function Read16(s: bytes): (n: nat)
    requires |s| >= 2
    ensures n < 65536
  {
    s[0] as int * 256 + s[1]
  }

  lemma ReadLen32(n: nat, rest: bytes)
    ensures Read32(Len32(n) + rest) == n % TWO32
  {
    var low := Read32(Len32(n) + rest);
    assert n == n / 256 / 256 / 256 / 256 * TWO32 + low;
    DivUnique(n, TWO32, n / 256 / 256 / 256 / 256);
  }

  lemma ReadLen16(n: nat, rest: bytes)
    ensures Read16(Len16(n) + rest) == n % 65536
  {
  }

  // ----- length-prefixed samples -----

  function EncodeUnits(us: seq<bytes>): bytes {
    if us == [] then [] else Len32(|us[0]|) + us[0] + EncodeUnits(us[1..])
  }

  /** A reader of length-prefixed samples, None when a record is cut short. */
  function DecodeUnits(s: bytes): Option<seq<bytes>>
    decreases |s|
  {
    if s == [] then Some([])
    else if |s| < 4 || |s| - 4 < Read32(s) then None
    else
      var n := Read32(s);
      match DecodeUnits(s[4 + n..])
      case None => None
      case Some(us) => Some([s[4..4 + n]] + us)
  }

  predicate AllShort(us: seq<bytes>) {
    forall k :: 0 <= k < |us| ==> |us[k]| < TWO32
  }

  lemma DecodeRecord(u: bytes, rest: bytes)
    requires |u| < TWO32
    ensures DecodeUnits(Len32(|u|) + u + rest)
            == match DecodeUnits(rest) case None => None case Some(us) => Some([u] + us)
  {
    hide Len32, Read32, DecodeUnits;
    var s := Len32(|u|) + u + rest;
    assert s == Len32(|u|) + (u + rest);
    ReadLen32(|u|, u + rest);
    assert s[4..4 + |u|] == u && s[4 + |u|..] == rest;
    DecodeCons(s);
  }

  lemma DecodeCons(s: bytes)
    requires |s| >= 4 && |s| - 4 >= Read32(s)
    ensures DecodeUnits(s) == match DecodeUnits(s[4 + Read32(s)..])
                              case None => None
                              case Some(us) => Some([s[4..4 + Read32(s)]] + us)
  {
    hide Read32;
  }

  lemma {:induction false} DecodeEncode(us: seq<bytes>)
    requires AllShort(us)
    ensures DecodeUnits(EncodeUnits(us)) == Some(us)
    decreases |us|
  {
    if us != [] {
      DecodeEncode(us[1..]);
      hide DecodeUnits, Len32;
      DecodeRecord(us[0], EncodeUnits(us[1..]));
      assert [us[0]] + us[1..] == us;
    }
  }

  /** A reader never yields a unit of 2^32 bytes or more. */
  lemma {:induction false} DecodedAreShort(s: bytes)
    requires DecodeUnits(s).Some?
    ensures AllShort(DecodeUnits(s).value)
    decreases |s|
  {
    if s != [] { DecodedAreShort(s[4 + Read32(s)..]); }
  }

  /** Samples read back exactly when every unit fits the 32-bit length. */
  lemma ReadsBackIff(us: seq<bytes>)
    ensures DecodeUnits(EncodeUnits(us)) == Some(us) <==> AllShort(us)
  {
    if AllShort(us) { DecodeEncode(us); }
    else if DecodeUnits(EncodeUnits(us)) == Some(us) { DecodedAreShort(EncodeUnits(us)); }
  }

  // ----- the converter -----

  /** The units that stay in the samples: all but the parameter sets. */
  function Payload(cs: seq<Coded>, hevc: bool): seq<bytes> {
    if cs == [] then []
    else (if IsParamSet(cs[0].nalType, hevc) then [] else [cs[0].nal]) + Payload(cs[1..], hevc)
  }

  /** What `annexBToAvcc` answers. */
  function Avcc(s: bytes, hevc: bool): bytes {
    EncodeUnits(Payload(Scan(s, hevc), hevc))
  }

  /** A well-formed stream becomes exactly its non-parameter-set units, in order, length-prefixed. */
  lemma AvccRoundTrip(cs: seq<Coded>, hevc: bool)
    requires WellFormedStream(cs, hevc)
    ensures Avcc(Stream(cs), hevc) == EncodeUnits(Payload(cs, hevc))
    ensures AllShort(Payload(cs, hevc)) ==> DecodeUnits(Avcc(Stream(cs), hevc)) == Some(Payload(cs, hevc))
  {
    ScanReadsStream(cs, hevc);
    ReadsBackIff(Payload(cs, hevc));
  }

  lemma {:induction false} UnitsNoLonger(s: bytes, hevc: bool, n: nat)
    requires |s| < n
    ensures forall k :: 0 <= k < |Payload(Scan(s, hevc), hevc)| ==> |Payload(Scan(s, hevc), hevc)[k]| < n
    decreases |s|
  {
    hide FirstStop, CodeLen, Scan, IsParamSet;
    ScanCons(s, hevc);
    var rest := s[FirstStop(s)..];
    var code := CodeLen(rest);
    if |rest| > code {
      var body := rest[code..];
      UnitsNoLonger(body[FirstStop(body)..], hevc, n);
      assert Scan(s, hevc)[1..] == Scan(body[FirstStop(body)..], hevc);
    }
  }

  /** Whatever the input, the samples decode fully, into the units that were read. */
  lemma AvccAlwaysDecodes(s: bytes, hevc: bool)
    requires |s| < TWO32
    ensures DecodeUnits(Avcc(s, hevc)) == Some(Payload(Scan(s, hevc), hevc))
  {
    UnitsNoLonger(s, hevc, TWO32);
    ReadsBackIff(Payload(Scan(s, hevc), hevc));
  }

  /** The payload of what the other scanner reads is the same when the scanners agree. */
  lemma ParsedPayload(s: bytes, hevc: bool)
    requires Agreeable(s)
    ensures EncodeUnits(Payload(Parse(s, hevc), hevc)) == Avcc(s, hevc)
  {
    ScannersAgreeIff(s, hevc);
  }

  // ----- the scanning loops -----

  lemma SuffixStep(data: bytes, i: nat)
    requires i < |data|
    ensures data[i..][1..] == data[i + 1..]
    ensures CodeLen(data[i..]) == 0 ==> FirstStop(data[i..]) == 1 + FirstStop(data[i + 1..])
    ensures CodeLen(data[i..]) > 0 ==> FirstStop(data[i..]) == 0
  {
    assert data[i..][1..] == data[i + 1..];
  }

  lemma {:induction false} NoRoomForCode(s: bytes)
    requires |s| <= 2
    ensures FirstStop(s) == |s|
  {
    if s != [] { NoRoomForCode(s[1..]); }
  }

  /** The inner loop of both scanners: the next start code from `from` on. */
  method FindEnd(data: bytes, from: nat) returns (nalEnd: nat)
    requires 2 <= |data| && from <= |data|
    ensures nalEnd == from + FirstStop(data[from..])
  {
    hide FirstStop;
    nalEnd := |data|;
    var j := from;
    while j < |data| - 2
      invariant from <= j <= |data| && nalEnd == |data|
      invariant FirstStop(data[from..]) == (j - from) + FirstStop(data[j..])
    {
      SuffixStep(data, j);
      if data[j] == 0 && data[j + 1] == 0
         && (data[j + 2] == 1 || (j + 3 < |data| && data[j + 2] == 0 && data[j + 3] == 1)) {
        return j;
      }
      j := j + 1;
    }
    NoRoomForCode(data[j..]);
  }

  method StartCodeLength(data: bytes, i: nat) returns (n: nat)
    requires i < |data|
    ensures n == CodeLen(data[i..])
  {
    if i + 3 < |data| && data[i] == 0 && data[i + 1] == 0 && data[i + 2] == 0 && data[i + 3] == 1 {
      n := 4;
    } else if i + 2 < |data| && data[i] == 0 && data[i + 1] == 0 && data[i + 2] == 1 {
      n := 3;
    } else {
      n := 0;
    }
  }

  /** Without a start code at i the scanners read the same from the next byte on. */
  lemma SkipByte(data: bytes, i: nat, hevc: bool)
    requires i < |data| && CodeLen(data[i..]) == 0
    ensures Scan(data[i..], hevc) == Scan(data[i + 1..], hevc)
    ensures Parse(data[i..], hevc) == Parse(data[i + 1..], hevc)
  {
    hide Scan, Parse, CodeLen, FirstStop;
    var s, t := data[i..], data[i + 1..];
    SuffixStep(data, i);
    ScanCons(s, hevc);
    ScanCons(t, hevc);
    ParseCons(s, hevc);
    ParseCons(t, hevc);
    assert s[FirstStop(s)..] == t[FirstStop(t)..];
  }

  /** A start code at the very end of the data begins no unit. */
  lemma NoUnitLeft(data: bytes, i: nat, hevc: bool)
    requires i < |data| && CodeLen(data[i..]) > 0 && i + CodeLen(data[i..]) >= |data|
    ensures Scan(data[i..], hevc) == [] && Parse(data[i..], hevc) == []
  {
    hide Scan, Parse, CodeLen, FirstStop;
    var s := data[i..];
    SuffixStep(data, i);
    assert s[0..] == s;
    ScanCons(s, hevc);
    ParseCons(s, hevc);
  }

  lemma ScanAdvances(data: bytes, i: nat, hevc: bool)
    requires i < |data| && CodeLen(data[i..]) > 0 && i + CodeLen(data[i..]) < |data|
    ensures var start := i + CodeLen(data[i..]);
      var end := start + FirstStop(data[start..]);
      Scan(data[i..], hevc)
      == [Coded(CodeLen(data[i..]), NalType(data[start], hevc), data[start..end])] + Scan(data[end..], hevc)
  {
    hide Scan, CodeLen, FirstStop, NalType;
    var s := data[i..];
    SuffixStep(data, i);
    ScanCons(s, hevc);
    UnitSlices(data, i, CodeLen(s), FirstStop(data[i + CodeLen(s)..]));
  }

  /** A unit behind a start code, as a slice of the data. */
  lemma UnitSlices(data: bytes, i: nat, code: nat, n: nat)
    requires i + code <= |data| && n <= |data| - i - code
    ensures var s, start := data[i..], i + code;
      && s[0..] == s && s[code..] == data[start..]
      && s[code..][..n] == data[start..start + n] && s[code..][n..] == data[start + n..]
  {
  }

  lemma ParseAdvances(data: bytes, i: nat, hevc: bool)
    requires i < |data| && CodeLen(data[i..]) > 0 && i + CodeLen(data[i..]) < |data|
    ensures var start := i + CodeLen(data[i..]);
      var end := start + ParseEnd(data[start..]);
      Parse(data[i..], hevc)
      == [Coded(CodeLen(data[i..]), NalType(data[start], hevc), data[start..end])] + Parse(data[end..], hevc)
  {
    hide Parse, CodeLen, FirstStop, ParseEnd;
    var s := data[i..];
    SuffixStep(data, i);
    ParseCons(s, hevc);
    assert s[0..] == s;
    var start := i + CodeLen(s);
    assert s[CodeLen(s)..] == data[start..];
    var body := data[start..];
    var end := start + ParseEnd(body);
    assert body[..ParseEnd(body)] == data[start..end] && body[ParseEnd(body)..] == data[end..];
  }

  method AnnexBToAvcc(data: bytes, hevc: bool) returns (avcc: bytes)
    ensures avcc == Avcc(data, hevc)
  {
    hide Scan, CodeLen, FirstStop, Avcc, EncodeUnits, Payload, Parse, Len32, NalType, IsParamSet;
    avcc := [];
    var i := 0;
    AvccStart(data, hevc);
    while i < |data|
      invariant 0 <= i <= |data|
      invariant Avcc(data, hevc) == avcc + Avcc(data[i..], hevc)
      decreases |data| - i
    {
      var startCodeLen := StartCodeLength(data, i);
      if startCodeLen == 0 {
        SkipByte(data, i, hevc);
        i := i + 1;
        AvccSame(data[i - 1..], data[i..], hevc);
        continue;
      }
      var nalStart := i + startCodeLen;
      if nalStart >= |data| {
        NoUnitLeft(data, i, hevc);
        AvccOfNothing(data[i..], hevc);
        break;
      }
      var nalEnd := FindEnd(data, nalStart);
      var nalType := NalType(data[nalStart], hevc);
      ScanAdvances(data, i, hevc);
      AvccCons(data[i..], data[nalEnd..], Coded(startCodeLen, nalType, data[nalStart..nalEnd]), hevc);
      if !IsParamSet(nalType, hevc) {
        avcc := avcc + Len32(nalEnd - nalStart) + data[nalStart..nalEnd];
      }
      i := nalEnd;
    }
    if i == |data| { AvccOfEmpty(hevc); }
  }

  lemma AvccStart(data: bytes, hevc: bool)
    ensures Avcc(data, hevc) == [] + Avcc(data[0..], hevc)
  {
    assert data[0..] == data;
  }

  lemma AvccSame(s: bytes, t: bytes, hevc: bool)
    requires Scan(s, hevc) == Scan(t, hevc)
    ensures Avcc(s, hevc) == Avcc(t, hevc)
  {
  }

  lemma AvccOfNothing(s: bytes, hevc: bool)
    requires Scan(s, hevc) == []
    ensures Avcc(s, hevc) == []
  {
  }

  lemma AvccOfEmpty(hevc: bool)
    ensures Avcc([], hevc) == []
  {
    EmptyStream();
  }

  lemma AvccCons(s: bytes, tail: bytes, c: Coded, hevc: bool)
    requires Scan(s, hevc) == [c] + Scan(tail, hevc)
    ensures Avcc(s, hevc) == (if IsParamSet(c.nalType, hevc) then [] else Len32(|c.nal|) + c.nal) + Avcc(tail, hevc)
  {
    hide Scan, Len32, IsParamSet;
    assert Scan(s, hevc)[1..] == Scan(tail, hevc);
    var p := Payload(Scan(tail, hevc), hevc);
    if IsParamSet(c.nalType, hevc) {
      assert [] + p == p;
    } else {
      assert ([c.nal] + p)[1..] == p;
    }
  }

  /** A parsed unit as the scanner returns it. */
  datatype Nal = Nal(nalType: int, data: bytes)

  function Typed(cs: seq<Coded>): (r: seq<Nal>)
    ensures |r| == |cs|
  {
    seq(|cs|, k requires 0 <= k < |cs| => Nal(cs[k].nalType, cs[k].nal))
  }

  lemma TypedCons(c: Coded, cs: seq<Coded>)
    ensures Typed([c] + cs) == [Nal(c.nalType, c.nal)] + Typed(cs)
  {
  }

  /** Three bytes or fewer hold no unit. */
  lemma ShortTail(s: bytes, hevc: bool)
    requires |s| <= 3
    ensures Parse(s, hevc) == []
  {
    if s != [] && CodeLen(s) == 0 { NoRoomForCode(s[1..]); }
    StopHasCode(s);
    hide FirstStop, Parse;
    ParseCons(s, hevc);
  }

  /** The end of a unit without its trailing zeros. */
  method TrimZeros(data: bytes, nalStart: nat, end: nat) returns (nalEnd: nat)
    requires nalStart <= end <= |data|
    ensures nalEnd == nalStart + Trimmed(data[nalStart..end])
  {
    nalEnd := end;
    while nalEnd > nalStart && data[nalEnd - 1] == 0
      invariant nalStart <= nalEnd <= end
      invariant Trimmed(data[nalStart..nalEnd]) == Trimmed(data[nalStart..end])
    {
      var u := data[nalStart..nalEnd];
      assert u[..|u| - 1] == data[nalStart..nalEnd - 1];
      nalEnd := nalEnd - 1;
    }
  }

  /** Its loop bound is an unsigned length minus three, which wraps for shorter data: such data is left out. */
  method ParseAnnexBNalUnits(data: bytes, hevc: bool) returns (nalus: seq<Nal>)
    requires |data| >= 3
    ensures nalus == Typed(Parse(data, hevc))
  {
    hide Parse, Scan, CodeLen, FirstStop, Typed, ParseEnd;
    nalus := [];
    var i := 0;
    assert data[0..] == data;
    while i < |data| - 3
      invariant 0 <= i <= |data|
      invariant Typed(Parse(data, hevc)) == nalus + Typed(Parse(data[i..], hevc))
      decreases |data| - i
    {
      var startCodeLen := StartCodeLength(data, i);
      if startCodeLen == 0 {
        SkipByte(data, i, hevc);
        i := i + 1;
        continue;
      }
      var nalStart := i + startCodeLen;
      if nalStart >= |data| {
        NoUnitLeft(data, i, hevc);
        TypedNothing();
        return;
      }
      var nalType := NalType(data[nalStart], hevc);
      var found := FindEnd(data, nalStart + 1);
      ParseEndIs(data, nalStart, found);
      var nalEnd := TrimZeros(data, nalStart, found);
      ParseAdvances(data, i, hevc);
      TypedCons(Coded(startCodeLen, nalType, data[nalStart..nalEnd]), Parse(data[nalEnd..], hevc));
      nalus := nalus + [Nal(nalType, data[nalStart..nalEnd])];
      i := nalEnd;
    }
    ShortTail(data[i..], hevc);
    TypedNothing();
  }

  lemma TypedNothing()
    ensures Typed([]) == []
  {
  }

  lemma ParseEndIs(data: bytes, start: nat, found: nat)
    requires start < |data| && found == start + 1 + FirstStop(data[start + 1..])
    ensures found <= |data| && ParseEnd(data[start..]) == Trimmed(data[start..found])
  {
    hide FirstStop, Trimmed;
    var body := data[start..];
    assert body[1..] == data[start + 1..];
    assert body[..found - start] == data[start..found];
  }

  // ----- configuration records -----

  /** The first non-empty unit of a type, empty when there is none. */
  function First(nalus: seq<Nal>, nalType: int): bytes {
    if nalus == [] then []
    else
      var n := |nalus| - 1;
      var earlier := First(nalus[..n], nalType);
      if earlier != [] then earlier else if nalus[n].nalType == nalType then nalus[n].data else []
  }

  /** First is the earliest unit of that type, and empty exactly when there is none. */
  lemma {:induction false} FirstIsEarliest(nalus: seq<Nal>, nalType: int)
    ensures First(nalus, nalType) == [] ==>
              forall k :: 0 <= k < |nalus| && nalus[k].nalType == nalType ==> nalus[k].data == []
    ensures First(nalus, nalType) != [] ==>
              exists k :: 0 <= k < |nalus| && nalus[k] == Nal(nalType, First(nalus, nalType))
                          && forall j :: 0 <= j < k && nalus[j].nalType == nalType ==> nalus[j].data == []
    decreases |nalus|
  {
    if nalus != [] {
      var n := |nalus| - 1;
      FirstIsEarliest(nalus[..n], nalType);
      if First(nalus[..n], nalType) != [] {
        var k :| 0 <= k < n && nalus[..n][k] == Nal(nalType, First(nalus[..n], nalType))
                 && forall j :: 0 <= j < k && nalus[..n][j].nalType == nalType ==> nalus[..n][j].data == [];
        assert nalus[k] == Nal(nalType, First(nalus, nalType));
        assert forall j :: 0 <= j < k ==> nalus[j] == nalus[..n][j];
      } else {
        assert forall j :: 0 <= j < n ==> nalus[j] == nalus[..n][j];
        if nalus[n].nalType == nalType { assert nalus[n] == Nal(nalType, nalus[n].data); }
      }
    }
  }

  datatype AvcConfig = AvcConfig(profile: byte, compatibility: byte, level: byte, lengthSize: nat,
                                 spss: seq<bytes>, ppss: seq<bytes>)

  /** The AVCDecoderConfigurationRecord the recorder writes. */
  function AvcRecord(sps: bytes, pps: bytes): bytes
    requires |sps| >= 4
  {
    [1, sps[1], sps[2], sps[3], 0xFF, 0xE1] + SizedUnit(sps) + [1] + SizedUnit(pps)
  }

  function SizedUnit(u: bytes): bytes { Len16(|u|) + u }

  datatype Units = Units(units: seq<bytes>, rest: bytes)

  /** A reader of n units, each behind a 16-bit size. */
  function ReadUnits(s: bytes, n: nat): Option<Units>
    decreases n
  {
    if n == 0 then Some(Units([], s))
    else if |s| < 2 || |s| - 2 < Read16(s) then None
    else
      match ReadUnits(s[2 + Read16(s)..], n - 1)
      case None => None
      case Some(r) => Some(Units([s[2..2 + Read16(s)]] + r.units, r.rest))
  }

  /** A reader of the record. */
  function DecodeAvc(s: bytes): Option<AvcConfig> {
    if |s| < 6 || s[0] != 1 then None
    else
      var a := ReadUnits(s[6..], s[5] % 32);
      if a.None? || a.value.rest == [] then None
      else
        var b := ReadUnits(a.value.rest[1..], a.value.rest[0]);
        if b.None? || b.value.rest != [] then None
        else Some(AvcConfig(s[1], s[2], s[3], s[4] % 4 + 1, a.value.units, b.value.units))
  }

  lemma ReadOne(u: bytes, rest: bytes)
    requires |u| < 65536
    ensures ReadUnits(SizedUnit(u) + rest, 1) == Some(Units([u], rest))
  {
    var s := SizedUnit(u) + rest;
    assert s == Len16(|u|) + (u + rest);
    ReadLen16(|u|, u + rest);
    hide Len16, Read16;
    assert s[2..2 + |u|] == u && s[2 + |u|..] == rest;
    assert ReadUnits(rest, 0) == Some(Units([], rest));
    assert [u] + [] == [u];
  }

  lemma {:induction false} ReadAreShort(s: bytes, n: nat, k: nat)
    requires ReadUnits(s, n).Some? && k < |ReadUnits(s, n).value.units|
    ensures |ReadUnits(s, n).value.units[k]| < 65536
    decreases n
  {
    if n > 0 && k > 0 { ReadAreShort(s[2 + Read16(s)..], n - 1, k - 1); }
  }

  /** The record gives back both parameter sets exactly when both sizes fit 16 bits. */
  lemma AvcRecordInvertsIff(sps: bytes, pps: bytes)
    requires |sps| >= 4
    ensures DecodeAvc(AvcRecord(sps, pps)) == Some(AvcConfig(sps[1], sps[2], sps[3], 4, [sps], [pps]))
            <==> |sps| < 65536 && |pps| < 65536
  {
    hide ReadUnits, SizedUnit;
    var s := AvcRecord(sps, pps);
    assert s[6..] == SizedUnit(sps) + ([1] + SizedUnit(pps));
    if |sps| < 65536 && |pps| < 65536 {
      ReadOne(sps, [1] + SizedUnit(pps));
      assert ([1] + SizedUnit(pps))[1..] == SizedUnit(pps) + [];
      ReadOne(pps, []);
    } else if DecodeAvc(s) == Some(AvcConfig(sps[1], sps[2], sps[3], 4, [sps], [pps])) {
      var a := ReadUnits(s[6..], 1).value;
      ReadAreShort(s[6..], 1, 0);
      ReadAreShort(a.rest[1..], a.rest[0], 0);
    }
  }

  method BuildAvcRecord(nalus: seq<Nal>) returns (extradata: Option<bytes>)
    requires First(nalus, 7) == [] || |First(nalus, 7)| >= 4
    ensures extradata == if First(nalus, 7) == [] || First(nalus, 8) == [] then None
                         else Some(AvcRecord(First(nalus, 7), First(nalus, 8)))
  {
    var sps: bytes, pps: bytes := [], [];
    for k := 0 to |nalus|
      invariant sps == First(nalus[..k], 7) && pps == First(nalus[..k], 8)
    {
      var nal := nalus[k];
      assert nalus[..k + 1][..k] == nalus[..k];
      if nal.nalType == 7 && sps == [] {
        sps := nal.data;
      } else if nal.nalType == 8 && pps == [] {
        pps := nal.data;
      }
    }
    assert nalus[..|nalus|] == nalus;
    if sps == [] || pps == [] {
      return None;
    }
    var out: bytes := [1];
    out := out + [sps[1]] + [sps[2]] + [sps[3]];
    out := out + [0xFF] + [0xE1];
    out := out + [|sps| / 256 % 256] + [|sps| % 256] + sps;
    out := out + [1];
    out := out + [|pps| / 256 % 256] + [|pps| % 256] + pps;
    assert out == AvcRecord(sps, pps);
    extradata := Some(out);
  }

  // HEVC.

  datatype HevcArray = HevcArray(nalType: int, units: seq<bytes>)

  /** The twelve general_* bytes: copied from the SPS when it is long enough, else zero. */
  function GeneralBytes(sps: bytes): (r: bytes)
    ensures |r| == 12
  {
    if |sps| > 15 then sps[2..14] else [0, 0, 0, 0, 0, 0, 0, 0, 0, 0, 0, 0]
  }

  function ArrayEntry(nalType: byte, nal: bytes): bytes
    requires nalType < 128
  {
    [128 + nalType, 0, 1] + SizedUnit(nal)
  }

  /** The HEVCDecoderConfigurationRecord the recorder writes; an empty vps is left out. */
  function HevcRecord(vps: bytes, sps: bytes, pps: bytes): bytes {
    [1] + GeneralBytes(sps) + [0xF0, 0x00, 0xFC, 0xFD, 0xFA, 0xFA, 0x00, 0x00, 0x03, if vps == [] then 2 else 3]
    + (if vps == [] then [] else ArrayEntry(32, vps)) + ArrayEntry(33, sps) + ArrayEntry(34, pps)
  }

  datatype HevcConfig = HevcConfig(general: bytes, lengthSize: nat, arrays: seq<HevcArray>)

  datatype Arrays = Arrays(arrays: seq<HevcArray>, rest: bytes)

  function ReadArrays(s: bytes, n: nat): Option<Arrays>
    decreases n
  {
    if n == 0 then Some(Arrays([], s))
    else if |s| < 3 then None
    else
      match ReadUnits(s[3..], Read16(s[1..]))
      case None => None
      case Some(a) =>
        match ReadArrays(a.rest, n - 1)
        case None => None
        case Some(r) => Some(Arrays([HevcArray(s[0] % 64, a.units)] + r.arrays, r.rest))
  }

  /** A reader of the record. */
  function DecodeHevc(s: bytes): Option<HevcConfig> {
    if |s| < 23 || s[0] != 1 then None
    else
      match ReadArrays(s[23..], s[22])
      case None => None
      case Some(a) => if a.rest != [] then None else Some(HevcConfig(s[1..13], s[21] % 4 + 1, a.arrays))
  }

  lemma ReadArray(nalType: byte, nal: bytes, rest: bytes, n: nat)
    requires nalType < 64 && |nal| < 65536
    ensures ReadArrays(ArrayEntry(nalType, nal) + rest, n + 1)
            == match ReadArrays(rest, n)
               case None => None
               case Some(r) => Some(Arrays([HevcArray(nalType, [nal])] + r.arrays, r.rest))
  {
    hide ReadUnits, SizedUnit;
    var s := ArrayEntry(nalType, nal) + rest;
    assert s[3..] == SizedUnit(nal) + rest;
    assert Read16(s[1..]) == 1;
    ReadOne(nal, rest);
  }

  function ExpectedArrays(vps: bytes, sps: bytes, pps: bytes): seq<HevcArray> {
    (if vps == [] then [] else [HevcArray(32, [vps])]) + [HevcArray(33, [sps]), HevcArray(34, [pps])]
  }

  lemma NoArrays()
    ensures ReadArrays([], 0) == Some(Arrays([], []))
  {
  }

  lemma HevcArraysRead(vps: bytes, sps: bytes, pps: bytes)
    requires |vps| < 65536 && |sps| < 65536 && |pps| < 65536
    ensures ReadArrays((if vps == [] then [] else ArrayEntry(32, vps)) + ArrayEntry(33, sps) + ArrayEntry(34, pps),
                       if vps == [] then 2 else 3)
            == Some(Arrays(ExpectedArrays(vps, sps, pps), []))
  {
    hide ReadArrays, ArrayEntry;
    var a, b, c := ArrayEntry(32, vps), ArrayEntry(33, sps), ArrayEntry(34, pps);
    NoArrays();
    var two := [HevcArray(33, [sps]), HevcArray(34, [pps])];
    ReadArray(34, pps, [], 0);
    assert c + [] == c && [HevcArray(34, [pps])] + [] == [HevcArray(34, [pps])];
    assert ReadArrays(c, 1) == Some(Arrays([HevcArray(34, [pps])], []));
    ReadArray(33, sps, c, 1);
    assert [HevcArray(33, [sps])] + [HevcArray(34, [pps])] == two;
    assert ReadArrays(b + c, 2) == Some(Arrays(two, []));
    if vps == [] {
      assert [] + b + c == b + c && ExpectedArrays(vps, sps, pps) == two;
    } else {
      ReadArray(32, vps, b + c, 2);
      assert a + b + c == a + (b + c);
    }
  }

  lemma {:induction false} ArraysAreShort(s: bytes, n: nat, k: nat, j: nat)
    requires ReadArrays(s, n).Some? && k < |ReadArrays(s, n).value.arrays|
    requires j < |ReadArrays(s, n).value.arrays[k].units|
    ensures |ReadArrays(s, n).value.arrays[k].units[j]| < 65536
    decreases n
  {
    if n > 0 {
      var a := ReadUnits(s[3..], Read16(s[1..])).value;
      if k == 0 { ReadAreShort(s[3..], Read16(s[1..]), j); }
      else { ArraysAreShort(a.rest, n - 1, k - 1, j); }
    }
  }

  /** The record gives back the parameter sets and the SPS's profile bytes exactly when all sizes fit 16 bits. */
  lemma HevcRecordInvertsIff(vps: bytes, sps: bytes, pps: bytes)
    ensures DecodeHevc(HevcRecord(vps, sps, pps))
            == Some(HevcConfig(GeneralBytes(sps), 4, ExpectedArrays(vps, sps, pps)))
            <==> |vps| < 65536 && |sps| < 65536 && |pps| < 65536
  {
    hide ReadArrays, ArrayEntry, GeneralBytes;
    var s := HevcRecord(vps, sps, pps);
    var n := if vps == [] then 2 else 3;
    var tail := (if vps == [] then [] else ArrayEntry(32, vps)) + ArrayEntry(33, sps) + ArrayEntry(34, pps);
    assert s[23..] == tail && s[22] == n && s[21] == 3 && s[0] == 1 && s[1..13] == GeneralBytes(sps);
    var want := ExpectedArrays(vps, sps, pps);
    if |vps| < 65536 && |sps| < 65536 && |pps| < 65536 {
      HevcArraysRead(vps, sps, pps);
    } else if DecodeHevc(s) == Some(HevcConfig(GeneralBytes(sps), 4, want)) {
      ArraysAreShort(tail, n, |want| - 1, 0);
      ArraysAreShort(tail, n, |want| - 2, 0);
      if vps != [] { ArraysAreShort(tail, n, 0, 0); }
    }
  }

  /** One array of the record, appended byte by byte. */
  method AppendHevcNaluArray(out: bytes, naluType: byte, nalu: bytes) returns (r: bytes)
    requires naluType < 128
    ensures r == out + ArrayEntry(naluType, nalu)
  {
    r := out + [128 + naluType];
    r := r + [0];
    r := r + [1];
    r := r + [|nalu| / 256 % 256];
    r := r + [|nalu| % 256];
    r := r + nalu;
    assert r == out + ([128 + naluType, 0, 1] + (Len16(|nalu|) + nalu));
  }

  /** The first parameter set of each type. */
  method SelectHevc(nalus: seq<Nal>) returns (vps: bytes, sps: bytes, pps: bytes)
    ensures vps == First(nalus, 32) && sps == First(nalus, 33) && pps == First(nalus, 34)
  {
    vps, sps, pps := [], [], [];
    for k := 0 to |nalus|
      invariant vps == First(nalus[..k], 32) && sps == First(nalus[..k], 33) && pps == First(nalus[..k], 34)
    {
      var nal := nalus[k];
      assert nalus[..k + 1][..k] == nalus[..k];
      if nal.nalType == 32 && vps == [] {
        vps := nal.data;
      } else if nal.nalType == 33 && sps == [] {
        sps := nal.data;
      } else if nal.nalType == 34 && pps == [] {
        pps := nal.data;
      }
    }
    assert nalus[..|nalus|] == nalus;
  }

  method BuildHevcRecord(nalus: seq<Nal>) returns (extradata: Option<bytes>)
    ensures extradata == if First(nalus, 33) == [] || First(nalus, 34) == [] then None
                         else Some(HevcRecord(First(nalus, 32), First(nalus, 33), First(nalus, 34)))
  {
    hide ArrayEntry, GeneralBytes, First;
    var vps, sps, pps := SelectHevc(nalus);
    if sps == [] || pps == [] {
      return None;
    }
    var out := HevcHeader(sps);
    out := out + [0xF0, 0x00, 0xFC, 0xFD, 0xFA, 0xFA, 0x00, 0x00, 0x03, if vps == [] then 2 else 3];
    if vps != [] {
      out := AppendHevcNaluArray(out, 32, vps);
    } else {
      assert out == out + [];
    }
    out := AppendHevcNaluArray(out, 33, sps);
    out := AppendHevcNaluArray(out, 34, pps);
    extradata := Some(out);
  }

  /** Version and general_* fields, taken apart and put together again bit field by bit field. */
  method HevcHeader(sps: bytes) returns (out: bytes)
    ensures out == [1] + GeneralBytes(sps)
  {
    var space, tier, idc, level, compat := 0, 0, 0, 0, 0;
    var constraints: bytes := [0, 0, 0, 0, 0, 0];
    if |sps| > 15 {
      space := sps[2] / 64 % 4;
      tier := sps[2] / 32 % 2;
      idc := sps[2] % 32;
      compat := sps[3] as int * 16777216 + sps[4] as int * 65536 + sps[5] as int * 256 + sps[6];
      constraints := [];
      for k := 0 to 6
        invariant constraints == sps[7..7 + k]
      {
        constraints := constraints + [sps[7 + k]];
      }
      level := sps[13];
      assert space * 64 + tier * 32 + idc == sps[2];
      ReadLen32(compat, []);
      BytesOf(sps[3], sps[4], sps[5], sps[6]);
    }
    out := [1] + [space * 64 + tier * 32 + idc];
    out := out + Len32(compat) + constraints + [level];
    if |sps| > 15 {
      assert out == [1] + ([sps[2]] + [sps[3], sps[4], sps[5], sps[6]] + sps[7..13] + [sps[13]]);
      assert sps[2..14] == [sps[2]] + [sps[3], sps[4], sps[5], sps[6]] + sps[7..13] + [sps[13]];
    }
  }

  lemma BytesOf(a: byte, b: byte, c: byte, d: byte)
    ensures Len32(a as int * 16777216 + b as int * 65536 + c as int * 256 + d) == [a, b, c, d]
  {
    var n := a as int * 16777216 + b as int * 65536 + c as int * 256 + d;
    DivUnique(n, 256, a as int * 65536 + b as int * 256 + c);
    DivUnique(n / 256, 256, a as int * 256 + b);
    DivUnique(n / 256 / 256, 256, a as int);
  }

  /** The record built from a keyframe, None when a parameter set is missing. */
  method Extradata(data: bytes, hevc: bool) returns (extradata: Option<bytes>)
    requires |data| >= 3
    requires !hevc ==> var sps := First(Typed(Parse(data, hevc)), 7); sps == [] || |sps| >= 4
    ensures var nalus := Typed(Parse(data, hevc));
      extradata == if hevc
                   then if First(nalus, 33) == [] || First(nalus, 34) == [] then None
                        else Some(HevcRecord(First(nalus, 32), First(nalus, 33), First(nalus, 34)))
                   else if First(nalus, 7) == [] || First(nalus, 8) == [] then None
                        else Some(AvcRecord(First(nalus, 7), First(nalus, 8)))
  {
    hide Parse, Typed, First;
    var nalus := ParseAnnexBNalUnits(data, hevc);
    if hevc {
      extradata := BuildHevcRecord(nalus);
    } else {
      extradata := BuildAvcRecord(nalus);
    }
  }

  /** A well-formed H.264 keyframe: samples and record together carry the stream's units. */
  lemma KeyframeRoundTrip(cs: seq<Coded>)
    requires WellFormedStream(cs, false)
    requires |First(Typed(cs), 7)| >= 4 && |First(Typed(cs), 7)| < 65536
    requires 1 <= |First(Typed(cs), 8)| < 65536
    ensures Typed(Parse(Stream(cs), false)) == Typed(cs)
    ensures Avcc(Stream(cs), false) == EncodeUnits(Payload(cs, false))
    ensures var sps, pps := First(Typed(cs), 7), First(Typed(cs), 8);
      DecodeAvc(AvcRecord(sps, pps)) == Some(AvcConfig(sps[1], sps[2], sps[3], 4, [sps], [pps]))
  {
    hide First, Typed, DecodeAvc, AvcRecord;
    ParseReadsStream(cs, false);
    AvccRoundTrip(cs, false);
    AvcRecordInvertsIff(First(Typed(cs), 7), First(Typed(cs), 8));
  }

  /** The same for an HEVC keyframe, with or without a VPS. */
  lemma HevcKeyframeRoundTrip(cs: seq<Coded>)
    requires WellFormedStream(cs, true)
    requires |First(Typed(cs), 32)| < 65536
    requires 1 <= |First(Typed(cs), 33)| < 65536 && 1 <= |First(Typed(cs), 34)| < 65536
    ensures Typed(Parse(Stream(cs), true)) == Typed(cs)
    ensures Avcc(Stream(cs), true) == EncodeUnits(Payload(cs, true))
    ensures var vps, sps, pps := First(Typed(cs), 32), First(Typed(cs), 33), First(Typed(cs), 34);
      DecodeHevc(HevcRecord(vps, sps, pps)) == Some(HevcConfig(GeneralBytes(sps), 4, ExpectedArrays(vps, sps, pps)))
  {
    hide First, Typed, DecodeHevc, HevcRecord;
    ParseReadsStream(cs, true);
    AvccRoundTrip(cs, true);
    HevcRecordInvertsIff(First(Typed(cs), 32), First(Typed(cs), 33), First(Typed(cs), 34));
  }

  // ----- the results in terms of the bytes -----

  /** SPS and PPS of H.264, VPS, SPS and PPS of HEVC, by the first byte of the unit. */
  lemma ParamSetBytes(b: byte, hevc: bool)
    ensures IsParamSet(NalType(b, hevc), hevc)
            <==> if hevc then b / 2 % 64 == 32 || b / 2 % 64 == 33 || b / 2 % 64 == 34
                 else b % 32 == 7 || b % 32 == 8
  {
  }

  /** A selection of units: their indices, in order. */
  predicate Ascending(idx: seq<nat>) {
    forall k, l :: 0 <= k < l < |idx| ==> idx[k] < idx[l]
  }

  lemma Shifted(idx: seq<nat>) returns (moved: seq<nat>)
    requires Ascending(idx)
    ensures |moved| == |idx| && forall k :: 0 <= k < |idx| ==> moved[k] == idx[k] + 1
    ensures Ascending(moved) && 0 !in moved
    ensures forall i :: i > 0 ==> (i in moved <==> i - 1 in idx)
  {
    moved := seq(|idx|, k requires 0 <= k < |idx| => idx[k] + 1);
    forall i | i > 0 && i - 1 in idx ensures i in moved {
      var k :| 0 <= k < |idx| && idx[k] == i - 1;
      assert moved[k] == i;
    }
  }

  /** us are the units at the indices, which are those of the units that are no parameter sets. */
  predicate Picks(idx: seq<nat>, cs: seq<Coded>, us: seq<bytes>, hevc: bool) {
    && Ascending(idx) && |us| == |idx|
    && (forall k :: 0 <= k < |idx| ==> idx[k] < |cs| && us[k] == cs[idx[k]].nal)
    && (forall i :: 0 <= i < |cs| ==> (i in idx <==> !IsParamSet(cs[i].nalType, hevc)))
  }

  lemma PickSkips(cs: seq<Coded>, rest: seq<nat>, us: seq<bytes>, hevc: bool) returns (idx: seq<nat>)
    requires cs != [] && IsParamSet(cs[0].nalType, hevc) && Picks(rest, cs[1..], us, hevc)
    ensures Picks(idx, cs, us, hevc) && 0 !in idx
  {
    hide IsParamSet;
    idx := Shifted(rest);
    hide Ascending;
    assert forall i :: 0 < i < |cs| ==> cs[1..][i - 1] == cs[i];
  }

  lemma PickTakes(cs: seq<Coded>, rest: seq<nat>, us: seq<bytes>, hevc: bool) returns (idx: seq<nat>)
    requires cs != [] && !IsParamSet(cs[0].nalType, hevc) && Picks(rest, cs[1..], us, hevc)
    ensures Picks(idx, cs, [cs[0].nal] + us, hevc)
  {
    hide IsParamSet;
    var moved := Shifted(rest);
    idx := [0] + moved;
    assert forall i :: 0 < i < |cs| ==> cs[1..][i - 1] == cs[i];
    assert forall i :: i > 0 ==> (i in idx <==> i in moved);
  }

  lemma {:induction false} PayloadIndices(cs: seq<Coded>, hevc: bool) returns (idx: seq<nat>)
    ensures Picks(idx, cs, Payload(cs, hevc), hevc)
    decreases |cs|
  {
    hide IsParamSet;
    if cs == [] {
      idx := [];
    } else {
      var rest := PayloadIndices(cs[1..], hevc);
      hide Picks;
      var us := Payload(cs[1..], hevc);
      assert [] + us == us;
      if IsParamSet(cs[0].nalType, hevc) {
        idx := PickSkips(cs, rest, us, hevc);
      } else {
        idx := PickTakes(cs, rest, us, hevc);
      }
    }
  }

  /**
   Of a well-formed stream the samples decode into exactly the units that are no parameter sets, in
   order: H.264 types 7 and 8 and HEVC types 32 to 34 are left out, nothing else.
   */
  lemma SamplesAreTheOtherUnits(cs: seq<Coded>, hevc: bool) returns (idx: seq<nat>)
    requires WellFormedStream(cs, hevc) && |Stream(cs)| < TWO32
    ensures Ascending(idx)
    ensures var decoded := DecodeUnits(Avcc(Stream(cs), hevc));
      && decoded.Some? && |decoded.value| == |idx|
      && forall k :: 0 <= k < |idx| ==> idx[k] < |cs| && decoded.value[k] == cs[idx[k]].nal
    ensures forall i :: 0 <= i < |cs| ==> |cs[i].nal| > 0
    ensures forall i :: 0 <= i < |cs| && !hevc ==> (i in idx <==> cs[i].nal[0] % 32 != 7 && cs[i].nal[0] % 32 != 8)
    ensures forall i :: 0 <= i < |cs| && hevc ==>
              (i in idx <==> cs[i].nal[0] / 2 % 64 != 32 && cs[i].nal[0] / 2 % 64 != 33 && cs[i].nal[0] / 2 % 64 != 34)
  {
    ScanReadsStream(cs, hevc);
    AvccAlwaysDecodes(Stream(cs), hevc);
    idx := PayloadIndices(cs, hevc);
    hide Stream, Scan, Avcc, DecodeUnits, Payload;
    forall i | 0 <= i < |cs| ensures |cs[i].nal| > 0 && cs[i].nalType == NalType(cs[i].nal[0], hevc) {
      assert WellFormed(cs[i].nal);
    }
    hide WellFormedStream, WellFormed, IsParamSet, NalType;
    forall i | 0 <= i < |cs|
      ensures IsParamSet(cs[i].nalType, hevc)
              <==> var b := cs[i].nal[0];
                   if hevc then b / 2 % 64 == 32 || b / 2 % 64 == 33 || b / 2 % 64 == 34 else b % 32 == 7 || b % 32 == 8
    {
      ParamSetBytes(cs[i].nal[0], hevc);
    }
  }

  /** Lengths are written most significant byte first. */
  lemma LengthBytes(n: nat)
    ensures n < 0x1_0000_0000 ==>
              Len32(n)[0] as int * 0x100_0000 + Len32(n)[1] as int * 0x1_0000 + Len32(n)[2] as int * 0x100
              + Len32(n)[3] as int == n
    ensures n < 0x1_0000 ==> Len16(n)[0] as int * 0x100 + Len16(n)[1] as int == n
  {
  }

  lemma Sections(general: bytes, fixed: bytes, arrays: bytes)
    requires |general| == 12 && |fixed| == 10
    ensures var r := [1] + general + fixed + arrays;
      |r| == 23 + |arrays| && r[0] == 1 && r[1..13] == general && r[13..23] == fixed
  {
  }

  /** The fields of the HEVC record before its arrays. */
  lemma HevcRecordHeader(vps: bytes, sps: bytes, pps: bytes)
    ensures var r := HevcRecord(vps, sps, pps);
      && |r| >= 23 && r[0] == 1
      && r[1..13] == (if |sps| > 15 then sps[2..14] else [0, 0, 0, 0, 0, 0, 0, 0, 0, 0, 0, 0])
      && r[13..23] == [0xF0, 0x00, 0xFC, 0xFD, 0xFA, 0xFA, 0x00, 0x00, 0x03, if vps == [] then 2 else 3]
  {
    var fixed := [0xF0, 0x00, 0xFC, 0xFD, 0xFA, 0xFA, 0x00, 0x00, 0x03, if vps == [] then 2 else 3];
    var arrays := (if vps == [] then [] else ArrayEntry(32, vps)) + ArrayEntry(33, sps) + ArrayEntry(34, pps);
    hide ArrayEntry;
    assert HevcRecord(vps, sps, pps) == [1] + GeneralBytes(sps) + fixed + arrays;
    hide HevcRecord;
    Sections(GeneralBytes(sps), fixed, arrays);
  }

  /** The fields of the AVC record before its parameter sets, and the head of an HEVC array with one unit. */
  lemma RecordMarkers(sps: bytes, pps: bytes, nalType: byte, nal: bytes)
    requires |sps| >= 4 && nalType < 64
    ensures AvcRecord(sps, pps)[..6] == [1, sps[1], sps[2], sps[3], 0xFF, 0xE1]
    ensures ArrayEntry(nalType, nal)[..3] == [0x80 + nalType, 0, 1]
  {
    hide SizedUnit;
  }

  /** Unit i is the first of its type. */
  predicate FirstOfType(cs: seq<Coded>, i: int, nalType: int, hevc: bool) {
    && 0 <= i < |cs| && cs[i].nal != []
    && nalType == (if hevc then cs[i].nal[0] / 2 % 64 else cs[i].nal[0] % 32)
    && forall j :: 0 <= j < i ==>
         cs[j].nal != [] && nalType != (if hevc then cs[j].nal[0] / 2 % 64 else cs[j].nal[0] % 32)
  }

  lemma {:induction false} FirstIs(cs: seq<Coded>, i: int, nalType: int, hevc: bool)
    requires WellFormedStream(cs, hevc) && FirstOfType(cs, i, nalType, hevc)
    ensures First(Typed(cs), nalType) == cs[i].nal
    decreases |cs|
  {
    FirstIsEarliest(Typed(cs), nalType);
    assert Typed(cs)[i] == Nal(nalType, cs[i].nal);
    forall j | 0 <= j < |cs| ensures cs[j].nal != [] { assert WellFormed(cs[j].nal); }
    hide First, WellFormed;
  }

  lemma SomeOfType(cs: seq<Coded>, nalType: int, hevc: bool) returns (k: int)
    requires WellFormedStream(cs, hevc) && First(Typed(cs), nalType) != []
    ensures FirstOfType(cs, k, nalType, hevc)
  {
    FirstIsEarliest(Typed(cs), nalType);
    k :| 0 <= k < |Typed(cs)| && Typed(cs)[k] == Nal(nalType, First(Typed(cs), nalType))
         && forall j :: 0 <= j < k && Typed(cs)[j].nalType == nalType ==> Typed(cs)[j].data == [];
    forall j | 0 <= j < |cs| ensures cs[j].nal != [] { assert WellFormed(cs[j].nal); }
    forall j | 0 <= j < k ensures cs[j].nalType != nalType { assert Typed(cs)[j] == Nal(cs[j].nalType, cs[j].nal); }
  }

  lemma NoneOfType(cs: seq<Coded>, nalType: int, hevc: bool)
    requires WellFormedStream(cs, hevc) && forall i :: !FirstOfType(cs, i, nalType, hevc)
    ensures First(Typed(cs), nalType) == []
  {
    if First(Typed(cs), nalType) != [] {
      var k := SomeOfType(cs, nalType, hevc);
      assert false;
    }
  }

  /** The record of an H.264 keyframe holds its first units of types 7 and 8. */
  lemma AvcRecordOfKeyframe(cs: seq<Coded>, i: int, j: int)
    requires WellFormedStream(cs, false) && FirstOfType(cs, i, 7, false) && FirstOfType(cs, j, 8, false)
    requires 4 <= |cs[i].nal| < 65536 && |cs[j].nal| < 65536
    ensures var nalus := Typed(Parse(Stream(cs), false));
      var sps, pps := cs[i].nal, cs[j].nal;
      && First(nalus, 7) == sps && First(nalus, 8) == pps
      && DecodeAvc(AvcRecord(sps, pps)) == Some(AvcConfig(sps[1], sps[2], sps[3], 4, [sps], [pps]))
  {
    assert 0 <= i < |cs| && 0 <= j < |cs|;
    hide First, Typed, DecodeAvc, AvcRecord, FirstOfType, Stream, Parse, WellFormedStream;
    ParseReadsStream(cs, false);
    FirstIs(cs, i, 7, false);
    FirstIs(cs, j, 8, false);
    AvcRecordInvertsIff(cs[i].nal, cs[j].nal);
  }

  /** The record of an HEVC keyframe holds its first units of types 33, 34 and, if there is one, 32. */
  lemma HevcRecordOfKeyframe(cs: seq<Coded>, v: int, i: int, j: int)
    requires WellFormedStream(cs, true) && FirstOfType(cs, i, 33, true) && FirstOfType(cs, j, 34, true)
    requires FirstOfType(cs, v, 32, true) || forall k :: !FirstOfType(cs, k, 32, true)
    requires |cs[i].nal| < 65536 && |cs[j].nal| < 65536 && (0 <= v < |cs| ==> |cs[v].nal| < 65536)
    ensures var nalus := Typed(Parse(Stream(cs), true));
      var decoded := DecodeHevc(HevcRecord(First(nalus, 32), First(nalus, 33), First(nalus, 34)));
      && decoded.Some? && decoded.value.lengthSize == 4
      && decoded.value.arrays == (if FirstOfType(cs, v, 32, true) then [HevcArray(32, [cs[v].nal])] else [])
                                 + [HevcArray(33, [cs[i].nal]), HevcArray(34, [cs[j].nal])]
  {
    var vps: bytes := [];
    if FirstOfType(cs, v, 32, true) {
      FirstIs(cs, v, 32, true);
      vps := cs[v].nal;
      assert vps != [];
    } else {
      NoneOfType(cs, 32, true);
    }
    assert cs[i].nal != [] && cs[j].nal != [];
    hide First, Typed, DecodeHevc, HevcRecord, FirstOfType, Stream, Parse, WellFormedStream;
    ParseReadsStream(cs, true);
    FirstIs(cs, i, 33, true);
    FirstIs(cs, j, 34, true);
    HevcRecordInvertsIff(vps, cs[i].nal, cs[j].nal);
  }
}
