/** meshdns.py's codec: reading a query and building the answer to it. */
module Dns {
  import opened Bits
  import opened Words
  import opened Bytes
  import opened Wrappers

  type U16 = x: nat | x < 0x1_0000
  type Addr = x: nat | x < 0x1_0000_0000

  const QTYPE_A: U16 := 1

  datatype Query = Query(id: seq<Byte>, name: string, qtype: U16)

  // ----- text -----

  function LowerChar(c: char): char { if 'A' <= c <= 'Z' then c - 'A' + 'a' else c }

  function Lower(s: string): (t: string)
    ensures |t| == |s|
  {
    seq(|s|, i requires 0 <= i < |s| => LowerChar(s[i]))
  }

  /** `decode("ascii", "ignore")`. */
  function Decode(b: seq<Byte>): string {
    if b == [] then ""
    else Decode(b[..|b| - 1]) + (if b[|b| - 1] < 128 then [b[|b| - 1] as char] else "")
  }

  /** `encode("ascii", "ignore")`. */
  function Encode(s: string): (b: seq<Byte>)
    ensures |b| <= |s|
  {
    if s == "" then []
    else Encode(s[..|s| - 1]) + (if s[|s| - 1] as int < 128 then [s[|s| - 1] as int] else [])
  }

  /** `split(".")`: at least one label. */
  function Split(s: string): (labels: seq<string>)
    ensures |labels| > 0
  {
    if s == "" then [""]
    else
      var rest := Split(s[..|s| - 1]);
      var c := s[|s| - 1];
      if c == '.' then rest + [""] else rest[|rest| - 1 := rest[|rest| - 1] + [c]]
  }

  /** `".".join(labels)`. */
  function Join(labels: seq<string>): string {
    if labels == [] then ""
    else if |labels| == 1 then labels[0]
    else Join(labels[..|labels| - 1]) + "." + labels[|labels| - 1]
  }

  // ----- names on the wire -----

  /** The bytes of one label: ASCII only, at most 63. */
  function LabelBytes(text: string): (b: seq<Byte>)
    ensures |b| <= 63
  {
    var b := Encode(text);
    if |b| <= 63 then b else b[..63]
  }

  function WireLabel(b: seq<Byte>): seq<Byte>
    requires |b| < 256
  {
    [|b|] + b
  }

  function WireLabels(labels: seq<string>): seq<Byte> {
    if labels == [] then []
    else (if labels[0] == "" then [] else WireLabel(LabelBytes(labels[0]))) + WireLabels(labels[1..])
  }

  method EncodeName(name: string) returns (out: seq<Byte>)
    ensures out == WireLabels(Split(name)) + [0]
  {
    hide LabelBytes, Split, WireLabels, WireLabel;
    var labels := Split(name);
    out := [];
    WireStart(labels);
    for i := 0 to |labels|
      invariant out + WireLabels(labels[i..]) == WireLabels(labels)
    {
      WireStep(labels, i, out);
      if labels[i] != "" {
        var b := LabelBytes(labels[i]);
        out := out + ([|b|] + b);
      }
    }
    out := out + [0];
  }

  lemma WireStart(labels: seq<string>)
    ensures labels[0..] == labels && [] + WireLabels(labels) == WireLabels(labels) && WireLabels(labels[|labels|..]) == []
  {
  }

  lemma WireStep(labels: seq<string>, i: nat, out: seq<Byte>)
    requires i < |labels|
    ensures var b := LabelBytes(labels[i]);
            out + WireLabels(labels[i..]) == (if labels[i] == "" then out else out + ([|b|] + b)) + WireLabels(labels[i + 1..])
  {
    hide LabelBytes;
    assert labels[i..][1..] == labels[i + 1..];
    var b := LabelBytes(labels[i]);
    assert labels[i] != "" ==> WireLabels(labels[i..]) == ([|b|] + b) + WireLabels(labels[i + 1..]);
  }

  // ----- parsing -----

  /** The compression bits of a length byte. */
  predicate CompressionBits(ln: Byte) { And(ln, 0xC0) != 0 }

  lemma CompressionBitsMeanLong(ln: Byte)
    ensures CompressionBits(ln) <==> ln >= 64
  {
    hide And;
    Pow2Values();
    assert Pow2(6) == 64;
    BitAnd(ln, 0xC0, 6);
    BitAnd(ln, 0xC0, 7);
    if ln < 64 {
      forall i: nat | i < 8 ensures !Bit(And(ln, 0xC0), i) {
        BitAnd(ln, 0xC0, i);
        if i >= 6 { BitAbove(ln, 6, i); } else { LowBitsOfC0(i); }
      }
      AndBound(ln, 0xC0, 8);
      forall i: nat | i < 8 ensures Bit(And(ln, 0xC0), i) == Bit(0, i) { BitZero(i); }
      Extensional(And(ln, 0xC0), 0, 8);
    } else {
      HighBit(ln);
      BitZero(6);
      BitZero(7);
    }
  }

  lemma LowBitsOfC0(i: nat)
    requires i < 6
    ensures !Bit(0xC0, i)
  {
    assert Pow2(6) == 64;
    BitShl(3, 6, i);
  }

  lemma HighBit(ln: Byte)
    requires ln >= 64
    ensures (Bit(ln, 6) && Bit(0xC0, 6)) || (Bit(ln, 7) && Bit(0xC0, 7))
  {
    var six: nat := 6;
    assert Pow2(6) == 64;
    BitShl(3, six, 6);
    BitShl(3, six, 7);
    BitConcat(ln % 64, ln / 64, six, 6);
    BitConcat(ln % 64, ln / 64, six, 7);
    assert Bit(3, 0) && Bit(3, 1);
    assert 1 <= ln / 64 <= 3;
    assert Bit(ln / 64, 0) || Bit(ln / 64, 1);
  }

  datatype Labels = Labels(texts: seq<string>, end: nat) | Bad

  /** The labels of the name at off, and where it ends. */
  function LabelsAt(data: seq<Byte>, off: nat): (r: Labels)
    ensures r.Labels? ==> off < r.end <= |data|
    decreases |data| - off
  {
    if off >= |data| then Bad
    else
      var ln := data[off];
      if ln == 0 then Labels([], off + 1)
      else if CompressionBits(ln) || off + 1 + ln > |data| then Bad
      else
        Then([Lower(Decode(data[off + 1..off + 1 + ln]))], LabelsAt(data, off + 1 + ln))
  }

  function Then(texts: seq<string>, rest: Labels): Labels {
    if rest.Bad? then Bad else Labels(texts + rest.texts, rest.end)
  }

  lemma ThenOne(texts: seq<string>, t: string, rest: Labels)
    ensures Then(texts, Then([t], rest)) == Then(texts + [t], rest)
  {
    if rest.Labels? { assert texts + ([t] + rest.texts) == texts + [t] + rest.texts; }
  }

  lemma ThenNone(rest: Labels)
    ensures Then([], rest) == rest
  {
  }

  /** One turn of the loop. */
  lemma LabelsStep(data: seq<Byte>, off: nat, texts: seq<string>)
    ensures off >= |data| ==> Then(texts, LabelsAt(data, off)) == Bad
    ensures off < |data| && data[off] == 0 ==> Then(texts, LabelsAt(data, off)) == Labels(texts, off + 1)
    ensures off < |data| && data[off] != 0 ==>
              var ln := data[off];
              if CompressionBits(ln) || off + 1 + ln > |data| then Then(texts, LabelsAt(data, off)) == Bad
              else Then(texts, LabelsAt(data, off)) ==
                   Then(texts + [Lower(Decode(data[off + 1..off + 1 + ln]))], LabelsAt(data, off + 1 + ln))
  {
    hide CompressionBits, Decode, Lower;
    if off < |data| {
      var ln := data[off];
      if ln == 0 {
        assert texts + [] == texts;
      } else if !CompressionBits(ln) && off + 1 + ln <= |data| {
        ThenOne(texts, Lower(Decode(data[off + 1..off + 1 + ln])), LabelsAt(data, off + 1 + ln));
      }
    }
  }

  function Parsed(data: seq<Byte>): Option<Query> {
    if |data| < 12 || FromBE(data[4..6]) < 1 then None
    else
      var name := LabelsAt(data, 12);
      if name.Bad? || name.end + 4 > |data| then None
      else
        TwoBytes(data[name.end..name.end + 2]);
        Some(Query(data[..2], Join(name.texts), FromBE(data[name.end..name.end + 2])))
  }

  lemma TwoBytes(b: seq<Byte>)
    requires |b| == 2
    ensures FromBE(b) < 0x1_0000
  {
    hide FromBE;
    FromBEBound(b);
    Pow2Add(8, 8);
    Pow2Values();
  }

  /** None is DNSError. Every index is in bounds and the loop ends on any byte string. */
  method ParseQuery(data: seq<Byte>) returns (r: Option<Query>)
    ensures r == Parsed(data)
  {
    hide CompressionBits, Decode, FromBE, Lower, Join, LabelsAt, Then;
    if |data| < 12 { return None; }
    var qid := data[..2];
    var qdcount := FromBE(data[4..6]);
    if qdcount < 1 { return None; }
    var off := 12;
    var labels := [];
    ThenNone(LabelsAt(data, off));
    while true
      invariant 12 <= off
      invariant LabelsAt(data, 12) == Then(labels, LabelsAt(data, off))
      decreases |data| - off
    {
      LabelsStep(data, off, labels);
      if off >= |data| { return None; }
      var ln := data[off];
      off := off + 1;
      if ln == 0 { break; }
      if CompressionBits(ln) { return None; }
      if off + ln > |data| { return None; }
      labels := labels + [Lower(Decode(data[off..off + ln]))];
      off := off + ln;
    }
    if off + 4 > |data| { return None; }
    TwoBytes(data[off..off + 2]);
    r := Some(Query(qid, Join(labels), FromBE(data[off..off + 2])));
  }

  // ----- a name on the wire parses back -----

  /** The raw labels of a well-formed name, and its bytes. */
  predicate WellSized(raw: seq<seq<Byte>>) { forall i :: 0 <= i < |raw| ==> 1 <= |raw[i]| <= 63 }

  function RawWire(raw: seq<seq<Byte>>): seq<Byte>
    requires WellSized(raw)
  {
    if raw == [] then [] else WireLabel(raw[0]) + RawWire(raw[1..])
  }

  function Texts(raw: seq<seq<Byte>>): (t: seq<string>)
    ensures |t| == |raw|
  {
    if raw == [] then [] else [Lower(Decode(raw[0]))] + Texts(raw[1..])
  }

  lemma {:induction false} LabelsOfWire(data: seq<Byte>, off: nat, raw: seq<seq<Byte>>)
    requires WellSized(raw) && off <= |data| && RawWire(raw) + [0] <= data[off..]
    ensures LabelsAt(data, off) == Labels(Texts(raw), off + |RawWire(raw)| + 1)
    decreases |raw|
  {
    hide CompressionBits, Decode, Lower;
    var d := data[off..];
    if raw == [] {
      assert d[0] == 0;
    } else {
      var ln := |raw[0]|;
      CompressionBitsMeanLong(ln);
      assert RawWire(raw) + [0] == [ln] + raw[0] + (RawWire(raw[1..]) + [0]);
      assert d[0] == ln;
      assert data[off + 1..off + 1 + ln] == d[1..1 + ln] == raw[0];
      assert data[off] == ln && off + 1 + ln <= |data|;
      assert d[1 + ln..] == data[off + 1 + ln..];
      LabelsOfWire(data, off + 1 + ln, raw[1..]);
    }
  }

  /** What the parser accepts is such a name. */
  lemma {:induction false} WireOfLabels(data: seq<Byte>, off: nat) returns (raw: seq<seq<Byte>>)
    requires LabelsAt(data, off).Labels?
    ensures WellSized(raw) && off <= |data| && RawWire(raw) + [0] <= data[off..]
    ensures LabelsAt(data, off) == Labels(Texts(raw), off + |RawWire(raw)| + 1)
    decreases |data| - off
  {
    hide CompressionBits, Decode, Lower;
    var ln := data[off];
    CompressionBitsMeanLong(ln);
    if ln == 0 {
      raw := [];
    } else {
      var rest := WireOfLabels(data, off + 1 + ln);
      assert 1 <= ln <= 63 && off + 1 + ln <= |data|;
      raw := [data[off + 1..off + 1 + ln]] + rest;
      assert raw[1..] == rest;
      assert RawWire(raw) + [0] == [ln] + raw[0] + (RawWire(rest) + [0]);
      assert data[off..] == [ln] + raw[0] + data[off + 1 + ln..];
    }
  }

  ghost predicate WellFormed(data: seq<Byte>, raw: seq<seq<Byte>>) {
    && |data| >= 12 && FromBE(data[4..6]) >= 1 && WellSized(raw)
    && RawWire(raw) + [0] <= data[12..] && 12 + |RawWire(raw)| + 5 <= |data|
  }

  /** A query is accepted exactly when its header names a question and 1-to-63-byte labels, a
      zero and four more bytes follow — whatever comes after. */
  lemma AcceptedExactly(data: seq<Byte>)
    ensures Parsed(data).Some? <==> exists raw :: WellFormed(data, raw)
  {
    hide FromBE, Texts, RawWire, WellSized;
    if Parsed(data).Some? {
      var raw := WireOfLabels(data, 12);
      assert WellFormed(data, raw);
    }
    if raw :| WellFormed(data, raw) { LabelsOfWire(data, 12, raw); }
  }

  // ----- text and back -----

  predicate Ascii(s: string) { forall i :: 0 <= i < |s| ==> s[i] as int < 128 }

  lemma {:induction false} DecodeEncode(s: string)
    requires Ascii(s)
    ensures Decode(Encode(s)) == s && |Encode(s)| == |s|
  {
    if s != "" {
      var n := |s| - 1;
      DecodeEncode(s[..n]);
      var b := Encode(s);
      assert b[..n] == Encode(s[..n]);
      assert s == s[..n] + [s[n]];
    }
  }

  lemma {:induction false} EncodeShorter(s: string)
    ensures |Encode(s)| == |s| <==> Ascii(s)
  {
    if s != "" {
      var n := |s| - 1;
      EncodeShorter(s[..n]);
      if Ascii(s[..n]) && s[n] as int < 128 {
        forall i | 0 <= i < |s| ensures s[i] as int < 128 { if i < n { assert s[..n][i] == s[i]; } }
      }
      if Ascii(s) { assert s[n] as int < 128; }
    }
  }

  lemma {:induction false} DecodeLength(b: seq<Byte>)
    ensures |Decode(b)| <= |b|
  {
    if b != [] { DecodeLength(b[..|b| - 1]); }
  }

  lemma {:induction false} JoinSplit(s: string)
    ensures Join(Split(s)) == s
  {
    if s != "" {
      var n := |s| - 1;
      var rest := Split(s[..n]);
      JoinSplit(s[..n]);
      assert s == s[..n] + [s[n]];
      if s[n] == '.' {
        assert (rest + [""])[..|rest|] == rest;
      } else {
        JoinGrowsLast(rest, s[n]);
      }
    }
  }

  lemma JoinGrowsLast(labels: seq<string>, c: char)
    requires |labels| > 0
    ensures Join(labels[|labels| - 1 := labels[|labels| - 1] + [c]]) == Join(labels) + [c]
  {
    var n := |labels| - 1;
    var grown := labels[n := labels[n] + [c]];
    assert grown[..n] == labels[..n];
  }

  predicate DotFree(s: string) { forall i :: 0 <= i < |s| ==> s[i] != '.' }

  lemma {:induction false} SplitJoin(labels: seq<string>)
    requires |labels| > 0 && forall i :: 0 <= i < |labels| ==> DotFree(labels[i])
    ensures Split(Join(labels)) == labels
    decreases |labels|, |labels[|labels| - 1]|
  {
    var n := |labels| - 1;
    var last := labels[n];
    if last != "" {
      var shorter := labels[n := last[..|last| - 1]];
      SplitJoin(shorter);
      JoinGrowsLast(shorter, last[|last| - 1]);
      assert last[..|last| - 1] + [last[|last| - 1]] == last;
      assert shorter[n := last] == labels;
      var s := Join(shorter);
      assert (s + [last[|last| - 1]])[..|s|] == s;
    } else if n > 0 {
      SplitJoin(labels[..n]);
      var s := Join(labels[..n]);
      assert s + "." + "" == s + ".";
      assert (s + ".")[..|s|] == s;
      assert labels[..n] + [""] == labels;
    } else {
      assert labels == [""];
    }
  }

  lemma {:induction false} SplitDotFree(s: string)
    ensures forall i :: 0 <= i < |Split(s)| ==> DotFree(Split(s)[i])
  {
    if s != "" { SplitDotFree(s[..|s| - 1]); }
  }

  // ----- building a response -----

  /** Labels the encoder writes as they are: ASCII, 1 to 63 characters. */
  predicate LabelOk(s: string) { Ascii(s) && 1 <= |s| <= 63 }

  predicate NameOk(name: string) { name == "" || forall i :: 0 <= i < |Split(name)| ==> LabelOk(Split(name)[i]) }

  /** The label bytes the encoder writes for a name, up to the first that comes out empty,
      which ends the name early. */
  function Written(labels: seq<string>): (raw: seq<seq<Byte>>)
    ensures WellSized(raw)
  {
    if labels == [] then []
    else if labels[0] == "" then Written(labels[1..])
    else
      var b := LabelBytes(labels[0]);
      if b == [] then [] else [b] + Written(labels[1..])
  }

  /** What the encoder writes parses back as the written labels. */
  lemma {:induction false} EncodedParses(labels: seq<string>)
    ensures RawWire(Written(labels)) + [0] <= WireLabels(labels) + [0]
  {
    hide LabelBytes, WireLabel;
    if labels != [] {
      EncodedParses(labels[1..]);
      if labels[0] == "" {
        assert WireLabels(labels) == WireLabels(labels[1..]);
      } else {
        var b := LabelBytes(labels[0]);
        var rest := WireLabels(labels[1..]) + [0];
        assert WireLabels(labels) + [0] == WireLabel(b) + rest;
        if b == [] {
          ZeroFirst(b, rest);
        } else {
          var w := Written(labels);
          assert w[1..] == Written(labels[1..]);
          PrefixAfter(WireLabel(b), RawWire(w[1..]) + [0], rest);
          assert RawWire(w) + [0] == WireLabel(b) + (RawWire(w[1..]) + [0]);
        }
      }
    }
  }

  lemma ZeroFirst(b: seq<Byte>, rest: seq<Byte>)
    requires b == []
    ensures RawWire([]) + [0] <= WireLabel(b) + rest
  {
    assert WireLabel(b) == [0] && RawWire([]) + [0] == [0];
  }

  lemma PrefixAfter(a: seq<Byte>, x: seq<Byte>, y: seq<Byte>)
    requires x <= y
    ensures a + x <= a + y
  {
    assert y == x + y[|x|..];
    assert a + y == a + x + y[|x|..];
  }

  /** The ASCII characters of a text. */
  function AsciiPart(s: string): string {
    if s == "" then "" else (if s[0] as int < 128 then [s[0]] else "") + AsciiPart(s[1..])
  }

  lemma {:induction false} AsciiPartSnoc(s: string, c: char)
    ensures AsciiPart(s + [c]) == AsciiPart(s) + (if c as int < 128 then [c] else "")
  {
    if s == "" {
      assert [c][1..] == "";
    } else {
      assert (s + [c])[0] == s[0] && (s + [c])[1..] == s[1..] + [c];
      AsciiPartSnoc(s[1..], c);
    }
  }

  lemma {:induction false} EncodeKeepsAscii(s: string)
    ensures |Encode(s)| == |AsciiPart(s)| && forall i :: 0 <= i < |Encode(s)| ==> Encode(s)[i] == AsciiPart(s)[i] as int
  {
    if s != "" {
      var n := |s| - 1;
      EncodeKeepsAscii(s[..n]);
      AsciiPartSnoc(s[..n], s[n]);
      assert s == s[..n] + [s[n]];
    }
  }

  /** A label is written as its ASCII characters in order, cut after the 63rd. */
  lemma LabelCutExactly(text: string)
    ensures |LabelBytes(text)| == (if |AsciiPart(text)| < 63 then |AsciiPart(text)| else 63)
    ensures forall i :: 0 <= i < |LabelBytes(text)| ==> LabelBytes(text)[i] == AsciiPart(text)[i] as int
  {
    hide Encode, AsciiPart;
    EncodeKeepsAscii(text);
  }

  // ----- a name comes back as it went, exactly when the encoder can write it -----

  function Weight(labels: seq<string>): nat {
    if labels == [] then 0 else |labels[0]| + 1 + Weight(labels[1..])
  }

  lemma {:induction false} WeightSnoc(labels: seq<string>, x: string)
    ensures Weight(labels + [x]) == Weight(labels) + |x| + 1
  {
    if labels == [] {
      assert [] + [x] == [x] && [x][1..] == [];
    } else {
      WeightSnoc(labels[1..], x);
      assert (labels + [x])[1..] == labels[1..] + [x];
    }
  }

  lemma {:induction false} JoinLength(labels: seq<string>)
    requires labels != []
    ensures |Join(labels)| + 1 == Weight(labels)
  {
    var n := |labels| - 1;
    assert labels == labels[..n] + [labels[n]];
    WeightSnoc(labels[..n], labels[n]);
    if n > 0 { JoinLength(labels[..n]); } else { assert labels[..0] == []; }
  }

  predicate AllOk(labels: seq<string>) { forall i :: 0 <= i < |labels| ==> LabelOk(labels[i]) }

  lemma LabelWritten(s: string)
    requires s != ""
    ensures LabelOk(s) ==> Decode(LabelBytes(s)) == s && LabelBytes(s) != []
    ensures !LabelOk(s) ==> |Decode(LabelBytes(s))| < |s|
  {
    hide Decode, Encode;
    EncodeShorter(s);
    DecodeLength(LabelBytes(s));
    if LabelOk(s) { DecodeEncode(s); }
  }

  lemma {:induction false} WrittenWeight(labels: seq<string>)
    ensures Weight(Texts(Written(labels))) <= Weight(labels)
    ensures !AllOk(labels) ==> Weight(Texts(Written(labels))) < Weight(labels)
  {
    hide LabelBytes, Decode, LabelOk;
    if labels != [] {
      WrittenWeight(labels[1..]);
      var w := Written(labels);
      if !AllOk(labels) && LabelOk(labels[0]) {
        var i :| 0 <= i < |labels| && !LabelOk(labels[i]);
        assert labels[1..][i - 1] == labels[i];
      }
      if labels[0] != "" {
        LabelWritten(labels[0]);
        if LabelBytes(labels[0]) != [] {
          assert w[1..] == Written(labels[1..]);
          assert Texts(w)[1..] == Texts(w[1..]);
        }
      } else {
        EmptyNotOk();
      }
    }
  }

  lemma EmptyNotOk()
    ensures !LabelOk("")
  {
  }

  function LowerAll(labels: seq<string>): (r: seq<string>)
    ensures |r| == |labels|
  {
    seq(|labels|, i requires 0 <= i < |labels| => Lower(labels[i]))
  }

  lemma {:induction false} WrittenWhole(labels: seq<string>)
    requires AllOk(labels)
    ensures Texts(Written(labels)) == LowerAll(labels) && RawWire(Written(labels)) == WireLabels(labels)
  {
    hide LabelBytes, Decode, Lower, WireLabel;
    if labels != [] {
      WrittenWhole(labels[1..]);
      LabelWritten(labels[0]);
      var w := Written(labels);
      assert w[1..] == Written(labels[1..]);
      assert LowerAll(labels) == [Lower(labels[0])] + LowerAll(labels[1..]);
    }
  }

  lemma {:induction false} LowerJoin(labels: seq<string>)
    ensures Join(LowerAll(labels)) == Lower(Join(labels))
  {
    if |labels| > 1 {
      var n := |labels| - 1;
      LowerJoin(labels[..n]);
      assert LowerAll(labels)[..n] == LowerAll(labels[..n]);
    }
  }

  lemma WrittenNameExactly(name: string)
    ensures Join(Texts(Written(Split(name)))) == Lower(name) <==> NameOk(name)
  {
    hide Written, Texts, Lower, LabelOk, Split;
    var labels := Split(name);
    JoinSplit(name);
    if name == "" {
      EmptyName();
    } else if AllOk(labels) {
      WrittenWhole(labels);
      LowerJoin(labels);
    } else {
      WrittenWeight(labels);
      JoinLength(labels);
      if Texts(Written(labels)) != [] { JoinLength(Texts(Written(labels))); }
    }
  }

  lemma EmptyName()
    ensures Split("") == [""] && Written([""]) == [] && WireLabels([""]) == [] && Join(Texts([])) == "" && Lower("") == ""
  {
    assert [""][1..] == [];
    assert Written([]) == [];
  }

  /** A packet: header, name, type, anything. Reading it gives the name back in lower case
      exactly when every label is ASCII of 1 to 63 characters (or the name is empty). */
  lemma NameRoundTripExactly(head: seq<Byte>, name: string, qtype: U16, rest: seq<Byte>)
    requires |head| == 12 && FromBE(head[4..6]) >= 1 && |rest| >= 2
    ensures Parsed(head + (WireLabels(Split(name)) + [0]) + ToBE(qtype, 2) + rest) == Some(Query(head[..2], Lower(name), qtype)) <==> NameOk(name)
  {
    hide FromBE, ToBE, Written, Texts, Lower, LabelOk, Split, Join, RawWire, WireLabels, NameOk;
    var labels := Split(name);
    var wire := WireLabels(labels) + [0];
    var data := head + wire + ToBE(qtype, 2) + rest;
    var raw := Written(labels);
    EncodedParses(labels);
    Parts(head, wire, ToBE(qtype, 2), rest);
    PrefixTrans(RawWire(raw) + [0], wire, data[12..]);
    LabelsOfWire(data, 12, raw);
    WrittenNameExactly(name);
    SameHead(head, data);
    if NameOk(name) {
      WholeWire(name);
      QtypeBack(qtype);
    }
  }

  lemma Parts(head: seq<Byte>, wire: seq<Byte>, t: seq<Byte>, rest: seq<Byte>)
    requires |head| == 12 && |t| == 2
    ensures var data := head + wire + t + rest;
            && wire <= data[12..] && data[12 + |wire|..14 + |wire|] == t && |data| == 14 + |wire| + |rest|
  {
  }

  lemma PrefixTrans(a: seq<Byte>, b: seq<Byte>, c: seq<Byte>)
    requires a <= b <= c
    ensures a <= c
  {
  }

  lemma SameHead(head: seq<Byte>, data: seq<Byte>)
    requires |head| == 12 && head <= data
    ensures data[..2] == head[..2] && data[4..6] == head[4..6]
  {
  }

  lemma WholeWire(name: string)
    requires NameOk(name)
    ensures RawWire(Written(Split(name))) == WireLabels(Split(name))
  {
    hide LabelOk, Split;
    if name == "" { EmptyName(); } else { WrittenWhole(Split(name)); }
  }

  lemma QtypeBack(qtype: U16)
    ensures FromBE(ToBE(qtype, 2)) == qtype
  {
    hide FromBE, ToBE;
    Pow2Add(8, 8);
    Pow2Values();
    FromBEToBE(qtype, 2);
  }

  // ----- when the question goes back byte for byte -----

  /** ASCII, no capital, no dot. */
  predicate CleanByte(b: Byte) { b < 128 && b != 46 && !(65 <= b <= 90) }

  predicate CleanBytes(b: seq<Byte>) { forall i :: 0 <= i < |b| ==> CleanByte(b[i]) }

  predicate Clean(raw: seq<seq<Byte>>) { forall i :: 0 <= i < |raw| ==> CleanBytes(raw[i]) }

  lemma {:induction false} DecodeAscii(b: seq<Byte>)
    requires forall i :: 0 <= i < |b| ==> b[i] < 128
    ensures |Decode(b)| == |b| && forall i :: 0 <= i < |b| ==> Decode(b)[i] == b[i] as char
  {
    if b != [] { DecodeAscii(b[..|b| - 1]); }
  }

  lemma {:induction false} EncodeAscii(s: string)
    requires Ascii(s)
    ensures |Encode(s)| == |s| && forall i :: 0 <= i < |s| ==> Encode(s)[i] == s[i] as int
  {
    if s != "" { EncodeAscii(s[..|s| - 1]); }
  }

  /** A clean label is written back as it was read. */
  lemma CleanLabel(b: seq<Byte>)
    requires CleanBytes(b) && 1 <= |b| <= 63
    ensures var t := Lower(Decode(b));
            t != "" && DotFree(t) && LabelBytes(t) == b
  {
    hide Decode, Encode;
    DecodeAscii(b);
    var t := Lower(Decode(b));
    forall i | 0 <= i < |b| ensures t[i] == b[i] as char && t[i] != '.' { assert CleanByte(b[i]); }
    EncodeAscii(t);
    assert Encode(t) == b;
  }

  lemma {:induction false} CleanWire(raw: seq<seq<Byte>>)
    requires WellSized(raw) && Clean(raw)
    ensures WireLabels(Texts(raw)) == RawWire(raw)
    ensures forall i :: 0 <= i < |raw| ==> DotFree(Texts(raw)[i])
  {
    hide LabelBytes, Decode, Lower, WireLabel, CleanBytes;
    if raw != [] {
      CleanLabel(raw[0]);
      CleanWire(raw[1..]);
      var t := Texts(raw);
      assert t[1..] == Texts(raw[1..]);
      forall i | 0 <= i < |raw| ensures DotFree(t[i]) { if i > 0 { assert t[i] == t[1..][i - 1]; } }
    }
  }

  /** Two well-formed names of which one begins the other are one. */
  lemma {:induction false} PrefixCode(a: seq<seq<Byte>>, b: seq<seq<Byte>>)
    requires WellSized(a) && WellSized(b) && RawWire(a) + [0] <= RawWire(b) + [0]
    ensures a == b
  {
    hide RawWire;
    RawStart(a);
    RawStart(b);
    if a != [] {
      CutLabel(RawWire(a) + [0], RawWire(b) + [0], a[0], b[0], RawWire(a[1..]) + [0], RawWire(b[1..]) + [0]);
      PrefixCode(a[1..], b[1..]);
      assert a == [a[0]] + a[1..] && b == [b[0]] + b[1..];
    }
  }

  lemma RawStart(a: seq<seq<Byte>>)
    requires WellSized(a)
    ensures (RawWire(a) + [0])[0] == if a == [] then 0 else |a[0]|
    ensures a != [] ==> RawWire(a) + [0] == [|a[0]|] + a[0] + (RawWire(a[1..]) + [0])
  {
  }

  lemma CutLabel(x: seq<Byte>, y: seq<Byte>, p: seq<Byte>, q: seq<Byte>, u: seq<Byte>, v: seq<Byte>)
    requires |p| < 256 && |q| < 256 && x == [|p|] + p + u && y == [|q|] + q + v && x <= y
    ensures p == q && u <= v
  {
    assert x[0] == y[0];
    assert x[1..1 + |p|] == p && y[1..1 + |p|] == q;
    assert p == q by { forall i | 0 <= i < |p| ensures p[i] == q[i] { assert x[1 + i] == y[1 + i]; } }
    assert x[1 + |p|..] == u && y[1 + |p|..] == v;
    forall i | 0 <= i < |u| ensures u[i] == v[i] { assert x[1 + |p| + i] == y[1 + |p| + i]; }
  }

  predicate NoCapitals(s: string) { forall i :: 0 <= i < |s| ==> !('A' <= s[i] <= 'Z') }

  lemma {:induction false} JoinNoCapitals(labels: seq<string>)
    requires forall i :: 0 <= i < |labels| ==> NoCapitals(labels[i])
    ensures NoCapitals(Join(labels))
  {
    if |labels| > 1 {
      var n := |labels| - 1;
      JoinNoCapitals(labels[..n]);
      assert NoCapitals(labels[n]);
    }
  }

  lemma {:induction false} SplitNoCapitals(s: string)
    requires NoCapitals(s)
    ensures forall i :: 0 <= i < |Split(s)| ==> NoCapitals(Split(s)[i])
  {
    if s != "" { SplitNoCapitals(s[..|s| - 1]); }
  }

  lemma {:induction false} EncodeClean(s: string)
    requires DotFree(s) && NoCapitals(s)
    ensures CleanBytes(Encode(s))
  {
    if s != "" {
      var n := |s| - 1;
      EncodeClean(s[..n]);
    }
  }

  lemma {:induction false} WrittenClean(labels: seq<string>)
    requires forall i :: 0 <= i < |labels| ==> DotFree(labels[i]) && NoCapitals(labels[i])
    ensures Clean(Written(labels))
  {
    hide Encode;
    if labels != [] {
      EncodeClean(labels[0]);
      WrittenClean(labels[1..]);
    }
  }

  lemma {:induction false} TextsNoCapitals(raw: seq<seq<Byte>>)
    ensures forall i :: 0 <= i < |raw| ==> NoCapitals(Texts(raw)[i])
  {
    hide Decode;
    if raw != [] { TextsNoCapitals(raw[1..]); }
  }

  /** A response repeats the question of the query byte for byte exactly when every label is
      ASCII without capitals and dots. */
  lemma QuestionEchoedExactly(raw: seq<seq<Byte>>)
    requires WellSized(raw)
    ensures WireLabels(Split(Join(Texts(raw)))) == RawWire(raw) <==> Clean(raw)
  {
    hide Split, Join, Texts, Written, WireLabels, RawWire, NoCapitals, DotFree;
    var name := Join(Texts(raw));
    if Clean(raw) {
      CleanWire(raw);
      if raw == [] { EmptyName(); NoLabels(); } else { SplitJoin(Texts(raw)); }
    }
    if WireLabels(Split(name)) == RawWire(raw) {
      EncodedParses(Split(name));
      PrefixCode(Written(Split(name)), raw);
      TextsNoCapitals(raw);
      JoinNoCapitals(Texts(raw));
      SplitNoCapitals(name);
      SplitDotFree(name);
      WrittenClean(Split(name));
    }
  }

  lemma NoLabels()
    ensures Texts([]) == [] && RawWire([]) == []
  {
  }

  /** One label with a dot byte in it comes back as two. */
  lemma DottedLabelSplits(a: seq<Byte>, b: seq<Byte>)
    requires CleanBytes(a) && CleanBytes(b) && a != [] && b != [] && |a| + |b| < 63
    ensures WellSized([a + [46] + b]) && WellSized([a, b])
    ensures WireLabels(Split(Join(Texts([a + [46] + b])))) == RawWire([a, b])
  {
    hide Split, WireLabels, RawWire, Decode;
    var one, two := [a + [46] + b], [a, b];
    CleanWire(two);
    SplitJoin(Texts(two));
    var ta, tb := Lower(Decode(a)), Lower(Decode(b));
    assert two[1..] == [b] && [b][1..] == [] && one[1..] == [];
    assert Texts(two) == [ta, tb];
    DecodeAscii(a);
    DecodeAscii(b);
    DecodeAscii(one[0]);
    assert Texts(one) == [Lower(Decode(one[0]))];
    assert Lower(Decode(one[0])) == ta + "." + tb;
    assert [ta, tb][..1] == [ta];
  }

  // ----- responses -----

  function Flags(rcode: nat): nat { Or(0x8580, And(rcode, 0x0F)) }

  /** The response code in the low four bits, the authoritative answer bits above. */
  lemma FlagsCarryRcode(rcode: nat)
    ensures Flags(rcode) == 0x8580 + rcode % 16
    ensures ToBE(Flags(rcode), 2)[1] % 16 == rcode % 16
  {
    hide And, Or;
    assert Pow2(4) == 16;
    AndOnes(rcode, 4);
    OrComm(0x8580, rcode % 16);
    OrDisjoint(rcode % 16, 0x858, 4);
    var f := Flags(rcode);
    assert ToBE(f, 2)[1] == f % 256;
  }

  function Rcode(data: seq<Byte>): nat
    requires |data| >= 12
  {
    data[3] % 16
  }

  function Header(id: seq<Byte>, rcode: nat, answers: nat): seq<Byte> {
    id + ToBE(Flags(rcode), 2) + [0, 1] + ToBE(answers, 2) + [0, 0, 0, 0]
  }

  /** An A record for the name at offset 12, TTL 60. */
  function AnswerRecord(ip: Addr): seq<Byte> { [0xC0, 0x0C, 0, 1, 0, 1, 0, 0, 0, 60, 0, 4] + ToBE(ip, 4) }

  function BuildResponse(id: seq<Byte>, name: string, qtype: U16, ip: Option<Addr>, rcode: nat): seq<Byte> {
    Header(id, rcode, if ip.Some? then 1 else 0)
    + (WireLabels(Split(name)) + [0]) + ToBE(qtype, 2)
    + ([0, 1] + (if ip.Some? then AnswerRecord(ip.value) else []))
  }

  /** A resource record as section 4.1.3 of RFC 1035 lays it out, with four bytes of data. */
  datatype Record = Record(name: string, rtype: nat, rclass: nat, ttl: nat, addr: Addr)

  /** Reading the first answer of a packet: follow the reference for its name. */
  function FirstAnswer(data: seq<Byte>): Option<Record> {
    if |data| < 12 || FromBE(data[6..8]) < 1 then None
    else
      var question := LabelsAt(data, 12);
      if question.Bad? || question.end + 4 + 16 > |data| then None
      else
        var a := data[question.end + 4..question.end + 20];
        if a[0] < 0xC0 || FromBE(a[10..12]) != 4 then None
        else
          var hi: nat, lo: nat := a[0] - 0xC0, a[1];
          var name := LabelsAt(data, hi * 256 + lo);
          FourBytes(a[12..16]);
          if name.Bad? then None
          else Some(Record(Join(name.texts), FromBE(a[2..4]), FromBE(a[4..6]), FromBE(a[6..10]), FromBE(a[12..16])))
  }

  /** The rest of a packet with one question: flags, the four counts, and the question's class. */
  datatype Rest = Rest(flags: nat, questions: nat, answers: nat, authority: nat, additional: nat, qclass: nat)

  function ReadRest(data: seq<Byte>): Option<Rest> {
    if |data| < 12 then None
    else
      var question := LabelsAt(data, 12);
      if question.Bad? || question.end + 4 > |data| then None
      else
        Some(Rest(FromBE(data[2..4]), FromBE(data[4..6]), FromBE(data[6..8]), FromBE(data[8..10]), FromBE(data[10..12]),
                  FromBE(data[question.end + 2..question.end + 4])))
  }

  /** Where the question ends. */
  function QuestionEnd(data: seq<Byte>): nat {
    var question := LabelsAt(data, 12);
    if question.Bad? then 0 else question.end + 4
  }

  lemma FourBytes(b: seq<Byte>)
    requires |b| == 4
    ensures FromBE(b) < 0x1_0000_0000
  {
    hide FromBE;
    FromBEBound(b);
    Pow2Add(16, 16);
    Pow2Add(8, 8);
    Pow2Values();
  }

  lemma HeaderParts(id: seq<Byte>, rcode: nat, answers: nat)
    requires |id| == 2 && answers <= 1
    ensures var h := Header(id, rcode, answers);
            && |h| == 12 && h[..2] == id && h[3] % 16 == rcode % 16 && FromBE(h[2..4]) == 0x8580 + rcode % 16
            && FromBE(h[4..6]) == 1 && FromBE(h[6..8]) == answers && FromBE(h[8..10]) == FromBE(h[10..12]) == 0
  {
    hide FromBE, ToBE, Flags;
    var h := Header(id, rcode, answers);
    FlagsCarryRcode(rcode);
    assert h[3] == ToBE(Flags(rcode), 2)[1];
    QtypeBack(0x8580 + rcode % 16);
    QtypeBack(answers);
    assert h[2..4] == ToBE(Flags(rcode), 2) && h[6..8] == ToBE(answers, 2);
    assert h[4..6] == [0, 1] && h[8..10] == [0, 0] && h[10..12] == [0, 0];
    SmallBE(0);
    SmallBE(1);
  }

  lemma SmallBE(x: Byte)
    ensures FromBE([0, x]) == x && FromBE([0, 0, 0, x]) == x
  {
    var two: seq<Byte>, four: seq<Byte> := [0, x], [0, 0, 0, x];
    assert two[..1] == [0] && two[..1][..0] == [];
    assert four[..3] == [0, 0, 0] && four[..3][..2] == [0, 0] && four[..3][..2][..1] == [0] && four[..3][..2][..1][..0] == [];
    assert FromBE(two[..1]) == 0 && FromBE(four[..3][..2][..1]) == 0;
    assert FromBE(four[..3][..2]) == 0 && FromBE(four[..3]) == 0;
  }

  /** A response carries the query's id, name and type, exactly for encodable names. */
  lemma ResponseEchoesExactly(id: seq<Byte>, name: string, qtype: U16, ip: Option<Addr>, rcode: nat)
    requires |id| == 2
    ensures Parsed(BuildResponse(id, name, qtype, ip, rcode)) == Some(Query(id, Lower(name), qtype)) <==> NameOk(name)
  {
    hide FromBE, ToBE, Header, Lower, Split, NameOk, Parsed, WireLabels, AnswerRecord;
    HeaderParts(id, rcode, if ip.Some? then 1 else 0);
    NameRoundTripExactly(Header(id, rcode, if ip.Some? then 1 else 0), name, qtype,
                         [0, 1] + (if ip.Some? then AnswerRecord(ip.value) else []));
  }

  /** The answer read back is an A record of the Internet class that lives a minute, for the
      address asked for, under the question's name. */
  lemma AnswerReadsBack(id: seq<Byte>, name: string, qtype: U16, ip: Option<Addr>, rcode: nat)
    requires |id| == 2 && NameOk(name)
    ensures FirstAnswer(BuildResponse(id, name, qtype, ip, rcode)) ==
            if ip.Some? then Some(Record(Lower(name), 1, 1, 60, ip.value)) else None
  {
    hide FromBE, ToBE, Header, Lower, Split, NameOk, WireLabels, Written, Texts, RawWire, Join, FirstAnswer, LabelsAt, AnswerRecord;
    var n := if ip.Some? then 1 else 0;
    var head := Header(id, rcode, n);
    HeaderParts(id, rcode, n);
    var wire := WireLabels(Split(name)) + [0];
    var data := BuildResponse(id, name, qtype, ip, rcode);
    var rest := [0, 1] + (if ip.Some? then AnswerRecord(ip.value) else []);
    CountField(head, wire, ToBE(qtype, 2), rest);
    if ip.Some? {
      var a := AnswerRecord(ip.value);
      QuestionOf(head, name, ToBE(qtype, 2), rest);
      AddressBack(ip.value);
      Tail(head, wire, ToBE(qtype, 2), [0, 1], a);
      FirstAnswerIs(data, LabelsAt(data, 12), a);
    } else {
      NoAnswer(data);
    }
  }

  /** The question of a packet that begins so. */
  lemma QuestionOf(head: seq<Byte>, name: string, t: seq<Byte>, rest: seq<Byte>)
    requires |head| == 12 && |t| == 2 && NameOk(name)
    ensures var wire := WireLabels(Split(name)) + [0];
            var q := LabelsAt(head + wire + t + rest, 12);
            q.Labels? && q.end == 12 + |wire| && Join(q.texts) == Lower(name)
  {
    hide Lower, Split, NameOk, WireLabels, Written, Texts, RawWire, Join, LabelsAt;
    var wire := WireLabels(Split(name)) + [0];
    WholeWire(name);
    WrittenNameExactly(name);
    Parts(head, wire, t, rest);
    LabelsOfWire(head + wire + t + rest, 12, Written(Split(name)));
  }

  /** Everything else in a response, too, is as section 4.1 of RFC 1035 has it: an authoritative
      answer with recursion on, one question of the Internet class, at most one answer, and
      nothing after it. */
  lemma ResponseReads(id: seq<Byte>, name: string, qtype: U16, ip: Option<Addr>, rcode: nat)
    requires |id| == 2 && NameOk(name)
    ensures var data := BuildResponse(id, name, qtype, ip, rcode);
            && ReadRest(data) == Some(Rest(0x8000 + 0x400 + 0x100 + 0x80 + rcode % 16, 1, if ip.Some? then 1 else 0, 0, 0, 1))
            && |data| == QuestionEnd(data) + (if ip.Some? then 16 else 0)
  {
    hide FromBE, ToBE, Header, Lower, Split, NameOk, WireLabels, Join, LabelsAt, AnswerRecord;
    var n := if ip.Some? then 1 else 0;
    var head := Header(id, rcode, n);
    HeaderParts(id, rcode, n);
    var wire := WireLabels(Split(name)) + [0];
    var data := BuildResponse(id, name, qtype, ip, rcode);
    var record := if ip.Some? then AnswerRecord(ip.value) else [];
    if ip.Some? { AddressBack(ip.value); }
    QuestionOf(head, name, ToBE(qtype, 2), [0, 1] + record);
    HeadFields(head, wire + ToBE(qtype, 2) + ([0, 1] + record));
    assert data == head + (wire + ToBE(qtype, 2) + ([0, 1] + record));
    ClassField(head, wire, ToBE(qtype, 2), [0, 1], record);
    SmallBE(1);
  }

  lemma HeadFields(head: seq<Byte>, rest: seq<Byte>)
    requires |head| == 12
    ensures var d := head + rest;
            d[2..4] == head[2..4] && d[4..6] == head[4..6] && d[6..8] == head[6..8] && d[8..10] == head[8..10] && d[10..12] == head[10..12]
  {
  }

  lemma ClassField(head: seq<Byte>, wire: seq<Byte>, t: seq<Byte>, c: seq<Byte>, a: seq<Byte>)
    requires |head| == 12 && |t| == 2 && |c| == 2
    ensures (head + wire + t + (c + a))[14 + |wire|..16 + |wire|] == c
  {
  }

  lemma NoAnswer(data: seq<Byte>)
    requires |data| >= 12 && FromBE(data[6..8]) == 0
    ensures FirstAnswer(data) == None
  {
  }

  /** An answer record whose name is the question's. */
  lemma FirstAnswerIs(data: seq<Byte>, question: Labels, a: seq<Byte>)
    requires |data| >= 12 && FromBE(data[6..8]) == 1 && question == LabelsAt(data, 12) && question.Labels?
    requires question.end + 20 <= |data| && data[question.end + 4..question.end + 20] == a
    requires a[0] == 0xC0 && a[1] == 12 && FromBE(a[10..12]) == 4
    ensures FirstAnswer(data).Some?
    ensures FirstAnswer(data).value
            == Record(Join(question.texts), FromBE(a[2..4]), FromBE(a[4..6]), FromBE(a[6..10]), FromBE(a[12..16]))
  {
    hide FromBE, LabelsAt, Join;
  }

  lemma CountField(head: seq<Byte>, wire: seq<Byte>, t: seq<Byte>, rest: seq<Byte>)
    requires |head| == 12
    ensures (head + wire + t + rest)[6..8] == head[6..8]
  {
  }

  lemma Tail(head: seq<Byte>, wire: seq<Byte>, t: seq<Byte>, c: seq<Byte>, a: seq<Byte>)
    requires |head| == 12 && |t| == 2 && |c| == 2 && |a| == 16
    ensures (head + wire + t + (c + a))[16 + |wire|..32 + |wire|] == a
  {
  }

  lemma AddressBack(ip: Addr)
    ensures var a := AnswerRecord(ip);
            && |a| == 16 && a[0] == 0xC0 && a[1] == 12 && FromBE(a[2..4]) == 1 && FromBE(a[4..6]) == 1
            && FromBE(a[6..10]) == 60 && FromBE(a[10..12]) == 4 && FromBE(a[12..16]) == ip
  {
    hide FromBE, ToBE, AnswerRecord;
    Pow2Add(16, 16);
    Pow2Add(8, 8);
    Pow2Values();
    FromBEToBE(ip, 4);
    RecordParts(ip);
    SmallBE(1);
    SmallBE(4);
    SmallBE(60);
  }

  lemma RecordParts(ip: Addr)
    ensures var a := AnswerRecord(ip);
            && |a| == 16 && a[0] == 0xC0 && a[1] == 12 && a[2..4] == [0, 1] && a[4..6] == [0, 1] && a[6..10] == [0, 0, 0, 60]
            && a[10..12] == [0, 4] && a[12..16] == ToBE(ip, 4)
  {
    hide ToBE;
  }

  // ----- answering -----

  predicate EndsWith(s: string, t: string) { |t| <= |s| && s[|s| - |t|..] == t }

  /** None means: ask the upstream resolver. */
  function AnswerFor(q: Query, suffix: string, lookup: string -> Option<Addr>): Option<seq<Byte>> {
    var dotted := "." + suffix;
    if q.name != suffix && !EndsWith(q.name, dotted) then None
    else
      var host := if EndsWith(q.name, dotted) then q.name[..|q.name| - |dotted|] else "";
      var ip := if host != "" then lookup(host) else None;
      if q.qtype == QTYPE_A && ip.Some? then Some(BuildResponse(q.id, q.name, q.qtype, ip, 0))
      else if ip.Some? then Some(BuildResponse(q.id, q.name, q.qtype, None, 0))
      else Some(BuildResponse(q.id, q.name, q.qtype, None, 3))
  }

  /** `<host>.<suffix>` is answered with the host's address, under the name asked for. */
  lemma HostAnswered(id: seq<Byte>, host: string, suffix: string, qtype: U16, lookup: string -> Option<Addr>)
    requires |id| == 2 && host != "" && NameOk(host + "." + suffix)
    ensures var q := Query(id, host + "." + suffix, qtype);
            && AnswerFor(q, suffix, lookup).Some?
            && var resp := AnswerFor(q, suffix, lookup).value;
               && Parsed(resp) == Some(Query(id, Lower(q.name), qtype))
               && |resp| >= 12 && Rcode(resp) == (if lookup(host).Some? then 0 else 3)
               && FirstAnswer(resp) == if qtype == 1 && lookup(host).Some? then Some(Record(Lower(q.name), 1, 1, 60, lookup(host).value)) else None
  {
    hide BuildResponse, Parsed, FirstAnswer, NameOk, Lower;
    var name := host + "." + suffix;
    var dotted := "." + suffix;
    assert name == host + dotted;
    assert name[|name| - |dotted|..] == dotted && name[..|name| - |dotted|] == host;
    var ip := if qtype == QTYPE_A then lookup(host) else None;
    var rcode := if lookup(host).Some? then 0 else 3;
    ResponseEchoesExactly(id, name, qtype, ip, rcode);
    AnswerReadsBack(id, name, qtype, ip, rcode);
    ResponseRcode(id, name, qtype, ip, rcode);
  }

  /** Exactly the suffix and the names under it are answered here; the bare suffix does not exist. */
  lemma AnsweredExactly(q: Query, suffix: string, lookup: string -> Option<Addr>)
    requires |q.id| == 2
    ensures AnswerFor(q, suffix, lookup).Some? <==> q.name == suffix || exists host :: q.name == host + "." + suffix
    ensures q.name == suffix ==>
              var resp := AnswerFor(q, suffix, lookup).value;
              |resp| >= 12 && Rcode(resp) == 3 && resp == BuildResponse(q.id, q.name, q.qtype, None, 3)
  {
    hide BuildResponse;
    var dotted := "." + suffix;
    if EndsWith(q.name, dotted) {
      var host := q.name[..|q.name| - |dotted|];
      assert q.name == host + dotted == host + "." + suffix;
    }
    if host :| q.name == host + "." + suffix {
      assert q.name == host + dotted;
      assert q.name[|q.name| - |dotted|..] == dotted;
    }
    ResponseRcode(q.id, q.name, q.qtype, None, 3);
  }

  lemma ResponseRcode(id: seq<Byte>, name: string, qtype: U16, ip: Option<Addr>, rcode: nat)
    requires |id| == 2
    ensures |BuildResponse(id, name, qtype, ip, rcode)| >= 12 && Rcode(BuildResponse(id, name, qtype, ip, rcode)) == rcode % 16
  {
    hide Header, WireLabels, Split, ToBE, FromBE, AnswerRecord;
    HeaderParts(id, rcode, if ip.Some? then 1 else 0);
  }
}
