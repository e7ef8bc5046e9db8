/** The raw protocol's type-length-value records (src/workloads/raw-protocol.ts). */
module Tlv {
  import opened Wrappers
  import opened BigEndian

  const ESCAPE: byte := 0xff

  datatype Record = Record(typ: int, payload: seq<byte>)

  datatype TlvError =
    | TypeOutsideU16(typ: int)
    | PayloadTooLarge(length: nat)
    | EndedInEscapedType
    | EndedInLength
    | IncompleteValue(need: nat, have: nat)
    | EmptyFrame

  predicate Encodable(r: Record) {
    0 <= r.typ <= 0xffff && |r.payload| <= 0xffff
  }

  // ---------- the wire grammar ----------

  /** A record as it lies on the wire: with a one-byte type or with an escaped two-byte type. */
  datatype Framed = Framed(record: Record, escaped: bool)
  {
    predicate WellFormed() {
      Encodable(record) && (!escaped ==> record.typ < 0xff)
    }

    function Bytes(): (b: seq<byte>)
      requires WellFormed()
      ensures |b| == Size()
    {
      (if escaped then [ESCAPE] + U16(record.typ) else [record.typ])
      + U16(|record.payload|) + record.payload
    }

    function Size(): nat {
      (if escaped then 5 else 3) + |record.payload|
    }

    /** An escaped type that the one-byte form could have carried. */
    predicate Overlong() {
      escaped && record.typ < 0xff
    }
  }

  predicate AllWellFormed(fs: seq<Framed>) {
    forall i :: 0 <= i < |fs| ==> fs[i].WellFormed()
  }

  /** The frame that a list of framed records makes up. */
  function Image(fs: seq<Framed>): (b: seq<byte>)
    requires AllWellFormed(fs)
  {
    if fs == [] then [] else fs[0].Bytes() + Image(fs[1..])
  }

  function Records(fs: seq<Framed>): (rs: seq<Record>)
    ensures |rs| == |fs| && forall i :: 0 <= i < |fs| ==> rs[i] == fs[i].record
  {
    seq(|fs|, i requires 0 <= i < |fs| => fs[i].record)
  }

  lemma RecordsAppend(fs: seq<Framed>, f: Framed)
    ensures Records(fs + [f]) == Records(fs) + [f.record]
  {
  }

  // ---------- encoding ----------

  /** The form the encoder picks: escaped only when the type needs it. */
  function Minimal(r: Record): Framed {
    Framed(r, r.typ > 0xfe)
  }

  function Minimals(rs: seq<Record>): (fs: seq<Framed>)
    ensures |fs| == |rs| && forall i :: 0 <= i < |fs| ==> fs[i] == Minimal(rs[i])
  {
    seq(|rs|, i requires 0 <= i < |rs| => Minimal(rs[i]))
  }

  predicate AllEncodable(rs: seq<Record>) {
    forall i :: 0 <= i < |rs| ==> Encodable(rs[i])
  }

  /** Concatenated `encodeTlv` output. */
  function EncodeAll(rs: seq<Record>): seq<byte>
    requires AllEncodable(rs)
  {
    Image(Minimals(rs))
  }

  method EncodeTlv(typ: int, payload: seq<byte>) returns (r: Result<array<byte>, TlvError>)
    ensures r.Ok? <==> Encodable(Record(typ, payload))
    ensures r.Ok? ==> fresh(r.value) && r.value[..] == Minimal(Record(typ, payload)).Bytes()
    ensures r.Err? ==> r.error ==
                       if typ < 0 || typ > 0xffff then TypeOutsideU16(typ) else PayloadTooLarge(|payload|)
  {
    if typ < 0 || typ > 0xffff {
      return Err(TypeOutsideU16(typ));
    }
    if |payload| > 0xffff {
      return Err(PayloadTooLarge(|payload|));
    }
    var typeBytes := if typ <= 0xfe then 1 else 3;
    var result := new byte[typeBytes + 2 + |payload|];
    var offset := 0;
    if typ <= 0xfe {
      result[offset] := typ;
      offset := offset + 1;
    } else {
      result[offset] := ESCAPE;
      result[offset + 1] := typ / 0x100;
      result[offset + 2] := typ % 0x100;
      offset := offset + 3;
    }
    ghost var typePart := if typ <= 0xfe then [typ] else [ESCAPE] + U16(typ);
    assert result[..offset] == typePart;
    result[offset] := |payload| / 0x100;
    result[offset + 1] := |payload| % 0x100;
    offset := offset + 2;
    assert result[..offset] == typePart + U16(|payload|);
    forall i | 0 <= i < |payload| {
      result[offset + i] := payload[i];
    }
    assert result[..offset] == typePart + U16(|payload|);
    assert result[..] == result[..offset] + payload;
    r := Ok(result);
  }

  // ---------- decoding ----------

  /** The record at the front of a non-empty buffer. */
  function DecodeHead(b: seq<byte>): Result<Framed, TlvError>
    requires b != []
  {
    var escaped := b[0] == ESCAPE;
    if escaped && |b| < 3 then Err(EndedInEscapedType)
    else
      var at := if escaped then 3 else 1;
      var typ := if escaped then ReadU16(b[1..3]) else b[0];
      if |b| < at + 2 then Err(EndedInLength)
      else
        var length := ReadU16(b[at..at + 2]);
        if |b| < at + 2 + length then Err(IncompleteValue(length, |b| - at - 2))
        else Ok(Framed(Record(typ, b[at + 2..at + 2 + length]), escaped))
  }

  function Prepend(front: seq<Framed>, r: Result<seq<Framed>, TlvError>): Result<seq<Framed>, TlvError> {
    match r
    case Err(e) => Err(e)
    case Ok(fs) => Ok(front + fs)
  }

  lemma PrependPrepend(a: seq<Framed>, b: seq<Framed>, r: Result<seq<Framed>, TlvError>)
    ensures Prepend(a, Prepend(b, r)) == Prepend(a + b, r)
    ensures Prepend([], r) == r
  {
    if r.Ok? {
      assert a + (b + r.value) == a + b + r.value;
      assert [] + r.value == r.value;
    }
  }

  function Parse(b: seq<byte>): Result<seq<Framed>, TlvError>
    decreases |b|
  {
    if b == [] then Ok([])
    else
      match DecodeHead(b)
      case Err(e) => Err(e)
      case Ok(f) =>
        HeadTiles(b);
        Prepend([f], Parse(b[f.Size()..]))
  }

  function Decode(frame: seq<byte>): Result<seq<Record>, TlvError> {
    if frame == [] then Err(EmptyFrame)
    else
      match Parse(frame)
      case Err(e) => Err(e)
      case Ok(fs) => Ok(Records(fs))
  }

  /** What the decoder's index arithmetic finds at an offset of the frame. */
  function HeadAt(frame: seq<byte>, offset: nat): Result<Framed, TlvError>
    requires offset < |frame|
  {
    var escaped := frame[offset] == ESCAPE;
    var at := if escaped then offset + 3 else offset + 1;
    if at > |frame| then Err(EndedInEscapedType)
    else if at + 2 > |frame| then Err(EndedInLength)
    else
      var typ := if escaped then frame[offset + 1] as int * 0x100 + frame[offset + 2] else frame[offset];
      var length := frame[at] as int * 0x100 + frame[at + 1];
      if at + 2 + length > |frame| then Err(IncompleteValue(length, |frame| - at - 2))
      else Ok(Framed(Record(typ, frame[at + 2..at + 2 + length]), escaped))
  }

  lemma ReadU16At(b: seq<byte>, i: nat)
    requires i + 2 <= |b|
    ensures ReadU16(b[i..i + 2]) == b[i] as int * 0x100 + b[i + 1]
  {
    assert b[i..i + 2] == [b[i], b[i + 1]];
  }

  lemma SuffixSlice(frame: seq<byte>, offset: nat, i: nat, n: nat)
    requires offset + i + n <= |frame|
    ensures frame[offset..][i..i + n] == frame[offset + i..offset + i + n]
  {
  }

  lemma HeadAtSuffix(frame: seq<byte>, offset: nat)
    requires offset < |frame|
    ensures HeadAt(frame, offset) == DecodeHead(frame[offset..])
  {
    var rest := frame[offset..];
    var escaped := rest[0] == ESCAPE;
    var at := if escaped then 3 else 1;
    if escaped && |rest| >= 3 {
      ReadU16At(rest, 1);
    }
    if |rest| >= at + 2 {
      ReadU16At(rest, at);
      var length := ReadU16(rest[at..at + 2]);
      if |rest| >= at + 2 + length {
        SuffixSlice(frame, offset, at + 2, length);
      }
    }
  }

  lemma ParseStep(b: seq<byte>)
    requires b != []
    ensures DecodeHead(b).Err? ==> Parse(b) == Err(DecodeHead(b).error)
    ensures DecodeHead(b).Ok? ==>
              var f := DecodeHead(b).value;
              f.Size() <= |b| && Parse(b) == Prepend([f], Parse(b[f.Size()..]))
  {
    if DecodeHead(b).Ok? {
      HeadTiles(b);
    }
  }

  lemma Behind(frame: seq<byte>, offset: nat, n: nat)
    requires offset + n <= |frame|
    ensures frame[offset..][n..] == frame[offset + n..]
  {
  }

  lemma ParseAt(frame: seq<byte>, offset: nat)
    requires offset < |frame|
    ensures HeadAt(frame, offset).Err? ==> Parse(frame[offset..]) == Err(HeadAt(frame, offset).error)
    ensures HeadAt(frame, offset).Ok? ==>
              var f := HeadAt(frame, offset).value;
              && offset + f.Size() <= |frame|
              && Parse(frame[offset..]) == Prepend([f], Parse(frame[offset + f.Size()..]))
  {
    HeadAtSuffix(frame, offset);
    ParseStep(frame[offset..]);
    if HeadAt(frame, offset).Ok? {
      Behind(frame, offset, HeadAt(frame, offset).value.Size());
    }
  }

  /** The decoder has read `framed` and stands at `offset`: the rest decides. */
  ghost predicate ReadSoFar(frame: seq<byte>, framed: seq<Framed>, offset: nat) {
    && offset <= |frame| && (offset > 0 <==> framed != [])
    && Parse(frame) == Prepend(framed, Parse(frame[offset..]))
  }

  lemma ReadNothing(frame: seq<byte>)
    ensures ReadSoFar(frame, [], 0)
  {
    assert frame[0..] == frame;
    PrependPrepend([], [], Parse(frame));
  }

  lemma ReadNext(frame: seq<byte>, framed: seq<Framed>, offset: nat)
    requires offset < |frame| && ReadSoFar(frame, framed, offset)
    ensures HeadAt(frame, offset).Err? ==> Decode(frame) == Err(HeadAt(frame, offset).error)
    ensures HeadAt(frame, offset).Ok? ==>
              var f := HeadAt(frame, offset).value;
              && ReadSoFar(frame, framed + [f], offset + f.Size())
              && Records(framed + [f]) == Records(framed) + [f.record]
  {
    ParseAt(frame, offset);
    if HeadAt(frame, offset).Ok? {
      var f := HeadAt(frame, offset).value;
      PrependPrepend(framed, [f], Parse(frame[offset + f.Size()..]));
      RecordsAppend(framed, f);
    }
  }

  lemma ReadAll(frame: seq<byte>, framed: seq<Framed>)
    requires ReadSoFar(frame, framed, |frame|)
    ensures Decode(frame) == if framed == [] then Err(EmptyFrame) else Ok(Records(framed))
  {
    assert frame[|frame|..] == [] && framed + [] == framed;
  }

  /** One turn of the decoder's loop: the record at `offset` and the offset behind it. */
  method DecodeRecord(frame: seq<byte>, start: nat) returns (r: Result<Record, TlvError>, offset: nat)
    requires start < |frame|
    ensures HeadAt(frame, start).Err? ==> r == Err(HeadAt(frame, start).error)
    ensures HeadAt(frame, start).Ok? ==>
              var f := HeadAt(frame, start).value;
              r == Ok(f.record) && offset == start + f.Size()
  {
    offset := start;
    var marker := frame[offset];
    offset := offset + 1;
    var typ: int;
    if marker == ESCAPE {
      if offset + 2 > |frame| {
        return Err(EndedInEscapedType), offset;
      }
      typ := frame[offset] as int * 0x100 + frame[offset + 1];
      offset := offset + 2;
    } else {
      typ := marker;
    }
    if offset + 2 > |frame| {
      return Err(EndedInLength), offset;
    }
    var length := frame[offset] as int * 0x100 + frame[offset + 1];
    offset := offset + 2;
    if offset + length > |frame| {
      return Err(IncompleteValue(length, |frame| - offset)), offset;
    }
    r := Ok(Record(typ, frame[offset..offset + length]));
    offset := offset + length;
  }

  method DecodeTlvs(frame: seq<byte>) returns (r: Result<seq<Record>, TlvError>)
    ensures r == Decode(frame)
  {
    var records: seq<Record> := [];
    ghost var framed: seq<Framed> := [];
    var offset := 0;
    ReadNothing(frame);
    while offset < |frame|
      invariant ReadSoFar(frame, framed, offset)
      invariant records == Records(framed) && |records| == |framed|
      decreases |frame| - offset
    {
      ghost var head := HeadAt(frame, offset);
      ReadNext(frame, framed, offset);
      var record;
      record, offset := DecodeRecord(frame, offset);
      if record.Err? {
        return Err(record.error);
      }
      framed := framed + [head.value];
      records := records + [record.value];
    }
    ReadAll(frame, framed);
    if |records| == 0 {
      return Err(EmptyFrame);
    }
    r := Ok(records);
  }

  // ---------- the decoder and the grammar agree ----------

  lemma HeadTiles(b: seq<byte>)
    requires b != [] && DecodeHead(b).Ok?
    ensures var f := DecodeHead(b).value;
            f.WellFormed() && 0 < |f.Bytes()| <= |b| && b[..|f.Bytes()|] == f.Bytes()
  {
    var f := DecodeHead(b).value;
    var at := if f.escaped then 3 else 1;
    var length := b[at..at + 2];
    WriteReadU16(length);
    if f.escaped {
      WriteReadU16(b[1..3]);
      assert b[..3] == [ESCAPE] + b[1..3];
    } else {
      assert b[..1] == [f.record.typ];
    }
    assert b[..at + 2] == b[..at] + length;
    assert b[..at + 2 + ReadU16(length)] == b[..at + 2] + f.record.payload;
  }

  /** How the bytes of a framed record, followed by anything, look to the decoder. */
  lemma BytesLayout(f: Framed, rest: seq<byte>)
    requires f.WellFormed()
    ensures var b := f.Bytes() + rest;
            var at := if f.escaped then 3 else 1;
            && b[0] == (if f.escaped then ESCAPE else f.record.typ)
            && (f.escaped ==> b[1..3] == U16(f.record.typ))
            && b[at..at + 2] == U16(|f.record.payload|)
            && b[at + 2..at + 2 + |f.record.payload|] == f.record.payload
  {
    var front := if f.escaped then [ESCAPE] + U16(f.record.typ) else [f.record.typ];
    Slices(front, U16(|f.record.payload|), f.record.payload, rest);
    assert f.Bytes() == front + U16(|f.record.payload|) + f.record.payload;
    if f.escaped {
      assert front[1..3] == U16(f.record.typ);
      assert (f.Bytes() + rest)[1..3] == front[1..3];
    }
  }

  lemma Slices(a: seq<byte>, b: seq<byte>, c: seq<byte>, d: seq<byte>)
    ensures var s := a + b + c + d;
            && s[..|a|] == a
            && s[|a|..|a| + |b|] == b
            && s[|a| + |b|..|a| + |b| + |c|] == c
  {
  }

  lemma FieldsFit(f: Framed)
    requires f.WellFormed()
    ensures ReadU16(U16(|f.record.payload|)) == |f.record.payload|
    ensures ReadU16(U16(f.record.typ)) == f.record.typ
  {
    ReadWriteU16(|f.record.payload|);
    ReadWriteU16(f.record.typ);
  }

  lemma HeadOfBytes(f: Framed, rest: seq<byte>)
    requires f.WellFormed()
    ensures DecodeHead(f.Bytes() + rest) == Ok(f)
  {
    BytesLayout(f, rest);
    FieldsFit(f);
  }

  /** An accepted frame is tiled exactly by its records, with no byte left over. */
  lemma {:induction false} ParseTiles(b: seq<byte>)
    requires Parse(b).Ok?
    ensures AllWellFormed(Parse(b).value) && Image(Parse(b).value) == b
    decreases |b|
  {
    if b != [] {
      var f := DecodeHead(b).value;
      HeadTiles(b);
      ParseTiles(b[|f.Bytes()|..]);
      assert Parse(b).value[1..] == Parse(b[|f.Bytes()|..]).value;
    }
  }

  /** Every frame of the grammar is read back as the records it was made from. */
  lemma {:induction false} ParseImage(fs: seq<Framed>, rest: seq<byte>)
    requires AllWellFormed(fs)
    ensures Parse(Image(fs) + rest) == Prepend(fs, Parse(rest))
    decreases |fs|
  {
    if fs == [] {
      assert Image(fs) + rest == rest;
      PrependPrepend([], [], Parse(rest));
    } else {
      var tail := Image(fs[1..]) + rest;
      assert Image(fs) + rest == fs[0].Bytes() + tail;
      ParseCons(fs[0], tail);
      ParseImage(fs[1..], rest);
      PrependPrepend([fs[0]], fs[1..], Parse(rest));
      assert [fs[0]] + fs[1..] == fs;
    }
  }

  lemma {:induction false} ParseCons(f: Framed, tail: seq<byte>)
    requires f.WellFormed()
    ensures Parse(f.Bytes() + tail) == Prepend([f], Parse(tail))
  {
    HeadOfBytes(f, tail);
    assert (f.Bytes() + tail)[|f.Bytes()|..] == tail;
  }

  /** A frame decodes to records exactly when it is a non-empty image of them, in some choice of forms. */
  lemma DecodeIffImage(frame: seq<byte>, rs: seq<Record>)
    ensures Decode(frame) == Ok(rs) <==>
            exists fs :: fs != [] && AllWellFormed(fs) && Records(fs) == rs && Image(fs) == frame
  {
    if Decode(frame) == Ok(rs) {
      ParseTiles(frame);
      var fs := Parse(frame).value;
      assert fs != [] && AllWellFormed(fs) && Records(fs) == rs && Image(fs) == frame;
    }
    if fs: seq<Framed> :| fs != [] && AllWellFormed(fs) && Records(fs) == rs && Image(fs) == frame {
      ParseImage(fs, []);
      assert frame + [] == frame && fs + [] == fs;
      assert frame[..|fs[0].Bytes()|] == fs[0].Bytes();
    }
  }

  /** `decodeTlvs` inverts concatenated `encodeTlv` for every non-empty list of encodable records. */
  lemma DecodeEncode(rs: seq<Record>)
    requires rs != [] && AllEncodable(rs)
    ensures Decode(EncodeAll(rs)) == Ok(rs)
  {
    var fs := Minimals(rs);
    assert Records(fs) == rs;
    DecodeIffImage(EncodeAll(rs), rs);
  }

  // ---------- re-encoding ----------

  function Overlongs(fs: seq<Framed>): nat {
    if fs == [] then 0 else (if fs[0].Overlong() then 1 else 0) + Overlongs(fs[1..])
  }

  lemma {:induction false} ImageLength(fs: seq<Framed>)
    requires AllWellFormed(fs)
    ensures AllEncodable(Records(fs))
    ensures |Image(fs)| == |EncodeAll(Records(fs))| + 2 * Overlongs(fs)
    ensures Overlongs(fs) == 0 <==> forall i :: 0 <= i < |fs| ==> !fs[i].Overlong()
    ensures Overlongs(fs) == 0 ==> fs == Minimals(Records(fs))
  {
    if fs != [] {
      ImageLength(fs[1..]);
      assert Records(fs)[1..] == Records(fs[1..]);
      assert Minimals(Records(fs))[1..] == Minimals(Records(fs[1..]));
      assert (forall i :: 0 <= i < |fs| ==> !fs[i].Overlong())
          <==> !fs[0].Overlong() && forall i :: 0 <= i < |fs[1..]| ==> !fs[1..][i].Overlong();
    }
  }

  /**
   * Re-encoding a decoded frame drops two bytes for every needlessly escaped type and changes
   * nothing else: it decodes to the same records, and it is the original frame exactly when no
   * escaped type is below 0xff.
   */
  lemma ReEncode(frame: seq<byte>)
    requires Decode(frame).Ok?
    ensures var rs := Decode(frame).value;
            var fs := Parse(frame).value;
            && rs != [] && AllEncodable(rs) && rs == Records(fs)
            && Decode(EncodeAll(rs)) == Ok(rs)
            && |EncodeAll(rs)| + 2 * Overlongs(fs) == |frame|
            && (EncodeAll(rs) == frame <==> forall i :: 0 <= i < |fs| ==> !fs[i].Overlong())
  {
    ParseTiles(frame);
    ImageLength(Parse(frame).value);
    DecodeEncode(Decode(frame).value);
  }

  // ---------- rejection ----------

  /** The one reason to reject a non-empty frame: it was cut inside a record. */
  ghost predicate CutInside(b: seq<byte>, fs: seq<Framed>, last: Framed, cut: nat) {
    && AllWellFormed(fs) && last.WellFormed()
    && 0 < cut < |last.Bytes()| && b == Image(fs) + last.Bytes()[..cut]
  }

  lemma CompleteHead(b: seq<byte>) returns (f: Framed)
    requires b != [] && DecodeHead(b).Err?
    ensures f.WellFormed() && |b| < |f.Bytes()| && b == f.Bytes()[..|b|]
  {
    var zeros := seq(0x1_0004, _ => 0 as byte);
    var long := b + zeros;
    var at := if b[0] == ESCAPE then 3 else 1;
    WriteReadU16(long[at..at + 2]);
    f := DecodeHead(long).value;
    HeadTiles(long);
    if |b| >= at + 2 {
      assert long[at..at + 2] == b[at..at + 2];
    }
    assert f.Bytes()[..|b|] == long[..|b|] == b;
  }

  lemma CutCons(b: seq<byte>, f: Framed, rest: seq<byte>, fs: seq<Framed>, last: Framed, cut: nat)
    requires f.WellFormed() && b == f.Bytes() + rest && CutInside(rest, fs, last, cut)
    ensures CutInside(b, [f] + fs, last, cut)
  {
    assert ([f] + fs)[1..] == fs;
    assert f.Bytes() + Image(fs) + last.Bytes()[..cut] == f.Bytes() + rest;
  }

  lemma {:induction false} RejectedIsCut(b: seq<byte>)
    requires Parse(b).Err?
    ensures exists fs, last, cut :: CutInside(b, fs, last, cut)
    decreases |b|
  {
    if DecodeHead(b).Err? {
      var f := CompleteHead(b);
      assert Image([]) + b == b;
      assert CutInside(b, [], f, |b|);
    } else {
      HeadTiles(b);
      var f := DecodeHead(b).value;
      var rest := b[|f.Bytes()|..];
      RejectedIsCut(rest);
      var fs, last, cut :| CutInside(rest, fs, last, cut);
      CutCons(b, f, rest, fs, last, cut);
    }
  }

  /** Where the cut lies decides the error: in the escaped type, before the end of the length, or in the value. */
  function CutError(f: Framed, cut: nat): TlvError {
    if f.escaped && cut < 3 then EndedInEscapedType
    else if cut < (if f.escaped then 5 else 3) then EndedInLength
    else IncompleteValue(|f.record.payload|, cut - if f.escaped then 5 else 3)
  }

  lemma CutHeadRejected(f: Framed, cut: nat)
    requires f.WellFormed() && 0 < cut < |f.Bytes()|
    ensures DecodeHead(f.Bytes()[..cut]) == Err(CutError(f, cut))
  {
    BytesLayout(f, []);
    FieldsFit(f);
    var b, c := f.Bytes() + [], f.Bytes()[..cut];
    var at := if f.escaped then 3 else 1;
    assert c == b[..cut];
    if cut >= at + 2 {
      assert c[at..at + 2] == b[at..at + 2];
    }
  }

  /** A frame cut inside a record is rejected with the error of that cut, an empty frame with its own. */
  lemma RejectedWith(frame: seq<byte>, fs: seq<Framed>, last: Framed, cut: nat)
    requires CutInside(frame, fs, last, cut)
    ensures Decode(frame) == Err(CutError(last, cut)) && Decode([]) == Err(EmptyFrame)
  {
    var rest := last.Bytes()[..cut];
    CutHeadRejected(last, cut);
    assert rest != [] && Parse(rest) == Err(CutError(last, cut));
    ParseImage(fs, rest);
  }

  /** `decodeTlvs` fails exactly on the empty frame and on frames cut inside a record. */
  lemma RejectsIffCut(frame: seq<byte>)
    ensures Decode(frame).Err? <==> frame == [] || exists fs, last, cut :: CutInside(frame, fs, last, cut)
  {
    if frame != [] && Decode(frame).Err? {
      RejectedIsCut(frame);
    }
    if fs: seq<Framed>, last: Framed, cut: nat :| CutInside(frame, fs, last, cut) {
      RejectedWith(frame, fs, last, cut);
    }
  }
}
