/** The row encoding (internal/metricsdb/point.go): what one owner has in one bucket, as
    bytes. A float field is the four bytes it is stored as; rounding to them is not modelled. */
module RowCodec {
  import opened Options

  type Byte = x: int | 0 <= x < 256
  type U32 = x: int | 0 <= x < 0x1_0000_0000

  const BINS: nat := 88
  const ROW_VERSION: Byte := 1

  type Bins = b: seq<U32> | |b| == BINS witness seq(BINS, i => 0)

  datatype Point =
    | Gauge(count: U32, min: U32, max: U32, sum: U32)
    | Events(count: U32, errors: U32, sum: U32, min: U32, max: U32, bins: Bins)

  datatype RowPoint = RowPoint(series: U32, point: Point)

  /** What a read leaves: the value and the bytes after it. */
  datatype Read<T> = Got(value: T, rest: seq<Byte>) | Corrupt

  /*** Numbers ***/

  function Uvarint(v: nat): seq<Byte> {
    if v < 128 then [v] else [v % 128 + 128] + Uvarint(v / 128)
  }

  const MAX_VARINT_BYTES: nat := 10

  /** binary.Uvarint after i bytes: it stops at a byte below 128, and overflows past 64 bits. */
  function ReadUvarintAt(b: seq<Byte>, i: nat): Read<nat>
    decreases |b|
  {
    if b == [] || i == MAX_VARINT_BYTES then Corrupt
    else if b[0] < 128 then (if i == 9 && b[0] > 1 then Corrupt else Got(b[0], b[1..]))
    else match ReadUvarintAt(b[1..], i + 1)
      case Got(v, rest) => Got(b[0] - 128 + 128 * v, rest)
      case Corrupt => Corrupt
  }

  function ReadUvarint(b: seq<Byte>): Read<nat> { ReadUvarintAt(b, 0) }

  function ReadU32(b: seq<Byte>): Read<U32> {
    match ReadUvarint(b)
    case Got(v, rest) => if v < 0x1_0000_0000 then Got(v, rest) else Corrupt
    case Corrupt => Corrupt
  }

  function F32(x: U32): seq<Byte> { [x % 256, (x / 256) % 256, (x / 65536) % 256, x / 16777216] }

  function ReadF32(b: seq<Byte>): Read<U32> {
    if |b| < 4 then Corrupt
    else
      var b0: int, b1: int, b2: int, b3: int := b[0], b[1], b[2], b[3];
      Got(b0 + 256 * b1 + 65536 * b2 + 16777216 * b3, b[4..])
  }

  /** How large a value may still be after i bytes. */
  function Room(i: nat): nat
    requires i <= 9
    decreases 9 - i
  {
    if i == 9 then 2 else 128 * Room(i + 1)
  }

  lemma {:induction false} UvarintRoundTrip(v: nat, i: nat, rest: seq<Byte>)
    requires i <= 9 && v < Room(i)
    ensures ReadUvarintAt(Uvarint(v) + rest, i) == Got(v, rest)
    decreases v
  {
    var b := Uvarint(v) + rest;
    if v < 128 {
      assert b[0] == v && b[1..] == rest;
    } else {
      assert b[0] == v % 128 + 128 && b[1..] == Uvarint(v / 128) + rest;
      assert v / 128 < Room(i + 1);
      UvarintRoundTrip(v / 128, i + 1, rest);
      assert v == v % 128 + 128 * (v / 128);
    }
  }

  lemma U32RoundTrip(v: U32, rest: seq<Byte>)
    ensures ReadU32(Uvarint(v) + rest) == Got(v, rest) && ReadUvarint(Uvarint(v) + rest) == Got(v, rest)
  {
    RoomEnough();
    UvarintRoundTrip(v, 0, rest);
  }

  lemma RoomEnough()
    ensures Room(0) == 0x1_0000_0000_0000_0000
  {
    assert Room(9) == 2 && Room(8) == 256 && Room(7) == 32768 && Room(6) == 4194304 && Room(5) == 536870912;
    assert Room(4) == 68719476736 && Room(3) == 8796093022208 && Room(2) == 1125899906842624 && Room(1) == 144115188075855872;
  }

  lemma F32RoundTrip(x: U32, rest: seq<Byte>)
    ensures ReadF32(F32(x) + rest) == Got(x, rest)
  {
    var b := F32(x) + rest;
    assert b[0] == x % 256 && b[1] == x / 256 % 256 && b[2] == x / 65536 % 256 && b[3] == x / 16777216 && b[4..] == rest;
    assert x / 256 == x / 256 / 256 * 256 + x / 256 % 256;
    assert x / 65536 == x / 16777216 * 256 + x / 65536 % 256;
    assert x / 256 / 256 == x / 65536;
  }

  /** A read never makes bytes, and a varint takes at least one. */
  lemma {:induction false} ReadsShrink(b: seq<Byte>, i: nat)
    ensures ReadUvarintAt(b, i).Got? ==> |ReadUvarintAt(b, i).rest| < |b|
    decreases |b|
  {
    if b != [] && b[0] >= 128 { ReadsShrink(b[1..], i + 1); }
  }

  /*** Payloads ***/

  function NonEmptyFrom(bins: Bins, i: nat): nat
    requires i <= BINS
    decreases BINS - i
  {
    if i == BINS then 0 else (if bins[i] != 0 then 1 else 0) + NonEmptyFrom(bins, i + 1)
  }

  /** The non-empty bins from i on, each as its gap from the one before and its count. */
  function BinBytes(bins: Bins, i: nat, prev: int): seq<Byte>
    requires -1 <= prev < i <= BINS
    decreases BINS - i
  {
    if i == BINS then []
    else if bins[i] == 0 then BinBytes(bins, i + 1, prev)
    else Uvarint(i - prev - 1) + Uvarint(bins[i]) + BinBytes(bins, i + 1, i)
  }

  /** appendPayload */
  function Payload(p: Point): seq<Byte> {
    match p
    case Gauge(count, min, max, sum) => Uvarint(count) + F32(min) + F32(max) + F32(sum)
    case Events(count, errors, sum, min, max, bins) =>
      Uvarint(count) + Uvarint(errors) + F32(sum) + F32(min) + F32(max) + Uvarint(NonEmptyFrom(bins, 0)) + BinBytes(bins, 0, -1)
  }

  function ReadBins(b: seq<Byte>, n: nat, bin: int, bins: Bins): Read<Bins>
    requires -1 <= bin < BINS
    decreases n
  {
    if n == 0 then Got(bins, b)
    else match ReadUvarint(b)
      case Corrupt => Corrupt
      case Got(gap, rest) =>
        if gap >= BINS || bin + gap + 1 >= BINS then Corrupt
        else match ReadU32(rest)
          case Corrupt => Corrupt
          case Got(v, rest') => ReadBins(rest', n - 1, bin + gap + 1, bins[bin + gap + 1 := v])
  }

  function NoBins(): Bins { seq(BINS, i => 0) }

  /** Three floats in a row. */
  function ReadThree(b: seq<Byte>): Read<(U32, U32, U32)> {
    match ReadF32(b)
    case Corrupt => Corrupt
    case Got(x, b1) =>
      match ReadF32(b1)
      case Corrupt => Corrupt
      case Got(y, b2) =>
        match ReadF32(b2)
        case Corrupt => Corrupt
        case Got(z, b3) => Got((x, y, z), b3)
  }

  datatype Kind = GaugeKind | EventKind

  function KindByte(p: Point): Byte { if p.Gauge? then 1 else 2 }

  function KindOf(b: Byte): Option<Kind> { if b == 1 then Some(GaugeKind) else if b == 2 then Some(EventKind) else None }

  function DecodeGauge(b: seq<Byte>): Option<Point> {
    var count := ReadU32(b);
    if count.Corrupt? then None
    else
      var f := ReadThree(count.rest);
      if f.Corrupt? then None else Some(Gauge(count.value, f.value.0, f.value.1, f.value.2))
  }

  function DecodeEvents(b: seq<Byte>): Option<Point> {
    var count := ReadU32(b);
    if count.Corrupt? then None
    else
      var errors := ReadU32(count.rest);
      if errors.Corrupt? then None
      else
        var f := ReadThree(errors.rest);
        if f.Corrupt? then None
        else
          var bins := ReadBinList(f.rest);
          if bins.None? then None else Some(Events(count.value, errors.value, f.value.0, f.value.1, f.value.2, bins.value))
  }

  function ReadBinList(b: seq<Byte>): Option<Bins> {
    var n := ReadUvarint(b);
    if n.Corrupt? || n.value > BINS then None
    else
      var bins := ReadBins(n.rest, n.value, -1, NoBins());
      if bins.Corrupt? then None else Some(bins.value)
  }

  /** decodePayload; bytes after the known fields are left for later versions. */
  function DecodePayload(kind: Kind, b: seq<Byte>): Option<Point> {
    if kind == GaugeKind then DecodeGauge(b) else DecodeEvents(b)
  }

  predicate Below(bins: Bins, acc: Bins, i: nat, prev: int) {
    -1 <= prev < i <= BINS && (forall j :: 0 <= j < i ==> acc[j] == bins[j]) && (forall j :: prev < j < BINS ==> acc[j] == 0)
  }

  lemma {:induction false} BinsRoundTrip(bins: Bins, i: nat, prev: int, acc: Bins, rest: seq<Byte>)
    requires Below(bins, acc, i, prev)
    ensures ReadBins(BinBytes(bins, i, prev) + rest, NonEmptyFrom(bins, i), prev, acc) == Got(bins, rest)
    decreases BINS - i
  {
    hide Uvarint, ReadUvarint, ReadU32;
    if i == BINS {
      assert acc == bins;
      assert [] + rest == rest;
    } else if bins[i] == 0 {
      BinsRoundTrip(bins, i + 1, prev, acc, rest);
    } else {
      var tail := BinBytes(bins, i + 1, i) + rest;
      assert BinBytes(bins, i, prev) + rest == Uvarint(i - prev - 1) + (Uvarint(bins[i]) + tail);
      U32RoundTrip(i - prev - 1, Uvarint(bins[i]) + tail);
      U32RoundTrip(bins[i], tail);
      BinsRoundTrip(bins, i + 1, i, acc[i := bins[i]], rest);
    }
  }

  lemma ThreeRoundTrip(x: U32, y: U32, z: U32, rest: seq<Byte>)
    ensures ReadThree(F32(x) + (F32(y) + (F32(z) + rest))) == Got((x, y, z), rest)
  {
    hide F32, ReadF32;
    F32RoundTrip(x, F32(y) + (F32(z) + rest));
    F32RoundTrip(y, F32(z) + rest);
    F32RoundTrip(z, rest);
  }

  lemma PayloadRoundTrip(p: Point)
    ensures DecodePayload(if p.Gauge? then GaugeKind else EventKind, Payload(p)) == Some(p)
  {
    hide F32, Uvarint, ReadU32, ReadThree, ReadUvarint, ReadBins, BinBytes;
    match p
    case Gauge(count, min, max, sum) =>
      var rest := F32(min) + (F32(max) + (F32(sum) + []));
      assert Payload(p) == Uvarint(count) + rest;
      U32RoundTrip(count, rest);
      ThreeRoundTrip(min, max, sum, []);
    case Events(count, errors, sum, min, max, bins) =>
      var n := NonEmptyFrom(bins, 0);
      var b4 := BinBytes(bins, 0, -1) + [];
      var b3 := Uvarint(n) + b4;
      var b2 := F32(sum) + (F32(min) + (F32(max) + b3));
      assert Payload(p) == Uvarint(count) + (Uvarint(errors) + b2);
      NonEmptyBound(bins, 0);
      U32RoundTrip(count, Uvarint(errors) + b2);
      U32RoundTrip(errors, b2);
      ThreeRoundTrip(sum, min, max, b3);
      U32RoundTrip(n, b4);
      BinsRoundTrip(bins, 0, -1, NoBins(), []);
  }

  lemma {:induction false} NonEmptyBound(bins: Bins, i: nat)
    requires i <= BINS
    ensures NonEmptyFrom(bins, i) <= BINS - i
    decreases BINS - i
  {
    if i < BINS { NonEmptyBound(bins, i + 1); }
  }

  /*** Rows ***/

  function PointBytes(p: RowPoint): seq<Byte> {
    Uvarint(p.series) + [KindByte(p.point)] + Uvarint(|Payload(p.point)|) + Payload(p.point)
  }

  predicate Empty(p: RowPoint) { p.point.count == 0 }

  function PointsBytes(ps: seq<RowPoint>): seq<Byte> {
    if ps == [] then [] else (if Empty(ps[0]) then [] else PointBytes(ps[0])) + PointsBytes(ps[1..])
  }

  /** encodeRow */
  function Encode(ps: seq<RowPoint>): seq<Byte> { [ROW_VERSION] + PointsBytes(ps) }

  function NonEmpty(ps: seq<RowPoint>): seq<RowPoint> {
    if ps == [] then [] else (if Empty(ps[0]) then [] else [ps[0]]) + NonEmpty(ps[1..])
  }

  /** How decoding ended: well, at a frame or a payload that does not decode, which the code does
      not tell apart, or at a version it does not know. */
  datatype End = Fine | CorruptRow | BadVersion

  datatype Decoded = Decoded(points: seq<RowPoint>, end: End)

  /** One frame: its series, kind and payload, and what follows. */
  datatype Frame = Frame(series: U32, kind: Byte, payload: seq<Byte>)

  function ReadFrame(b: seq<Byte>): Read<Frame> {
    match ReadU32(b)
    case Corrupt => Corrupt
    case Got(series, b1) =>
      if b1 == [] then Corrupt
      else match ReadUvarint(b1[1..])
        case Corrupt => Corrupt
        case Got(size, b2) => if size > |b2| then Corrupt else Got(Frame(series, b1[0], b2[..size]), b2[size..])
  }

  lemma FrameShrinks(b: seq<Byte>)
    ensures ReadFrame(b).Got? ==> |ReadFrame(b).rest| < |b|
  {
    ReadsShrink(b, 0);
    if ReadU32(b).Got? && ReadU32(b).rest != [] { ReadsShrink(ReadU32(b).rest[1..], 0); }
  }

  /** What a frame gives: a point when it is wanted and of a known kind, nothing when it is
      skipped, a failure when its payload does not decode. */
  datatype Taken = Skip | Take(point: RowPoint) | Fail

  function TakeFrame(f: Frame, want: U32 -> bool): Taken {
    if !want(f.series) || KindOf(f.kind).None? then Skip
    else match DecodePayload(KindOf(f.kind).value, f.payload)
      case None => Fail
      case Some(p) => Take(RowPoint(f.series, p))
  }

  function DecodePoints(b: seq<Byte>, want: U32 -> bool): Decoded
    decreases |b|
  {
    if b == [] then Decoded([], Fine)
    else match ReadFrame(b)
      case Corrupt => Decoded([], CorruptRow)
      case Got(f, rest) =>
        FrameShrinks(b);
        match TakeFrame(f, want)
        case Fail => Decoded([], CorruptRow)
        case Skip => DecodePoints(rest, want)
        case Take(p) => var d := DecodePoints(rest, want); d.(points := [p] + d.points)
  }

  /** decodeRow: the points handed out, in order, and how it ended. */
  function Decode(row: seq<Byte>, want: U32 -> bool): Decoded {
    if row == [] then Decoded([], Fine)
    else if row[0] != ROW_VERSION then Decoded([], BadVersion)
    else DecodePoints(row[1..], want)
  }

  function Everything(): U32 -> bool { (s: U32) => true }

  lemma FrameRoundTrip(p: RowPoint, rest: seq<Byte>)
    requires |Payload(p.point)| < 0x1_0000_0000
    ensures ReadFrame(PointBytes(p) + rest) == Got(Frame(p.series, KindByte(p.point), Payload(p.point)), rest)
  {
    hide Payload, Uvarint, ReadU32, ReadUvarint;
    var payload := Payload(p.point);
    var b2 := payload + rest;
    var b1 := [KindByte(p.point)] + (Uvarint(|payload|) + b2);
    assert PointBytes(p) + rest == Uvarint(p.series) + b1;
    assert b1[1..] == Uvarint(|payload|) + b2;
    U32RoundTrip(p.series, b1);
    U32RoundTrip(|payload|, b2);
    assert b2[..|payload|] == payload && b2[|payload|..] == rest;
  }

  /** A payload is a few bytes per bin at most. */
  lemma PayloadIsSmall(p: Point)
    ensures |Payload(p)| < 0x1_0000_0000
  {
    match p
    case Gauge(count, _, _, _) => UvarintIsSmall(count, 5);
    case Events(count, errors, _, _, _, bins) =>
      UvarintIsSmall(count, 5);
      UvarintIsSmall(errors, 5);
      NonEmptyBound(bins, 0);
      UvarintIsSmall(NonEmptyFrom(bins, 0), 5);
      BinsAreSmall(bins, 0, -1);
  }

  function Pow128(n: nat): nat { if n == 0 then 1 else 128 * Pow128(n - 1) }

  lemma {:induction false} UvarintIsSmall(v: nat, n: nat)
    requires v < Pow128(n) && n > 0
    ensures |Uvarint(v)| <= n
    decreases n
  {
    if v >= 128 {
      assert Pow128(1) == 128;
      UvarintIsSmall(v / 128, n - 1);
    }
  }

  lemma Pow128Five()
    ensures Pow128(5) == 34359738368
  {
    assert Pow128(1) == 128 && Pow128(2) == 16384 && Pow128(3) == 2097152 && Pow128(4) == 268435456;
  }

  lemma {:induction false} BinsAreSmall(bins: Bins, i: nat, prev: int)
    requires -1 <= prev < i <= BINS
    ensures |BinBytes(bins, i, prev)| <= 10 * (BINS - i)
    decreases BINS - i
  {
    if i < BINS {
      if bins[i] == 0 {
        BinsAreSmall(bins, i + 1, prev);
      } else {
        Pow128Five();
        UvarintIsSmall(i - prev - 1, 5);
        UvarintIsSmall(bins[i], 5);
        BinsAreSmall(bins, i + 1, i);
      }
    }
  }

  /** Decoding an encoded row yields exactly its non-empty points, in order, with counts, bins
      and stored floats unchanged. */
  lemma RowRoundTrip(ps: seq<RowPoint>)
    ensures Decode(Encode(ps), Everything()) == Decoded(NonEmpty(ps), Fine)
  {
    assert Encode(ps)[1..] == PointsBytes(ps);
    PointsRoundTrip(ps);
  }

  lemma {:induction false} PointsRoundTrip(ps: seq<RowPoint>)
    ensures DecodePoints(PointsBytes(ps), Everything()) == Decoded(NonEmpty(ps), Fine)
    decreases |ps|
  {
    hide PointBytes, ReadFrame, DecodePayload, Payload;
    if ps != [] {
      var p, rest := ps[0], PointsBytes(ps[1..]);
      PointsRoundTrip(ps[1..]);
      if Empty(p) {
        assert [] + rest == rest && [] + NonEmpty(ps[1..]) == NonEmpty(ps[1..]);
      } else {
        PayloadIsSmall(p.point);
        FrameRoundTrip(p, rest);
        PayloadRoundTrip(p.point);
        assert PointBytes(p) + rest != [] by { NotNothing(p, rest); }
        KindKnown(p.point);
      }
    }
  }

  lemma NotNothing(p: RowPoint, rest: seq<Byte>)
    ensures PointBytes(p) + rest != []
  {}

  lemma KindKnown(p: Point)
    ensures KindOf(KindByte(p)) == Some(if p.Gauge? then GaugeKind else EventKind)
  {}

  /*** Filtering ***/

  function Filter(ps: seq<RowPoint>, want: U32 -> bool): seq<RowPoint> {
    if ps == [] then [] else (if want(ps[0].series) then [ps[0]] else []) + Filter(ps[1..], want)
  }

  function Filtered(d: Decoded, want: U32 -> bool): Decoded { Decoded(Filter(d.points, want), d.end) }

  /** A frame of a known kind whose payload does not decode. */
  predicate Broken(f: Frame) { KindOf(f.kind).Some? && DecodePayload(KindOf(f.kind).value, f.payload).None? }

  /** The first broken frame, with what follows it, going from frame to frame whatever they hold. */
  function FirstBroken(b: seq<Byte>): Option<(Frame, seq<Byte>)>
    decreases |b|
  {
    if b == [] || ReadFrame(b).Corrupt? then None
    else
      FrameShrinks(b);
      if Broken(ReadFrame(b).value) then Some((ReadFrame(b).value, ReadFrame(b).rest)) else FirstBroken(ReadFrame(b).rest)
  }

  /** Going on from frame to frame, a fault the filter sees comes before any point it lets through:
      the frames end in bytes that are none, or the first wanted one of a known kind is broken. */
  predicate FaultFirst(b: seq<Byte>, want: U32 -> bool)
    decreases |b|
  {
    b != [] && (ReadFrame(b).Got? ==>
      var f := ReadFrame(b).value;
      FrameShrinks(b);
      if want(f.series) && KindOf(f.kind).Some? then Broken(f) else FaultFirst(ReadFrame(b).rest, want))
  }

  /** What a caller can ask of the bytes: no frame is broken, or the first broken one is wanted, or
      after it the filter meets a fault before a point. */
  predicate FilterSafe(b: seq<Byte>, want: U32 -> bool) {
    var first := FirstBroken(b);
    first.None? || want(first.value.0.series) || FaultFirst(first.value.1, want)
  }

  /** Decoding with a series filter equals decoding everything and filtering, in the points and
      in how it ends, exactly for such rows. */
  lemma FilterAgrees(row: seq<Byte>, want: U32 -> bool)
    ensures Decode(row, want) == Filtered(Decode(row, Everything()), want)
            <==> (row != [] && row[0] == ROW_VERSION ==> FilterSafe(row[1..], want))
  {
    if row != [] && row[0] == ROW_VERSION { FilterPoints(row[1..], want); }
  }

  lemma {:induction false} FaultFirstIs(b: seq<Byte>, want: U32 -> bool)
    ensures DecodePoints(b, want) == Decoded([], CorruptRow) <==> FaultFirst(b, want)
    decreases |b|
  {
    hide ReadFrame, DecodePayload;
    if b != [] && ReadFrame(b).Got? {
      FrameShrinks(b);
      FaultFirstIs(ReadFrame(b).rest, want);
    }
  }

  lemma {:induction false} FilterPoints(b: seq<Byte>, want: U32 -> bool)
    ensures DecodePoints(b, want) == Filtered(DecodePoints(b, Everything()), want) <==> FilterSafe(b, want)
    decreases |b|
  {
    hide ReadFrame, DecodePayload, FaultFirst;
    if b != [] && ReadFrame(b).Got? {
      FrameShrinks(b);
      var f, rest := ReadFrame(b).value, ReadFrame(b).rest;
      FilterPoints(rest, want);
      FaultFirstIs(rest, want);
      var full, some := DecodePoints(rest, Everything()), DecodePoints(rest, want);
      match TakeFrame(f, Everything())
      case Take(p) =>
        assert ([p] + full.points)[1..] == full.points && ([p] + some.points)[1..] == some.points;
        assert ([p] + Filter(full.points, want))[1..] == Filter(full.points, want);
      case _ =>
    }
  }

  /** Where it does not agree: the full decode stops at a broken payload that the filtered one never looks at. */
  lemma FilterPastBadPayload()
    ensures var row: seq<Byte> := [ROW_VERSION, 7, 1, 0];
            var none: U32 -> bool := s => false;
            Decode(row, Everything()) == Decoded([], CorruptRow) && Decode(row, none) == Decoded([], Fine)
  {
    var b: seq<Byte> := [7, 1, 0];
    assert ([ROW_VERSION] + b)[1..] == b;
    assert b[1..] == [1, 0] && b[1..][1..] == [0] && [0][1..] == [];
    assert ReadU32(b) == Got(7, [1, 0]);
    assert ReadUvarint([0]) == Got(0, []);
    assert ReadFrame(b) == Got(Frame(7, 1, []), []);
  }
}
