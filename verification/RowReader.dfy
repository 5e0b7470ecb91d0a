/** Encoding and decoding a row as the code runs them: a buffer appended to, and a reader
    whose bytes shrink. Decoding any byte string ends without reading past its bytes. */
module RowReader {
  import opened Options
  import opened RowCodec

  /** appendPayload's loop over the bins. */
  method AppendBins(b0: seq<Byte>, bins: Bins) returns (b: seq<Byte>)
    ensures b == b0 + BinBytes(bins, 0, -1)
  {
    hide Uvarint;
    b := b0;
    var prev := -1;
    for i := 0 to BINS
      invariant -1 <= prev < i && b + BinBytes(bins, i, prev) == b0 + BinBytes(bins, 0, -1)
    {
      if bins[i] == 0 { continue; }
      BinsNext(b, bins, i, prev);
      b := b + Uvarint(i - prev - 1) + Uvarint(bins[i]);
      prev := i;
    }
    assert b + [] == b;
  }

  lemma BinsNext(b: seq<Byte>, bins: Bins, i: nat, prev: int)
    requires i < BINS && -1 <= prev < i && bins[i] != 0
    ensures b + BinBytes(bins, i, prev) == b + Uvarint(i - prev - 1) + Uvarint(bins[i]) + BinBytes(bins, i + 1, i)
  {
    hide Uvarint;
  }

  method CountBins(bins: Bins) returns (n: nat)
    ensures n == NonEmptyFrom(bins, 0)
  {
    n := 0;
    for i := 0 to BINS
      invariant n + NonEmptyFrom(bins, i) == NonEmptyFrom(bins, 0)
    {
      if bins[i] != 0 { n := n + 1; }
    }
  }

  method AppendPayload(p: Point) returns (b: seq<Byte>)
    ensures b == Payload(p)
  {
    match p {
      case Gauge(count, min, max, sum) =>
        b := Uvarint(count) + F32(min) + F32(max) + F32(sum);
      case Events(count, errors, sum, min, max, bins) =>
        b := Uvarint(count) + Uvarint(errors) + F32(sum) + F32(min) + F32(max);
        var n := CountBins(bins);
        b := AppendBins(b + Uvarint(n), bins);
    }
  }

  /** encodeRow: points in the order given, empty ones left out. */
  method EncodeRow(ps: seq<RowPoint>) returns (b: seq<Byte>)
    ensures b == Encode(ps)
  {
    hide PointBytes;
    b := [ROW_VERSION];
    for i := 0 to |ps|
      invariant b + PointsBytes(ps[i..]) == Encode(ps)
    {
      assert ps[i..][1..] == ps[i + 1..];
      if Empty(ps[i]) {
        assert [] + PointsBytes(ps[i + 1..]) == PointsBytes(ps[i + 1..]);
        continue;
      }
      var payload := AppendPayload(ps[i].point);
      assert b + PointsBytes(ps[i..]) == b + PointBytes(ps[i]) + PointsBytes(ps[i + 1..]);
      var one := Uvarint(ps[i].series) + [KindByte(ps[i].point)] + Uvarint(|payload|) + payload;
      assert one == PointBytes(ps[i]) by { PointIs(ps[i]); }
      b := b + one;
    }
    assert b + [] == b;
  }

  lemma PointIs(p: RowPoint)
    ensures PointBytes(p) == Uvarint(p.series) + [KindByte(p.point)] + Uvarint(|Payload(p.point)|) + Payload(p.point)
  {}

  /** byteReader: what is left, and whether something went wrong. */
  class ByteReader {
    var b: seq<Byte>
    var err: bool

    constructor (bytes: seq<Byte>)
      ensures b == bytes && !err
    {
      b, err := bytes, false;
    }

    method TakeUvarint() returns (v: nat)
      modifies this
      ensures if old(err) || ReadUvarint(old(b)).Corrupt? then err && v == 0 && b == old(b) else !err && Got(v, b) == ReadUvarint(old(b))
    {
      if err { return 0; }
      var value, n := ScanUvarint(b);
      if n == 0 {
        err := true;
        return 0;
      }
      b := b[n..];
      return value;
    }

    method TakeU32() returns (v: U32)
      modifies this
      ensures old(err) || ReadU32(old(b)).Corrupt? ==> err && v == 0
      ensures !old(err) && ReadU32(old(b)).Got? ==> !err && Got(v, b) == ReadU32(old(b))
    {
      var value := TakeUvarint();
      if value > 0xFFFF_FFFF {
        err := true;
        return 0;
      }
      return value;
    }

    method TakeF32() returns (v: U32)
      modifies this
      ensures old(err) || ReadF32(old(b)).Corrupt? ==> err && v == 0
      ensures !old(err) && ReadF32(old(b)).Got? ==> !err && Got(v, b) == ReadF32(old(b))
    {
      if err || |b| < 4 {
        err := true;
        return 0;
      }
      var b0: int, b1: int, b2: int, b3: int := b[0], b[1], b[2], b[3];
      v := b0 + 256 * b1 + 65536 * b2 + 16777216 * b3;
      b := b[4..];
    }

    method TakeThree() returns (x: U32, y: U32, z: U32)
      modifies this
      ensures old(err) || ReadThree(old(b)).Corrupt? ==> err
      ensures !old(err) && ReadThree(old(b)).Got? ==> !err && Got((x, y, z), b) == ReadThree(old(b))
    {
      hide ReadF32;
      x := TakeF32();
      y := TakeF32();
      z := TakeF32();
    }
  }

  /** binary.Uvarint: the value and how many bytes it took, 0 when it has no value. */
  method ScanUvarint(b: seq<Byte>) returns (v: nat, n: nat)
    ensures n <= |b| && (n == 0 <==> ReadUvarint(b).Corrupt?) && (n > 0 ==> ReadUvarint(b) == Got(v, b[n..]))
  {
    v, n := ScanFrom(b, 0);
  }

  /** The bytes from the i-th on, most significant last. */
  method ScanFrom(b: seq<Byte>, i: nat) returns (v: nat, n: nat)
    ensures n <= |b| && (n == 0 <==> ReadUvarintAt(b, i).Corrupt?) && (n > 0 ==> ReadUvarintAt(b, i) == Got(v, b[n..]))
    decreases |b|
  {
    if b == [] || i == MAX_VARINT_BYTES { return 0, 0; }
    if b[0] < 128 {
      if i == 9 && b[0] > 1 { return 0, 0; }
      return b[0], 1;
    }
    v, n := ScanFrom(b[1..], i + 1);
    if n == 0 { return; }
    assert b[1..][n..] == b[n + 1..];
    v, n := b[0] - 128 + 128 * v, n + 1;
  }

  /** The loop over the stored bins. */
  method TakeBins(r: ByteReader, n: nat) returns (bins: Option<Bins>)
    requires !r.err
    modifies r
    ensures bins == match ReadBins(old(r.b), n, -1, NoBins()) case Got(v, _) => Some(v) case Corrupt => None
  {
    hide ReadUvarint, ReadU32;
    var acc := NoBins();
    var bin := -1;
    for i := 0 to n
      invariant !r.err && -1 <= bin < BINS && ReadBins(r.b, n - i, bin, acc) == ReadBins(old(r.b), n, -1, NoBins())
    {
      var gap := r.TakeUvarint();
      if r.err || gap >= BINS { return None; }
      bin := bin + gap + 1;
      if bin >= BINS { return None; }
      var v := r.TakeU32();
      if r.err { return None; }
      acc := acc[bin := v];
    }
    return Some(acc);
  }

  /** decodePayload */
  method TakePayload(kind: Kind, payload: seq<Byte>) returns (p: Option<Point>)
    ensures p == RowCodec.DecodePayload(kind, payload)
  {
    hide ReadUvarint, ReadU32, ReadThree, ReadBins;
    var r := new ByteReader(payload);
    if kind == GaugeKind {
      var count := r.TakeU32();
      var min, max, sum := r.TakeThree();
      return if r.err then None else Some(Gauge(count, min, max, sum));
    }
    var count := r.TakeU32();
    var errors := r.TakeU32();
    var sum, min, max := r.TakeThree();
    var n := r.TakeUvarint();
    if r.err || n > BINS { return None; }
    var bins := TakeBins(r, n);
    return if bins.None? then None else Some(Events(count, errors, sum, min, max, bins.value));
  }

  /** decodeRow over any bytes: the points handed out and how it ended. */
  method DecodeRow(row: seq<Byte>, want: U32 -> bool) returns (d: Decoded)
    ensures d == Decode(row, want)
  {
    hide ReadFrame, TakeFrame;
    if row == [] { return Decoded([], Fine); }
    if row[0] != ROW_VERSION { return Decoded([], BadVersion); }
    var b, points := row[1..], [];
    while b != []
      invariant Decode(row, want) == (var rest := DecodePoints(b, want); Decoded(points + rest.points, rest.end))
      decreases |b|
    {
      FrameShrinks(b);
      var f := NextFrame(b);
      if f.Corrupt? {
        assert points + [] == points;
        return Decoded(points, CorruptRow);
      }
      var taken := TakeOne(f.value, want);
      match taken {
        case Fail =>
          assert points + [] == points;
          return Decoded(points, CorruptRow);
        case Skip =>
        case Take(p) =>
          ghost var rest := DecodePoints(f.rest, want).points;
          assert points + ([p] + rest) == points + [p] + rest;
          points := points + [p];
      }
      b := f.rest;
    }
    assert points + [] == points;
    return Decoded(points, Fine);
  }

  method TakeOne(f: Frame, want: U32 -> bool) returns (t: Taken)
    ensures t == TakeFrame(f, want)
  {
    hide RowCodec.DecodePayload;
    if !want(f.series) { return Skip; }
    if KindOf(f.kind).None? { return Skip; }
    var p := TakePayload(KindOf(f.kind).value, f.payload);
    return if p.None? then Fail else Take(RowPoint(f.series, p.value));
  }

  method NextFrame(b: seq<Byte>) returns (f: Read<Frame>)
    ensures f == ReadFrame(b)
  {
    hide ReadUvarint, ReadU32;
    var r := new ByteReader(b);
    var series := r.TakeU32();
    if r.err || |r.b| < 1 { return Corrupt; }
    var kind := r.b[0];
    r.b := r.b[1..];
    var size := r.TakeUvarint();
    if r.err || size > |r.b| { return Corrupt; }
    return Got(Frame(series, kind, r.b[..size]), r.b[size..]);
  }
}
