/** The bytes themselves (internal/metricsdb/point.go): rows written out in full, so that a file written by one
    version of the store is one the next can read. */
module RowLayout {
  import opened RowCodec

  /** A gauge of series 300 seen once, from 1.0 to 2.0 with sum 3.0: the version, the series in seven-bit groups low
      first, the kind, the payload's length, the count, and each float with its low byte first. */
  lemma GaugeRowBytes()
    ensures Encode([RowPoint(300, Gauge(1, 0x3F80_0000, 0x4000_0000, 0x4040_0000))])
         == [1, 172, 2, 1, 13] + ([1] + [0, 0, 128, 63] + [0, 0, 0, 64] + [0, 0, 64, 64])
  {
    hide Uvarint, F32, Encode;
    var p := RowPoint(300, Gauge(1, 0x3F80_0000, 0x4000_0000, 0x4040_0000));
    Small(1);
    Small(13);
    ThreeHundred();
    Floats();
    OneFrame(p);
    Header(1, [172, 2], 1, 13, Payload(p.point));
  }

  /** Events of series 5, two of which one failed, both in bin 40: count, failures, sum, least, greatest, how many bins
      are not empty, and each of those as the gap before it and its count. */
  lemma EventRowBytes()
    ensures Encode([RowPoint(5, Events(2, 1, 0x4040_0000, 0x3F80_0000, 0x4000_0000, NoBins()[40 := 2]))])
         == [1, 5, 2, 17] + ([2] + [1] + [0, 0, 64, 64] + [0, 0, 128, 63] + [0, 0, 0, 64] + [1] + ([40] + [2]))
  {
    hide Uvarint, F32, Encode, BinBytes, NonEmptyFrom, NoBins;
    var bins: Bins := NoBins()[40 := 2];
    var p := RowPoint(5, Events(2, 1, 0x4040_0000, 0x3F80_0000, 0x4000_0000, bins));
    Small(1);
    Small(2);
    Small(5);
    Small(17);
    Small(40);
    Floats();
    OnlyForty();
    OneBin(bins, 40, 0);
    OneFrame(p);
    Header(1, [5], 2, 17, Payload(p.point));
  }

  lemma OnlyForty()
    ensures var bins := NoBins()[40 := 2]; |bins| == BINS && bins[40] == 2 && forall j :: 0 <= j < BINS && j != 40 ==> bins[j] == 0
  {}

  lemma Header(version: Byte, series: seq<Byte>, kind: Byte, length: Byte, payload: seq<Byte>)
    ensures [version] + (series + [kind] + [length] + payload) == [version] + series + [kind, length] + payload
    ensures |series| == 1 ==> [version] + series + [kind, length] == [version, series[0], kind, length]
    ensures |series| == 2 ==> [version] + series + [kind, length] == [version, series[0], series[1], kind, length]
  {}

  lemma ThreeHundred()
    ensures Uvarint(300) == [172, 2]
  {
    assert 300 % 128 == 44 && 300 / 128 == 2;
    Small(2);
  }

  lemma Small(v: nat)
    requires v < 128
    ensures Uvarint(v) == [v]
  {}

  lemma Floats()
    ensures F32(0x3F80_0000) == [0, 0, 128, 63] && F32(0x4000_0000) == [0, 0, 0, 64] && F32(0x4040_0000) == [0, 0, 64, 64]
  {}

  /** A row of empty points is only its version. */
  lemma EmptyRowBytes(series: U32, min: U32, max: U32, sum: U32)
    ensures Encode([RowPoint(series, Gauge(0, min, max, sum))]) == [1] == Encode([])
  {
    var ps := [RowPoint(series, Gauge(0, min, max, sum))];
    assert ps[1..] == [] && PointsBytes(ps) == [] + PointsBytes([]) == [];
  }

  lemma OneFrame(p: RowPoint)
    requires !Empty(p)
    ensures Encode([p]) == [1] + PointBytes(p)
  {
    hide PointBytes;
    assert [p][1..] == [] && PointBytes(p) + [] == PointBytes(p);
    assert PointsBytes([p]) == PointBytes(p) + PointsBytes([]);
  }

  /** One bin that is not empty, at or after i. */
  lemma {:induction false} OneBin(bins: Bins, k: nat, i: nat)
    requires i <= k < BINS && bins[k] != 0 && forall j :: 0 <= j < BINS && j != k ==> bins[j] == 0
    ensures NonEmptyFrom(bins, i) == 1 && BinBytes(bins, i, -1) == Uvarint(k) + Uvarint(bins[k])
    decreases k - i
  {
    hide Uvarint;
    if i < k {
      OneBin(bins, k, i + 1);
    } else {
      NoMore(bins, k, k + 1);
      assert Uvarint(k) + Uvarint(bins[k]) + [] == Uvarint(k) + Uvarint(bins[k]);
    }
  }

  lemma {:induction false} NoMore(bins: Bins, k: nat, i: nat)
    requires k < i <= BINS && forall j :: i <= j < BINS ==> bins[j] == 0
    ensures NonEmptyFrom(bins, i) == 0 && BinBytes(bins, i, k) == []
    decreases BINS - i
  {
    if i < BINS { NoMore(bins, k, i + 1); }
  }
}
