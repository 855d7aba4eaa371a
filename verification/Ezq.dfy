/** I/Q wave formats (software/dr47/waveforms.py): interleaved int16 lanes I0,Q0,I1,Q1,...
    and packed int32 words with Q in the high half. */
module Ezq {
  import opened Bytes
  import opened Interleave

  type int32 = x: int | -0x8000_0000 <= x < 0x8000_0000

  /** Casting an integer array to a narrower signed type keeps the low bits. */
  function ToInt16(x: int): (r: int16)
    ensures r % 0x1_0000 == x % 0x1_0000
  {
    (x + 0x8000) % 0x1_0000 - 0x8000
  }

  function ToInt32(x: int): (r: int32)
    ensures r % 0x1_0000_0000 == x % 0x1_0000_0000
  {
    (x + 0x8000_0000) % 0x1_0000_0000 - 0x8000_0000
  }

  /** An integer array. Only a two-dimensional one keeps its shape: every other one
      is used through its flattened values. */
  datatype Wave = Vector(values: seq<int>) | Table(rows: seq<seq<int>>, width: nat)

  predicate Rectangular(wave: Wave) {
    wave.Table? ==> forall r :: 0 <= r < |wave.rows| ==> |wave.rows[r]| == wave.width
  }

  datatype WaveFormat = IqMatrix | PackedIq | InterleavedIq | RealOnly | Unsupported

  datatype FormatError = NotTwoDimensional | NotTwoAxes | OddLaneCount | UnsupportedFormat

  function Flat(wave: Wave): seq<int> {
    if wave.Vector? then wave.values else Flatten(wave.rows)
  }

  function Flatten(rows: seq<seq<int>>): seq<int> {
    if rows == [] then [] else rows[0] + Flatten(rows[1..])
  }

  function Lanes(values: seq<int>): (lanes: seq<int16>)
    ensures |lanes| == |values|
  {
    seq(|values|, k requires 0 <= k < |values| => ToInt16(values[k]))
  }

  function Words(values: seq<int>): (words: seq<int32>)
    ensures |words| == |values|
  {
    seq(|values|, k requires 0 <= k < |values| => ToInt32(values[k]))
  }

  /** out[0::2], out[1::2] = i, q */
  function Alternate(i: seq<int16>, q: seq<int16>): (lanes: seq<int16>)
    requires |i| == |q|
    ensures |lanes| == 2 * |i|
  {
    seq(2 * |i|, k requires 0 <= k < 2 * |i| => if k % 2 == 0 then i[k / 2] else q[k / 2])
  }

  /** The same bytes read as int16 lanes: low half first. */
  function View(words: seq<int32>): (lanes: seq<int16>)
    ensures |lanes| == 2 * |words|
  {
    seq(2 * |words|, k requires 0 <= k < 2 * |words| =>
      if k % 2 == 0 then ToInt16(words[k / 2]) else ToInt16(words[k / 2] / 0x1_0000))
  }

  function Column(rows: seq<seq<int>>, c: nat): (column: seq<int>)
    requires forall r :: 0 <= r < |rows| ==> c < |rows[r]|
    ensures |column| == |rows|
  {
    seq(|rows|, r requires 0 <= r < |rows| => rows[r][c])
  }

  function ToInterleaved(wave: Wave, format: WaveFormat): Result<seq<int16>, FormatError>
    requires Rectangular(wave)
  {
    match format
    case IqMatrix =>
      if wave.Vector? then Err(NotTwoDimensional)
      else if |wave.rows| == 2 then Ok(Alternate(Lanes(wave.rows[0]), Lanes(wave.rows[1])))
      else if wave.width == 2 then Ok(Alternate(Lanes(Column(wave.rows, 0)), Lanes(Column(wave.rows, 1))))
      else Err(NotTwoAxes)
    case PackedIq => Ok(View(Words(Flat(wave))))
    case InterleavedIq =>
      var lanes := Lanes(Flat(wave));
      if |lanes| % 2 != 0 then Err(OddLaneCount) else Ok(lanes)
    case RealOnly =>
      var lanes := Lanes(Flat(wave));
      Ok(Alternate(lanes, seq(|lanes|, _ => 0)))
    case Unsupported => Err(UnsupportedFormat)
  }

  /** ((q & 0xFFFF) << 16) | (i & 0xFFFF) in 32 bits; the masked halves do not overlap. */
  function Word(i: int16, q: int16): int32 {
    ToInt32(q % 0x1_0000 * 0x1_0000 + i % 0x1_0000)
  }

  function PackLanes(lanes: seq<int16>): (words: seq<int32>)
    requires |lanes| % 2 == 0
    ensures |words| == |lanes| / 2
  {
    seq(|lanes| / 2, k requires 0 <= k < |lanes| / 2 => Word(lanes[2 * k], lanes[2 * k + 1]))
  }

  function ToPacked(wave: Wave, format: WaveFormat): Result<seq<int32>, FormatError>
    requires Rectangular(wave)
  {
    if format == PackedIq then Ok(Words(Flat(wave)))
    else
      LaneCountIsEven(wave, format);
      match ToInterleaved(wave, format)
      case Ok(lanes) => Ok(PackLanes(lanes))
      case Err(e) => Err(e)
  }

  lemma LaneCountIsEven(wave: Wave, format: WaveFormat)
    requires Rectangular(wave)
    ensures ToInterleaved(wave, format).Ok? ==> |ToInterleaved(wave, format).value| % 2 == 0
  {
  }

  // ----- What each format carries -----

  /** The same low sixteen bits; for two int16 the same value. */
  predicate Congruent(lane: int16, value: int) {
    lane % 0x1_0000 == value % 0x1_0000
  }

  lemma AlternateLanes(i: seq<int>, q: seq<int>)
    requires |i| == |q|
    ensures var lanes := Alternate(Lanes(i), Lanes(q));
            && |lanes| == 2 * |i|
            && forall k :: 0 <= k < |i| ==> Congruent(lanes[2 * k], i[k]) && Congruent(lanes[2 * k + 1], q[k])
  {
    forall k | 0 <= k < |i|
      ensures Congruent(Alternate(Lanes(i), Lanes(q))[2 * k], i[k])
      ensures Congruent(Alternate(Lanes(i), Lanes(q))[2 * k + 1], q[k])
    {
      hide ToInt16;
      assert (2 * k + 1) / 2 == k && (2 * k + 1) % 2 == 1;
    }
  }

  /** A matrix of two rows, or else of two columns: lane 2k is I[k] and lane 2k + 1
      is Q[k]. Nothing else is accepted as a matrix. */
  lemma MatrixLanes(wave: Wave)
    requires Rectangular(wave)
    ensures ToInterleaved(wave, IqMatrix).Ok? <==> wave.Table? && (|wave.rows| == 2 || wave.width == 2)
    ensures wave.Table? && |wave.rows| == 2 ==>
              var lanes := ToInterleaved(wave, IqMatrix).value;
              && |lanes| == 2 * wave.width
              && forall k :: 0 <= k < wave.width ==>
                   Congruent(lanes[2 * k], wave.rows[0][k]) && Congruent(lanes[2 * k + 1], wave.rows[1][k])
    ensures wave.Table? && |wave.rows| != 2 && wave.width == 2 ==>
              var lanes := ToInterleaved(wave, IqMatrix).value;
              && |lanes| == 2 * |wave.rows|
              && forall k :: 0 <= k < |wave.rows| ==>
                   Congruent(lanes[2 * k], wave.rows[k][0]) && Congruent(lanes[2 * k + 1], wave.rows[k][1])
  {
    hide ToInt16, Congruent, Alternate, Lanes, Column;
    if wave.Table? && |wave.rows| == 2 {
      AlternateLanes(wave.rows[0], wave.rows[1]);
    } else if wave.Table? && wave.width == 2 {
      AlternateLanes(Column(wave.rows, 0), Column(wave.rows, 1));
      ColumnIs(wave.rows, 0);
      ColumnIs(wave.rows, 1);
    }
  }

  lemma ColumnIs(rows: seq<seq<int>>, c: nat)
    requires forall r :: 0 <= r < |rows| ==> c < |rows[r]|
    ensures forall r :: 0 <= r < |rows| ==> Column(rows, c)[r] == rows[r][c]
  {
  }

  /** A real value goes to lane 2k with zero in lane 2k + 1. */
  lemma RealLanes(wave: Wave)
    requires Rectangular(wave)
    ensures var lanes, values := ToInterleaved(wave, RealOnly), Flat(wave);
            && lanes.Ok? && |lanes.value| == 2 * |values|
            && forall k :: 0 <= k < |values| ==>
                 Congruent(lanes.value[2 * k], values[k]) && lanes.value[2 * k + 1] == 0
  {
    hide ToInt16, Flat, Lanes, Congruent;
    var values := Flat(wave);
    var silence := seq(|values|, _ => 0);
    AlternateLanes(values, silence);
    forall k | 0 <= k < |values|
      ensures Alternate(Lanes(values), silence)[2 * k] == Alternate(Lanes(values), Lanes(silence))[2 * k]
      ensures Alternate(Lanes(values), silence)[2 * k + 1] == 0
    {
      assert (2 * k + 1) / 2 == k && (2 * k + 1) % 2 == 1;
    }
  }

  /** An interleaved value goes to its own lane, and a packed word to two, low half first. */
  lemma FlatLanes(wave: Wave)
    requires Rectangular(wave)
    ensures var lanes, values := ToInterleaved(wave, InterleavedIq), Flat(wave);
            && (lanes.Ok? <==> |values| % 2 == 0)
            && (lanes.Ok? ==> |lanes.value| == |values|
                              && forall k :: 0 <= k < |values| ==> Congruent(lanes.value[k], values[k]))
    ensures var lanes, values := ToInterleaved(wave, PackedIq), Flat(wave);
            && lanes.Ok? && |lanes.value| == 2 * |values|
            && forall k :: 0 <= k < |values| ==>
                 CarriesWord(lanes.value[2 * k], lanes.value[2 * k + 1], values[k])
  {
    hide ToInt16, ToInt32, Flat, CarriesWord, View;
    ViewCarries(Flat(wave));
  }

  lemma ViewCarries(values: seq<int>)
    ensures forall k :: 0 <= k < |values| ==>
              CarriesWord(View(Words(values))[2 * k], View(Words(values))[2 * k + 1], values[k])
  {
    hide ToInt16, ToInt32, CarriesWord;
    forall k | 0 <= k < |values|
      ensures CarriesWord(View(Words(values))[2 * k], View(Words(values))[2 * k + 1], values[k])
    {
      HalvesCarry(values[k]);
      assert (2 * k + 1) / 2 == k && (2 * k + 1) % 2 == 1;
    }
  }

  /** The two lanes hold the low 32 bits of a value, low half first. */
  predicate CarriesWord(low: int16, high: int16, value: int) {
    low % 0x1_0000 + 0x1_0000 * (high % 0x1_0000) == value % 0x1_0000_0000
  }

  lemma HalvesCarry(value: int)
    ensures CarriesWord(ToInt16(ToInt32(value)), ToInt16(ToInt32(value) / 0x1_0000), value)
  {
    HalvesOf(ToInt32(value));
  }

  lemma HalvesOf(w: int)
    ensures w % 0x1_0000 + 0x1_0000 * (w / 0x1_0000 % 0x1_0000) == w % 0x1_0000_0000
  {
    var top := w / 0x1_0000_0000;
    assert w / 0x1_0000 == top * 0x1_0000 + w % 0x1_0000_0000 / 0x1_0000;
  }

  /** A matrix is flattened row by row. */
  lemma {:induction false} FlatIsRowMajor(wave: Wave, r: nat, c: nat)
    requires Rectangular(wave) && wave.Table? && r < |wave.rows| && c < wave.width
    ensures |Flat(wave)| == |wave.rows| * wave.width && r * wave.width + c < |Flat(wave)|
    ensures Flat(wave)[r * wave.width + c] == wave.rows[r][c]
    decreases r
  {
    var rest := Table(wave.rows[1..], wave.width);
    FlatLength(rest);
    assert |wave.rows| * wave.width == wave.width + |rest.rows| * wave.width;
    if r == 0 {
    } else {
      FlatIsRowMajor(rest, r - 1, c);
      assert r * wave.width == wave.width + (r - 1) * wave.width;
    }
  }

  lemma {:induction false} FlatLength(wave: Wave)
    requires Rectangular(wave) && wave.Table?
    ensures |Flat(wave)| == |wave.rows| * wave.width
    decreases |wave.rows|
  {
    if wave.rows == [] {
    } else {
      var rest := Table(wave.rows[1..], wave.width);
      FlatLength(rest);
      assert |wave.rows| * wave.width == wave.width + |rest.rows| * wave.width;
    }
  }

  // ----- Word layout -----

  /** A word is the number with I in the low half and signed Q above it. */
  lemma WordValue(i: int16, q: int16)
    ensures Word(i, q) == q * 0x1_0000 + i % 0x1_0000
    ensures ToInt16(Word(i, q)) == i && ToInt16(Word(i, q) / 0x1_0000) == q
  {
    var high := q % 0x1_0000;
    assert high == q || high == q + 0x1_0000;
  }

  lemma WordOfHalves(w: int32)
    ensures Word(ToInt16(w), ToInt16(w / 0x1_0000)) == w
  {
    var q := w / 0x1_0000;
    assert ToInt16(q) == q;
    hide ToInt16, ToInt32, Word;
    WordValue(ToInt16(w), q);
  }

  function LaneBytes(lane: int16): seq<byte> {
    LittleEndian(lane % 0x1_0000, 2)
  }

  function WordBytes(word: int32): seq<byte> {
    LittleEndian(word % 0x1_0000_0000, 4)
  }

  lemma HalfDigits(low: nat, high: nat)
    requires low < 0x1_0000
    ensures var w := high * 0x1_0000 + low;
            w % 256 == low % 256 && w / 256 % 256 == low / 256 && w / 256 / 256 == high
  {
    var w := high * 0x1_0000 + low;
    assert w / 256 == high * 256 + low / 256;
  }

  lemma SplitsInHalves(low: nat, high: nat)
    requires low < 0x1_0000
    ensures LittleEndian(high * 0x1_0000 + low, 4) == LittleEndian(low, 2) + LittleEndian(high, 2)
  {
    var w := high * 0x1_0000 + low;
    HalfDigits(low, high);
    assert LittleEndian(w, 4) == [w % 256] + LittleEndian(w / 256, 3);
    assert LittleEndian(w / 256, 3) == [w / 256 % 256] + LittleEndian(w / 256 / 256, 2);
    assert LittleEndian(low, 2) == [low % 256] + LittleEndian(low / 256, 1);
    assert LittleEndian(low / 256, 1) == [low / 256] + LittleEndian(0, 0);
  }

  lemma WordPattern(i: int16, q: int16)
    ensures Word(i, q) % 0x1_0000_0000 == q % 0x1_0000 * 0x1_0000 + i % 0x1_0000
  {
    hide Word;
    WordValue(i, q);
    Unsigned(q);
    Unsigned32(q * 0x1_0000 + i % 0x1_0000);
  }

  lemma Unsigned(q: int16)
    ensures q % 0x1_0000 == if q < 0 then q + 0x1_0000 else q
  {
  }

  lemma Unsigned32(w: int)
    requires -0x8000_0000 <= w < 0x8000_0000
    ensures w % 0x1_0000_0000 == if w < 0 then w + 0x1_0000_0000 else w
  {
  }

  /** In memory a packed word is its I lane followed by its Q lane. */
  lemma WordIsItsLanes(i: int16, q: int16)
    ensures WordBytes(Word(i, q)) == LaneBytes(i) + LaneBytes(q)
  {
    hide LittleEndian, Word;
    WordPattern(i, q);
    SplitsInHalves(i % 0x1_0000, q % 0x1_0000);
  }

  // ----- Conversions are inverses -----

  lemma ViewPacks(lanes: seq<int16>)
    requires |lanes| % 2 == 0
    ensures View(PackLanes(lanes)) == lanes
  {
    hide ToInt16, ToInt32, Word;
    forall k | 0 <= k < |lanes|
      ensures View(PackLanes(lanes))[k] == lanes[k]
    {
      WordValue(lanes[k / 2 * 2], lanes[k / 2 * 2 + 1]);
    }
  }

  lemma PackViews(words: seq<int32>)
    ensures PackLanes(View(words)) == words
  {
    hide ToInt16, ToInt32, Word;
    forall k | 0 <= k < |words|
      ensures PackLanes(View(words))[k] == words[k]
    {
      WordOfHalves(words[k]);
    }
  }

  /** Values already in range are not changed by the casts. */
  lemma CastsAreExact(lanes: seq<int16>, words: seq<int32>)
    ensures Lanes(lanes) == lanes && Words(words) == words
  {
  }

  lemma PackedRoundTrip(words: seq<int32>)
    ensures var lanes := ToInterleaved(Vector(words), PackedIq);
            lanes.Ok? && ToPacked(Vector(lanes.value), InterleavedIq) == Ok(words)
  {
    CastsAreExact(View(words), words);
    PackViews(words);
  }

  /** Interleaved lanes survive packing exactly when they come in pairs. */
  lemma InterleavedRoundTrip(lanes: seq<int16>)
    ensures var words := ToPacked(Vector(lanes), InterleavedIq);
            && (words.Ok? <==> |lanes| % 2 == 0)
            && (words.Ok? ==> ToInterleaved(Vector(words.value), PackedIq) == Ok(lanes))
  {
    CastsAreExact(lanes, []);
    if |lanes| % 2 == 0 {
      CastsAreExact(lanes, PackLanes(lanes));
      ViewPacks(lanes);
    }
  }

  /** Every format reaches the same words directly and through its interleaved lanes,
      and the same lanes directly and through its words. */
  lemma RoutesAgree(wave: Wave, format: WaveFormat)
    requires Rectangular(wave)
    ensures ToPacked(wave, format).Ok? <==> ToInterleaved(wave, format).Ok?
    ensures ToPacked(wave, format).Ok? ==>
              && ToPacked(Vector(ToInterleaved(wave, format).value), InterleavedIq) == ToPacked(wave, format)
              && ToInterleaved(Vector(ToPacked(wave, format).value), PackedIq) == ToInterleaved(wave, format)
  {
    LaneCountIsEven(wave, format);
    if format == PackedIq {
      var words := Words(Flat(wave));
      CastsAreExact(View(words), words);
      PackViews(words);
    } else if ToInterleaved(wave, format).Ok? {
      var lanes := ToInterleaved(wave, format).value;
      CastsAreExact(lanes, PackLanes(lanes));
      ViewPacks(lanes);
    }
  }

  // ----- Matrix orientation -----

  function Transpose(wave: Wave): Wave
    requires wave.Table? && |wave.rows| == 2 && Rectangular(wave)
  {
    Table(seq(wave.width, c requires 0 <= c < wave.width => [wave.rows[0][c], wave.rows[1][c]]), 2)
  }

  /** A matrix of I and Q rows and the same matrix as columns convert alike, unless
      there are two samples: then the columns are read as rows, which agrees only when
      the second I and the first Q are the same lane. */
  lemma OrientationIsInferred(wave: Wave)
    requires wave.Table? && |wave.rows| == 2 && Rectangular(wave)
    ensures Rectangular(Transpose(wave))
    ensures ToInterleaved(wave, IqMatrix) == ToInterleaved(Transpose(wave), IqMatrix)
            <==> (wave.width == 2 ==> ToInt16(wave.rows[0][1]) == ToInt16(wave.rows[1][0]))
  {
    var turned := Transpose(wave);
    var direct := ToInterleaved(wave, IqMatrix).value;
    if wave.width == 2 {
      var other := ToInterleaved(turned, IqMatrix).value;
      assert direct == [ToInt16(wave.rows[0][0]), ToInt16(wave.rows[1][0]), ToInt16(wave.rows[0][1]),
                        ToInt16(wave.rows[1][1])];
      assert other == [ToInt16(wave.rows[0][0]), ToInt16(wave.rows[0][1]), ToInt16(wave.rows[1][0]),
                       ToInt16(wave.rows[1][1])];
      assert direct[1] == other[1] <==> ToInt16(wave.rows[0][1]) == ToInt16(wave.rows[1][0]);
    } else {
      assert Column(turned.rows, 0) == wave.rows[0];
      assert Column(turned.rows, 1) == wave.rows[1];
    }
  }

  /** A real wave is carried on I with a zero Q. */
  lemma RealWaveHasZeroQ(wave: Wave)
    requires Rectangular(wave)
    ensures var words := ToPacked(wave, RealOnly);
            && words.Ok? && |words.value| == |Flat(wave)|
            && forall k :: 0 <= k < |words.value| ==> words.value[k] == Flat(wave)[k] % 0x1_0000
  {
    hide Word, ToInt16, ToInt32, Flat;
    var lanes := Lanes(Flat(wave));
    forall k | 0 <= k < |lanes|
      ensures Word(lanes[k], 0) == Flat(wave)[k] % 0x1_0000
    {
      WordValue(lanes[k], 0);
    }
  }
}
