/** Little-endian byte strings, and the record formats that `struct.pack` and
    `struct.unpack` describe with a format string.

    A format is the sequence of its field widths in bytes, so "<IIIIIQ" is
    [4, 4, 4, 4, 4, 8]. */
module Bytes {

  type byte = b: int | 0 <= b < 256

  datatype Option<+T> = None | Some(value: T)

  datatype Result<+T, +E> = Ok(value: T) | Err(error: E)

  function Pow256(n: nat): (p: nat)
    ensures p > 0
  {
    if n == 0 then 1 else 256 * Pow256(n - 1)
  }

  /** The low n bytes of v, least significant first. */
  function LittleEndian(v: nat, n: nat): (s: seq<byte>)
    ensures |s| == n
  {
    if n == 0 then [] else [v % 256] + LittleEndian(v / 256, n - 1)
  }

  function FromLittleEndian(s: seq<byte>): (v: nat)
    ensures v < Pow256(|s|)
  {
    if s == [] then 0 else s[0] + 256 * FromLittleEndian(s[1..])
  }

  lemma {:induction false} FromLittleEndianInverts(v: nat, n: nat)
    requires v < Pow256(n)
    ensures FromLittleEndian(LittleEndian(v, n)) == v
  {
    if n == 0 {
    } else {
      FromLittleEndianInverts(v / 256, n - 1);
      assert LittleEndian(v, n)[1..] == LittleEndian(v / 256, n - 1);
    }
  }

  lemma {:induction false} LittleEndianInverts(s: seq<byte>)
    ensures LittleEndian(FromLittleEndian(s), |s|) == s
  {
    if s == [] {
    } else {
      LittleEndianInverts(s[1..]);
      var v := FromLittleEndian(s);
      assert v % 256 == s[0] && v / 256 == FromLittleEndian(s[1..]);
      assert s == [s[0]] + s[1..];
    }
  }

  lemma PowerConstants()
    ensures Pow256(1) == 0x100 && Pow256(2) == 0x1_0000
    ensures Pow256(4) == 0x1_0000_0000 && Pow256(8) == 0x1_0000_0000_0000_0000
  {
    assert Pow256(3) == 0x100_0000;
    assert Pow256(5) == 0x100_0000_0000;
    assert Pow256(6) == 0x1_0000_0000_0000;
    assert Pow256(7) == 0x100_0000_0000_0000;
  }

  // ----- Records -----

  type Format = seq<nat>

  function Size(format: Format): nat {
    if format == [] then 0 else format[0] + Size(format[1..])
  }

  /** Every value can be stored in its field. */
  predicate Fits(format: Format, values: seq<nat>) {
    |format| == |values| && forall i :: 0 <= i < |format| ==> values[i] < Pow256(format[i])
  }

  function PackRecord(format: Format, values: seq<nat>): (raw: seq<byte>)
    requires |format| == |values|
    ensures |raw| == Size(format)
  {
    if format == [] then [] else LittleEndian(values[0], format[0]) + PackRecord(format[1..], values[1..])
  }

  function UnpackRecord(format: Format, raw: seq<byte>): (values: seq<nat>)
    requires |raw| == Size(format)
    ensures |values| == |format|
  {
    if format == [] then []
    else [FromLittleEndian(raw[..format[0]])] + UnpackRecord(format[1..], raw[format[0]..])
  }

  lemma {:induction false} UnpackPack(format: Format, values: seq<nat>)
    requires Fits(format, values)
    ensures UnpackRecord(format, PackRecord(format, values)) == values
  {
    if format == [] {
    } else {
      var raw := PackRecord(format, values);
      assert raw[..format[0]] == LittleEndian(values[0], format[0]);
      assert raw[format[0]..] == PackRecord(format[1..], values[1..]);
      FromLittleEndianInverts(values[0], format[0]);
      UnpackPack(format[1..], values[1..]);
      assert values == [values[0]] + values[1..];
    }
  }

  lemma {:induction false} PackUnpack(format: Format, raw: seq<byte>)
    requires |raw| == Size(format)
    ensures Fits(format, UnpackRecord(format, raw))
    ensures PackRecord(format, UnpackRecord(format, raw)) == raw
  {
    if format == [] {
    } else {
      var head, tail := raw[..format[0]], raw[format[0]..];
      LittleEndianInverts(head);
      PackUnpack(format[1..], tail);
      var values := UnpackRecord(format, raw);
      assert values[1..] == UnpackRecord(format[1..], tail);
      assert forall i :: 1 <= i < |format| ==> values[i] == values[1..][i - 1] && format[i] == format[1..][i - 1];
      assert raw == head + tail;
    }
  }

  /** A packed record determines its values. */
  lemma PackRecordInjective(format: Format, a: seq<nat>, b: seq<nat>)
    requires Fits(format, a) && Fits(format, b)
    requires PackRecord(format, a) == PackRecord(format, b)
    ensures a == b
  {
    UnpackPack(format, a);
    UnpackPack(format, b);
  }

  // ----- Fields by position -----

  /** Where field i of a record starts. */
  function Offset(format: Format, i: nat): nat
    requires i <= |format|
  {
    if i == 0 then 0 else format[0] + Offset(format[1..], i - 1)
  }

  lemma {:induction false} OffsetStep(format: Format, i: nat)
    requires i < |format|
    ensures Offset(format, i + 1) == Offset(format, i) + format[i] <= Size(format)
  {
    if i == 0 {
      assert Offset(format[1..], 0) == 0;
    } else {
      OffsetStep(format[1..], i - 1);
    }
  }

  /** Field i of a record is read from its own bytes. */
  lemma {:induction false} UnpackedField(format: Format, raw: seq<byte>, i: nat)
    requires |raw| == Size(format) && i < |format|
    ensures Offset(format, i) + format[i] <= |raw|
    ensures UnpackRecord(format, raw)[i] == FromLittleEndian(raw[Offset(format, i)..Offset(format, i) + format[i]])
  {
    hide FromLittleEndian, Pow256;
    OffsetStep(format, i);
    if i == 0 {
    } else {
      var rest, at := raw[format[0]..], Offset(format[1..], i - 1);
      UnpackedField(format[1..], rest, i - 1);
      assert rest[at..at + format[i]] == raw[Offset(format, i)..Offset(format, i) + format[i]];
    }
  }

  /** The number in the n bytes at a position, written out. */
  function UintAt(raw: seq<byte>, at: nat, n: nat): nat
    requires at + n <= |raw| && n in {1, 2, 4, 8}
    decreases n
  {
    if n == 1 then raw[at]
    else if n == 2 then raw[at] + 0x100 * raw[at + 1]
    else if n == 4 then raw[at] + 0x100 * raw[at + 1] + 0x1_0000 * raw[at + 2] + 0x100_0000 * raw[at + 3]
    else
      UintAt(raw, at, 4) + 0x1_0000_0000 * UintAt(raw, at + 4, 4)
  }

  lemma ShortFieldIsUint(raw: seq<byte>, at: nat, n: nat)
    requires at + n <= |raw| && n in {1, 2, 4}
    ensures FromLittleEndian(raw[at..at + n]) == UintAt(raw, at, n)
  {
    FieldStep(raw, at, n);
    if n >= 2 {
      FieldStep(raw, at + 1, n - 1);
    }
    if n == 4 {
      FieldStep(raw, at + 2, 2);
      FieldStep(raw, at + 3, 1);
    }
  }

  lemma FieldStep(raw: seq<byte>, at: nat, n: nat)
    requires 0 < n && at + n <= |raw|
    ensures FromLittleEndian(raw[at..at + n]) == raw[at] + 256 * FromLittleEndian(raw[at + 1..at + n])
    ensures n == 1 ==> FromLittleEndian(raw[at..at + n]) == raw[at]
  {
    assert raw[at..at + n][1..] == raw[at + 1..at + n];
  }

  /** A field's value is the sum of its bytes, each weighted by its place. */
  lemma FieldIsUint(raw: seq<byte>, at: nat, n: nat)
    requires at + n <= |raw| && n in {1, 2, 4, 8}
    ensures FromLittleEndian(raw[at..at + n]) == UintAt(raw, at, n)
  {
    if n < 8 {
      ShortFieldIsUint(raw, at, n);
    } else {
      FieldStep(raw, at, 8);
      FieldStep(raw, at + 1, 7);
      FieldStep(raw, at + 2, 6);
      FieldStep(raw, at + 3, 5);
      ShortFieldIsUint(raw, at + 4, 4);
    }
  }

  lemma SliceOfSlice(s: seq<byte>, lo: nat, hi: nat, from: nat, to: nat)
    requires lo <= hi <= |s| && from <= to <= hi - lo
    ensures s[lo..hi][from..to] == s[lo + from..lo + to]
  {
    var inner, outer := s[lo..hi][from..to], s[lo + from..lo + to];
    forall k | 0 <= k < to - from
      ensures inner[k] == outer[k]
    {
      assert inner[k] == s[lo..hi][from + k] == s[lo + (from + k)];
    }
  }

  /** Field i of a record, by its bytes. */
  lemma UnpackedUint(format: Format, raw: seq<byte>, start: nat, i: nat)
    requires start + Size(format) <= |raw| && i < |format| && format[i] in {1, 2, 4, 8}
    ensures start + Offset(format, i) + format[i] <= |raw|
    ensures UnpackRecord(format, raw[start..start + Size(format)])[i]
            == UintAt(raw, start + Offset(format, i), format[i])
  {
    hide FromLittleEndian, UnpackRecord, Size, Offset, UintAt;
    var record, at := raw[start..start + Size(format)], Offset(format, i);
    UnpackedField(format, record, i);
    SliceOfSlice(raw, start, start + Size(format), at, at + format[i]);
    assert record[at..at + format[i]] == raw[start + at..start + at + format[i]];
    FieldIsUint(raw, start + at, format[i]);
  }

  /** n zero bytes. */
  function Zeros(n: nat): (s: seq<byte>)
    ensures |s| == n && forall i :: 0 <= i < n ==> s[i] == 0
  {
    seq(n, i => 0)
  }

  function Concat(parts: seq<seq<byte>>): seq<byte> {
    if parts == [] then [] else parts[0] + Concat(parts[1..])
  }

  lemma {:induction false} ConcatAppend(a: seq<seq<byte>>, b: seq<seq<byte>>)
    ensures Concat(a + b) == Concat(a) + Concat(b)
  {
    if a == [] {
      assert a + b == b;
    } else {
      assert (a + b)[1..] == a[1..] + b;
      ConcatAppend(a[1..], b);
    }
  }

  lemma ConcatSnoc(a: seq<seq<byte>>, x: seq<byte>)
    ensures Concat(a + [x]) == Concat(a) + x
  {
    ConcatAppend(a, [x]);
    assert Concat([x]) == x + Concat([]);
  }
}
