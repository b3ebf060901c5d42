/**
 25 header bytes, RECORD_FORMAT and three Uint64 fields written by BigEndian, precede the value of an encoded record.
 Decode reads them back. The two times are plain int64 values here.
 */
module RecordCodec {
  import opened Wrappers

  type byte = b: int | 0 <= b < 256
  type int64 = i: int | -0x8000_0000_0000_0000 <= i < 0x8000_0000_0000_0000

  const TWO_64: nat := 0x1_0000_0000_0000_0000
  const RECORD_FORMAT: byte := 1
  const HEADER_SIZE: nat := 25

  datatype Stored = Stored(value: seq<byte>, revision: int64, created: int64, updated: int64)

  datatype CodecError = UnknownFormat

  function Uint64(i: int64): nat {
    if i < 0 then i + TWO_64 else i
  }

  function Int64(n: nat): int64
    requires n < TWO_64
  {
    if n < 0x8000_0000_0000_0000 then n else n - TWO_64
  }

  function Pow256(k: nat): nat {
    if k == 0 then 1 else 256 * Pow256(k - 1)
  }

  // The last size bytes of n, most significant first.
  function BigEndian(n: nat, size: nat): (bytes: seq<byte>)
    ensures |bytes| == size
  {
    if size == 0 then [] else BigEndian(n / 256, size - 1) + [n % 256]
  }

  function Value(bytes: seq<byte>): nat {
    if bytes == [] then 0 else 256 * Value(bytes[..|bytes| - 1]) + bytes[|bytes| - 1]
  }

  function Encode(r: Stored): seq<byte> {
    [RECORD_FORMAT] + BigEndian(Uint64(r.revision), 8) + BigEndian(Uint64(r.created), 8)
    + BigEndian(Uint64(r.updated), 8) + r.value
  }

  function Decode(v: seq<byte>): Result<Stored, CodecError> {
    if |v| < HEADER_SIZE || v[0] != RECORD_FORMAT then
      Failure(UnknownFormat)
    else
      ValueBound(v[1..9]); ValueBound(v[9..17]); ValueBound(v[17..25]); Pow256Of8();
      Success(Stored(v[HEADER_SIZE..], Int64(Value(v[1..9])), Int64(Value(v[9..17])), Int64(Value(v[17..25]))))
  }

  lemma Pow256Of8()
    ensures Pow256(8) == TWO_64
  {
    assert Pow256(4) == 0x1_0000_0000;
  }

  lemma {:induction false} ValueBound(bytes: seq<byte>)
    ensures Value(bytes) < Pow256(|bytes|)
  {
    if bytes != [] {
      ValueBound(bytes[..|bytes| - 1]);
    }
  }

  lemma {:induction false} ValueOfBigEndian(n: nat, size: nat)
    requires n < Pow256(size)
    ensures Value(BigEndian(n, size)) == n
  {
    if size > 0 {
      ValueOfBigEndian(n / 256, size - 1);
      var bytes := BigEndian(n, size);
      assert bytes[..size - 1] == BigEndian(n / 256, size - 1);
    }
  }

  lemma {:induction false} BigEndianOfValue(bytes: seq<byte>)
    ensures BigEndian(Value(bytes), |bytes|) == bytes
  {
    if bytes != [] {
      var front, last := bytes[..|bytes| - 1], bytes[|bytes| - 1];
      BigEndianOfValue(front);
      assert Value(bytes) / 256 == Value(front) && Value(bytes) % 256 == last;
      assert bytes == front + [last];
    }
  }

  lemma FieldsOf(r: Stored)
    ensures var v := Encode(r);
            && |v| >= HEADER_SIZE && v[0] == RECORD_FORMAT
            && v[1..9] == BigEndian(Uint64(r.revision), 8)
            && v[9..17] == BigEndian(Uint64(r.created), 8)
            && v[17..25] == BigEndian(Uint64(r.updated), 8)
            && v[HEADER_SIZE..] == r.value
  {
  }

  /** Decode undoes encode for every record, over the whole range of 64-bit revisions and times. */
  lemma DecodeOfEncode(r: Stored)
    ensures Decode(Encode(r)) == Success(r)
  {
    FieldsOf(r);
    Pow256Of8();
    ValueOfBigEndian(Uint64(r.revision), 8);
    ValueOfBigEndian(Uint64(r.created), 8);
    ValueOfBigEndian(Uint64(r.updated), 8);
  }

  /** Every stored form that decodes is the encoding of what it decodes to, so no two forms stand for one record. */
  lemma EncodeOfDecode(v: seq<byte>)
    requires Decode(v).Success?
    ensures Encode(Decode(v).value) == v
  {
    var r := Decode(v).value;
    ValueBound(v[1..9]);
    ValueBound(v[9..17]);
    ValueBound(v[17..25]);
    Pow256Of8();
    BigEndianOfValue(v[1..9]);
    BigEndianOfValue(v[9..17]);
    BigEndianOfValue(v[17..25]);
    assert Uint64(r.revision) == Value(v[1..9]) && Uint64(r.created) == Value(v[9..17])
           && Uint64(r.updated) == Value(v[17..25]);
    assert v == [v[0]] + v[1..9] + v[9..17] + v[17..25] + v[HEADER_SIZE..];
  }

  // Writes n at the position at, big-endian, as binary.BigEndian.PutUint64 does.
  method PutUint64(v: array<byte>, at: nat, n: nat)
    requires at + 8 <= v.Length
    modifies v
    ensures v[at..at + 8] == BigEndian(n, 8)
    ensures forall i :: 0 <= i < v.Length && !(at <= i < at + 8) ==> v[i] == old(v[i])
  {
    var rest, i := n, 8;
    while i > 0
      invariant 0 <= i <= 8
      invariant forall j :: 0 <= j < v.Length && !(at + i <= j < at + 8) ==> v[j] == old(v[j])
      invariant BigEndian(n, 8) == BigEndian(rest, i) + v[at + i..at + 8]
    {
      i := i - 1;
      ghost var done := v[at + i + 1..at + 8];
      v[at + i] := rest % 256;
      assert v[at + i..at + 8] == [rest % 256] + done;
      rest := rest / 256;
    }
  }

  /** Fills the header of a new buffer, then the value after it. */
  method EncodeRecord(r: Stored) returns (v: array<byte>)
    ensures fresh(v) && v[..] == Encode(r)
  {
    v := new byte[HEADER_SIZE + |r.value|](_ => 0);
    v[0] := RECORD_FORMAT;
    PutUint64(v, 1, Uint64(r.revision));
    PutUint64(v, 9, Uint64(r.created));
    assert v[1..9] == BigEndian(Uint64(r.revision), 8);
    PutUint64(v, 17, Uint64(r.updated));
    assert v[1..9] == BigEndian(Uint64(r.revision), 8) && v[9..17] == BigEndian(Uint64(r.created), 8);
    var i := 0;
    while i < |r.value|
      invariant 0 <= i <= |r.value|
      invariant v[0] == RECORD_FORMAT && v[1..9] == BigEndian(Uint64(r.revision), 8)
      invariant v[9..17] == BigEndian(Uint64(r.created), 8) && v[17..25] == BigEndian(Uint64(r.updated), 8)
      invariant v[HEADER_SIZE..HEADER_SIZE + i] == r.value[..i]
    {
      v[HEADER_SIZE + i] := r.value[i];
      i := i + 1;
    }
    assert v[..] == [v[0]] + v[1..9] + v[9..17] + v[17..25] + v[HEADER_SIZE..];
  }
}
