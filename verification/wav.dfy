/**
 * The canonical 44-byte RIFF/WAVE header for linear PCM ("WAVE Form
 * Definition" of the Microsoft/IBM Multimedia Programming Interface and Data
 * Specifications 1.0): a RIFF chunk of form type WAVE holding a `fmt ` chunk
 * with wFormatTag 1 (PCM) followed by the `data` chunk.
 */
module Wav {
  import opened Bytes
  import opened Wrappers

  const HEADER_SIZE: nat := 44
  const FMT_CHUNK_SIZE: int := 16
  const PCM_FORMAT: int := 1
  const BITS_PER_SAMPLE: int := 16

  /** The fields of the RIFF chunk descriptor fit their writes. */
  predicate RiffFits(dataLength: nat)
  {
    36 + dataLength < U32_LIMIT
  }

  /** The fields of the `fmt ` chunk fit their writes. */
  predicate FmtFits(sampleRate: int, channels: int)
  {
    && 0 <= channels && channels * 2 < U16_LIMIT
    && 0 <= sampleRate < U32_LIMIT
    && sampleRate * channels * 2 < U32_LIMIT
  }

  /**
   * Every field the header writes is in the range its `writeUInt16LE` or
   * `writeUInt32LE` call accepts; otherwise Node raises a RangeError.
   */
  predicate HeaderFits(dataLength: nat, sampleRate: int, channels: int)
  {
    RiffFits(dataLength) && FmtFits(sampleRate, channels)
  }

  /** "RIFF", the size of the rest of the file, "WAVE". */
  function RiffDescriptor(dataLength: nat): (h: seq<Byte>)
    requires RiffFits(dataLength)
    ensures |h| == 12
  {
    Ascii("RIFF") + UInt32LE(36 + dataLength) + Ascii("WAVE")
  }

  /** The `fmt ` chunk: its head, then its rate fields. */
  function FmtChunk(sampleRate: int, channels: int): (h: seq<Byte>)
    requires FmtFits(sampleRate, channels)
    ensures |h| == 24
  {
    FmtHead(channels) + FmtRates(sampleRate, channels)
  }

  /** "fmt ", the chunk size, the PCM format tag and the channel count. */
  function FmtHead(channels: int): (h: seq<Byte>)
    requires 0 <= channels < U16_LIMIT
    ensures |h| == 12
  {
    Ascii("fmt ") + UInt32LE(FMT_CHUNK_SIZE) + UInt16LE(PCM_FORMAT) + UInt16LE(channels)
  }

  /** Sample rate, byte rate, block align and bits per sample. */
  function FmtRates(sampleRate: int, channels: int): (h: seq<Byte>)
    requires FmtFits(sampleRate, channels)
    ensures |h| == 12
  {
    UInt32LE(sampleRate) + UInt32LE(sampleRate * channels * 2) + UInt16LE(channels * 2) + UInt16LE(BITS_PER_SAMPLE)
  }

  /** "data" and the payload length. */
  function DataChunkHeader(dataLength: nat): (h: seq<Byte>)
    requires RiffFits(dataLength)
    ensures |h| == 8
  {
    Ascii("data") + UInt32LE(dataLength)
  }

  /** The header bytes, field by field in file order. */
  function WavHeader(dataLength: nat, sampleRate: int, channels: int): (h: seq<Byte>)
    requires HeaderFits(dataLength, sampleRate, channels)
    ensures |h| == HEADER_SIZE
  {
    RiffDescriptor(dataLength) + FmtChunk(sampleRate, channels) + DataChunkHeader(dataLength)
  }

  /** The whole file `addWavHeader` produces, or None when one of its writes raises. */
  function WavFile(samples: seq<Byte>, sampleRate: int, channels: int): (r: Option<seq<Byte>>)
    ensures r.Some? <==> HeaderFits(|samples|, sampleRate, channels)
    ensures r.Some? ==> |r.value| == HEADER_SIZE + |samples| && r.value[HEADER_SIZE..] == samples
  {
    if HeaderFits(|samples|, sampleRate, channels) then
      Some(WavHeader(|samples|, sampleRate, channels) + samples)
    else
      None
  }

  /** A field sits at the offset of everything written before it. */
  lemma FieldAt(pre: seq<Byte>, field: seq<Byte>, post: seq<Byte>)
    ensures (pre + field + post)[|pre|..|pre| + |field|] == field
  {
  }

  lemma RiffFields(dataLength: nat)
    requires RiffFits(dataLength)
    ensures var h := RiffDescriptor(dataLength);
      && AsText(h[0..4]) == "RIFF"
      && ReadUInt32LE(h, 4) == 36 + dataLength
      && AsText(h[8..12]) == "WAVE"
  {
    var riff, size, wave := Ascii("RIFF"), UInt32LE(36 + dataLength), Ascii("WAVE");
    var h := riff + size + wave;
    AsciiRoundTrip("RIFF");
    AsciiRoundTrip("WAVE");
    FieldAt([], riff, size + wave);
    FieldAt(riff, size, wave);
    FieldAt(riff + size, wave, []);
    assert h == [] + riff + (size + wave) == riff + size + wave + [];
    UInt32At(h, 4, 36 + dataLength);
  }

  lemma FmtFields(sampleRate: int, channels: int)
    requires FmtFits(sampleRate, channels)
    ensures var h := FmtChunk(sampleRate, channels);
      && AsText(h[0..4]) == "fmt "
      && ReadUInt32LE(h, 4) == 16
      && ReadUInt16LE(h, 8) == 1
      && ReadUInt16LE(h, 10) == channels
      && ReadUInt32LE(h, 12) == sampleRate
      && ReadUInt32LE(h, 16) == sampleRate * channels * 2
      && ReadUInt16LE(h, 20) == channels * 2
      && ReadUInt16LE(h, 22) == 16
  {
    FmtHeadFields(channels, FmtRates(sampleRate, channels));
    FmtRateFields(FmtHead(channels), sampleRate, channels);
  }

  lemma FmtHeadFields(channels: int, tail: seq<Byte>)
    requires 0 <= channels < U16_LIMIT
    ensures var h := FmtHead(channels) + tail;
      && AsText(h[0..4]) == "fmt "
      && ReadUInt32LE(h, 4) == 16
      && ReadUInt16LE(h, 8) == 1
      && ReadUInt16LE(h, 10) == channels
  {
    var tag, size, format, chans := Ascii("fmt "), UInt32LE(FMT_CHUNK_SIZE), UInt16LE(PCM_FORMAT), UInt16LE(channels);
    var h := FmtHead(channels) + tail;
    assert h == tag + size + format + chans + tail;
    AsciiRoundTrip("fmt ");
    assert h == [] + tag + (size + format + chans + tail);
    FieldAt([], tag, size + format + chans + tail);
    assert h == tag + size + (format + chans + tail);
    FieldAt(tag, size, format + chans + tail);
    UInt32At(h, 4, FMT_CHUNK_SIZE);
    assert h == tag + size + format + (chans + tail);
    FieldAt(tag + size, format, chans + tail);
    UInt16At(h, 8, PCM_FORMAT);
    FieldAt(tag + size + format, chans, tail);
    UInt16At(h, 10, channels);
  }

  lemma FmtRateFields(head: seq<Byte>, sampleRate: int, channels: int)
    requires |head| == 12 && FmtFits(sampleRate, channels)
    ensures var h := head + FmtRates(sampleRate, channels);
      && ReadUInt32LE(h, 12) == sampleRate
      && ReadUInt32LE(h, 16) == sampleRate * channels * 2
      && ReadUInt16LE(h, 20) == channels * 2
      && ReadUInt16LE(h, 22) == 16
  {
    var rate, byteRate, align, bits := UInt32LE(sampleRate), UInt32LE(sampleRate * channels * 2), UInt16LE(channels * 2), UInt16LE(BITS_PER_SAMPLE);
    var h := head + FmtRates(sampleRate, channels);
    assert h == head + rate + byteRate + align + bits;
    assert h == head + rate + (byteRate + align + bits);
    FieldAt(head, rate, byteRate + align + bits);
    UInt32At(h, 12, sampleRate);
    assert h == head + rate + byteRate + (align + bits);
    FieldAt(head + rate, byteRate, align + bits);
    UInt32At(h, 16, sampleRate * channels * 2);
    FieldAt(head + rate + byteRate, align, bits);
    UInt16At(h, 20, channels * 2);
    assert h == head + rate + byteRate + align + bits + [];
    FieldAt(head + rate + byteRate + align, bits, []);
    UInt16At(h, 22, BITS_PER_SAMPLE);
  }

  lemma DataFields(dataLength: nat)
    requires RiffFits(dataLength)
    ensures var h := DataChunkHeader(dataLength);
      AsText(h[0..4]) == "data" && ReadUInt32LE(h, 4) == dataLength
  {
    var tag, size := Ascii("data"), UInt32LE(dataLength);
    var h := DataChunkHeader(dataLength);
    AsciiRoundTrip("data");
    assert h == [] + tag + size == tag + size + [];
    FieldAt([], tag, size);
    FieldAt(tag, size, []);
    UInt32At(h, 4, dataLength);
  }

  /** A read inside a slice is the same read at the shifted offset. */
  lemma ReadInSlice(b: seq<Byte>, lo: nat, hi: nat, offset: nat)
    requires lo <= hi <= |b| && lo + offset + 4 <= hi
    ensures ReadUInt32LE(b, lo + offset) == ReadUInt32LE(b[lo..hi], offset)
    ensures ReadUInt16LE(b, lo + offset) == ReadUInt16LE(b[lo..hi], offset)
    ensures b[lo + offset..lo + offset + 4] == b[lo..hi][offset..offset + 4]
  {
  }

  /** Reading the header back field by field yields exactly the values written. */
  lemma HeaderFields(dataLength: nat, sampleRate: int, channels: int)
    requires HeaderFits(dataLength, sampleRate, channels)
    ensures var h := WavHeader(dataLength, sampleRate, channels);
      && AsText(h[0..4]) == "RIFF"
      && ReadUInt32LE(h, 4) == 36 + dataLength
      && AsText(h[8..12]) == "WAVE"
      && AsText(h[12..16]) == "fmt "
      && ReadUInt32LE(h, 16) == 16
      && ReadUInt16LE(h, 20) == 1
      && ReadUInt16LE(h, 22) == channels
      && ReadUInt32LE(h, 24) == sampleRate
      && ReadUInt32LE(h, 28) == sampleRate * channels * 2
      && ReadUInt16LE(h, 32) == channels * 2
      && ReadUInt16LE(h, 34) == 16
      && AsText(h[36..40]) == "data"
      && ReadUInt32LE(h, 40) == dataLength
  {
    var h := WavHeader(dataLength, sampleRate, channels);
    assert h[0..12] == RiffDescriptor(dataLength);
    assert h[12..36] == FmtChunk(sampleRate, channels);
    assert h[36..44] == DataChunkHeader(dataLength);
    HeaderRiffFields(h, dataLength);
    HeaderFmtFields(h, sampleRate, channels);
    HeaderDataFields(h, dataLength);
  }

  lemma HeaderRiffFields(h: seq<Byte>, dataLength: nat)
    requires |h| == HEADER_SIZE && RiffFits(dataLength) && h[0..12] == RiffDescriptor(dataLength)
    ensures AsText(h[0..4]) == "RIFF" && ReadUInt32LE(h, 4) == 36 + dataLength && AsText(h[8..12]) == "WAVE"
  {
    RiffFields(dataLength);
    ReadInSlice(h, 0, 12, 0);
    ReadInSlice(h, 0, 12, 4);
    ReadInSlice(h, 0, 12, 8);
  }

  lemma HeaderFmtFields(h: seq<Byte>, sampleRate: int, channels: int)
    requires |h| == HEADER_SIZE && FmtFits(sampleRate, channels) && h[12..36] == FmtChunk(sampleRate, channels)
    ensures && AsText(h[12..16]) == "fmt "
      && ReadUInt32LE(h, 16) == 16
      && ReadUInt16LE(h, 20) == 1
      && ReadUInt16LE(h, 22) == channels
      && ReadUInt32LE(h, 24) == sampleRate
      && ReadUInt32LE(h, 28) == sampleRate * channels * 2
      && ReadUInt16LE(h, 32) == channels * 2
      && ReadUInt16LE(h, 34) == 16
  {
    FmtFields(sampleRate, channels);
    ReadInSlice(h, 12, 36, 0);
    ReadInSlice(h, 12, 36, 4);
    ReadInSlice(h, 12, 36, 8);
    ReadInSlice(h, 12, 36, 10);
    ReadInSlice(h, 12, 36, 12);
    ReadInSlice(h, 12, 36, 16);
    ReadInSlice(h, 12, 36, 20);
  }

  lemma HeaderDataFields(h: seq<Byte>, dataLength: nat)
    requires |h| == HEADER_SIZE && RiffFits(dataLength) && h[36..44] == DataChunkHeader(dataLength)
    ensures AsText(h[36..40]) == "data" && ReadUInt32LE(h, 40) == dataLength
  {
    DataFields(dataLength);
    ReadInSlice(h, 36, 44, 0);
    ReadInSlice(h, 36, 44, 4);
  }

  lemma UInt32At(b: seq<Byte>, offset: nat, v: int)
    requires 0 <= v < U32_LIMIT && offset + 4 <= |b|
    requires b[offset..offset + 4] == UInt32LE(v)
    ensures ReadUInt32LE(b, offset) == v
  {
    UInt32RoundTrip(v);
    assert ReadUInt32LE(b, offset) == ReadUInt32LE(b[offset..offset + 4], 0);
  }

  lemma UInt16At(b: seq<Byte>, offset: nat, v: int)
    requires 0 <= v < U16_LIMIT && offset + 2 <= |b|
    requires b[offset..offset + 2] == UInt16LE(v)
    ensures ReadUInt16LE(b, offset) == v
  {
    UInt16RoundTrip(v);
    assert ReadUInt16LE(b, offset) == ReadUInt16LE(b[offset..offset + 2], 0);
  }

  /** `buf.write(bytes, offset)`: `bytes` replaces the same number of bytes at `offset`. */
  method WriteBytes(buf: array<Byte>, bytes: seq<Byte>, offset: nat)
    requires offset + |bytes| <= buf.Length
    modifies buf
    ensures buf[..offset + |bytes|] == old(buf[..offset]) + bytes
    ensures buf[offset + |bytes|..] == old(buf[offset + |bytes|..])
  {
    forall i | 0 <= i < |bytes| {
      buf[offset + i] := bytes[i];
    }
  }

  /** `buf.writeUInt16LE(value, offset)`: fails (RangeError) and writes nothing when out of range. */
  method WriteUInt16LE(buf: array<Byte>, value: int, offset: nat) returns (ok: bool)
    requires offset + 2 <= buf.Length
    modifies buf
    ensures ok <==> 0 <= value < U16_LIMIT
    ensures ok ==> buf[..offset + 2] == old(buf[..offset]) + UInt16LE(value)
    ensures buf[offset + 2..] == old(buf[offset + 2..])
    ensures !ok ==> buf[..] == old(buf[..])
  {
    ok := 0 <= value < U16_LIMIT;
    if ok {
      WriteBytes(buf, UInt16LE(value), offset);
    }
  }

  /** `buf.writeUInt32LE(value, offset)`: fails (RangeError) and writes nothing when out of range. */
  method WriteUInt32LE(buf: array<Byte>, value: int, offset: nat) returns (ok: bool)
    requires offset + 4 <= buf.Length
    modifies buf
    ensures ok <==> 0 <= value < U32_LIMIT
    ensures ok ==> buf[..offset + 4] == old(buf[..offset]) + UInt32LE(value)
    ensures buf[offset + 4..] == old(buf[offset + 4..])
    ensures !ok ==> buf[..] == old(buf[..])
  {
    ok := 0 <= value < U32_LIMIT;
    if ok {
      WriteBytes(buf, UInt32LE(value), offset);
    }
  }

  /** The RIFF chunk descriptor at offset 0; false on the RangeError its size field raises. */
  method WriteRiffDescriptor(buf: array<Byte>, dataLength: nat) returns (ok: bool)
    requires 12 <= buf.Length
    modifies buf
    ensures ok <==> RiffFits(dataLength)
    ensures ok ==> buf[..12] == RiffDescriptor(dataLength)
    ensures buf[12..] == old(buf[12..])
  {
    WriteBytes(buf, Ascii("RIFF"), 0);
    assert buf[..4] == Ascii("RIFF");
    ok := WriteUInt32LE(buf, 36 + dataLength, 4);
    if !ok {
      return;
    }
    WriteBytes(buf, Ascii("WAVE"), 8);
  }

  /** The `fmt ` chunk at offset 12; false on the RangeError of the first field out of range. */
  method WriteFmtChunk(buf: array<Byte>, sampleRate: int, channels: int) returns (ok: bool)
    requires 36 <= buf.Length
    modifies buf
    ensures ok <==> FmtFits(sampleRate, channels)
    ensures ok ==> buf[..36] == old(buf[..12]) + FmtChunk(sampleRate, channels)
    ensures buf[36..] == old(buf[36..])
  {
    ghost var before, after := buf[..12], buf[36..];
    ok := WriteFmtHead(buf, channels);
    assert buf[36..] == after;
    if !ok {
      return;
    }
    ghost var head := buf[..24];
    ok := WriteFmtRates(buf, sampleRate, channels);
    if ok {
      assert buf[..36] == before + FmtHead(channels) + FmtRates(sampleRate, channels);
    }
  }

  /** The first 12 bytes of the `fmt ` chunk; only the channel count can raise. */
  method WriteFmtHead(buf: array<Byte>, channels: int) returns (ok: bool)
    requires 36 <= buf.Length
    modifies buf
    ensures ok <==> 0 <= channels < U16_LIMIT
    ensures ok ==> buf[..24] == old(buf[..12]) + FmtHead(channels)
    ensures buf[24..] == old(buf[24..])
  {
    ghost var before, after := buf[..12], buf[24..];
    WriteBytes(buf, Ascii("fmt "), 12);
    ghost var tag := buf[..16];
    assert tag == before + Ascii("fmt ");
    assert buf[24..] == after;
    ok := WriteUInt32LE(buf, FMT_CHUNK_SIZE, 16);
    ghost var size := buf[..20];
    assert size == tag + UInt32LE(FMT_CHUNK_SIZE);
    assert buf[24..] == after;
    ok := WriteUInt16LE(buf, PCM_FORMAT, 20);
    assert buf[..22] == size + UInt16LE(PCM_FORMAT);
    assert buf[..22] == before + Ascii("fmt ") + UInt32LE(FMT_CHUNK_SIZE) + UInt16LE(PCM_FORMAT);
    assert buf[24..] == after;
    ok := WriteUInt16LE(buf, channels, 22);
  }

  /** The rate fields at offset 24, written in order until one raises. */
  method WriteFmtRates(buf: array<Byte>, sampleRate: int, channels: int) returns (ok: bool)
    requires 36 <= buf.Length && 0 <= channels < U16_LIMIT
    modifies buf
    ensures ok <==> FmtFits(sampleRate, channels)
    ensures ok ==> buf[..36] == old(buf[..24]) + FmtRates(sampleRate, channels)
    ensures buf[36..] == old(buf[36..])
  {
    ghost var before, after := buf[..24], buf[36..];
    ok := WriteUInt32LE(buf, sampleRate, 24);
    assert buf[36..] == after;
    if !ok {
      return;
    }
    ok := WriteUInt32LE(buf, sampleRate * channels * 2, 28);
    assert buf[36..] == after;
    if !ok {
      return;
    }
    ghost var rates := buf[..32];
    assert rates == before + UInt32LE(sampleRate) + UInt32LE(sampleRate * channels * 2);
    ok := WriteUInt16LE(buf, channels * 2, 32);
    assert buf[36..] == after;
    if !ok {
      return;
    }
    ok := WriteUInt16LE(buf, BITS_PER_SAMPLE, 34);
  }

  /** The `data` chunk header at offset 36; its length field cannot raise once the RIFF size fitted. */
  method WriteDataChunkHeader(buf: array<Byte>, dataLength: nat)
    requires 44 <= buf.Length && RiffFits(dataLength)
    modifies buf
    ensures buf[..44] == old(buf[..36]) + DataChunkHeader(dataLength)
    ensures buf[44..] == old(buf[44..])
  {
    WriteBytes(buf, Ascii("data"), 36);
    var ok := WriteUInt32LE(buf, dataLength, 40);
  }

  /**
   * `addWavHeader`: allocates 44 + |samples| zero bytes, writes the header
   * fields one after the other and copies the samples behind them. None
   * stands for the RangeError the first out-of-range field write raises.
   */
  method AddWavHeader(samples: seq<Byte>, sampleRate: int, channels: int) returns (r: Option<array<Byte>>)
    ensures r.None? <==> !HeaderFits(|samples|, sampleRate, channels)
    ensures r.Some? ==> r.value[..] == WavHeader(|samples|, sampleRate, channels) + samples
    ensures r.Some? ==> fresh(r.value)
  {
    var n := |samples|;
    var buf := new Byte[HEADER_SIZE + n](_ => 0);
    var ok := WriteRiffDescriptor(buf, n);
    if !ok {
      return None;
    }
    ok := WriteFmtChunk(buf, sampleRate, channels);
    if !ok {
      return None;
    }
    WriteDataChunkHeader(buf, n);
    assert buf[..44] == WavHeader(n, sampleRate, channels);
    WriteBytes(buf, samples, 44);
    assert buf[..] == buf[..44 + n];
    r := Some(buf);
  }
}
