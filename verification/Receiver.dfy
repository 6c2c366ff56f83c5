/**
 The dual-stream receiver: newline-framed metadata on one stream, raw bytes on the
 other. Readers hand out their bytes in arbitrary chunks; what is received depends only
 on the bytes, and inverts the framing. JSON decoding is an uninterpreted function.
 */
module Receivers {
  import opened Outcomes

  newtype byte = b: int | 0 <= b < 256

  const NEWLINE: byte := 10
  const RETURN: byte := 13

  datatype Limits = Limits(maxMetadataLineBytes: nat, maxDataChunkBytes: nat)

  /** A decoded JSON value, down to what the receiver looks at. */
  datatype Value =
    | Object(schemaVersion: Option<string>, byteLength: Option<u64>, other: seq<byte>)
    | NotAnObject

  type Decoder = seq<byte> -> Option<Value>

  datatype Frame = Frame(metadata: Value, data: seq<byte>)

  datatype ReceiverError =
    | Io
    | MetadataTooLarge
    | TruncatedMetadata
    | InvalidMetadata
    | MissingSchemaVersion
    | InvalidByteLength
    | DataChunkTooLarge(requested: nat, maximum: nat)
    | TruncatedData(expected: nat, received: nat)
    | SinkRefused

  // ----- What a byte stream means

  /** The position of the first newline, or the length when there is none. */
  function LineEnd(s: seq<byte>): (n: nat)
    ensures n <= |s|
    ensures n < |s| ==> s[n] == NEWLINE
    ensures NEWLINE !in s[..n]
  {
    if |s| == 0 || s[0] == NEWLINE then 0
    else
      var n := LineEnd(s[1..]);
      assert s[..n + 1] == [s[0]] + s[1..][..n];
      n + 1
  }

  /** Without the line breaks it ends in. */
  function Stripped(line: seq<byte>): seq<byte> {
    if |line| > 0 && (line[|line| - 1] == NEWLINE || line[|line| - 1] == RETURN) then Stripped(line[..|line| - 1])
    else line
  }

  /** Stripping takes off exactly the line breaks, of either kind, that end a line. */
  lemma {:induction false} StripsLineBreaks(line: seq<byte>, breaks: seq<byte>)
    requires forall i | 0 <= i < |breaks| :: breaks[i] == 10 || breaks[i] == 13
    requires |line| > 0 ==> line[|line| - 1] != 10 && line[|line| - 1] != 13
    ensures Stripped(line + breaks) == line
  {
    if |breaks| == 0 {
      assert line + breaks == line;
      assert Stripped(line) == line;
    } else {
      var front := breaks[..|breaks| - 1];
      assert (line + breaks)[..|line + breaks| - 1] == line + front;
      assert (line + breaks)[|line + breaks| - 1] == breaks[|breaks| - 1];
      StripsLineBreaks(line, front);
    }
  }

  /**
   What a stream's first line is: nothing of an empty stream, the stripped bytes before a
   newline if they fit with it, and otherwise too large or cut short.
   */
  lemma {:induction false} FirstLineTable(line: seq<byte>, rest: seq<byte>, maximum: nat)
    requires 10 !in line
    ensures FirstLine(line + [10] + rest, maximum) ==
            if |line| + 1 <= maximum then Ok(Some(Stripped(line + [10]))) else Err(MetadataTooLarge)
    ensures FirstLine(line, maximum) ==
            if |line| == 0 then Ok(None) else if |line| <= maximum then Err(TruncatedMetadata) else Err(MetadataTooLarge)
  {
    hide LineEnd, Stripped;
    var all := line + [10] + rest;
    assert all == line + ([10] + rest);
    LineEndSkips(line, [10] + rest);
    NewlineEnds(rest);
    assert all[..|line| + 1] == line + [10];
    LineEndSkips(line, []);
    assert line + [] == line;
  }

  lemma NewlineEnds(rest: seq<byte>)
    ensures LineEnd([10] + rest) == 0 && LineEnd([]) == 0
  {
  }

  /** The first line of `rest`, or why there is none. */
  function FirstLine(rest: seq<byte>, maximum: nat): Result<Option<seq<byte>>, ReceiverError> {
    var n := LineEnd(rest);
    if |rest| == 0 then Ok(None)
    else if n == |rest| then Err(if |rest| > maximum then MetadataTooLarge else TruncatedMetadata)
    else if n + 1 > maximum then Err(MetadataTooLarge)
    else Ok(Some(Stripped(rest[..n + 1])))
  }

  function Utf8Length(s: string): nat {
    if |s| == 0 then 0
    else
      var c := s[0];
      (if c < '\U{80}' then 1 else if c < '\U{800}' then 2 else if c < '\U{10000}' then 3 else 4)
      + Utf8Length(s[1..])
  }

  predicate ValidSchemaVersion(version: Option<string>) {
    && version.Some?
    && (exists i | 0 <= i < |version.value| :: !WhiteSpace(version.value[i]))
    && Utf8Length(version.value) <= 128
  }

  function ParseByteLength(metadata: Value, maximum: nat): Result<nat, ReceiverError> {
    if metadata.NotAnObject? || metadata.byteLength.None? then Err(InvalidByteLength)
    else if metadata.byteLength.value > maximum then Err(DataChunkTooLarge(metadata.byteLength.value, maximum))
    else Ok(metadata.byteLength.value)
  }

  /** Transport-level admission of one metadata line. */
  function AdmitLine(decode: Decoder, line: seq<byte>, limits: Limits): Result<Value, ReceiverError> {
    var decoded := decode(line);
    if decoded.None? || decoded.value.NotAnObject? then Err(InvalidMetadata)
    else if !ValidSchemaVersion(decoded.value.schemaVersion) then Err(MissingSchemaVersion)
    else
      var length := ParseByteLength(decoded.value, limits.maxDataChunkBytes);
      if length.Err? then Err(length.error) else Ok(decoded.value)
  }

  /**
   Which metadata is refused, and how, from the decoded fields: no object, a version that is
   missing, blank or over 128 bytes, a length that is missing or over the bound.
   */
  lemma MetadataRefusedIff(decode: Decoder, line: seq<byte>, limits: Limits)
    ensures var admitted := AdmitLine(decode, line, limits);
            match decode(line)
            case None => admitted == Err(InvalidMetadata)
            case Some(NotAnObject) => admitted == Err(InvalidMetadata)
            case Some(Object(version, length, other)) =>
              if version.None? || (forall i | 0 <= i < |version.value| :: WhiteSpace(version.value[i])) || Utf8Length(version.value) > 128
              then admitted == Err(MissingSchemaVersion)
              else if length.None? then admitted == Err(InvalidByteLength)
              else if length.value > limits.maxDataChunkBytes
              then admitted == Err(DataChunkTooLarge(length.value, limits.maxDataChunkBytes))
              else admitted == Ok(Object(version, length, other))
  {
  }

  /** The first admitted metadata of `rest`. */
  function FirstMetadata(decode: Decoder, rest: seq<byte>, limits: Limits): Result<Option<Value>, ReceiverError> {
    var line := FirstLine(rest, limits.maxMetadataLineBytes);
    if line.Err? then Err(line.error)
    else if line.value.None? then Ok(None)
    else
      var admitted := AdmitLine(decode, line.value.value, limits);
      if admitted.Err? then Err(admitted.error) else Ok(Some(admitted.value))
  }

  function TakeData(rest: seq<byte>, n: nat): Result<seq<byte>, ReceiverError> {
    if n <= |rest| then Ok(rest[..n]) else Err(TruncatedData(n, |rest|))
  }

  /** The frames two byte streams carry, and the error that ends them, if any. */
  function Frames(decode: Decoder, meta: seq<byte>, data: seq<byte>, limits: Limits)
    : (seq<Frame>, Option<ReceiverError>)
    decreases |meta|
  {
    var first := FirstMetadata(decode, meta, limits);
    if first.Err? then ([], Some(first.error))
    else if first.value.None? then ([], None)
    else
      var metadata := first.value.value;
      var n := ParseByteLength(metadata, limits.maxDataChunkBytes);
      if n.Err? then ([], Some(n.error))
      else
        var chunk := TakeData(data, n.value);
        if chunk.Err? then ([], Some(chunk.error))
        else
          var (frames, end) := Frames(decode, meta[LineEnd(meta) + 1..], data[n.value..], limits);
          ([Frame(metadata, chunk.value)] + frames, end)
  }

  /** A buffer overwritten by `bytes` from `from` on, seen as three pieces. */
  lemma ReadLayout(before: seq<byte>, after: seq<byte>, from: nat, bytes: seq<byte>)
    requires |before| == |after| && from + |bytes| <= |before|
    requires forall j | from <= j < from + |bytes| :: after[j] == bytes[j - from]
    requires forall j | 0 <= j < from || from + |bytes| <= j < |before| :: after[j] == before[j]
    ensures after == before[..from] + bytes + before[from + |bytes|..]
  {
  }

  // ----- Readers

  /**
   A stream that yields its bytes in chunks of any positive size and may fail at any
   position: `cuts` and `faults` are arbitrary.
   */
  class Reader {
    const content: seq<byte>
    const cuts: nat -> nat
    const faults: nat -> bool
    var pos: nat

    ghost predicate Valid()
      reads this
    {
      pos <= |content|
    }

    ghost function Rest(): seq<byte>
      requires Valid()
      reads this
    {
      content[pos..]
    }

    ghost predicate Faultless() {
      forall p :: !faults(p)
    }

    constructor (content: seq<byte>, cuts: nat -> nat, faults: nat -> bool)
      ensures Valid() && this.content == content && this.cuts == cuts && this.faults == faults && pos == 0
    {
      this.content, this.cuts, this.faults, this.pos := content, cuts, faults, 0;
    }

    function Chunk(limit: nat): (n: nat)
      requires Valid() && limit > 0
      reads this
      ensures n <= |content| - pos && n <= limit
      ensures n == 0 <==> pos == |content|
    {
      var wanted := if cuts(pos) < limit then cuts(pos) + 1 else limit;
      if pos + wanted <= |content| then wanted else |content| - pos
    }

    /** `None` is an I/O error. */
    method FillBuf() returns (available: Option<seq<byte>>)
      requires Valid()
      ensures available.None? <==> faults(pos)
      ensures available.Some? ==>
                pos + |available.value| <= |content| && available.value == content[pos..pos + |available.value|]
      ensures available.Some? ==> (|available.value| == 0 <==> pos == |content|)
    {
      if faults(pos) {
        return None;
      }
      var n := Chunk(cuts(pos) + 1);
      available := Some(content[pos..pos + n]);
    }

    method Consume(n: nat)
      requires Valid() && pos + n <= |content|
      modifies this
      ensures Valid() && pos == old(pos) + n
    {
      pos := pos + n;
    }

    /** Reads into `buffer[from..]`; a count of zero is the end of the stream. */
    method Read(buffer: array<byte>, from: nat) returns (count: Option<nat>)
      requires Valid() && from < buffer.Length
      modifies this, buffer
      ensures Valid()
      ensures count.None? <==> faults(old(pos))
      ensures count.None? ==> pos == old(pos) && buffer[..] == old(buffer[..])
      ensures count.Some? ==> from + count.value <= buffer.Length && pos == old(pos) + count.value
      ensures count.Some? ==> (count.value == 0 <==> old(pos) == |content|)
      ensures count.Some? ==>
                buffer[..] == old(buffer[..from]) + content[old(pos)..pos] + old(buffer[from + count.value..])
    {
      if faults(pos) {
        return None;
      }
      var n := Chunk(buffer.Length - from);
      var i := 0;
      while i < n
        invariant i <= n && pos == old(pos)
        invariant forall j | from <= j < from + i :: buffer[j] == content[pos + (j - from)]
        invariant forall j | 0 <= j < from || from + i <= j < buffer.Length :: buffer[j] == old(buffer[j])
      {
        buffer[from + i] := content[pos + i];
        i := i + 1;
      }
      pos := pos + n;
      ReadLayout(old(buffer[..]), buffer[..], from, content[old(pos)..pos]);
      count := Some(n);
    }
  }

  // ----- Receiving

  lemma LineEndSkips(a: seq<byte>, b: seq<byte>)
    requires NEWLINE !in a
    ensures LineEnd(a + b) == |a| + LineEnd(b)
  {
    if |a| > 0 {
      LineEndSkips(a[1..], b);
      assert (a + b)[1..] == a[1..] + b;
    } else {
      assert a + b == b;
    }
  }

  /** The first newline of a slice, or its length. */
  method FindNewline(s: seq<byte>) returns (n: nat)
    ensures n == LineEnd(s)
  {
    hide LineEnd;
    n := 0;
    while n < |s| && s[n] != NEWLINE
      invariant n <= |s| && forall i | 0 <= i < n :: s[i] != NEWLINE
    {
      n := n + 1;
    }
    LineEndAt(s, n);
  }

  lemma LineEndAt(s: seq<byte>, n: nat)
    requires n <= |s| && (forall i | 0 <= i < n :: s[i] != NEWLINE) && (n < |s| ==> s[n] == NEWLINE)
    ensures LineEnd(s) == n
  {
    if n > 0 {
      LineEndAt(s[1..], n - 1);
    }
  }

  /** Pops the line breaks off the end of a line. */
  method StripLine(whole: seq<byte>) returns (line: seq<byte>)
    ensures line == Stripped(whole)
  {
    line := whole;
    while |line| > 0 && (line[|line| - 1] == NEWLINE || line[|line| - 1] == RETURN)
      invariant Stripped(line) == Stripped(whole)
    {
      line := line[..|line| - 1];
    }
  }

  /** A chunk with a newline settles the line that `line` began. */
  lemma ChunkEndsLine(line: seq<byte>, available: seq<byte>, after: seq<byte>, maximum: nat)
    requires NEWLINE !in line && LineEnd(available) < |available|
    ensures var rest, n := line + available + after, LineEnd(available);
            && LineEnd(rest) == |line| + n
            && FirstLine(rest, maximum) ==
               if |line| + n + 1 > maximum then Err(MetadataTooLarge)
               else Ok(Some(Stripped(line + available[..n + 1])))
  {
    hide Stripped, LineEnd, FirstLine;
    var rest, n := line + available + after, LineEnd(available);
    ChunkLineEnd(line, available, after);
    ChunkPrefix(line, available, after, n + 1);
    LineIs(rest, |line| + n, line + available[..n + 1], maximum);
  }

  lemma LineIs(rest: seq<byte>, n: nat, line: seq<byte>, maximum: nat)
    requires LineEnd(rest) == n < |rest| && rest[..n + 1] == line
    ensures FirstLine(rest, maximum) == if n + 1 > maximum then Err(MetadataTooLarge) else Ok(Some(Stripped(line)))
  {
  }

  lemma ChunkLineEnd(line: seq<byte>, available: seq<byte>, after: seq<byte>)
    requires NEWLINE !in line && LineEnd(available) < |available|
    ensures LineEnd(line + available + after) == |line| + LineEnd(available)
  {
    hide LineEnd;
    assert line + available + after == line + (available + after);
    LineEndSkips(line, available + after);
    LineEndInPrefix(available, after);
  }

  lemma ChunkPrefix(line: seq<byte>, available: seq<byte>, after: seq<byte>, n: nat)
    requires n <= |available|
    ensures (line + available + after)[..|line| + n] == line + available[..n]
  {
  }

  /** A chunk without a newline settles the line only when it is already too long. */
  lemma ChunkContinuesLine(line: seq<byte>, available: seq<byte>, after: seq<byte>, maximum: nat)
    requires NEWLINE !in line && |available| > 0 && LineEnd(available) == |available|
    ensures NEWLINE !in line + available
    ensures |line| + |available| > maximum ==>
              FirstLine(line + available + after, maximum) == Err(MetadataTooLarge)
  {
    hide Stripped, LineEnd;
    assert available[..|available|] == available;
    LineEndSkips(line + available, after);
  }

  /** What the end of the stream settles. */
  lemma EndDecides(line: seq<byte>, maximum: nat)
    requires NEWLINE !in line && |line| <= maximum
    ensures FirstLine(line, maximum) == if |line| == 0 then Ok(None) else Err(TruncatedMetadata)
  {
    LineEndSkips(line, []);
    assert line + [] == line;
  }

  /** What one more chunk settles about the line that `line` began. */
  lemma ChunkDecides(rest: seq<byte>, line: seq<byte>, available: seq<byte>, after: seq<byte>, maximum: nat)
    requires rest == line + available + after && NEWLINE !in line && |available| > 0
    ensures var n := LineEnd(available);
            var take := if n < |available| then n + 1 else |available|;
            && (|line| + take > maximum ==> FirstLine(rest, maximum) == Err(MetadataTooLarge))
            && (n < |available| && |line| + take <= maximum ==>
                  LineEnd(rest) == |line| + n && FirstLine(rest, maximum) == Ok(Some(Stripped(line + available[..take]))))
            && (n == |available| ==> NEWLINE !in line + available && available[..take] == available)
  {
    hide FirstLine, LineEnd, Stripped;
    if LineEnd(available) < |available| {
      ChunkEndsLine(line, available, after, maximum);
    } else {
      ChunkContinuesLine(line, available, after, maximum);
    }
  }

  /** The next `n` bytes extend what was read since `start`. */
  lemma Unread(content: seq<byte>, start: nat, pos: nat, n: nat)
    requires start <= pos && pos + n <= |content|
    ensures content[start..] == content[start..pos] + content[pos..pos + n] + content[pos + n..]
    ensures content[start..pos] + content[pos..pos + n] == content[start..pos + n]
  {
  }

  method ReadBoundedLine(reader: Reader, maximum: nat) returns (result: Result<Option<seq<byte>>, ReceiverError>)
    requires reader.Valid()
    modifies reader
    ensures reader.Valid()
    ensures result == Err(Io) || result == old(FirstLine(reader.Rest(), maximum))
    ensures reader.Faultless() ==> result != Err(Io)
    ensures result.Ok? ==>
              reader.pos == old(reader.pos) + if result.value.None? then 0 else old(LineEnd(reader.Rest())) + 1
    ensures result.Err? ==> old(reader.pos) <= reader.pos <= old(reader.pos) + maximum
    ensures result == Err(TruncatedMetadata) ==> reader.pos == |reader.content|
  {
    hide FirstLine, LineEnd, Stripped;
    ghost var start := reader.pos;
    ghost var rest := reader.content[start..];
    var line: seq<byte> := [];
    while true
      invariant reader.Valid() && start <= reader.pos && line == reader.content[start..reader.pos]
      invariant NEWLINE !in line && |line| <= maximum
      decreases |reader.content| - reader.pos
    {
      var filled := reader.FillBuf();
      if filled.None? {
        return Err(Io);
      }
      var available := filled.value;
      if |available| == 0 {
        assert rest == line;
        EndDecides(line, maximum);
        return if |line| == 0 then Ok(None) else Err(TruncatedMetadata);
      }
      var n := FindNewline(available);
      ghost var after := reader.content[reader.pos + |available|..];
      Unread(reader.content, start, reader.pos, |available|);
      ChunkDecides(rest, line, available, after, maximum);
      var take := if n < |available| then n + 1 else |available|;
      if |line| + take > maximum {
        return Err(MetadataTooLarge);
      }
      line := line + available[..take];
      reader.Consume(take);
      if n < |available| {
        var stripped := StripLine(line);
        return Ok(Some(stripped));
      }
    }
  }

  lemma LineEndInPrefix(a: seq<byte>, b: seq<byte>)
    requires LineEnd(a) < |a|
    ensures LineEnd(a + b) == LineEnd(a)
  {
    if a[0] != NEWLINE {
      LineEndInPrefix(a[1..], b);
      assert (a + b)[1..] == a[1..] + b;
    }
  }

  method ReceiveMetadata(decode: Decoder, reader: Reader, limits: Limits)
    returns (result: Result<Option<Value>, ReceiverError>)
    requires reader.Valid()
    modifies reader
    ensures reader.Valid()
    ensures result == Err(Io) || result == old(FirstMetadata(decode, reader.Rest(), limits))
    ensures reader.Faultless() ==> result != Err(Io)
    ensures result.Ok? ==>
              reader.pos == old(reader.pos) + if result.value.None? then 0 else old(LineEnd(reader.Rest())) + 1
  {
    var line := ReadBoundedLine(reader, limits.maxMetadataLineBytes);
    if line.Err? {
      return Err(line.error);
    }
    if line.value.None? {
      return Ok(None);
    }
    var admitted := AdmitLine(decode, line.value.value, limits);
    result := if admitted.Err? then Err(admitted.error) else Ok(Some(admitted.value));
  }

  method ReceiveData(reader: Reader, metadata: Value, limits: Limits)
    returns (result: Result<seq<byte>, ReceiverError>)
    requires reader.Valid()
    modifies reader
    ensures reader.Valid()
    ensures var n := ParseByteLength(metadata, limits.maxDataChunkBytes);
            if n.Err? then result == Err(n.error) && reader.pos == old(reader.pos)
            else
              && (result == Err(Io) || result == old(TakeData(reader.Rest(), n.value)))
              && (reader.Faultless() ==> result != Err(Io))
              && (result.Ok? ==> reader.pos == old(reader.pos) + n.value)
  {
    var length := ParseByteLength(metadata, limits.maxDataChunkBytes);
    if length.Err? {
      return Err(length.error);
    }
    var n := length.value;
    var data := new byte[n](_ => 0);
    var received := 0;
    ghost var start, rest := reader.pos, reader.Rest();
    while received < n
      invariant reader.Valid() && received <= n && reader.pos == start + received
      invariant data[..received] == reader.content[start..reader.pos]
      decreases n - received
    {
      ghost var before := data[..];
      var count := reader.Read(data, received);
      if count.None? {
        return Err(Io);
      }
      if count.value == 0 {
        assert |rest| == received;
        return Err(TruncatedData(n, received));
      }
      assert data[..received + count.value] == before[..received] + reader.content[start + received..reader.pos];
      received := received + count.value;
    }
    assert data[..] == data[..n] == rest[..n];
    result := Ok(data[..]);
  }

  /** Where frames go; it may refuse any of them. */
  class Sink {
    const refuses: nat -> bool
    var delivered: seq<Frame>

    constructor (refuses: nat -> bool)
      ensures delivered == [] && this.refuses == refuses
    {
      this.refuses, this.delivered := refuses, [];
    }

    method Accept(frame: Frame) returns (ok: bool)
      modifies this
      ensures delivered == old(delivered) + [frame]
      ensures ok == !refuses(|old(delivered)|)
    {
      ok := !refuses(|delivered|);
      delivered := delivered + [frame];
    }
  }

  /** The next frame, or `None` at the end of the metadata. */
  method ReceiveOne(decode: Decoder, metadataReader: Reader, dataReader: Reader, limits: Limits)
    returns (result: Result<Option<Frame>, ReceiverError>)
    requires metadataReader.Valid() && dataReader.Valid() && metadataReader != dataReader
    modifies metadataReader, dataReader
    ensures metadataReader.Valid() && dataReader.Valid()
    ensures var (frames, end) := old(Frames(decode, metadataReader.Rest(), dataReader.Rest(), limits));
            match result
            case Ok(None) => frames == [] && end == None && dataReader.pos == old(dataReader.pos)
            case Ok(Some(frame)) =>
              && dataReader.pos == old(dataReader.pos) + |frame.data|
              && metadataReader.pos > old(metadataReader.pos)
              && (frames, end) ==
                 (var (later, end') := Frames(decode, metadataReader.Rest(), dataReader.Rest(), limits);
                  ([frame] + later, end'))
            case Err(e) => e == Io || (frames == [] && end == Some(e))
    ensures metadataReader.Faultless() && dataReader.Faultless() ==> result != Err(Io)
  {
    ghost var meta, data := metadataReader.Rest(), dataReader.Rest();
    var first := ReceiveMetadata(decode, metadataReader, limits);
    if first.Err? {
      return Err(first.error);
    }
    if first.value.None? {
      return Ok(None);
    }
    assert metadataReader.Rest() == meta[LineEnd(meta) + 1..];
    var chunk := ReceiveData(dataReader, first.value.value, limits);
    if chunk.Err? {
      return Err(chunk.error);
    }
    assert dataReader.Rest() == data[|chunk.value|..];
    result := Ok(Some(Frame(first.value.value, chunk.value)));
  }

  /**
   Receives until the metadata ends. However the streams are chunked, the sink gets the
   frames the bytes carry, in order; an I/O error or a refusal only cuts them short.
   */
  method ReceiveAll(decode: Decoder, metadataReader: Reader, dataReader: Reader, limits: Limits, sink: Sink)
    returns (result: Result<u64, ReceiverError>)
    requires metadataReader.Valid() && dataReader.Valid() && metadataReader != dataReader
    modifies metadataReader, dataReader, sink
    ensures metadataReader.Valid() && dataReader.Valid() && old(sink.delivered) <= sink.delivered
    ensures var (frames, end) := old(Frames(decode, metadataReader.Rest(), dataReader.Rest(), limits));
            var delivered := sink.delivered[|old(sink.delivered)|..];
            && delivered <= frames
            && (result.Ok? ==>
                  && delivered == frames && end == None
                  && result.value == (if |frames| <= U64_MAX then |frames| else U64_MAX)
                  && dataReader.pos == old(dataReader.pos) + DataBytes(frames))
            && (metadataReader.Faultless() && dataReader.Faultless() && (forall i :: !sink.refuses(i)) ==>
                  && delivered == frames
                  && (if end.Some? then result == Err(end.value) else result.Ok?))
  {
    hide Frames, DataBytes;
    ghost var (frames, end) := Frames(decode, metadataReader.Rest(), dataReader.Rest(), limits);
    ghost var start, earlier, delivered: seq<Frame> := dataReader.pos, sink.delivered, [];
    assert DataBytes([]) == 0 by { NoDataBytes(); }
    var count: u64 := 0;
    assert [] + frames == frames;
    while true
      invariant metadataReader.Valid() && dataReader.Valid()
      invariant var (later, end') := Frames(decode, metadataReader.Rest(), dataReader.Rest(), limits);
                frames == delivered + later && end == end'
      invariant sink.delivered == earlier + delivered
      invariant count == if |delivered| <= U64_MAX then |delivered| else U64_MAX
      invariant dataReader.pos == start + DataBytes(delivered)
      decreases |metadataReader.content| - metadataReader.pos
    {
      ghost var before := delivered;
      var received := ReceiveOne(decode, metadataReader, dataReader, limits);
      if received.Err? {
        return Err(received.error);
      }
      if received.value.None? {
        return Ok(count);
      }
      var frame := received.value.value;
      var ok := sink.Accept(frame);
      delivered := before + [frame];
      DataBytesAppend(before, frame);
      ghost var later := Frames(decode, metadataReader.Rest(), dataReader.Rest(), limits).0;
      assert before + ([frame] + later) == before + [frame] + later;
      if !ok {
        return Err(SinkRefused);
      }
      count := SaturatingIncrement(count);
    }
  }

  function DataBytes(frames: seq<Frame>): nat {
    if |frames| == 0 then 0 else |frames[0].data| + DataBytes(frames[1..])
  }

  lemma NoDataBytes()
    ensures DataBytes([]) == 0
  {
  }

  lemma {:induction false} DataBytesAppend(frames: seq<Frame>, frame: Frame)
    ensures DataBytes(frames + [frame]) == DataBytes(frames) + |frame.data|
  {
    if |frames| > 0 {
      assert (frames + [frame])[1..] == frames[1..] + [frame];
      DataBytesAppend(frames[1..], frame);
    }
  }

  // ----- Framing and its inverse

  /** A frame that the limits, the schema and the codec let through. */
  ghost predicate Sendable(decode: Decoder, encode: Value -> seq<byte>, limits: Limits, frame: Frame) {
    var line := encode(frame.metadata);
    && decode(line) == Some(frame.metadata)
    && frame.metadata.Object?
    && ValidSchemaVersion(frame.metadata.schemaVersion)
    && frame.metadata.byteLength == Some(|frame.data|)
    && |frame.data| <= limits.maxDataChunkBytes
    && NEWLINE !in line && |line| + 1 <= limits.maxMetadataLineBytes
    && (|line| > 0 ==> line[|line| - 1] != RETURN)
  }

  function MetadataBytes(encode: Value -> seq<byte>, frames: seq<Frame>): seq<byte> {
    if |frames| == 0 then [] else encode(frames[0].metadata) + [NEWLINE] + MetadataBytes(encode, frames[1..])
  }

  function PayloadBytes(frames: seq<Frame>): seq<byte> {
    if |frames| == 0 then [] else frames[0].data + PayloadBytes(frames[1..])
  }

  lemma FramedLine(line: seq<byte>, rest: seq<byte>, maximum: nat)
    requires NEWLINE !in line && |line| + 1 <= maximum && (|line| > 0 ==> line[|line| - 1] != RETURN)
    ensures LineEnd(line + [NEWLINE] + rest) == |line|
    ensures FirstLine(line + [NEWLINE] + rest, maximum) == Ok(Some(line))
  {
    var all := line + [NEWLINE] + rest;
    assert all == line + ([NEWLINE] + rest);
    LineEndSkips(line, [NEWLINE] + rest);
    assert all[..|line| + 1] == line + [NEWLINE];
    assert (line + [NEWLINE])[..|line|] == line;
    assert |line| > 0 ==> line[|line| - 1] in line;
    assert Stripped(line) == line;
    assert Stripped(line + [NEWLINE]) == Stripped(line);
  }

  lemma EmptyStream(decode: Decoder, data: seq<byte>, limits: Limits)
    ensures Frames(decode, [], data, limits) == ([], None)
  {
  }

  /** One sendable frame at the front of both streams is the first frame they carry. */
  lemma FrontFrame(decode: Decoder, encode: Value -> seq<byte>, limits: Limits, frame: Frame,
                   meta: seq<byte>, data: seq<byte>)
    requires Sendable(decode, encode, limits, frame)
    ensures Frames(decode, encode(frame.metadata) + [NEWLINE] + meta, frame.data + data, limits) ==
            (var (later, end) := Frames(decode, meta, data, limits); ([frame] + later, end))
  {
    hide ValidSchemaVersion;
    var line := encode(frame.metadata);
    var allMeta, allData := line + [NEWLINE] + meta, frame.data + data;
    FramedLine(line, meta, limits.maxMetadataLineBytes);
    assert FirstMetadata(decode, allMeta, limits) == Ok(Some(frame.metadata)) by { hide FirstLine, LineEnd; }
    assert allMeta[|line| + 1..] == meta;
    assert allData[..|frame.data|] == frame.data && allData[|frame.data|..] == data;
  }

  /**
   For every list of sendable frames, the bytes of their lines and their concatenated
   data carry exactly that list, whatever bytes trail the data.
   */
  lemma {:induction false} FramingRoundTrip(
    decode: Decoder, encode: Value -> seq<byte>, limits: Limits, frames: seq<Frame>, trailing: seq<byte>)
    requires forall i | 0 <= i < |frames| :: Sendable(decode, encode, limits, frames[i])
    ensures Frames(decode, MetadataBytes(encode, frames), PayloadBytes(frames) + trailing, limits) == (frames, None)
    ensures DataBytes(frames) == |PayloadBytes(frames)|
    decreases |frames|
  {
    hide Frames, Sendable;
    if |frames| == 0 {
      EmptyStream(decode, trailing, limits);
      assert PayloadBytes(frames) + trailing == trailing;
    } else {
      var frame, later := frames[0], frames[1..];
      FramingRoundTrip(decode, encode, limits, later, trailing);
      FrontFrame(decode, encode, limits, frame, MetadataBytes(encode, later), PayloadBytes(later) + trailing);
      assert PayloadBytes(frames) + trailing == frame.data + (PayloadBytes(later) + trailing);
      assert [frame] + later == frames;
    }
  }

  /** End to end: every chunking of both streams delivers the frames and leaves the trailing bytes unread. */
  method ReceiveFramed(decode: Decoder, ghost encode: Value -> seq<byte>, limits: Limits, ghost frames: seq<Frame>,
                       ghost trailing: seq<byte>, metadataReader: Reader, dataReader: Reader, sink: Sink)
    returns (result: Result<u64, ReceiverError>)
    requires forall i | 0 <= i < |frames| :: Sendable(decode, encode, limits, frames[i])
    requires metadataReader.Valid() && dataReader.Valid() && metadataReader != dataReader
    requires metadataReader.Rest() == MetadataBytes(encode, frames)
    requires dataReader.Rest() == PayloadBytes(frames) + trailing
    requires metadataReader.Faultless() && dataReader.Faultless() && forall i :: !sink.refuses(i)
    requires |frames| <= U64_MAX
    modifies metadataReader, dataReader, sink
    ensures result == Ok(|frames|) && sink.delivered == old(sink.delivered) + frames
    ensures dataReader.Valid() && dataReader.Rest() == trailing
  {
    FramingRoundTrip(decode, encode, limits, frames, trailing);
    result := ReceiveAll(decode, metadataReader, dataReader, limits, sink);
  }
}
