/** The bvecs to u8bin converters of `bench/bigann_io.py`: one pass over memory, and a resumable
    stream. The decompressor is an arbitrary function of the bytes fed to it whose output only
    grows; files are byte sequences. */
module Bvecs {
  import opened Orders
  import opened Lists
  import opened Wrappers

  const DIM: nat := 128
  const DIM_BYTES: nat := 4
  const STRIDE: nat := 132
  const CHUNK: nat := 8_388_608

  // ---------- records ----------

  function Le32(b: seq<byte>): int
    requires |b| == 4
  {
    (b[0] as int) + 256 * (b[1] as int) + 65_536 * (b[2] as int) + 16_777_216 * (b[3] as int)
  }

  /** `struct.pack("<I", n)`. */
  function PackLe32(n: nat): (r: seq<byte>)
    requires n < 0x1_0000_0000
    ensures |r| == 4 && Le32(r) == n
  {
    var q := n / 256;
    var p := q / 256;
    [n % 256, q % 256, p % 256, p / 256]
  }

  function Header(n: nat): seq<byte>
    requires n < 0x1_0000_0000
  {
    PackLe32(n) + PackLe32(DIM)
  }

  /** Complete records in a buffer. */
  function Whole(raw: seq<byte>): nat
  {
    |raw| / STRIDE
  }

  predicate GoodRecord(raw: seq<byte>, i: nat)
    requires (i + 1) * STRIDE <= |raw|
  {
    Le32(raw[i * STRIDE .. i * STRIDE + DIM_BYTES]) == DIM
  }

  predicate GoodRecords(raw: seq<byte>, n: nat)
    requires n * STRIDE <= |raw|
  {
    forall i :: 0 <= i < n ==> GoodRecord(raw, i)
  }

  /** The rows of the first `n` records. */
  function Rows(raw: seq<byte>, n: nat): (r: seq<byte>)
    requires n * STRIDE <= |raw|
  {
    if n == 0 then [] else Rows(raw, n - 1) + raw[(n - 1) * STRIDE + DIM_BYTES .. n * STRIDE]
  }

  lemma SliceOfPrefix(raw: seq<byte>, more: seq<byte>, lo: nat, hi: nat)
    requires lo <= hi <= |raw|
    ensures (raw + more)[lo..hi] == raw[lo..hi]
  {
  }

  lemma GoodOfPrefix(raw: seq<byte>, more: seq<byte>, n: nat)
    requires n * STRIDE <= |raw|
    ensures GoodRecords(raw + more, n) <==> GoodRecords(raw, n)
  {
    hide Le32;
    forall i: nat | i < n ensures GoodRecord(raw + more, i) == GoodRecord(raw, i) {
      SliceOfPrefix(raw, more, i * STRIDE, i * STRIDE + DIM_BYTES);
    }
  }

  lemma {:induction false} RowsOfPrefix(raw: seq<byte>, more: seq<byte>, n: nat)
    requires n * STRIDE <= |raw|
    ensures Rows(raw + more, n) == Rows(raw, n)
  {
    if n > 0 {
      RowsOfPrefix(raw, more, n - 1);
      SliceOfPrefix(raw, more, (n - 1) * STRIDE + DIM_BYTES, n * STRIDE);
    }
  }

  /** Reading on from a record boundary. */
  lemma {:induction false} RowsFrom(raw: seq<byte>, k: nat, n: nat)
    requires (k + n) * STRIDE <= |raw|
    ensures Rows(raw, k + n) == Rows(raw, k) + Rows(raw[k * STRIDE..], n)
    decreases n
  {
    var tail := raw[k * STRIDE..];
    if n > 0 {
      RowsFrom(raw, k, n - 1);
      assert raw[(k + n - 1) * STRIDE + DIM_BYTES .. (k + n) * STRIDE]
        == tail[(n - 1) * STRIDE + DIM_BYTES .. n * STRIDE];
      var last := tail[(n - 1) * STRIDE + DIM_BYTES .. n * STRIDE];
      assert Rows(raw, k) + Rows(tail, n) == Rows(raw, k) + Rows(tail, n - 1) + last;
    } else {
      assert Rows(raw, k) + [] == Rows(raw, k);
    }
  }

  lemma GoodFrom(raw: seq<byte>, k: nat, n: nat)
    requires (k + n) * STRIDE <= |raw|
    ensures GoodRecords(raw, k + n) <==> GoodRecords(raw, k) && GoodRecords(raw[k * STRIDE..], n)
  {
    var tail := raw[k * STRIDE..];
    forall i: nat | i < n ensures GoodRecord(tail, i) == GoodRecord(raw, k + i) {
      assert tail[i * STRIDE .. i * STRIDE + DIM_BYTES] == raw[(k + i) * STRIDE .. (k + i) * STRIDE + DIM_BYTES];
    }
    forall i: nat | k <= i < k + n ensures GoodRecord(raw, i) == GoodRecord(tail, i - k) {
      assert GoodRecord(tail, i - k) == GoodRecord(raw, k + (i - k));
    }
  }

  function Min(a: nat, b: nat): nat
  {
    if a < b then a else b
  }

  // ---------- the two loops over one buffer ----------

  class File {
    var data: seq<byte>

    constructor (data: seq<byte>)
      ensures this.data == data
    {
      this.data := data;
    }

    method Write(b: seq<byte>)
      modifies this
      ensures data == old(data) + b
    {
      data := data + b;
    }
  }

  /** `drain_bvecs_records`: nothing when a record header is wrong. */
  method DrainBvecsRecords(buffer: seq<byte>, sink: File, max: nat) returns (r: Option<(seq<byte>, nat)>)
    modifies sink
    ensures var n := Min(max, Whole(buffer));
            if GoodRecords(buffer, n)
            then r == Some((buffer[n * STRIDE..], n)) && sink.data == old(sink.data) + Rows(buffer, n)
            else r.None?
  {
    var offset, written := 0, 0;
    while written < max && offset + STRIDE <= |buffer|
      invariant offset == written * STRIDE && written <= Min(max, Whole(buffer))
      invariant GoodRecords(buffer, written)
      invariant sink.data == old(sink.data) + Rows(buffer, written)
      decreases max - written
    {
      if Le32(buffer[offset .. offset + DIM_BYTES]) != DIM {
        assert !GoodRecord(buffer, written);
        return None;
      }
      sink.Write(buffer[offset + DIM_BYTES .. offset + STRIDE]);
      offset := offset + STRIDE;
      written := written + 1;
    }
    return Some((buffer[offset..], written));
  }

  /** Decompressed output so far, for the bytes fed so far. */
  type Inflate = seq<byte> -> seq<byte>

  ghost predicate Streaming(inflate: Inflate)
  {
    inflate([]) == [] && forall a, b :: inflate(a) <= inflate(a + b)
  }

  /** The artifact the one-pass conversion writes, or nothing on a wrong header. */
  ghost function OneShot(raw: seq<byte>, limit: nat): Option<seq<byte>>
    requires limit < 0x1_0000_0000
  {
    var n := Min(limit, Whole(raw));
    if GoodRecords(raw, n) then Some(Header(n) + Rows(raw, n)) else None
  }

  /** `convert_bvecs_gz_to_u8bin`; `flushed` is what the decompressor still held back. */
  method ConvertBvecsGz(source: seq<byte>, inflate: Inflate, flushed: seq<byte>, limit: nat)
    returns (r: Option<seq<byte>>)
    requires limit < 0x1_0000_0000
    ensures r == OneShot(inflate(source) + flushed, limit)
  {
    var raw := inflate(source) + flushed;
    var written, offset := 0, 0;
    var parts: seq<byte> := [];
    while written < limit && offset + STRIDE <= |raw|
      invariant offset == written * STRIDE && written <= Min(limit, Whole(raw))
      invariant GoodRecords(raw, written) && parts == Rows(raw, written)
      decreases limit - written
    {
      if Le32(raw[offset .. offset + DIM_BYTES]) != DIM {
        assert !GoodRecord(raw, written);
        return None;
      }
      parts := parts + raw[offset + DIM_BYTES .. offset + STRIDE];
      offset := offset + STRIDE;
      written := written + 1;
    }
    r := Some(Header(written) + parts);
  }

  // ---------- streaming ----------

  /** The streaming state is a function of the compressed bytes fed so far. */
  ghost predicate Aligned(raw: seq<byte>, limit: nat, leftover: seq<byte>, written: nat)
  {
    && written == Min(limit, Whole(raw))
    && GoodRecords(raw, written)
    && leftover == raw[written * STRIDE..]
  }

  /** The output file holds the header and exactly the rows drained so far. */
  ghost predicate Drained(data: seq<byte>, raw: seq<byte>, limit: nat, leftover: seq<byte>, written: nat)
    requires limit < 0x1_0000_0000
  {
    Aligned(raw, limit, leftover, written) && data == Header(limit) + Rows(raw, written)
  }

  lemma DrainedBounds(data: seq<byte>, raw: seq<byte>, limit: nat, leftover: seq<byte>, written: nat)
    requires limit < 0x1_0000_0000 && Drained(data, raw, limit, leftover, written)
    ensures written <= limit && (written < limit ==> Whole(raw) < limit)
  {
  }

  /** One drain moves the state from the old output to the longer one. */
  lemma DrainAdvances(raw: seq<byte>, more: seq<byte>, limit: nat, leftover: seq<byte>, written: nat)
    requires Aligned(raw, limit, leftover, written)
    ensures var all, stream := raw + more, leftover + more;
            var n := Min(limit - written, Whole(stream));
            && written + n == Min(limit, Whole(all))
            && (GoodRecords(stream, n) <==> GoodRecords(all, written + n))
            && (GoodRecords(stream, n) ==> Aligned(all, limit, stream[n * STRIDE..], written + n))
            && Rows(all, written + n) == Rows(raw, written) + Rows(stream, n)
  {
    hide Rows, GoodRecords;
    var all, stream := raw + more, leftover + more;
    var n := Min(limit - written, Whole(stream));
    assert stream == all[written * STRIDE..];
    assert Whole(stream) == Whole(all) - written;
    RowsOfPrefix(raw, more, written);
    GoodOfPrefix(raw, more, written);
    RowsFrom(all, written, n);
    GoodFrom(all, written, n);
    assert stream[n * STRIDE..] == all[(written + n) * STRIDE..];
  }

  class Decompressor {
    const inflate: Inflate
    var fed: seq<byte>

    constructor (inflate: Inflate)
      ensures this.inflate == inflate && fed == []
    {
      this.inflate, fed := inflate, [];
    }

    method Decompress(chunk: seq<byte>) returns (out: seq<byte>)
      requires Streaming(inflate)
      modifies this
      ensures fed == old(fed) + chunk && inflate(fed) == inflate(old(fed)) + out
    {
      var before := inflate(fed);
      assert inflate(fed) <= inflate(fed + chunk);
      fed := fed + chunk;
      out := inflate(fed)[|before|..];
    }
  }

  /** The three files of one transfer. */
  class Disk {
    var compressed: Option<seq<byte>>
    var partial: seq<byte>
    var destination: Option<seq<byte>>

    constructor ()
      ensures compressed == None && destination == None
    {
      compressed, partial, destination := None, [], None;
    }
  }

  datatype Status = Finished | WrongDim | Exhausted | Crashed

  /** One turn of either streaming loop: decompress a chunk, drain what became complete. */
  method FeedChunk(
    dec: Decompressor, chunk: seq<byte>, sink: File, limit: nat, leftover: seq<byte>, written: nat)
    returns (r: Option<(seq<byte>, nat)>)
    requires Streaming(dec.inflate) && limit < 0x1_0000_0000
    requires Drained(sink.data, dec.inflate(dec.fed), limit, leftover, written)
    modifies dec, sink
    ensures dec.fed == old(dec.fed) + chunk
    ensures var raw := dec.inflate(dec.fed);
            && (r.None? ==> !GoodRecords(raw, Min(limit, Whole(raw))))
            && (r.Some? ==> Drained(sink.data, raw, limit, r.value.0, r.value.1))
  {
    hide Streaming, Rows, GoodRecords, Header;
    ghost var raw := dec.inflate(dec.fed);
    var out := dec.Decompress(chunk);
    DrainAdvances(raw, out, limit, leftover, written);
    assert written <= limit;
    var drained := DrainBvecsRecords(leftover + out, sink, limit - written);
    if drained.None? {
      return None;
    }
    r := Some((drained.value.0, written + drained.value.1));
    ghost var n := drained.value.1;
    ghost var rows, more := Rows(raw, written), Rows(leftover + out, n);
    assert Header(limit) + rows + more == Header(limit) + (rows + more);
  }

  lemma NothingYet(inflate: Inflate, limit: nat)
    requires Streaming(inflate) && limit < 0x1_0000_0000
    ensures Drained(Header(limit), inflate([]), limit, [], 0)
  {
    hide Header;
  }

  /** `rebuild_stream_state`: replay the stored compressed bytes from the start. */
  method RebuildStreamState(stored: seq<byte>, inflate: Inflate, limit: nat)
    returns (r: Option<(seq<byte>, nat)>, dec: Decompressor, partial: File)
    requires Streaming(inflate) && limit < 0x1_0000_0000
    ensures fresh(dec) && fresh(partial) && dec.inflate == inflate
    ensures r.None? ==> !GoodRecords(inflate(stored), Min(limit, Whole(inflate(stored))))
    ensures r.Some? ==> dec.fed == stored && Drained(partial.data, inflate(stored), limit, r.value.0, r.value.1)
  {
    NothingYet(inflate, limit);
    hide Rows, GoodRecords, Header, Streaming, Drained;
    dec := new Decompressor(inflate);
    partial := new File(Header(limit));
    var leftover: seq<byte>, written, i := [], 0, 0;
    assert stored[..0] == [];
    while i < |stored|
      invariant 0 <= i <= |stored| && dec.inflate == inflate && dec.fed == stored[..i]
      invariant fresh(dec) && fresh(partial)
      invariant Drained(partial.data, inflate(stored[..i]), limit, leftover, written)
      decreases |stored| - i
    {
      var next := Min(i + CHUNK, |stored|);
      var fed := FeedChunk(dec, stored[i..next], partial, limit, leftover, written);
      assert stored[..next] == stored[..i] + stored[i..next];
      if fed.None? {
        BadEarly(inflate, stored, next, limit);
        return None, dec, partial;
      }
      leftover, written := fed.value.0, fed.value.1;
      i := next;
    }
    assert stored[..i] == stored;
    r := Some((leftover, written));
  }

  /** A wrong header among the first records is still there when more bytes arrive. */
  lemma BadEarly(inflate: Inflate, all: seq<byte>, n: nat, limit: nat)
    requires Streaming(inflate) && n <= |all|
    requires !GoodRecords(inflate(all[..n]), Min(limit, Whole(inflate(all[..n]))))
    ensures !GoodRecords(inflate(all), Min(limit, Whole(inflate(all))))
  {
    assert all == all[..n] + all[n..];
    BadStaysBad(inflate(all[..n]), inflate(all), limit);
  }

  lemma BadStaysBad(raw: seq<byte>, all: seq<byte>, limit: nat)
    requires raw <= all && !GoodRecords(raw, Min(limit, Whole(raw)))
    ensures !GoodRecords(all, Min(limit, Whole(all)))
  {
    var k, n := Min(limit, Whole(raw)), Min(limit, Whole(all));
    assert all == raw + all[|raw|..];
    GoodOfPrefix(raw, all[|raw|..], k);
    assert k <= n;
  }

  // ---------- sessions, crashes and resumption ----------

  /** What is left on disk between sessions: some prefix of the source, and an artifact only if it is
      the one-pass artifact. */
  ghost predicate Sound(disk: Disk, source: seq<byte>, inflate: Inflate, flushed: seq<byte>, limit: nat)
    requires limit < 0x1_0000_0000
    reads disk
  {
    && (disk.compressed.Some? ==> disk.compressed.value <= source)
    && (disk.destination.Some? ==> disk.destination == OneShot(inflate(source) + flushed, limit))
  }

  function Stored(compressed: Option<seq<byte>>): seq<byte>
  {
    if compressed.Some? then compressed.value else []
  }

  /** Enough good records among the bytes seen so far settle the artifact. */
  lemma EnoughIsOneShot(
    data: seq<byte>, inflate: Inflate, seen: seq<byte>, source: seq<byte>, flushed: seq<byte>, limit: nat,
    leftover: seq<byte>)
    requires Streaming(inflate) && seen <= source && limit < 0x1_0000_0000
    requires Drained(data, inflate(seen), limit, leftover, limit)
    ensures OneShot(inflate(source) + flushed, limit) == Some(data)
  {
    var raw := inflate(seen);
    assert source == seen + source[|seen|..];
    assert raw <= inflate(source) + flushed;
    var all := inflate(source) + flushed;
    assert all == raw + all[|raw|..];
    RowsOfPrefix(raw, all[|raw|..], limit);
    GoodOfPrefix(raw, all[|raw|..], limit);
    hide Rows, GoodRecords, Header;
    assert Min(limit, Whole(all)) == limit;
  }

  lemma WrongIsOneShot(inflate: Inflate, seen: seq<byte>, source: seq<byte>, flushed: seq<byte>, limit: nat)
    requires Streaming(inflate) && seen <= source && limit < 0x1_0000_0000
    requires !GoodRecords(inflate(seen), Min(limit, Whole(inflate(seen))))
    ensures OneShot(inflate(source) + flushed, limit) == None
  {
    assert source == seen + source[|seen|..];
    BadStaysBad(inflate(seen), inflate(source) + flushed, limit);
  }

  /** One session of `stream_bvecs_to_u8bin`. The server honours the requested offset: `chunks` are the
      non-final chunks it returns from there, of any sizes. The process dies at turn `dies` of the loop,
      if any, leaving any prefix of the compressed bytes and anything at all in the output partial. */
  method StreamBvecsToU8bin(
    disk: Disk, source: seq<byte>, chunks: seq<seq<byte>>, dies: Option<nat>, inflate: Inflate,
    ghost flushed: seq<byte>, limit: nat)
    returns (status: Status)
    requires Streaming(inflate) && limit < 0x1_0000_0000
    requires Sound(disk, source, inflate, flushed, limit)
    requires Stored(disk.compressed) + Flatten(chunks) <= source
    modifies disk
    ensures Sound(disk, source, inflate, flushed, limit)
    ensures status == Finished ==> disk.destination.Some?
    ensures status == WrongDim ==> OneShot(inflate(source) + flushed, limit) == None
    ensures status == Exhausted ==> Whole(inflate(old(Stored(disk.compressed)) + Flatten(chunks))) < limit
    ensures status == Crashed ==> dies.Some?
    ensures status != Finished ==> disk.destination == old(disk.destination)
  {
    if disk.destination.Some? {
      return Finished;
    }
    var stored := Stored(disk.compressed);
    assert stored <= source;
    var rebuilt, dec, sink := RebuildStreamState(stored, inflate, limit);
    disk.partial := sink.data;
    if rebuilt.None? {
      WrongIsOneShot(inflate, stored, source, flushed, limit);
      return WrongDim;
    }
    status := Receive(disk, source, stored, chunks, dies, dec, sink, rebuilt.value.0, rebuilt.value.1, flushed, limit);
  }

  /** The receiving loop, from a consistent streaming state. */
  method Receive(
    disk: Disk, source: seq<byte>, stored: seq<byte>, chunks: seq<seq<byte>>, dies: Option<nat>, dec: Decompressor,
    sink: File,
    leftover0: seq<byte>, written0: nat, ghost flushed: seq<byte>, limit: nat)
    returns (status: Status)
    requires Streaming(dec.inflate) && limit < 0x1_0000_0000 && stored + Flatten(chunks) <= source && dec.fed == stored
    requires disk.destination.None?
    requires Drained(sink.data, dec.inflate(stored), limit, leftover0, written0)
    modifies disk, dec, sink
    ensures Sound(disk, source, dec.inflate, flushed, limit)
    ensures status == Finished ==> disk.destination.Some?
    ensures status == WrongDim ==> OneShot(dec.inflate(source) + flushed, limit) == None
    ensures status == Exhausted ==> Whole(dec.inflate(stored + Flatten(chunks))) < limit
    ensures status == Crashed ==> dies.Some?
    ensures status != Finished ==> disk.destination.None?
  {
    hide GoodRecords, Header, Streaming, OneShot, Drained, Flatten;
    var leftover, i := leftover0, 0;
    var written: nat := written0;
    NothingJoined(stored, chunks);
    while written < limit && i < |chunks|
      invariant 0 <= i <= |chunks| && dec.fed == stored + Flatten(chunks[..i]) <= source
      invariant Drained(sink.data, dec.inflate(dec.fed), limit, leftover, written)
      invariant disk.destination.None?
      decreases |chunks| - i
    {
      JoinNext(stored, chunks, i, source);
      if dies == Some(i) {
        var kept: nat :| kept <= |dec.fed| + |chunks[i]|;
        var junk: seq<byte> := *;
        disk.compressed, disk.partial := Some((dec.fed + chunks[i])[..kept]), junk;
        return Crashed;
      }
      var fed := FeedChunk(dec, chunks[i], sink, limit, leftover, written);
      if fed.None? {
        disk.compressed, disk.partial := Some(dec.fed), sink.data;
        WrongIsOneShot(dec.inflate, dec.fed, source, flushed, limit);
        return WrongDim;
      }
      leftover, written := fed.value.0, fed.value.1;
      i := i + 1;
    }
    disk.compressed, disk.partial := Some(dec.fed), sink.data;
    DrainedBounds(sink.data, dec.inflate(dec.fed), limit, leftover, written);
    if written < limit {
      assert chunks[..i] == chunks;
      return Exhausted;
    }
    EnoughIsOneShot(sink.data, dec.inflate, dec.fed, source, flushed, limit, leftover);
    disk.destination, disk.compressed := Some(disk.partial), None;
    return Finished;
  }

  lemma NothingJoined(stored: seq<byte>, chunks: seq<seq<byte>>)
    ensures stored + Flatten(chunks[..0]) == stored
  {
  }

  lemma JoinNext(stored: seq<byte>, chunks: seq<seq<byte>>, i: nat, source: seq<byte>)
    requires i < |chunks| && stored + Flatten(chunks) <= source
    ensures stored + Flatten(chunks[..i]) + chunks[i] == stored + Flatten(chunks[..i + 1]) <= source
  {
    FlattenNext(chunks, i);
    FlattenPrefix(chunks, i + 1);
    hide Flatten;
    PrefixSplit(stored, Flatten(chunks[..i]), chunks[i], Flatten(chunks), source);
  }

  lemma PrefixSplit(s: seq<byte>, a: seq<byte>, b: seq<byte>, c: seq<byte>, source: seq<byte>)
    requires a + b <= c && s + c <= source
    ensures s + a + b == s + (a + b) <= source
  {
    assert |s + (a + b)| <= |s + c|;
    assert forall i :: 0 <= i < |s + (a + b)| ==> (s + (a + b))[i] == (s + c)[i];
  }

  /** What the server returns for one request, given the session and the offset. */
  type Server = (nat, nat) -> seq<seq<byte>>

  ghost predicate Honours(server: Server, source: seq<byte>)
  {
    forall k, offset: nat :: offset <= |source| ==> Flatten(server(k, offset)) <= source[offset..]
  }

  /** The session's server delivers everything from any offset, and the process survives. */
  ghost predicate Undisturbed(server: Server, dies: nat -> Option<nat>, source: seq<byte>, k: nat)
  {
    dies(k).None? && forall offset: nat :: offset <= |source| ==> Flatten(server(k, offset)) == source[offset..]
  }

  /** Streaming equals batch: however the bytes are cut into chunks and however often the transfer
      dies and resumes, an artifact that appears is the one-pass artifact, a reported wrong dimension
      is one the one-pass conversion reports too, and one undisturbed session at the end is enough. */
  method Transfer(
    source: seq<byte>, server: Server, dies: nat -> Option<nat>, attempts: nat, inflate: Inflate,
    ghost flushed: seq<byte>,
    limit: nat)
    returns (artifact: Option<seq<byte>>, wrongDim: bool)
    requires Streaming(inflate) && limit < 0x1_0000_0000 && Honours(server, source)
    ensures artifact.Some? ==> artifact == OneShot(inflate(source) + flushed, limit)
    ensures wrongDim ==> OneShot(inflate(source) + flushed, limit) == None
    ensures attempts > 0 && Undisturbed(server, dies, source, attempts - 1) && Whole(inflate(source)) >= limit ==>
              artifact == OneShot(inflate(source) + flushed, limit)
  {
    hide OneShot, Streaming;
    var disk := new Disk();
    wrongDim := false;
    for k := 0 to attempts
      invariant fresh(disk) && Sound(disk, source, inflate, flushed, limit)
      invariant wrongDim ==> OneShot(inflate(source) + flushed, limit) == None
      invariant k > 0 && Undisturbed(server, dies, source, k - 1) && Whole(inflate(source)) >= limit ==>
                  disk.destination == OneShot(inflate(source) + flushed, limit)
    {
      var stored := Stored(disk.compressed);
      var chunks := server(k, |stored|);
      assert Flatten(chunks) <= source[|stored|..];
      assert stored + Flatten(chunks) <= stored + source[|stored|..] == source;
      var status := StreamBvecsToU8bin(disk, source, chunks, dies(k), inflate, flushed, limit);
      if status == Finished {
        break;
      }
      wrongDim := wrongDim || status == WrongDim;
    }
    artifact := disk.destination;
  }

  // ---------- the bytes of an artifact ----------

  /** Four bytes, least significant first. */
  lemma LittleEndian(a: byte, b: byte, c: byte, d: byte)
    ensures Le32([a, b, c, d]) == a as int + 0x100 * b as int + 0x1_0000 * c as int + 0x100_0000 * d as int
    ensures Le32([0x80, 0, 0, 0]) == 128
  {
  }

  lemma {:induction false} RowsAt(raw: seq<byte>, n: nat, i: nat, j: nat)
    requires n * 132 <= |raw|
    ensures |Rows(raw, n)| == n * 128
    ensures i < n && j < 128 ==> Rows(raw, n)[i * 128 + j] == raw[i * 132 + 4 + j]
    decreases n
  {
    if n > 0 {
      RowsAt(raw, n - 1, i, j);
    }
  }

  lemma GoodInBytes(raw: seq<byte>, n: nat)
    requires n * 132 <= |raw|
    ensures GoodRecords(raw, n) <==> forall m :: 0 <= m < n ==> Le32(raw[m * 132 .. m * 132 + 4]) == 128
  {
    hide Le32;
    if GoodRecords(raw, n) {
      forall m | 0 <= m < n ensures Le32(raw[m * 132 .. m * 132 + 4]) == 128 {
        assert GoodRecord(raw, m);
      }
    }
  }

  /** The artifact byte by byte: the number of vectors and the dimension 128, little-endian, and then
      each record without its own four-byte header. It exists exactly when every record up to the limit
      announces dimension 128. */
  lemma ArtifactBytes(raw: seq<byte>, limit: nat, i: nat, j: nat)
    requires limit < 0x1_0000_0000
    ensures var n := if limit < |raw| / 132 then limit else |raw| / 132;
            && (OneShot(raw, limit).Some? <==>
                  forall m :: 0 <= m < n ==> Le32(raw[m * 132 .. m * 132 + 4]) == 128)
            && (OneShot(raw, limit).Some? ==>
                  var a := OneShot(raw, limit).value;
                  && |a| == 8 + n * 128 && Le32(a[0..4]) == n && Le32(a[4..8]) == 128
                  && (i < n && j < 128 ==> a[8 + i * 128 + j] == raw[i * 132 + 4 + j]))
  {
    var n := Min(limit, Whole(raw));
    RowsAt(raw, n, i, j);
    GoodInBytes(raw, n);
    hide Le32, Rows, GoodRecords;
    var h := Header(n);
    assert |h| == 8 && h[0..4] == PackLe32(n) && h[4..8] == PackLe32(128);
    if GoodRecords(raw, n) {
      var a := h + Rows(raw, n);
      assert a[0..4] == h[0..4] && a[4..8] == h[4..8];
    }
  }
}
