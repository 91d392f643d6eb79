/** Zeroing parts of a file, and overwriting a whole file from a reader. */
module FileWipe {
  import opened Wrappers
  import opened Alignment

  /** What `data` is after writing `buf` at `pos`. */
  function Overwritten(data: seq<byte>, pos: nat, buf: seq<byte>): seq<byte>
    requires pos <= |data|
  {
    data[..pos] + buf + (if pos + |buf| < |data| then data[pos + |buf|..] else [])
  }

  /** An open file: its contents and the position of the next write. */
  class File {
    var data: seq<byte>
    var pos: nat

    constructor (contents: seq<byte>)
      ensures data == contents && pos == 0
    {
      data, pos := contents, 0;
    }

    method Seek(to: nat)
      modifies this`pos
      ensures pos == to
    {
      pos := to;
    }

    method Write(buf: seq<byte>)
      requires pos <= |data|
      modifies this
      ensures data == Overwritten(old(data), old(pos), buf) && pos == old(pos) + |buf|
    {
      data := Overwritten(data, pos, buf);
      pos := pos + |buf|;
    }
  }

  function Zeros(n: nat): seq<byte> { seq(n, _ => 0) }

  // ----- zero_file_at_offsets -----

  /** Negative offsets count from the end. */
  function PosOf(size: nat, offset: int): int { if offset < 0 then size + offset else offset }

  predicate ValidOffset(size: nat, offset: int) { 0 <= PosOf(size, offset) <= size }

  /** Byte `i` lies in the span zeroed for the offset. */
  predicate InSpan(size: nat, offset: int, total: nat, i: int) {
    ValidOffset(size, offset) && PosOf(size, offset) <= i < PosOf(size, offset) + total
  }

  ghost predicate Covered(size: nat, offsets: seq<int>, total: nat, i: int) {
    exists k :: 0 <= k < |offsets| && InSpan(size, offsets[k], total, i)
  }

  /** `after` is `before` with exactly the covered bytes zeroed. */
  ghost predicate ZeroedAt(before: seq<byte>, after: seq<byte>, offsets: seq<int>, total: nat) {
    |after| == |before|
    && forall i :: 0 <= i < |before| ==> after[i] == if Covered(|before|, offsets, total, i) then 0 else before[i]
  }

  /** What a strict call refuses: an offset outside the file, or a span that does not fit. */
  predicate Refused(size: nat, offset: int, total: nat) {
    !ValidOffset(size, offset) || PosOf(size, offset) + total > size
  }

  /** The inner loop: `count` buffers from the current position, cut off at the end of the file. */
  method WriteZeros(f: File, buflen: nat, count: nat)
    requires f.pos <= |f.data|
    modifies f
    ensures |f.data| == |old(f.data)|
    ensures forall i :: 0 <= i < |f.data| ==>
      f.data[i] == if old(f.pos) <= i < old(f.pos) + buflen * count then 0 else old(f.data)[i]
  {
    var buf := Zeros(buflen);
    var size := |f.data|;
    ghost var start, before := f.pos, f.data;
    for n := 0 to count
      invariant |f.data| == size && f.pos == if start + buflen * n <= size then start + buflen * n else size
      invariant forall i :: 0 <= i < size ==> f.data[i] == if start <= i < start + buflen * n then 0 else before[i]
    {
      assert buflen * (n + 1) == buflen * n + buflen;
      if f.pos + buflen > size {
        f.Write(buf[..size - f.pos]);
      } else {
        f.Write(buf);
      }
    }
  }

  lemma CoveredNext(before: seq<byte>, now: seq<byte>, offsets: seq<int>, total: nat, k: nat)
    requires k < |offsets| && ZeroedAt(before, now, offsets[..k], total)
    ensures forall i :: Covered(|before|, offsets[..k + 1], total, i) <==>
      Covered(|before|, offsets[..k], total, i) || InSpan(|before|, offsets[k], total, i)
  {
    forall i ensures Covered(|before|, offsets[..k + 1], total, i) <==>
      Covered(|before|, offsets[..k], total, i) || InSpan(|before|, offsets[k], total, i)
    {
      var done, next := offsets[..k], offsets[..k + 1];
      if j :| 0 <= j < |done| && InSpan(|before|, done[j], total, i) {
        assert next[j] == done[j];
      }
      if j :| 0 <= j < |next| && InSpan(|before|, next[j], total, i) {
        assert j < k ==> done[j] == next[j];
      }
      assert next[k] == offsets[k];
    }
  }

  /** Every span in range is zeroed and nothing else; a strict call stops at the first offset it refuses. */
  method ZeroFileAtOffsets(f: File, offsets: seq<int>, buflen: nat, count: nat, strict: bool)
    returns (refused: Option<nat>)
    modifies f
    ensures !strict ==> refused == None
    ensures refused == None ==> ZeroedAt(old(f.data), f.data, offsets, buflen * count)
    ensures refused.Some? ==>
      refused.value < |offsets| && ZeroedAt(old(f.data), f.data, offsets[..refused.value], buflen * count)
    ensures strict ==> forall k :: 0 <= k < (if refused.Some? then refused.value else |offsets|) ==>
      !Refused(|old(f.data)|, offsets[k], buflen * count)
    ensures refused.Some? ==> Refused(|old(f.data)|, offsets[refused.value], buflen * count)
  {
    var size := |f.data|;
    var total := buflen * count;
    ghost var before := f.data;
    for k := 0 to |offsets|
      invariant ZeroedAt(before, f.data, offsets[..k], total)
      invariant strict ==> forall j :: 0 <= j < k ==> !Refused(size, offsets[j], total)
    {
      var pos := if offsets[k] < 0 then size + offsets[k] else offsets[k];
      CoveredNext(before, f.data, offsets, total, k);
      if pos > size || pos < 0 {
        if strict {
          return Some(k);
        }
      } else {
        if pos + total > size && strict {
          return Some(k);
        }
        f.Seek(pos);
        WriteZeros(f, buflen, count);
      }
    }
    assert offsets[..|offsets|] == offsets;
    refused := None;
  }

  // ----- quick_zero -----

  /** A partition of a disk, in bytes. */
  datatype Window = Window(start: nat, size: nat)

  /** The first and last MiB of the window; all of it if it is no longer than a MiB. */
  predicate Edge(w: Window, i: int) {
    w.start <= i < w.start + w.size && (i < w.start + ONE_MIB_BYTES || i >= w.start + w.size - ONE_MIB_BYTES)
  }

  ghost predicate EdgesZeroed(before: seq<byte>, after: seq<byte>, ws: seq<Window>) {
    |after| == |before|
    && forall i :: 0 <= i < |before| ==>
         after[i] == if exists k :: 0 <= k < |ws| && Edge(ws[k], i) then 0 else before[i]
  }

  /** Without partitions: the first and the last MiB, or everything. */
  method QuickZeroPlain(f: File)
    modifies f
    ensures EdgesZeroed(old(f.data), f.data, [Window(0, |old(f.data)|)])
  {
    var mib: int := ONE_MIB_BYTES;
    var offsets := [0, -mib];
    ghost var before := f.data;
    var refused := ZeroFileAtOffsets(f, offsets, 1024, 1024, false);
    var w := Window(0, |before|);
    forall i | 0 <= i < |before|
      ensures f.data[i] == if exists k :: 0 <= k < 1 && Edge([w][k], i) then 0 else before[i]
    {
      assert Covered(|before|, offsets, ONE_MIB_BYTES, i) <==>
        InSpan(|before|, offsets[0], ONE_MIB_BYTES, i) || InSpan(|before|, offsets[1], ONE_MIB_BYTES, i);
      assert (exists k :: 0 <= k < 1 && Edge([w][k], i)) <==> Edge([w][0], i);
    }
  }

  lemma EdgesFirst(before: seq<byte>, now: seq<byte>, after: seq<byte>, w: Window, done: seq<Window>)
    requires EdgesZeroed(before, now, done) && |after| == |now|
    requires forall i :: 0 <= i < |now| ==> after[i] == if Edge(w, i) then 0 else now[i]
    ensures EdgesZeroed(before, after, [w] + done)
  {
    var ws := [w] + done;
    forall i | 0 <= i < |before|
      ensures after[i] == if exists k :: 0 <= k < |ws| && Edge(ws[k], i) then 0 else before[i]
    {
      assert ws[0] == w;
      if k :| 0 <= k < |done| && Edge(done[k], i) {
        assert ws[k + 1] == done[k];
      }
      if k :| 0 <= k < |ws| && Edge(ws[k], i) {
        assert k > 0 ==> done[k - 1] == ws[k];
      }
    }
  }

  /** Zeroing the edges of one more window; `device` is what became of the window's bytes. */
  lemma WindowZeroed(before: seq<byte>, now: seq<byte>, device: seq<byte>, w: Window, done: seq<Window>)
    requires EdgesZeroed(before, now, done) && w.start + w.size <= |now|
    requires EdgesZeroed(now[w.start..w.start + w.size], device, [Window(0, w.size)])
    ensures EdgesZeroed(before, now[..w.start] + device + now[w.start + w.size..], [w] + done)
  {
    var after := now[..w.start] + device + now[w.start + w.size..];
    var inner := Window(0, w.size);
    forall i | 0 <= i < |now| ensures after[i] == if Edge(w, i) then 0 else now[i] {
      if w.start <= i < w.start + w.size {
        assert after[i] == device[i - w.start];
        assert [inner][0] == inner;
        assert Edge(w, i) <==> Edge(inner, i - w.start);
      }
    }
    EdgesFirst(before, now, after, w, done);
  }

  lemma EdgesAdded(before: seq<byte>, now: seq<byte>, after: seq<byte>, done: seq<Window>, w: Window)
    requires EdgesZeroed(before, now, done) && EdgesZeroed(now, after, [w])
    ensures EdgesZeroed(before, after, done + [w])
  {
    var ws := done + [w];
    forall i | 0 <= i < |before|
      ensures after[i] == if exists k :: 0 <= k < |ws| && Edge(ws[k], i) then 0 else before[i]
    {
      assert ws[|done|] == w && [w][0] == w;
      if k :| 0 <= k < |done| && Edge(done[k], i) {
        assert ws[k] == done[k];
      }
      if k :| 0 <= k < |ws| && Edge(ws[k], i) {
        assert k < |done| ==> done[k] == ws[k];
      }
    }
  }

  /** With partitions: the edges of each partition, last one first, then those of the disk. */
  method QuickZero(f: File, parts: seq<Window>)
    requires forall k :: 0 <= k < |parts| ==> parts[k].start + parts[k].size <= |f.data|
    modifies f
    ensures EdgesZeroed(old(f.data), f.data, parts + [Window(0, |old(f.data)|)])
  {
    ghost var before := f.data;
    var k := |parts|;
    while k > 0
      invariant 0 <= k <= |parts|
      invariant EdgesZeroed(before, f.data, parts[k..])
    {
      k := k - 1;
      var w := parts[k];
      var device := new File(f.data[w.start..w.start + w.size]);
      QuickZeroPlain(device);
      WindowZeroed(before, f.data, device.data, w, parts[k + 1..]);
      assert parts[k..] == [w] + parts[k + 1..];
      f.data := f.data[..w.start] + device.data + f.data[w.start + w.size..];
    }
    assert parts[0..] == parts;
    ghost var now := f.data;
    QuickZeroPlain(f);
    EdgesAdded(before, now, f.data, parts, Window(0, |before|));
  }

  // ----- wipe_file -----

  /** The first `n` reads, one after the other. */
  function Stream(read: nat -> seq<byte>, n: nat): seq<byte> {
    if n == 0 then [] else Stream(read, n - 1) + read(n - 1)
  }

  /** The `k`-th read gives less than asked for, and not enough for the rest of the file. */
  ghost predicate ShortRead(read: nat -> seq<byte>, buflen: nat, size: nat, k: nat) {
    |read(k)| < buflen && |Stream(read, k + 1)| < size
  }

  ghost predicate NoneShort(read: nat -> seq<byte>, buflen: nat, size: nat, n: nat) {
    forall k :: 0 <= k < n ==> !ShortRead(read, buflen, size, k)
  }

  /** After `k` reads a whole buffer does not reach the end of the file. */
  ghost predicate Far(read: nat -> seq<byte>, buflen: nat, size: nat, k: nat) { |Stream(read, k)| + buflen < size }

  ghost predicate FarFromEnd(read: nat -> seq<byte>, buflen: nat, size: nat, n: nat) {
    forall k :: 0 <= k < n ==> Far(read, buflen, size, k)
  }

  lemma OneMoreRead(read: nat -> seq<byte>, buflen: nat, size: nat, k: nat)
    requires NoneShort(read, buflen, size, k) && !ShortRead(read, buflen, size, k)
    ensures NoneShort(read, buflen, size, k + 1)
    ensures FarFromEnd(read, buflen, size, k) && Far(read, buflen, size, k) ==> FarFromEnd(read, buflen, size, k + 1)
  {
  }

  /** Writing on where the stream has got to. */
  lemma WrittenOn(before: seq<byte>, done: seq<byte>, buf: seq<byte>)
    requires |done| + |buf| <= |before|
    ensures Overwritten(done + before[|done|..], |done|, buf) == done + buf + before[|done| + |buf|..]
  {
  }

  /** `read(n)` stands for what the reader returns when called for the n-th time. The file keeps its length and ends up
      as the start of what was read; or the first short read stops the wipe with only the start overwritten. */
  method WipeFile(f: File, read: nat -> seq<byte>, buflen: nat) returns (ok: bool, ghost n: nat)
    requires buflen > 0 && f.pos == 0 && forall k :: |read(k)| <= buflen
    modifies f
    ensures ok ==> |Stream(read, n)| >= |old(f.data)| && f.data == Stream(read, n)[..|old(f.data)|]
    ensures NoneShort(read, buflen, |old(f.data)|, n)
    ensures ok ==> n > 0 && FarFromEnd(read, buflen, |old(f.data)|, n - 1)
    ensures ok ==> |Stream(read, n - 1)| + buflen >= |old(f.data)|
    ensures !ok ==> ShortRead(read, buflen, |old(f.data)|, n) && FarFromEnd(read, buflen, |old(f.data)|, n)
    ensures !ok ==> f.data == Stream(read, n) + old(f.data)[|Stream(read, n)|..]
  {
    var size := |f.data|;
    ghost var before := f.data;
    var k := 0;
    while true
      invariant |f.data| == size && f.pos == |Stream(read, k)| <= size
      invariant f.data == Stream(read, k) + before[f.pos..]
      invariant NoneShort(read, buflen, size, k) && FarFromEnd(read, buflen, size, k)
      decreases size - f.pos
    {
      var pbuf := read(k);
      if |pbuf| != buflen && |pbuf| + f.pos < size {
        return false, k;
      }
      OneMoreRead(read, buflen, size, k);
      if f.pos + buflen >= size {
        WrittenOn(before, Stream(read, k), pbuf[..size - f.pos]);
        f.Write(pbuf[..size - f.pos]);
        return true, k + 1;
      }
      WrittenOn(before, Stream(read, k), pbuf);
      f.Write(pbuf);
      k := k + 1;
    }
  }
}
