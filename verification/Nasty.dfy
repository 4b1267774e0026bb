/** nasty.c: a device file that transfers a random number of bytes, between 1 and 16,
    however many are asked for. */
module Nasty {

  const FILE_MAX_SIZE := 4096
  const MAX_CHUNK_SIZE := 16

  /** What read and write return: a number of bytes, or an error number. */
  datatype IoResult = Bytes(n: nat) | NoSpace | Fault

  /** `content` and `crt_size` as values. */
  datatype File = File(content: seq<char>, size: nat)

  predicate ValidFile(f: File) {
    |f.content| == FILE_MAX_SIZE && f.size <= FILE_MAX_SIZE
  }

  function Min(a: nat, b: nat): nat {
    if a < b then a else b
  }

  function RandomLength(random: nat): (n: nat)
    ensures 1 <= n <= MAX_CHUNK_SIZE
  {
    1 + random % MAX_CHUNK_SIZE
  }

  /** The generator reaches every length, in turn as its numbers grow. */
  lemma RandomLengthReaches(n: nat) returns (random: nat)
    requires 1 <= n <= MAX_CHUNK_SIZE
    ensures RandomLength(random) == n
    ensures forall r: nat :: RandomLength(r) == n <==> (r + 1 - n) % MAX_CHUNK_SIZE == 0
  {
    random := n - 1;
  }

  /** The bytes one call moves: at most what the generator says, what is asked for,
      and what lies before `limit`. */
  function ChunkLength(random: nat, count: nat, pos: nat, limit: nat): (n: nat)
    requires pos < limit
    ensures n <= MAX_CHUNK_SIZE && n <= count && pos + n <= limit
    ensures n == 0 <==> count == 0
  {
    Min(Min(RandomLength(random), count), limit - pos)
  }

  /** `s` with `data` in place of the bytes from `pos`. */
  function Splice(s: seq<char>, pos: nat, data: seq<char>): (r: seq<char>)
    requires pos + |data| <= |s|
    ensures |r| == |s|
  {
    seq(|s|, k requires 0 <= k < |s| => if pos <= k < pos + |data| then data[k - pos] else s[k])
  }

  /** The file after `data` is written at `pos`. */
  function Written(f: File, pos: nat, data: seq<char>): File
    requires pos + |data| <= |f.content|
  {
    File(Splice(f.content, pos, data), if pos + |data| > f.size then pos + |data| else f.size)
  }

  /** From `f` to `g` the bytes from `pos` are replaced by `bytes` and nothing else changes;
      the file grows if they end past it and never shrinks. */
  ghost predicate Overwritten(f: File, g: File, pos: nat, bytes: seq<char>) {
    && |g.content| == |f.content|
    && (forall x :: 0 <= x < |f.content| ==>
          g.content[x] == if pos <= x < pos + |bytes| then bytes[x - pos] else f.content[x])
    && g.size >= f.size && (bytes != [] ==> g.size >= pos + |bytes|)
    && (g.size == f.size || (bytes != [] && g.size == pos + |bytes|))
  }

  lemma WrittenOverwrites(f: File, pos: nat, data: seq<char>)
    requires pos + |data| <= |f.content| && data != []
    ensures Overwritten(f, Written(f, pos, data), pos, data)
  {
  }

  /** copy_to_user and copy_from_user of `n` bytes. */
  method Copy(from: array<char>, fromPos: nat, to: array<char>, toPos: nat, n: nat)
    requires fromPos + n <= from.Length && toPos + n <= to.Length && from != to
    modifies to
    ensures to[..] == Splice(old(to[..]), toPos, from[fromPos..fromPos + n])
  {
    forall k | 0 <= k < n {
      to[toPos + k] := from[fromPos + k];
    }
  }

  // ---------------------------------------------------------------------------
  // The driver
  // ---------------------------------------------------------------------------

  class Device {
    const content: array<char>
    var crtSize: nat

    ghost predicate Valid()
      reads this
    {
      content.Length == FILE_MAX_SIZE && crtSize <= FILE_MAX_SIZE
    }

    ghost function Value(): File
      reads this, content
    {
      File(content[..], crtSize)
    }

    /** nasty_open */
    method Open(truncate: bool)
      requires Valid()
      modifies this
      ensures Valid()
      ensures Value() == if truncate then old(Value()).(size := 0) else old(Value())
    {
      if truncate {
        crtSize := 0;
      }
    }

    /** nasty_read into `buf` at `at`; `uncopied` is the number of bytes the copy to
        user space is short of. */
    method Read(buf: array<char>, at: nat, count: nat, ppos: nat, random: nat, uncopied: nat)
      returns (ret: IoResult, pos: nat)
      requires Valid() && at + count <= buf.Length && buf != content
      modifies buf
      ensures ppos >= crtSize ==> ret == Bytes(0) && pos == ppos && buf[..] == old(buf[..])
      ensures ppos < crtSize ==>
        var n := ChunkLength(random, count, ppos, crtSize);
        if uncopied == 0 || n == 0 then
          ret == Bytes(n) && pos == ppos + n
          && buf[..] == Splice(old(buf[..]), at, content[ppos..ppos + n])
        else
          var m := if uncopied < n then n - uncopied else 0;
          ret == Fault && pos == ppos && buf[..] == Splice(old(buf[..]), at, content[ppos..ppos + m])
    {
      pos := ppos;
      if ppos >= crtSize {
        return Bytes(0), pos;
      }
      var rcount := RandomLength(random);
      if rcount > count {
        rcount := count;
      }
      if ppos + rcount > crtSize {
        rcount := crtSize - ppos;
      }
      assert rcount == ChunkLength(random, count, ppos, crtSize);
      var copied := if uncopied < rcount then rcount - uncopied else 0;
      Copy(content, ppos, buf, at, copied);
      if copied != rcount {
        return Fault, pos;
      }
      pos := ppos + rcount;
      return Bytes(rcount), pos;
    }

    /** nasty_write from `buf` at `at`; a copy that falls short may already have
        changed the first bytes. */
    method Write(buf: array<char>, at: nat, count: nat, ppos: nat, random: nat, uncopied: nat)
      returns (ret: IoResult, pos: nat)
      requires Valid() && at + count <= buf.Length && buf != content
      modifies this, content
      ensures Valid()
      ensures count == 0 ==> ret == Bytes(0) && pos == ppos && Value() == old(Value())
      ensures count > 0 && ppos >= FILE_MAX_SIZE ==> ret == NoSpace && pos == ppos && Value() == old(Value())
      ensures count > 0 && ppos < FILE_MAX_SIZE ==>
        var n := ChunkLength(random, count, ppos, FILE_MAX_SIZE);
        if uncopied == 0 then
          && ret == Bytes(n) && pos == ppos + n && Value() == Written(old(Value()), ppos, buf[at..at + n])
          && crtSize == (if ppos + n > old(crtSize) then ppos + n else old(crtSize))
        else
          var m := if uncopied < n then n - uncopied else 0;
          && ret == Fault && pos == ppos && crtSize == old(crtSize)
          && content[..] == Splice(old(content[..]), ppos, buf[at..at + m])
    {
      pos := ppos;
      if count == 0 {
        return Bytes(0), pos;
      }
      if ppos >= FILE_MAX_SIZE {
        return NoSpace, pos;
      }
      var rcount := RandomLength(random);
      if rcount > count {
        rcount := count;
      }
      if ppos + rcount > FILE_MAX_SIZE {
        rcount := FILE_MAX_SIZE - ppos;
      }
      assert rcount == ChunkLength(random, count, ppos, FILE_MAX_SIZE);
      var copied := if uncopied < rcount then rcount - uncopied else 0;
      Copy(buf, at, content, ppos, copied);
      ghost var after := Splice(old(content[..]), ppos, buf[at..at + copied]);
      assert content[..] == after && crtSize == old(crtSize);
      if copied != rcount {
        return Fault, pos;
      }
      pos := ppos + rcount;
      crtSize := if crtSize > pos then crtSize else pos;
      return Bytes(rcount), pos;
    }
  }

  // ---------------------------------------------------------------------------
  // Callers that repeat short transfers
  // ---------------------------------------------------------------------------

  /** A caller that writes what is left until everything is written or there is no
      space; `randoms` are the numbers drawn, call by call. */
  function WriteAll(f: File, pos: nat, data: seq<char>, randoms: nat -> nat, k: nat): File
    requires ValidFile(f)
    decreases |data|
  {
    if data == [] || pos >= FILE_MAX_SIZE then f
    else
      var n := ChunkLength(randoms(k), |data|, pos, FILE_MAX_SIZE);
      WriteAll(Written(f, pos, data[..n]), pos + n, data[n..], randoms, k + 1)
  }

  /** A caller that reads `count` bytes at a time until it gets none. */
  function ReadAll(f: File, pos: nat, count: nat, randoms: nat -> nat, k: nat): seq<char>
    requires ValidFile(f) && count >= 1
    decreases f.size - pos
  {
    if pos >= f.size then []
    else
      var n := ChunkLength(randoms(k), count, pos, f.size);
      f.content[pos..pos + n] + ReadAll(f, pos + n, count, randoms, k + 1)
  }

  /** The file when as much of the data as fits is written. */
  function Filled(f: File, pos: nat, data: seq<char>): File
    requires ValidFile(f) && pos <= FILE_MAX_SIZE
  {
    var m := Min(|data|, FILE_MAX_SIZE - pos);
    if m == 0 then f else Written(f, pos, data[..m])
  }

  /** One write of what is left, whose user copy succeeds; 0 if there is no space. */
  method WriteSome(dev: Device, buf: array<char>, at: nat, pos: nat, random: nat) returns (n: nat)
    requires dev.Valid() && buf != dev.content && at < buf.Length
    modifies dev, dev.content
    ensures dev.Valid()
    ensures
      if pos >= FILE_MAX_SIZE then n == 0 && dev.Value() == old(dev.Value())
      else
        && n == ChunkLength(random, |buf[at..]|, pos, FILE_MAX_SIZE)
        && dev.Value() == Written(old(dev.Value()), pos, buf[at..][..n])
  {
    var ret, next := dev.Write(buf, at, buf.Length - at, pos, random, 0);
    n := if ret.Bytes? then ret.n else 0;
    assert buf[at..][..n] == buf[at..at + n];
  }

  /** Such a writer on the device, with the bytes from `at`. */
  method WriteRest(dev: Device, buf: array<char>, at: nat, pos: nat, randoms: nat -> nat, k: nat)
    requires dev.Valid() && buf != dev.content && at <= buf.Length && pos <= FILE_MAX_SIZE
    modifies dev, dev.content
    ensures dev.Valid() && dev.Value() == Filled(old(dev.Value()), pos, buf[at..])
    decreases buf.Length - at
  {
    if at == buf.Length {
      return;
    }
    ghost var f, rest := dev.Value(), buf[at..];
    var n := WriteSome(dev, buf, at, pos, randoms(k));
    if n > 0 {
      FilledInSteps(f, pos, rest, n);
      assert rest[n..] == buf[at + n..];
      WriteRest(dev, buf, at + n, pos + n, randoms, k + 1);
    }
  }

  /** How many of `n` bytes fit from `pos` on. */
  function Fitting(pos: nat, n: nat): (m: nat)
    ensures m <= n && (m > 0 ==> pos + m <= FILE_MAX_SIZE)
    ensures m == n || pos + m >= FILE_MAX_SIZE
    ensures pos >= FILE_MAX_SIZE ==> m == 0
  {
    if pos >= FILE_MAX_SIZE then 0 else Min(n, FILE_MAX_SIZE - pos)
  }

  lemma FilledOverwrites(f: File, pos: nat, data: seq<char>)
    requires ValidFile(f) && pos <= FILE_MAX_SIZE
    ensures Overwritten(f, Filled(f, pos, data), pos, data[..Fitting(pos, |data|)])
  {
    var m := Min(|data|, FILE_MAX_SIZE - pos);
    if m > 0 {
      WrittenOverwrites(f, pos, data[..m]);
    }
  }

  /** Such a writer on the device, whose file may have any size before: of the buffer what
      fits is in the file, and nothing else changes. */
  method WriteLoop(dev: Device, buf: array<char>, pos: nat, randoms: nat -> nat)
    requires dev.Valid() && buf != dev.content && pos <= FILE_MAX_SIZE
    modifies dev, dev.content
    ensures dev.Valid()
    ensures Overwritten(old(dev.Value()), dev.Value(), pos, buf[..Fitting(pos, buf.Length)])
  {
    FilledOverwrites(dev.Value(), pos, buf[..]);
    WriteRest(dev, buf, 0, pos, randoms, 0);
    assert buf[0..] == buf[..] && buf[..][..Fitting(pos, buf.Length)] == buf[..Fitting(pos, buf.Length)];
  }

  lemma SpliceFront(s: seq<char>, data: seq<char>)
    requires |data| <= |s|
    ensures Splice(s, 0, data)[..|data|] == data
  {
  }

  lemma JoinSlices(s: seq<char>, a: nat, b: nat, c: nat)
    requires a <= b <= c <= |s|
    ensures s[a..b] + s[b..c] == s[a..c]
  {
  }

  /** One read into the whole buffer, whose user copy succeeds; 0 at the end. */
  method ReadSome(dev: Device, buf: array<char>, pos: nat, random: nat) returns (n: nat)
    requires dev.Valid() && buf != dev.content && buf.Length >= 1 && pos <= dev.crtSize
    modifies buf
    ensures n == 0 <==> pos == dev.crtSize
    ensures n <= buf.Length && pos + n <= dev.crtSize && buf[..n] == dev.content[..][pos..pos + n]
  {
    ghost var before := buf[..];
    var ret, next := dev.Read(buf, 0, buf.Length, pos, random, 0);
    n := ret.n;
    if n > 0 {
      SpliceFront(before, dev.content[pos..pos + n]);
      assert buf[..n] == buf[..][..n];
    }
  }

  /** Such a reader on the device, with a buffer of any size but 0. */
  method ReadLoop(dev: Device, buf: array<char>, pos: nat, randoms: nat -> nat) returns (data: seq<char>)
    requires dev.Valid() && buf != dev.content && buf.Length >= 1 && pos <= dev.crtSize
    modifies buf
    ensures data == dev.content[..][pos..dev.crtSize]
  {
    data := [];
    var ppos: nat, k: nat := pos, 0;
    while true
      invariant pos <= ppos <= dev.crtSize && data == dev.content[..][pos..ppos]
      decreases dev.crtSize - ppos
    {
      var n := ReadSome(dev, buf, ppos, randoms(k));
      if n == 0 {
        break;
      }
      JoinSlices(dev.content[..], pos, ppos, ppos + n);
      data, ppos, k := data + buf[..n], ppos + n, k + 1;
    }
  }

  lemma FilledInSteps(f: File, pos: nat, data: seq<char>, n: nat)
    requires ValidFile(f) && 0 < n <= |data| && pos + n <= FILE_MAX_SIZE
    ensures Filled(Written(f, pos, data[..n]), pos + n, data[n..]) == Filled(f, pos, data)
  {
  }

  /** Short writes add up: as much of the data as fits is in the file, the rest of the
      file is as it was. */
  lemma {:induction false} WriteAllWrites(f: File, pos: nat, data: seq<char>, randoms: nat -> nat, k: nat)
    requires ValidFile(f) && pos <= FILE_MAX_SIZE
    ensures WriteAll(f, pos, data, randoms, k) == Filled(f, pos, data)
    decreases |data|
  {
    if data == [] || pos == FILE_MAX_SIZE {
    } else {
      var n := ChunkLength(randoms(k), |data|, pos, FILE_MAX_SIZE);
      WriteAllWrites(Written(f, pos, data[..n]), pos + n, data[n..], randoms, k + 1);
      FilledInSteps(f, pos, data, n);
    }
  }

  /** The same without `Filled`, and for every position: the size is that of the file
      before or the end of what fits, whichever is larger; bytes outside are unchanged. */
  lemma WriteAllOverwrites(f: File, pos: nat, data: seq<char>, randoms: nat -> nat, k: nat)
    requires ValidFile(f)
    ensures ValidFile(WriteAll(f, pos, data, randoms, k))
    ensures Overwritten(f, WriteAll(f, pos, data, randoms, k), pos, data[..Fitting(pos, |data|)])
  {
    if pos <= FILE_MAX_SIZE {
      WriteAllWrites(f, pos, data, randoms, k);
      FilledOverwrites(f, pos, data);
    }
  }

  /** Short reads add up to the file from `pos` to its end. */
  lemma {:induction false} ReadAllReads(f: File, pos: nat, count: nat, randoms: nat -> nat, k: nat)
    requires ValidFile(f) && count >= 1 && pos <= f.size
    ensures ReadAll(f, pos, count, randoms, k) == f.content[pos..f.size]
    decreases f.size - pos
  {
    if pos == f.size {
    } else {
      var n := ChunkLength(randoms(k), count, pos, f.size);
      ReadAllReads(f, pos + n, count, randoms, k + 1);
      JoinSlices(f.content, pos, pos + n, f.size);
    }
  }

  /** Truncate, write, read back: whatever the chunk lengths, the data comes back up to
      the size of the device, so all of it exactly when it fits; the bytes past it are
      still there, though out of reach. */
  lemma RoundTripIff(f: File, data: seq<char>, count: nat, writes: nat -> nat, reads': nat -> nat)
    requires ValidFile(f) && count >= 1
    ensures
      var g := WriteAll(f.(size := 0), 0, data, writes, 0);
      var m := Min(|data|, FILE_MAX_SIZE);
      && ValidFile(g) && g.size == m && g.content[m..] == f.content[m..]
      && ReadAll(g, 0, count, reads', 0) == data[..m]
      && (ReadAll(g, 0, count, reads', 0) == data <==> |data| <= FILE_MAX_SIZE)
  {
    WriteAllWrites(f.(size := 0), 0, data, writes, 0);
    ReadAllReads(WriteAll(f.(size := 0), 0, data, writes, 0), 0, count, reads', 0);
  }

  /** Write without truncating, read back from the start: the data where it was written,
      everything else as it was - also what lies between the end of a shorter file and the
      position, which is what the device held there before. */
  lemma RoundTripKeeps(f: File, pos: nat, data: seq<char>, count: nat, writes: nat -> nat, reads': nat -> nat)
    requires ValidFile(f) && count >= 1
    ensures ValidFile(WriteAll(f, pos, data, writes, 0))
    ensures
      var m := Fitting(pos, |data|);
      var r := ReadAll(WriteAll(f, pos, data, writes, 0), 0, count, reads', 0);
      && |r| == (if m > 0 && pos + m > f.size then pos + m else f.size)
      && forall x :: 0 <= x < |r| ==> r[x] == if pos <= x < pos + m then data[x - pos] else f.content[x]
  {
    var g := WriteAll(f, pos, data, writes, 0);
    WriteAllOverwrites(f, pos, data, writes, 0);
    ReadAllReads(g, 0, count, reads', 0);
  }
}
