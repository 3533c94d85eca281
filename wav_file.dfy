/**
 * An already-open, read-only file: its bytes and the stdio read position.
 * `fread` copies up to the requested number of bytes starting at the position,
 * moves the position past them and returns how many it copied (fewer at end of file).
 */
module WavFile {
  import opened Bytes

  class File {
    const bytes: seq<Byte>
    var pos: nat
    /** The number of bytes each fread so far transferred, in call order. */
    ghost var readLog: seq<nat>

    ghost predicate Valid()
      reads this
    {
      pos <= |bytes|
    }

    /** The bytes not yet read. */
    function Remaining(): (r: seq<Byte>)
      reads this
      requires Valid()
      ensures |r| == |bytes| - pos
    {
      bytes[pos..]
    }

    /** fopen: the position starts at the first byte. */
    constructor Open(contents: seq<Byte>)
      ensures Valid() && bytes == contents && pos == 0 && readLog == []
    {
      bytes := contents;
      pos := 0;
      readLog := [];
    }

    /** fread into a buffer whose contents the caller only inspects as a value. */
    method Read(n: nat) returns (got: seq<Byte>)
      requires Valid()
      modifies this
      ensures Valid()
      ensures got == old(bytes[pos..pos + Min(n, |bytes| - pos)])
      ensures pos == old(pos) + |got|
      ensures readLog == old(readLog) + [|got|]
    {
      got := bytes[pos..pos + Min(n, |bytes| - pos)];
      pos := pos + |got|;
      readLog := readLog + [|got|];
    }

    /** fread(buf, 1, n, f): bytes past the count returned are left as they were. */
    method ReadInto(buf: array<Byte>, n: nat) returns (count: nat)
      requires Valid() && n <= buf.Length
      modifies this, buf
      ensures Valid()
      ensures count == Min(n, old(|bytes| - pos))
      ensures buf[..count] == old(bytes[pos..pos + count])
      ensures buf[count..] == old(buf[count..])
      ensures pos == old(pos) + count
      ensures readLog == old(readLog) + [count]
    {
      count := Min(n, |bytes| - pos);
      forall i | 0 <= i < count {
        buf[i] := bytes[pos + i];
      }
      pos := pos + count;
      readLog := readLog + [count];
    }
  }
}
