/**
 The directory reply buffer (`fuse/src/fuser/ll/reply.rs`): entries in the layout of `fuse_dirent`,
 each padded to a multiple of eight bytes, and a buffer that refuses what does not fit.
 */
module DirBuffer {
  import opened Options

  type Byte = b: nat | b < 256

  datatype FileType = NamedPipe | CharDevice | BlockDevice | Directory | RegularFile | Symlink | Socket

  /** An entry as it is pushed: inode number, offset of the entry after it, type and name. */
  datatype Dirent = Dirent(ino: nat, off: int, kind: FileType, name: seq<Byte>)

  const HEADER_SIZE: nat := 24
  const ALIGNMENT: nat := 8
  const U32: nat := 0x1_0000_0000
  const U64: nat := 0x1_0000_0000_0000_0000
  const I64_LIMIT: int := 0x8000_0000_0000_0000

  // ----- numbers -----

  function Pow256(n: nat): (r: nat)
    ensures r >= 1
  {
    if n == 0 then 1 else 256 * Pow256(n - 1)
  }

  /** The low `width` bytes of `n`, lowest first. */
  function Bytes(n: nat, width: nat): (s: seq<Byte>)
    ensures |s| == width
    decreases width
  {
    if width == 0 then [] else [n % 256] + Bytes(n / 256, width - 1)
  }

  function Number(s: seq<Byte>): nat {
    if s == [] then 0 else s[0] + 256 * Number(s[1..])
  }

  lemma {:induction false} NumberBytes(n: nat, width: nat)
    requires n < Pow256(width)
    ensures Number(Bytes(n, width)) == n
    decreases width
  {
    if width > 0 {
      assert n / 256 < Pow256(width - 1);
      NumberBytes(n / 256, width - 1);
      assert Bytes(n, width)[1..] == Bytes(n / 256, width - 1);
    }
  }

  lemma Widths()
    ensures Pow256(4) == U32 && Pow256(8) == U64
  {
    assert Pow256(2) == 0x1_0000;
    assert Pow256(3) == 0x100_0000;
    assert Pow256(4) == U32;
    assert Pow256(5) == 0x100_0000_0000;
    assert Pow256(6) == 0x1_0000_0000_0000;
    assert Pow256(7) == 0x100_0000_0000_0000;
  }

  /** Signed numbers in two's complement. */
  function FromSigned(i: int): nat
    requires -I64_LIMIT <= i < I64_LIMIT
  {
    if i >= 0 then i else i + U64
  }

  function ToSigned(n: nat): int {
    if n < I64_LIMIT then n else n - U64
  }

  // ----- file types -----

  function FileMode(kind: FileType): nat {
    match kind
    case NamedPipe => 0x1000
    case CharDevice => 0x2000
    case Directory => 0x4000
    case BlockDevice => 0x6000
    case RegularFile => 0x8000
    case Symlink => 0xa000
    case Socket => 0xc000
  }

  /** The type field holds the mode shifted right by twelve bits. */
  function TypeCode(kind: FileType): nat {
    FileMode(kind) / 0x1000
  }

  function TypeOf(code: nat): Option<FileType> {
    if code == 1 then Some(NamedPipe)
    else if code == 2 then Some(CharDevice)
    else if code == 4 then Some(Directory)
    else if code == 6 then Some(BlockDevice)
    else if code == 8 then Some(RegularFile)
    else if code == 10 then Some(Symlink)
    else if code == 12 then Some(Socket)
    else None
  }

  // ----- entries -----

  /** The field widths that Rust's types give; only the length of a name is checked, when pushed. */
  predicate Fits(e: Dirent) {
    e.ino < U64 && -I64_LIMIT <= e.off < I64_LIMIT && |e.name| < U32
  }

  function Header(e: Dirent): (s: seq<Byte>)
    requires Fits(e)
    ensures |s| == HEADER_SIZE
  {
    Bytes(e.ino, 8) + Bytes(FromSigned(e.off), 8) + Bytes(|e.name|, 4) + Bytes(TypeCode(e.kind), 4)
  }

  /** The next multiple of eight. */
  function Aligned(n: nat): (m: nat)
    ensures m % ALIGNMENT == 0 && n <= m < n + ALIGNMENT
  {
    n + (ALIGNMENT - 1) - (n + (ALIGNMENT - 1)) % ALIGNMENT
  }

  function EntrySize(e: Dirent): nat {
    Aligned(HEADER_SIZE + |e.name|)
  }

  function Zeros(n: nat): (s: seq<Byte>)
    ensures |s| == n
  {
    seq(n, _ => 0)
  }

  function Encode(e: Dirent): (s: seq<Byte>)
    requires Fits(e)
    ensures |s| == EntrySize(e)
  {
    Header(e) + e.name + Zeros(EntrySize(e) - HEADER_SIZE - |e.name|)
  }

  predicate AllFit(es: seq<Dirent>) {
    forall i :: 0 <= i < |es| ==> Fits(es[i])
  }

  function EncodeAll(es: seq<Dirent>): seq<Byte>
    requires AllFit(es)
  {
    if es == [] then [] else Encode(es[0]) + EncodeAll(es[1..])
  }

  lemma EncodeNone()
    ensures AllFit([]) && EncodeAll([]) == []
  {}

  // ----- reading a buffer, as the kernel does -----

  /** `FUSE_DIRENT_SIZE`: where the entry after one with a name of this length begins. */
  function RecordSize(nameLength: nat): nat {
    (24 + nameLength + 7) / 8 * 8
  }

  lemma SizesAgree(e: Dirent)
    ensures RecordSize(|e.name|) == EntrySize(e) == Aligned(HEADER_SIZE + |e.name|)
  {}

  /** The entry at the start of a buffer. */
  function Decode(s: seq<Byte>): Option<Dirent> {
    if |s| < HEADER_SIZE then None
    else
      var n, kind := Number(s[16..20]), TypeOf(Number(s[20..24]));
      if kind.None? || |s| < RecordSize(n) then None
      else Some(Dirent(Number(s[0..8]), ToSigned(Number(s[8..16])), kind.value, s[24..24 + n]))
  }

  function DecodeAll(s: seq<Byte>): Option<seq<Dirent>> {
    if s == [] then Some([])
    else
      var e := Decode(s);
      if e.None? then None
      else if |s| < RecordSize(|e.value.name|) then None
      else
        var rest := DecodeAll(s[RecordSize(|e.value.name|)..]);
        if rest.None? then None else Some([e.value] + rest.value)
  }

  lemma HeaderSlices(e: Dirent, tail: seq<Byte>)
    requires Fits(e)
    ensures var s := Header(e) + tail;
            && s[0..8] == Bytes(e.ino, 8) && s[8..16] == Bytes(FromSigned(e.off), 8)
            && s[16..20] == Bytes(|e.name|, 4) && s[20..24] == Bytes(TypeCode(e.kind), 4)
  {
    hide Bytes, FromSigned, TypeCode;
  }

  lemma NumbersBack(e: Dirent)
    requires Fits(e)
    ensures Number(Bytes(e.ino, 8)) == e.ino && Number(Bytes(|e.name|, 4)) == |e.name|
    ensures ToSigned(Number(Bytes(FromSigned(e.off), 8))) == e.off
    ensures TypeOf(Number(Bytes(TypeCode(e.kind), 4))) == Some(e.kind)
  {
    hide Bytes, Number, Pow256;
    Widths();
    NumberBytes(e.ino, 8);
    NumberBytes(FromSigned(e.off), 8);
    NumberBytes(|e.name|, 4);
    NumberBytes(TypeCode(e.kind), 4);
  }

  lemma HeaderParts(e: Dirent, tail: seq<Byte>)
    requires Fits(e)
    ensures var s := Header(e) + tail;
            && Number(s[0..8]) == e.ino && ToSigned(Number(s[8..16])) == e.off
            && Number(s[16..20]) == |e.name| && TypeOf(Number(s[20..24])) == Some(e.kind)
  {
    hide *;
    HeaderSlices(e, tail);
    NumbersBack(e);
  }

  /** What follows an entry does not matter to reading it. */
  lemma DecodeEncode(e: Dirent, tail: seq<Byte>)
    requires Fits(e)
    ensures Decode(Encode(e) + tail) == Some(e)
  {
    SizesAgree(e);
    hide Header, Number, Aligned, TypeOf, ToSigned, Fits, RecordSize;
    var s := Encode(e) + tail;
    var more := e.name + Zeros(EntrySize(e) - HEADER_SIZE - |e.name|) + tail;
    assert s == Header(e) + more;
    HeaderParts(e, more);
    assert s[24..24 + |e.name|] == e.name;
  }

  lemma FitsSplit(es: seq<Dirent>)
    requires AllFit(es) && es != []
    ensures Fits(es[0]) && AllFit(es[1..])
  {}

  lemma DecodeCons(head: seq<Byte>, tail: seq<Byte>, e: Dirent, es: seq<Dirent>)
    requires Decode(head + tail) == Some(e) && |head| == EntrySize(e) && head != []
    requires DecodeAll(tail) == Some(es)
    ensures DecodeAll(head + tail) == Some([e] + es)
  {
    SizesAgree(e);
    hide Decode, EntrySize, RecordSize;
    assert (head + tail)[|head|..] == tail;
  }

  /** Reading a buffer gives exactly the entries it was filled with, in order. */
  lemma {:induction false} DecodeEncodeAll(es: seq<Dirent>)
    requires AllFit(es)
    ensures DecodeAll(EncodeAll(es)) == Some(es)
  {
    if es != [] {
      hide Encode, Decode, DecodeAll, EntrySize, Fits, AllFit;
      FitsSplit(es);
      DecodeEncode(es[0], EncodeAll(es[1..]));
      DecodeEncodeAll(es[1..]);
      EncodeNotEmpty(es[0]);
      DecodeCons(Encode(es[0]), EncodeAll(es[1..]), es[0], es[1..]);
      assert es == [es[0]] + es[1..];
    }
  }

  lemma EncodeNotEmpty(e: Dirent)
    requires Fits(e)
    ensures |Encode(e)| >= HEADER_SIZE
  {}

  lemma {:induction false} EncodeAppend(es: seq<Dirent>, e: Dirent)
    requires AllFit(es) && Fits(e)
    ensures AllFit(es + [e]) && EncodeAll(es + [e]) == EncodeAll(es) + Encode(e)
  {
    hide Encode, Fits;
    if es == [] {
      assert [e][1..] == [];
      assert [] + [e] == [e];
    } else {
      EncodeAppend(es[1..], e);
      assert (es + [e])[1..] == es[1..] + [e];
    }
  }

  lemma AlignedSum(m: nat, n: nat)
    requires m % ALIGNMENT == 0 && n % ALIGNMENT == 0
    ensures (m + n) % ALIGNMENT == 0
  {}

  lemma {:induction false} EncodeAllAligned(es: seq<Dirent>)
    requires AllFit(es)
    ensures |EncodeAll(es)| % ALIGNMENT == 0
  {
    hide Encode, Fits;
    if es != [] {
      EncodeAllAligned(es[1..]);
      assert |Encode(es[0])| % ALIGNMENT == 0;
      AlignedSum(|Encode(es[0])|, |EncodeAll(es[1..])|);
    }
  }

  // ----- the buffer -----

  class EntListBuf {
    const maxSize: nat
    var buf: seq<Byte>

    constructor (maxSize: nat)
      ensures this.maxSize == maxSize && buf == []
    {
      this.maxSize := maxSize;
      buf := [];
    }

    /** Appends the two parts of an entry and the padding; refused if they do not fit. */
    method Push(head: seq<Byte>, name: seq<Byte>) returns (full: bool)
      modifies this
      ensures full <==> |old(buf)| + Aligned(|head| + |name|) > maxSize
      ensures buf == if full then old(buf)
                     else old(buf) + (head + name + Zeros(Aligned(|head| + |name|) - |head| - |name|))
    {
      var entLen := |head| + |name|;
      var entSize := Aligned(entLen);
      if |buf| + entSize > maxSize { return true; }
      buf := buf + head;
      buf := buf + name;
      buf := buf + Zeros(entSize - entLen);
      full := false;
    }
  }

  class DirEntList {
    const list: EntListBuf
    ghost var entries: seq<Dirent>     // the entries accepted so far

    /** The buffer holds the accepted entries, aligned and within its size. */
    ghost predicate Valid()
      reads this, list
    {
      AllFit(entries) && list.buf == EncodeAll(entries) && |list.buf| <= list.maxSize
    }

    constructor (maxSize: nat)
      ensures Valid() && entries == [] && list.maxSize == maxSize && fresh(list)
    {
      list := new EntListBuf(maxSize);
      entries := [];
    }

    /** `None` is the panic "Name too long". */
    method Push(e: Dirent) returns (full: Option<bool>)
      requires Valid() && Fits(e.(name := []))
      modifies this, list
      ensures Valid()
      ensures full.None? <==> |e.name| >= U32
      ensures full == Some(true) <==> |e.name| < U32 && |old(list.buf)| + EntrySize(e) > list.maxSize
      ensures entries == if full == Some(false) then old(entries) + [e] else old(entries)
      ensures full != Some(false) ==> list.buf == old(list.buf)
      ensures full == Some(false) ==> |list.buf| == |old(list.buf)| + EntrySize(e)
    {
      if |e.name| >= U32 { return None; }
      var isFull := list.Push(Header(e), e.name);
      if !isFull {
        EncodeAppend(entries, e);
        entries := entries + [e];
      }
      full := Some(isFull);
    }

    /** The reply's data. What the kernel reads from it are the accepted entries. */
    method NewDirectory() returns (data: seq<Byte>)
      requires Valid()
      ensures data == list.buf && |data| <= list.maxSize && |data| % 8 == 0
      ensures DecodeAll(data) == Some(entries)
    {
      assert |list.buf| <= list.maxSize;
      DecodeEncodeAll(entries);
      EncodeAllAligned(entries);
      data := list.buf;
    }
  }

  /** Two listings that look the same on the wire are the same. */
  lemma EncodeInjective(es: seq<Dirent>, fs: seq<Dirent>)
    requires AllFit(es) && AllFit(fs) && EncodeAll(es) == EncodeAll(fs)
    ensures es == fs
  {
    DecodeEncodeAll(es);
    DecodeEncodeAll(fs);
  }
}
