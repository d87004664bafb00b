/** The track cache file: a header and aligned entries of numbers and terminated strings. */
module CacheFile {
  import opened Basics

  type Byte = x: int | 0 <= x < 256

  type Bytes = seq<Byte>

  type Int64 = x: int | -0x8000_0000_0000_0000 <= x < 0x8000_0000_0000_0000

  const ENTRY_USED_SIZE: nat := 28
  const ENTRY_RESERVED_SIZE: nat := 52
  const ENTRY_TOTAL_SIZE: nat := 80
  const ENTRY_MAX_SIZE: nat := 16 * 1024 * 1024

  /** "CTC", the version, and the flags of a little-endian machine with 64-bit longs. */
  const HEADER: Bytes := [0x43, 0x54, 0x43, 0x0d, 0, 0, 0, 1]

  datatype Track = Track(
    filename: Bytes,
    codec: Option<Bytes>,
    codecProfile: Option<Bytes>,
    comments: seq<(Bytes, Bytes)>,
    playCount: Int32,
    mtime: Int64,
    duration: Int32,
    bitrate: Int32,
    bpm: Int32)

  // ---------------------------------------------------------------------------------------
  // Numbers
  // ---------------------------------------------------------------------------------------

  function Power256(k: nat): nat {
    if k == 0 then 1 else 256 * Power256(k - 1)
  }

  function EncodeNat(n: nat, k: nat): (s: Bytes)
    ensures |s| == k
  {
    if k == 0 then [] else [n % 256] + EncodeNat(n / 256, k - 1)
  }

  function DecodeNat(s: Bytes): nat
    decreases |s|
  {
    if s == [] then 0 else s[0] + 256 * DecodeNat(s[1..])
  }

  lemma {:induction false} DecodeEncodeNat(n: nat, k: nat)
    requires n < Power256(k)
    ensures DecodeNat(EncodeNat(n, k)) == n
    decreases k
  {
    if k > 0 {
      assert EncodeNat(n, k)[1..] == EncodeNat(n / 256, k - 1);
      DecodeEncodeNat(n / 256, k - 1);
    }
  }

  /** Each byte with the weight of its place. */
  function Weighted(s: Bytes): nat
    decreases |s|
  {
    if s == [] then 0
    else
      var k := |s| - 1;
      Weighted(s[..k]) + s[k] * Power256(k)
  }

  lemma {:induction false} WeightedHead(b: Byte, s: Bytes)
    ensures Weighted([b] + s) == b + 256 * Weighted(s)
    decreases |s|
  {
    var all := [b] + s;
    if s == [] {
      assert all[..0] == [];
      assert Weighted(all) == Weighted([]) + b * Power256(0);
    } else {
      var k := |s| - 1;
      assert all[..k + 1] == [b] + s[..k];
      WeightedHead(b, s[..k]);
      assert Power256(k + 1) == 256 * Power256(k);
      assert s[k] * (256 * Power256(k)) == 256 * (s[k] * Power256(k));
    }
  }

  /** The byte at place i of a number counts 256 to the i: the lowest comes first. */
  lemma {:induction false} LowestByteFirst(n: nat, k: nat)
    requires n < Power256(k)
    ensures Weighted(EncodeNat(n, k)) == n
    decreases k
  {
    if k > 0 {
      LowestByteFirst(n / 256, k - 1);
      WeightedHead(n % 256, EncodeNat(n / 256, k - 1));
    }
  }

  /** Two's complement in k bytes. */
  function EncodeInt(v: int, k: nat): (s: Bytes)
    requires 0 <= v + Power256(k)
    ensures |s| == k
  {
    EncodeNat(if v < 0 then v + Power256(k) else v, k)
  }

  function DecodeInt(s: Bytes): int {
    var n := DecodeNat(s);
    if 2 * n >= Power256(|s|) then n - Power256(|s|) else n
  }

  lemma DecodeEncodeInt(v: int, k: nat)
    requires 0 <= 2 * v + Power256(k) && 2 * v < Power256(k)
    ensures DecodeInt(EncodeInt(v, k)) == v
  {
    DecodeEncodeNat(if v < 0 then v + Power256(k) else v, k);
  }

  lemma Powers()
    ensures Power256(4) == 0x1_0000_0000
    ensures Power256(8) == 0x1_0000_0000_0000_0000
  {
    assert Power256(2) == 65536;
    assert Power256(4) == 65536 * 65536;
    assert Power256(6) == 65536 * 65536 * 65536;
  }

  lemma {:induction false} DecodeNatBound(s: Bytes)
    ensures DecodeNat(s) < Power256(|s|)
    decreases |s|
  {
    if s != [] {
      DecodeNatBound(s[1..]);
    }
  }

  function DecodeInt32(s: Bytes): Int32
    requires |s| == 4
  {
    Powers();
    DecodeNatBound(s);
    DecodeInt(s)
  }

  function DecodeInt64(s: Bytes): Int64
    requires |s| == 8
  {
    Powers();
    DecodeNatBound(s);
    DecodeInt(s)
  }

  // ---------------------------------------------------------------------------------------
  // Strings
  // ---------------------------------------------------------------------------------------

  /** Strings one after another, each with its terminator. */
  function Terminated(strings: seq<Bytes>): Bytes
    decreases |strings|
  {
    if strings == [] then [] else strings[0] + [0] + Terminated(strings[1..])
  }

  function StrLen(s: Bytes): (n: nat)
    ensures n <= |s|
    ensures forall i :: 0 <= i < n ==> s[i] != 0
    ensures n < |s| ==> s[n] == 0
    decreases |s|
  {
    if s == [] || s[0] == 0 then 0 else 1 + StrLen(s[1..])
  }

  /** The strings of an area, up to its last terminator. */
  function Split(s: Bytes): seq<Bytes>
    decreases |s|
  {
    var n := StrLen(s);
    if n == |s| then [] else [s[..n]] + Split(s[n + 1..])
  }

  function Zeros(s: Bytes): nat
    decreases |s|
  {
    if s == [] then 0 else (if s[0] == 0 then 1 else 0) + Zeros(s[1..])
  }

  predicate NoZero(s: Bytes) {
    forall i :: 0 <= i < |s| ==> s[i] != 0
  }

  predicate NoZeros(strings: seq<Bytes>) {
    forall i :: 0 <= i < |strings| ==> NoZero(strings[i])
  }

  lemma {:induction false} ZerosConcat(a: Bytes, b: Bytes)
    ensures Zeros(a + b) == Zeros(a) + Zeros(b)
    decreases |a|
  {
    if a == [] {
      assert a + b == b;
    } else {
      assert (a + b)[1..] == a[1..] + b;
      ZerosConcat(a[1..], b);
    }
  }

  lemma {:induction false} ZerosNone(s: Bytes)
    requires NoZero(s)
    ensures Zeros(s) == 0
    decreases |s|
  {
    if s != [] {
      ZerosNone(s[1..]);
    }
  }

  lemma {:induction false} StrLenOf(s: Bytes, rest: Bytes)
    requires NoZero(s)
    ensures StrLen(s + [0] + rest) == |s|
    decreases |s|
  {
    var t := s + [0] + rest;
    if s != [] {
      assert t[0] == s[0] && t[1..] == s[1..] + [0] + rest;
      StrLenOf(s[1..], rest);
    }
  }

  lemma {:induction false} SplitTerminated(strings: seq<Bytes>)
    requires NoZeros(strings)
    ensures Split(Terminated(strings)) == strings
    ensures Zeros(Terminated(strings)) == |strings|
    decreases |strings|
  {
    if strings != [] {
      var s, rest := strings[0], Terminated(strings[1..]);
      var all := s + [0] + rest;
      StrLenOf(s, rest);
      assert all[..|s|] == s && all[|s| + 1..] == rest;
      SplitTerminated(strings[1..]);
      ZerosNone(s);
      ZerosConcat(s + [0], rest);
      ZerosConcat(s, [0]);
      assert [s] + strings[1..] == strings;
    }
  }

  /** An area that ends with a terminator is exactly its strings: reading as many strings as
      there are terminators uses all of it and no more. */
  lemma {:induction false} SplitUsesAll(s: Bytes)
    requires s == [] || s[|s| - 1] == 0
    ensures Terminated(Split(s)) == s
    ensures |Split(s)| == Zeros(s)
    decreases |s|
  {
    if s != [] {
      var n := StrLen(s);
      var rest := s[n + 1..];
      assert s == s[..n] + [0] + rest;
      SplitUsesAll(rest);
      ZerosNone(s[..n]);
      ZerosConcat(s[..n] + [0], rest);
      ZerosConcat(s[..n], [0]);
    }
  }

  // ---------------------------------------------------------------------------------------
  // Entries
  // ---------------------------------------------------------------------------------------

  function OrEmpty(s: Option<Bytes>): Bytes {
    if s.None? then [] else s.value
  }

  function OrNone(s: Bytes): Option<Bytes> {
    if s == [] then None else Some(s)
  }

  function Pairs(comments: seq<(Bytes, Bytes)>): seq<Bytes>
    decreases |comments|
  {
    if comments == [] then [] else [comments[0].0, comments[0].1] + Pairs(comments[1..])
  }

  function Strings(t: Track): seq<Bytes> {
    [t.filename, OrEmpty(t.codec), OrEmpty(t.codecProfile)] + Pairs(t.comments)
  }

  function Repeated(b: Byte, n: nat): (s: Bytes)
    ensures |s| == n
  {
    seq(n, _ => b)
  }

  function EntrySize(t: Track): nat {
    ENTRY_TOTAL_SIZE + |Terminated(Strings(t))|
  }

  /** A number as its lowest 32 bits. */
  function Wrapped(n: nat): (r: nat)
    ensures r < 0x1_0000_0000
  {
    n % 0x1_0000_0000
  }

  /** What the 32 bits for the size of an entry hold. */
  function SizeField(t: Track): nat {
    Wrapped(EntrySize(t))
  }

  function Fields(t: Track): (s: Bytes)
    ensures |s| == ENTRY_USED_SIZE
  {
    Powers();
    EncodeInt(SizeField(t), 4) + EncodeInt(t.playCount, 4) + EncodeInt(t.mtime, 8)
    + EncodeInt(t.duration, 4) + EncodeInt(t.bitrate, 4) + EncodeInt(t.bpm, 4)
  }

  function Entry(t: Track): (s: Bytes)
    ensures |s| == EntrySize(t)
  {
    Fields(t) + Repeated(0xff, ENTRY_RESERVED_SIZE) + Terminated(Strings(t))
  }

  predicate ValidEntry(e: Bytes) {
    && |e| >= ENTRY_TOTAL_SIZE
    && var area := e[ENTRY_TOTAL_SIZE..];
       && Zeros(area) >= 3
       && Zeros(area) % 2 == 1
       && area[0] != 0
       && area[|area| - 1] == 0
  }

  function Unpaired(strings: seq<Bytes>): seq<(Bytes, Bytes)>
    decreases |strings|
  {
    if |strings| < 2 then [] else [(strings[0], strings[1])] + Unpaired(strings[2..])
  }

  function DecodeEntry(e: Bytes): Track
    requires ValidEntry(e)
  {
    var area := e[ENTRY_TOTAL_SIZE..];
    SplitUsesAll(area);
    var strings := Split(area);
    Track(strings[0], OrNone(strings[1]), OrNone(strings[2]), Unpaired(strings[3..]),
          DecodeInt32(e[4..8]), DecodeInt64(e[8..16]), DecodeInt32(e[16..20]), DecodeInt32(e[20..24]),
          DecodeInt32(e[24..28]))
  }

  /** A track whose entry the reader takes: a name, strings without terminators, and a bounded
      size. The writer tests none of this. */
  predicate Storable(t: Track) {
    t.filename != [] && NoZeros(Strings(t)) && EntrySize(t) <= ENTRY_MAX_SIZE
  }

  /** An empty codec string is not told apart from a missing one. */
  function Normalized(t: Track): Track {
    t.(codec := OrNone(OrEmpty(t.codec)), codecProfile := OrNone(OrEmpty(t.codecProfile)))
  }

  lemma {:induction false} UnpairedPairs(comments: seq<(Bytes, Bytes)>)
    ensures |Pairs(comments)| % 2 == 0 && Unpaired(Pairs(comments)) == comments
    decreases |comments|
  {
    if comments != [] {
      assert Pairs(comments)[2..] == Pairs(comments[1..]);
      UnpairedPairs(comments[1..]);
    }
  }

  lemma EntryArea(t: Track)
    requires Storable(t)
    ensures Entry(t)[ENTRY_TOTAL_SIZE..] == Terminated(Strings(t))
    ensures ValidEntry(Entry(t))
  {
    hide Fields, Split, Zeros, DecodeNat;
    var area := Terminated(Strings(t));
    assert Entry(t)[ENTRY_TOTAL_SIZE..] == area;
    SplitTerminated(Strings(t));
    UnpairedPairs(t.comments);
    assert Strings(t)[0] == t.filename;
    assert area[0] == t.filename[0];
    assert NoZero(Strings(t)[0]);
    TerminatedEnd(Strings(t));
  }

  lemma {:induction false} TerminatedEnd(strings: seq<Bytes>)
    requires strings != []
    ensures var s := Terminated(strings); s != [] && s[|s| - 1] == 0
    decreases |strings|
  {
    if |strings| > 1 {
      TerminatedEnd(strings[1..]);
    }
  }

  lemma EntryFields(t: Track)
    ensures var e := Entry(t);
            && DecodeNat(e[0..4]) == SizeField(t)
            && DecodeInt32(e[4..8]) == t.playCount
            && DecodeInt64(e[8..16]) == t.mtime
            && DecodeInt32(e[16..20]) == t.duration
            && DecodeInt32(e[20..24]) == t.bitrate
            && DecodeInt32(e[24..28]) == t.bpm
  {
    hide EncodeNat, DecodeNat, Power256, Terminated, Strings;
    Powers();
    var e := Entry(t);
    assert e[0..4] == EncodeInt(SizeField(t), 4);
    assert e[4..8] == EncodeInt(t.playCount, 4);
    assert e[8..16] == EncodeInt(t.mtime, 8);
    assert e[16..20] == EncodeInt(t.duration, 4);
    assert e[20..24] == EncodeInt(t.bitrate, 4);
    assert e[24..28] == EncodeInt(t.bpm, 4);
    DecodeEncodeNat(SizeField(t), 4);
    DecodeEncodeInt(t.playCount, 4);
    DecodeEncodeInt(t.mtime, 8);
    DecodeEncodeInt(t.duration, 4);
    DecodeEncodeInt(t.bitrate, 4);
    DecodeEncodeInt(t.bpm, 4);
  }

  /** An entry decodes to the track it was made from, empty codec strings being missing ones. */
  lemma EntryDecodes(t: Track)
    requires Storable(t)
    ensures ValidEntry(Entry(t)) && DecodeEntry(Entry(t)) == Normalized(t)
  {
    hide Entry, Split, DecodeNat, EntrySize, DecodeInt32, DecodeInt64;
    EntryArea(t);
    EntryFields(t);
    SplitTerminated(Strings(t));
    UnpairedPairs(t.comments);
    assert Strings(t)[3..] == Pairs(t.comments);
  }

  /** Where everything stands in an entry: the numbers at fixed places, the reserved bytes, and behind
      them the name, codec, codec profile and comments, each with its terminator. */
  lemma EntryLayout(t: Track)
    ensures var e := Entry(t);
            && e[0..4] == EncodeNat(SizeField(t), 4)
            && e[4..8] == EncodeInt(t.playCount, 4)
            && e[8..16] == EncodeInt(t.mtime, 8)
            && e[16..20] == EncodeInt(t.duration, 4)
            && e[20..24] == EncodeInt(t.bitrate, 4)
            && e[24..28] == EncodeInt(t.bpm, 4)
            && (forall i :: 28 <= i < 80 ==> e[i] == 0xff)
            && e[80..] == t.filename + [0] + OrEmpty(t.codec) + [0] + OrEmpty(t.codecProfile) + [0]
                          + Terminated(Pairs(t.comments))
  {
    hide EncodeNat, Terminated, Pairs, Power256;
    Powers();
    var e := Entry(t);
    assert e[80..] == Terminated(Strings(t));
    StringArea(t);
  }

  lemma StringArea(t: Track)
    ensures Terminated(Strings(t)) ==
            t.filename + [0] + OrEmpty(t.codec) + [0] + OrEmpty(t.codecProfile) + [0] + Terminated(Pairs(t.comments))
  {
    hide OrEmpty;
    var s, rest := Strings(t), Pairs(t.comments);
    assert s[1..][1..] == s[2..] && s[2..][1..] == rest;
    assert Terminated(s) == s[0] + [0] + Terminated(s[1..]);
    assert Terminated(s[1..]) == s[1] + [0] + Terminated(s[2..]);
    assert Terminated(s[2..]) == s[2] + [0] + Terminated(rest);
    Regrouped(s[0], s[1], s[2], Terminated(rest));
  }

  lemma Regrouped(a: Bytes, b: Bytes, c: Bytes, d: Bytes)
    ensures a + [0] + (b + [0] + (c + [0] + d)) == a + [0] + b + [0] + c + [0] + d
  {
  }

  /** An entry is well formed exactly when behind its 80 bytes stand an odd number of terminated strings,
      at least three, the first of which is not empty. */
  lemma ValidEntryIff(e: Bytes)
    ensures ValidEntry(e) <==>
            && |e| >= 80
            && exists strings: seq<Bytes> ::
                 e[80..] == Terminated(strings) && NoZeros(strings)
                 && |strings| >= 3 && |strings| % 2 == 1 && strings[0] != []
  {
    hide Split, Zeros, Terminated, NoZeros;
    if ValidEntry(e) {
      var area := e[80..];
      SplitUsesAll(area);
      SplitNoZeros(area);
      EmptyArea();
      FirstStringOf(area);
    }
    if |e| >= 80 && exists strings: seq<Bytes> ::
         e[80..] == Terminated(strings) && NoZeros(strings)
         && |strings| >= 3 && |strings| % 2 == 1 && strings[0] != []
    {
      var strings: seq<Bytes> :| e[80..] == Terminated(strings) && NoZeros(strings)
                                 && |strings| >= 3 && |strings| % 2 == 1 && strings[0] != [];
      SplitTerminated(strings);
      TerminatedEnd(strings);
      TerminatedStart(strings);
    }
  }

  lemma EmptyArea()
    ensures Zeros([]) == 0
  {
  }

  lemma {:induction false} FirstStringOf(area: Bytes)
    requires Split(area) != [] && area != [] && area[0] != 0
    ensures Split(area)[0] != []
  {
  }

  lemma {:induction false} TerminatedStart(strings: seq<Bytes>)
    requires strings != [] && strings[0] != [] && NoZeros(strings)
    ensures var s := Terminated(strings); s != [] && s[0] != 0
  {
    assert NoZero(strings[0]);
    assert Terminated(strings)[0] == strings[0][0];
  }

  // ---------------------------------------------------------------------------------------
  // Files
  // ---------------------------------------------------------------------------------------

  function Align(offset: nat): (aligned: nat)
    ensures offset <= aligned < offset + 8 && aligned % 8 == 0
  {
    (offset + 7) / 8 * 8
  }

  /** The entries of a list of tracks, written from a file offset on. */
  function Entries(tracks: seq<Track>, offset: nat): Bytes
    decreases |tracks|
  {
    if tracks == [] then []
    else
      Repeated(0, Align(offset) - offset) + Entry(tracks[0])
      + Entries(tracks[1..], Align(offset) + SizeField(tracks[0]))
  }

  function FileBytes(tracks: seq<Track>): Bytes {
    HEADER + Entries(tracks, |HEADER|)
  }

  /** The tracks that were read, and whether the whole file was understood. */
  datatype Read = Read(tracks: seq<Track>, complete: bool)

  function EntrySizeAt(file: Bytes, at: nat): nat
    requires at + ENTRY_TOTAL_SIZE <= |file|
  {
    DecodeNat(file[at..at + 4])
  }

  /** The entry at an offset can be read: its bytes are there and it is well formed. */
  predicate Readable(file: Bytes, at: nat) {
    && at + ENTRY_TOTAL_SIZE <= |file|
    && var size := EntrySizeAt(file, at);
       && ENTRY_TOTAL_SIZE <= size <= ENTRY_MAX_SIZE
       && at + size <= |file|
       && ValidEntry(file[at..at + size])
  }

  /** Entries are read until one is missing, cut short or malformed. */
  function ReadFrom(file: Bytes, offset: nat): Read
    decreases |file| - offset
  {
    if offset >= |file| then Read([], true)
    else if !Readable(file, Align(offset)) then Read([], false)
    else
      var at := Align(offset);
      var size := EntrySizeAt(file, at);
      var rest := ReadFrom(file, at + size);
      Read([DecodeEntry(file[at..at + size])] + rest.tracks, rest.complete)
  }

  function ReadFile(file: Bytes): Read {
    if |file| < |HEADER| || file[..|HEADER|] != HEADER then Read([], false) else ReadFrom(file, |HEADER|)
  }

  function NormalizedAll(tracks: seq<Track>): (r: seq<Track>)
    ensures |r| == |tracks|
    ensures forall i :: 0 <= i < |r| ==> r[i] == Normalized(tracks[i])
  {
    seq(|tracks|, i requires 0 <= i < |tracks| => Normalized(tracks[i]))
  }

  /** The offset right after each of the first k entries. */
  function EndOf(tracks: seq<Track>, offset: nat, k: nat): (end: nat)
    requires k <= |tracks|
    ensures end >= offset
    decreases k
  {
    if k == 0 then offset else EndOf(tracks[1..], Align(offset) + EntrySize(tracks[0]), k - 1)
  }

  /** How many entries lie wholly before a cut. */
  function WholeBefore(tracks: seq<Track>, offset: nat, cut: nat): (k: nat)
    ensures k <= |tracks|
    decreases |tracks|
  {
    if tracks == [] || Align(offset) + EntrySize(tracks[0]) > cut then 0
    else 1 + WholeBefore(tracks[1..], Align(offset) + EntrySize(tracks[0]), cut)
  }

  lemma {:induction false} WholeBeforeIs(tracks: seq<Track>, offset: nat, cut: nat, k: nat)
    requires k <= |tracks| && offset <= cut
    ensures k <= WholeBefore(tracks, offset, cut) <==> EndOf(tracks, offset, k) <= cut
    decreases k
  {
    hide EntrySize, Align;
    if k > 0 {
      var next := Align(offset) + EntrySize(tracks[0]);
      if next <= cut {
        WholeBeforeIs(tracks[1..], next, cut, k - 1);
      }
    }
  }

  /** The file holds the entry of a track at an offset, whole or cut. */
  lemma EntryInFile(file: Bytes, cut: nat, at: nat, t: Track)
    requires Storable(t)
    requires cut <= |file| && at + EntrySize(t) <= |file|
    requires file[at..at + EntrySize(t)] == Entry(t)
    ensures Readable(file[..cut], at) <==> at + EntrySize(t) <= cut
    ensures at + EntrySize(t) <= cut ==>
              EntrySizeAt(file[..cut], at) == EntrySize(t) && file[..cut][at..at + EntrySize(t)] == Entry(t)
  {
    hide Entry, EntrySize, ValidEntry, DecodeNat, SizeField;
    EntrySizeLeast(t);
    StorableSize(t);
    EntryFields(t);
    EntryDecodes(t);
    if at + ENTRY_TOTAL_SIZE <= cut {
      assert file[..cut][at..at + 4] == file[at..at + EntrySize(t)][0..4];
      assert EntrySizeAt(file[..cut], at) == EntrySize(t);
    }
    if at + EntrySize(t) <= cut {
      assert file[..cut][at..at + EntrySize(t)] == file[at..at + EntrySize(t)];
    }
  }

  lemma EntrySizeLeast(t: Track)
    ensures EntrySize(t) >= ENTRY_TOTAL_SIZE
  {
  }

  lemma StorableSize(t: Track)
    requires EntrySize(t) < 0x1_0000_0000
    ensures SizeField(t) == EntrySize(t)
  {
  }

  lemma {:induction false} ReadCut(file: Bytes, tracks: seq<Track>, offset: nat, cut: nat)
    requires forall i :: 0 <= i < |tracks| ==> Storable(tracks[i])
    requires offset <= cut <= |file|
    requires file[offset..] == Entries(tracks, offset)
    ensures var k := WholeBefore(tracks, offset, cut);
            ReadFrom(file[..cut], offset) ==
            Read(NormalizedAll(tracks[..k]), cut == EndOf(tracks, offset, k))
    decreases |tracks|
  {
    hide Entry, EntrySize, SizeField, Readable, DecodeEntry, Normalized, EntrySizeAt, Align, ReadFrom, NormalizedAll, Entries;
    NothingNormalized();
    if tracks == [] {
      NoEntries(offset);
      assert tracks[..0] == [];
      ReadAtEnd(file[..cut], offset);
    } else {
      var t, at := tracks[0], Align(offset);
      var next := at + EntrySize(t);
      assert Storable(t);
      AlignBounds(offset);
      EntryAt(file, tracks, offset);
      EntryInFile(file, cut, at, t);
      EntrySizeLeast(t);
      StorableSize(t);
      ReadFromUnfold(file[..cut], offset);
      if next <= cut {
        EntryDecodes(t);
        ReadCut(file, tracks[1..], next, cut);
        NormalizedCons(tracks, WholeBefore(tracks[1..], next, cut));
      } else {
        assert tracks[..0] == [];
      }
    }
  }

  lemma NothingNormalized()
    ensures NormalizedAll([]) == []
  {
  }

  lemma NoEntries(offset: nat)
    ensures Entries([], offset) == []
  {
  }

  lemma NormalizedCons(tracks: seq<Track>, k: nat)
    requires 0 < |tracks| && k < |tracks|
    ensures NormalizedAll(tracks[..k + 1]) == [Normalized(tracks[0])] + NormalizedAll(tracks[1..][..k])
  {
    hide Normalized;
    assert tracks[..k + 1][1..] == tracks[1..][..k];
  }

  lemma ReadAtEnd(file: Bytes, offset: nat)
    requires offset >= |file|
    ensures ReadFrom(file, offset) == Read([], true)
  {
  }

  lemma {:induction false} ReadFromUnfold(file: Bytes, offset: nat)
    ensures ReadFrom(file, offset) ==
            if offset >= |file| then Read([], true)
            else if !Readable(file, Align(offset)) then Read([], false)
            else
              var at := Align(offset);
              var size := EntrySizeAt(file, at);
              var rest := ReadFrom(file, at + size);
              Read([DecodeEntry(file[at..at + size])] + rest.tracks, rest.complete)
  {
    hide DecodeEntry, EntrySizeAt, Align, ValidEntry;
  }

  lemma AlignBounds(offset: nat)
    ensures offset <= Align(offset)
  {
  }

  lemma EntryAt(file: Bytes, tracks: seq<Track>, offset: nat)
    requires tracks != []
    requires offset <= |file| && file[offset..] == Entries(tracks, offset)
    ensures var t, at := tracks[0], Align(offset);
            var end := at + EntrySize(t);
            && end <= |file|
            && file[at..end] == Entry(t)
            && file[end..] == Entries(tracks[1..], at + SizeField(t))
  {
    hide Entry, EntrySize, SizeField, Align, Entries;
    var t, at := tracks[0], Align(offset);
    AlignBounds(offset);
    EntryLength(t);
    EntriesUnfold(tracks, offset);
    var pad, entry, rest := Repeated(0, at - offset), Entry(t), Entries(tracks[1..], at + SizeField(t));
    assert |pad| == at - offset;
    assert |entry| == EntrySize(t);
    PartsOfTail(file, offset, pad, entry, rest);
  }

  lemma PartsOfTail(file: Bytes, offset: nat, pad: Bytes, entry: Bytes, rest: Bytes)
    requires offset <= |file| && file[offset..] == pad + entry + rest
    ensures var at := offset + |pad|;
            var next := at + |entry|;
            next <= |file| && file[at..next] == entry && file[next..] == rest
  {
    var tail := file[offset..];
    var at := offset + |pad|;
    assert |tail| == |pad| + |entry| + |rest|;
    assert file[at..at + |entry|] == tail[|pad|..|pad| + |entry|] == entry;
    assert file[at + |entry|..] == tail[|pad| + |entry|..] == rest;
  }

  lemma {:induction false} EntriesUnfold(tracks: seq<Track>, offset: nat)
    requires tracks != []
    ensures Entries(tracks, offset) ==
            Repeated(0, Align(offset) - offset) + Entry(tracks[0])
            + Entries(tracks[1..], Align(offset) + SizeField(tracks[0]))
  {
    hide Entry, EntrySize, SizeField, Align;
  }

  lemma EntryLength(t: Track)
    ensures |Entry(t)| == EntrySize(t)
  {
  }

  /** A written cache is read back as the same tracks in the same order, empty codec strings
      having become missing ones. */
  lemma WrittenIsRead(tracks: seq<Track>)
    requires forall i :: 0 <= i < |tracks| ==> Storable(tracks[i])
    ensures ReadFile(FileBytes(tracks)) == Read(NormalizedAll(tracks), true)
  {
    hide ReadFrom, Entries, EndOf, WholeBefore;
    var file := FileBytes(tracks);
    CutReads(tracks, |file|);
    assert file[..|file|] == file;
    FileEnd(tracks, |HEADER|);
    WholeBeforeIs(tracks, |HEADER|, |file|, |tracks|);
    assert tracks[..|tracks|] == tracks;
  }

  lemma {:induction false} FileEnd(tracks: seq<Track>, offset: nat)
    requires forall i :: 0 <= i < |tracks| ==> Storable(tracks[i])
    ensures offset + |Entries(tracks, offset)| == EndOf(tracks, offset, |tracks|)
    decreases |tracks|
  {
    hide EntrySize, SizeField, Entry, Align;
    if tracks != [] {
      AlignBounds(offset);
      EntryLength(tracks[0]);
      StorableSize(tracks[0]);
      FileEnd(tracks[1..], Align(offset) + EntrySize(tracks[0]));
    }
  }

  /** Cut anywhere behind the header, the file yields exactly the entries that lie wholly before
      the cut, and it counts as complete exactly when the cut is the end of one of them. */
  lemma CutReads(tracks: seq<Track>, cut: nat)
    requires forall i :: 0 <= i < |tracks| ==> Storable(tracks[i])
    requires |HEADER| <= cut <= |FileBytes(tracks)|
    ensures var k := WholeBefore(tracks, |HEADER|, cut);
            ReadFile(FileBytes(tracks)[..cut]) ==
            Read(NormalizedAll(tracks[..k]), cut == EndOf(tracks, |HEADER|, k))
  {
    hide ReadFrom, Entries, EndOf, WholeBefore;
    var file := FileBytes(tracks);
    assert file[|HEADER|..] == Entries(tracks, |HEADER|);
    assert file[..cut][..|HEADER|] == HEADER;
    ReadCut(file, tracks, |HEADER|, cut);
  }

  /** Cut inside the header, nothing is read. */
  lemma CutHeaderReadsNothing(tracks: seq<Track>, cut: nat)
    requires forall i :: 0 <= i < |tracks| ==> Storable(tracks[i])
    requires cut < |HEADER|
    ensures cut <= |FileBytes(tracks)| && ReadFile(FileBytes(tracks)[..cut]) == Read([], false)
  {
  }

  /** Reading gets past the first k entries when their tracks can be stored. */
  lemma {:induction false} ReadPast(file: Bytes, tracks: seq<Track>, offset: nat, k: nat)
    requires k <= |tracks| && forall i :: 0 <= i < k ==> Storable(tracks[i])
    requires offset <= |file| && file[offset..] == Entries(tracks, offset)
    ensures var end := EndOf(tracks, offset, k);
            && end <= |file|
            && file[end..] == Entries(tracks[k..], end)
            && var rest := ReadFrom(file, end);
               ReadFrom(file, offset) == Read(NormalizedAll(tracks[..k]) + rest.tracks, rest.complete)
    decreases k
  {
    hide Entry, EntrySize, SizeField, Readable, DecodeEntry, Normalized, EntrySizeAt, Align, ReadFrom, NormalizedAll, Entries;
    NothingNormalized();
    if k == 0 {
      assert tracks[..0] == [] && tracks[0..] == tracks;
    } else {
      var t, at := tracks[0], Align(offset);
      AlignBounds(offset);
      EntryAt(file, tracks, offset);
      assert file[..|file|] == file;
      EntryInFile(file, |file|, at, t);
      EntrySizeLeast(t);
      StorableSize(t);
      ReadFromUnfold(file, offset);
      EntryDecodes(t);
      ReadPast(file, tracks[1..], at + EntrySize(t), k - 1);
      assert tracks[1..][k - 1..] == tracks[k..];
      NormalizedCons(tracks, k - 1);
    }
  }

  /** The entry of a track that cannot be stored is refused, or, when its size did not fit its
      32 bits, read as some other track. */
  lemma EntryRefused(file: Bytes, at: nat, t: Track)
    requires !Storable(t) && NoZeros(Strings(t))
    requires at + EntrySize(t) <= |file| && file[at..at + EntrySize(t)] == Entry(t)
    ensures EntrySize(t) < 0x1_0000_0000 ==> !Readable(file, at)
    ensures Readable(file, at) ==> DecodeEntry(file[at..at + EntrySizeAt(file, at)]) != Normalized(t)
  {
    hide Entry, EntrySize, SizeField, ValidEntry, DecodeNat, DecodeEntry, Strings, Terminated;
    EntrySizeLeast(t);
    EntryFields(t);
    assert file[at..at + 4] == file[at..at + EntrySize(t)][0..4];
    if Readable(file, at) {
      var e := file[at..at + EntrySizeAt(file, at)];
      ValidEntryIsItsStrings(e);
      NormalizedStrings(t);
      if EntrySize(t) < 0x1_0000_0000 {
        StorableSize(t);
        NamelessIsInvalid(t);
        assert false;
      }
    }
  }

  lemma NormalizedStrings(t: Track)
    ensures Strings(Normalized(t)) == Strings(t)
    ensures EntrySize(t) == ENTRY_TOTAL_SIZE + |Terminated(Strings(t))|
    ensures Normalized(t).filename == t.filename
  {
  }

  lemma NamelessIsInvalid(t: Track)
    requires t.filename == []
    ensures !ValidEntry(Entry(t))
  {
    hide Fields, Zeros;
    assert Strings(t)[0] == [];
    assert Entry(t)[ENTRY_TOTAL_SIZE..] == Terminated(Strings(t));
  }

  /** Without size overflow, the tracks before the first one that cannot be stored are read, and
      then reading stops. */
  lemma ReadsUpToUnstorable(tracks: seq<Track>, k: nat)
    requires k < |tracks| && forall i :: 0 <= i < k ==> Storable(tracks[i])
    requires !Storable(tracks[k]) && NoZeros(Strings(tracks[k])) && EntrySize(tracks[k]) < 0x1_0000_0000
    ensures ReadFile(FileBytes(tracks)) == Read(NormalizedAll(tracks[..k]), false)
  {
    hide ReadFrom, Entries, EndOf, Readable, NormalizedAll, EntrySize, DecodeEntry;
    ReadsPrefix(tracks, k);
    UnstorableNext(FileBytes(tracks), tracks[k..], EndOf(tracks, |HEADER|, k));
  }

  lemma ReadsPrefix(tracks: seq<Track>, k: nat)
    requires k <= |tracks| && forall i :: 0 <= i < k ==> Storable(tracks[i])
    ensures var file, end := FileBytes(tracks), EndOf(tracks, |HEADER|, k);
            && end <= |file|
            && file[end..] == Entries(tracks[k..], end)
            && var rest := ReadFrom(file, end);
               ReadFile(file) == Read(NormalizedAll(tracks[..k]) + rest.tracks, rest.complete)
  {
    hide ReadFrom, Entries, EndOf, NormalizedAll, Storable;
    var file := FileBytes(tracks);
    assert file[|HEADER|..] == Entries(tracks, |HEADER|);
    assert file[..|HEADER|] == HEADER;
    ReadPast(file, tracks, |HEADER|, k);
  }

  lemma UnstorableNext(file: Bytes, tracks: seq<Track>, offset: nat)
    requires tracks != [] && !Storable(tracks[0]) && NoZeros(Strings(tracks[0]))
    requires offset <= |file| && file[offset..] == Entries(tracks, offset)
    ensures var r := ReadFrom(file, offset);
            && (EntrySize(tracks[0]) < 0x1_0000_0000 ==> r == Read([], false))
            && (r.tracks == [] ==> !r.complete)
            && (r.tracks != [] ==> r.tracks[0] != Normalized(tracks[0]))
  {
    hide Entry, EntrySize, SizeField, Readable, DecodeEntry, Normalized, EntrySizeAt, Align, ReadFrom, Entries, NoZeros, Strings;
    EntryAt(file, tracks, offset);
    EntryRefused(file, Align(offset), tracks[0]);
    EntrySizeLeast(tracks[0]);
    AlignBounds(offset);
    ReadFromUnfold(file, offset);
  }

  /** Whatever is written, it is read back whole exactly when every track can be stored. */
  lemma WrittenIsReadIff(tracks: seq<Track>)
    requires forall i :: 0 <= i < |tracks| ==> NoZeros(Strings(tracks[i]))
    ensures ReadFile(FileBytes(tracks)) == Read(NormalizedAll(tracks), true)
            <==> forall i :: 0 <= i < |tracks| ==> Storable(tracks[i])
  {
    hide ReadFile, FileBytes, Storable, NoZeros, Strings;
    if forall i :: 0 <= i < |tracks| ==> Storable(tracks[i]) {
      WrittenIsRead(tracks);
    } else {
      UnstorableIsMissed(tracks, FirstUnstorable(tracks));
    }
  }

  function FirstUnstorable(tracks: seq<Track>): (k: nat)
    requires exists i :: 0 <= i < |tracks| && !Storable(tracks[i])
    ensures k < |tracks| && !Storable(tracks[k]) && forall i :: 0 <= i < k ==> Storable(tracks[i])
    decreases |tracks|
  {
    hide Storable;
    if !Storable(tracks[0]) then 0 else
      var k := FirstUnstorable(tracks[1..]);
      assert forall i :: 0 <= i < k ==> tracks[i + 1] == tracks[1..][i];
      k + 1
  }

  lemma UnstorableIsMissed(tracks: seq<Track>, k: nat)
    requires k < |tracks| && forall i :: 0 <= i < k ==> Storable(tracks[i])
    requires !Storable(tracks[k]) && NoZeros(Strings(tracks[k]))
    ensures ReadFile(FileBytes(tracks)) != Read(NormalizedAll(tracks), true)
  {
    hide ReadFrom, Entries, EndOf, Storable, Normalized, Strings, NoZeros, ReadFile, FileBytes, NormalizedAll;
    var file, end := FileBytes(tracks), EndOf(tracks, |HEADER|, k);
    ReadsPrefix(tracks, k);
    UnstorableNext(file, tracks[k..], end);
    NormalizedAt(tracks, k);
    var rest := ReadFrom(file, end).tracks;
    if rest != [] {
      assert (NormalizedAll(tracks[..k]) + rest)[k] == rest[0];
    }
  }

  lemma NormalizedAt(tracks: seq<Track>, k: nat)
    requires k < |tracks|
    ensures |NormalizedAll(tracks[..k])| == k
    ensures |NormalizedAll(tracks)| == |tracks| && NormalizedAll(tracks)[k] == Normalized(tracks[k])
  {
    hide Normalized;
  }

  /** A file with another version, word size or byte order is not looked at. */
  lemma OtherHeaderReadsNothing(file: Bytes)
    requires !(HEADER <= file)
    ensures ReadFile(file) == Read([], false)
  {
    hide ReadFrom;
  }

  /** Decoding any entry that passes validation uses exactly its string area, whatever wrote it. */
  lemma ValidEntryIsItsStrings(e: Bytes)
    requires ValidEntry(e)
    ensures Terminated(Strings(DecodeEntry(e))) == e[ENTRY_TOTAL_SIZE..]
    ensures NoZeros(Strings(DecodeEntry(e))) && DecodeEntry(e).filename != []
  {
    hide DecodeInt32, DecodeInt64;
    var area := e[ENTRY_TOTAL_SIZE..];
    var strings := Split(area);
    SplitUsesAll(area);
    SplitNoZeros(area);
    PairsUnpaired(strings[3..]);
    assert Strings(DecodeEntry(e)) == strings;
    assert strings[0] == area[..StrLen(area)];
  }

  lemma {:induction false} SplitNoZeros(s: Bytes)
    ensures NoZeros(Split(s))
    decreases |s|
  {
    var n := StrLen(s);
    if n < |s| {
      SplitNoZeros(s[n + 1..]);
    }
  }

  lemma {:induction false} PairsUnpaired(strings: seq<Bytes>)
    requires |strings| % 2 == 0
    ensures Pairs(Unpaired(strings)) == strings
    decreases |strings|
  {
    if strings != [] {
      PairsUnpaired(strings[2..]);
      assert [strings[0], strings[1]] + strings[2..] == strings;
    }
  }

  /** A written entry is read whatever its reserved bytes and the padding before it hold. */
  lemma OneEntryRead(file: Bytes, offset: nat, t: Track)
    requires Storable(t) && offset < |file|
    requires var at := Align(offset);
             && at + EntrySize(t) <= |file|
             && file[at..at + 28] == Fields(t)
             && file[at + 80..at + EntrySize(t)] == Terminated(Strings(t))
    ensures var rest := ReadFrom(file, Align(offset) + EntrySize(t));
            ReadFrom(file, offset) == Read([Normalized(t)] + rest.tracks, rest.complete)
  {
    hide Fields, Entry, EntrySize, ValidEntry, DecodeNat, ReadFrom, Terminated, Strings, DecodeEntry, Align, SizeField;
    var at := Align(offset);
    var e := file[at..at + EntrySize(t)];
    EntrySizeLeast(t);
    StorableSize(t);
    ReadFromUnfold(file, offset);
    ReservedIgnored(e, t);
    EntryFields(t);
    EntryParts(t);
    assert file[at..at + 4] == file[at..at + 28][0..4] == Entry(t)[..28][0..4] == Entry(t)[0..4];
  }

  lemma EntryParts(t: Track)
    ensures |Entry(t)| == EntrySize(t) >= 80 && Entry(t)[..28] == Fields(t) && Entry(t)[80..] == Terminated(Strings(t))
  {
    hide Fields, Terminated, Strings;
  }

  lemma ReservedIgnored(e: Bytes, t: Track)
    requires Storable(t) && |e| == EntrySize(t)
    requires |e| >= 80 && e[..28] == Fields(t) && e[80..] == Terminated(Strings(t))
    ensures ValidEntry(e) && DecodeEntry(e) == Normalized(t)
  {
    hide Fields, Entry, EntrySize, DecodeNat, Terminated, Strings, DecodeInt32, DecodeInt64, Split, Zeros, Unpaired, Normalized;
    EntryParts(t);
    EntryDecodes(t);
    var w := Entry(t);
    assert e[4..8] == e[..28][4..8] == w[4..8];
    assert e[8..16] == e[..28][8..16] == w[8..16];
    assert e[16..20] == e[..28][16..20] == w[16..20];
    assert e[20..24] == e[..28][20..24] == w[20..24];
    assert e[24..28] == e[..28][24..28] == w[24..28];
  }

  // ---------------------------------------------------------------------------------------
  // Writing and reading step by step
  // ---------------------------------------------------------------------------------------

  lemma FirstStrings(t: Track)
    ensures EntrySize(t) == ENTRY_TOTAL_SIZE + (|t.filename| + 1) + (|OrEmpty(t.codec)| + 1)
                            + (|OrEmpty(t.codecProfile)| + 1) + |Terminated(Pairs(t.comments))|
  {
    var s, rest := Strings(t), Pairs(t.comments);
    assert s[1..][1..] == s[2..] && s[2..][1..] == rest;
    assert Terminated(s) == s[0] + [0] + Terminated(s[1..]);
    assert Terminated(s[1..]) == s[1] + [0] + Terminated(s[2..]);
    assert Terminated(s[2..]) == s[2] + [0] + Terminated(rest);
  }

  lemma WrappedSum(a: nat, b: nat, c: nat)
    ensures Wrapped(Wrapped(a + b) + c) == Wrapped(a + (b + c))
  {
    var q := (a + b) / 0x1_0000_0000;
    assert a + b == q * 0x1_0000_0000 + Wrapped(a + b);
  }

  lemma FirstSize(t: Track, size: nat)
    requires size == Wrapped(ENTRY_TOTAL_SIZE + (|t.filename| + 1) + (|OrEmpty(t.codec)| + 1)
                             + (|OrEmpty(t.codecProfile)| + 1))
    ensures Wrapped(size + |Terminated(Pairs(t.comments))|) == SizeField(t)
    ensures [t.filename, OrEmpty(t.codec), OrEmpty(t.codecProfile)] + Pairs(t.comments) == Strings(t)
  {
    assert [t.filename, OrEmpty(t.codec), OrEmpty(t.codecProfile)] + Pairs(t.comments) == Strings(t);
    hide Wrapped, Terminated, Pairs, Strings, EntrySize, OrEmpty;
    FirstStrings(t);
    WrappedSum(0, ENTRY_TOTAL_SIZE + (|t.filename| + 1) + (|OrEmpty(t.codec)| + 1) + (|OrEmpty(t.codecProfile)| + 1),
               |Terminated(Pairs(t.comments))|);
  }

  lemma NoPairs(size: nat)
    requires size < 0x1_0000_0000
    ensures Pairs([]) == [] && Terminated([]) == [] && Wrapped(size) == size
  {
  }

  lemma NextPair(comments: seq<(Bytes, Bytes)>, i: nat)
    requires i < |comments|
    ensures var kv := comments[i];
            && Pairs(comments[i..]) == [kv.0, kv.1] + Pairs(comments[i + 1..])
            && |Terminated(Pairs(comments[i..]))| ==
               (|kv.0| + 1) + (|kv.1| + 1) + |Terminated(Pairs(comments[i + 1..]))|
  {
    var kv, rest := comments[i], Pairs(comments[i + 1..]);
    assert comments[i..][1..] == comments[i + 1..];
    var all := [kv.0, kv.1] + rest;
    assert all[1..] == [kv.1] + rest && all[1..][1..] == rest;
  }

  /** Collects bytes and hands them to the file when they no longer fit. */
  class Writer {
    const capacity: nat
    var file: Bytes
    var buffer: Bytes
    var offset: nat

    ghost function Written(): Bytes
      reads this
    {
      file + buffer
    }

    constructor (capacity: nat)
      ensures Written() == [] && offset == 0
    {
      this.capacity, file, buffer, offset := capacity, [], [], 0;
    }

    method FlushBuffer()
      modifies this`file, this`buffer
      ensures Written() == old(Written()) && buffer == []
    {
      if buffer != [] {
        file := file + buffer;
        buffer := [];
      }
    }

    method WriteTi(t: Track)
      modifies this
      ensures Written() == old(Written()) + Repeated(0, Align(old(offset)) - old(offset)) + Entry(t)
      ensures offset == Align(old(offset)) + SizeField(t)
    {
      hide EntrySize, Fields, Strings, Terminated;
      var strings, size := CollectStrings(t);
      var pad := Align(offset) - offset;
      if capacity - |buffer| < Wrapped(pad + size) {
        FlushBuffer();
      }
      ghost var before := buffer;
      var head := Fields(t) + Repeated(0xff, ENTRY_RESERVED_SIZE);
      buffer := buffer + Repeated(0, pad);
      buffer := buffer + head;
      AddStrings(strings);
      assert Entry(t) == head + Terminated(strings);
      assert buffer == before + Repeated(0, pad) + (head + Terminated(strings));
      offset := offset + pad + size;
    }

    /** The strings of a track and the size its entry will have. */
    static method CollectStrings(t: Track) returns (strings: seq<Bytes>, size: nat)
      ensures strings == Strings(t) && size == SizeField(t)
    {
      hide Strings, EntrySize, SizeField, Terminated, Pairs, Wrapped;
      strings := [t.filename, OrEmpty(t.codec), OrEmpty(t.codecProfile)];
      size := Wrapped(ENTRY_TOTAL_SIZE + (|strings[0]| + 1) + (|strings[1]| + 1) + (|strings[2]| + 1));
      FirstSize(t, size);
      assert t.comments[0..] == t.comments;
      for i := 0 to |t.comments|
        invariant strings + Pairs(t.comments[i..]) == Strings(t)
        invariant Wrapped(size + |Terminated(Pairs(t.comments[i..]))|) == SizeField(t)
        invariant size < 0x1_0000_0000
      {
        var kv := t.comments[i];
        NextPair(t.comments, i);
        ghost var rest := |Terminated(Pairs(t.comments[i + 1..]))|;
        WrappedSum(size, |kv.0| + 1, |kv.1| + 1 + rest);
        size := Wrapped(size + (|kv.0| + 1));
        WrappedSum(size, |kv.1| + 1, rest);
        size := Wrapped(size + (|kv.1| + 1));
        strings := strings + [kv.0, kv.1];
      }
      assert t.comments[|t.comments|..] == [];
      NoPairs(size);
    }

    method AddStrings(strings: seq<Bytes>)
      modifies this`buffer
      ensures buffer == old(buffer) + Terminated(strings)
    {
      assert strings[0..] == strings;
      for i := 0 to |strings|
        invariant buffer + Terminated(strings[i..]) == old(buffer) + Terminated(strings)
      {
        assert strings[i..][1..] == strings[i + 1..];
        buffer := buffer + (strings[i] + [0]);
      }
    }
  }

  method WriteCache(tracks: seq<Track>) returns (file: Bytes)
    ensures file == FileBytes(tracks)
  {
    hide Entry, EntrySize, SizeField, Align, Entries;
    var w := new Writer(64 * 1024 - 1);
    w.buffer := HEADER;
    w.offset := |HEADER|;
    assert tracks[0..] == tracks;
    for i := 0 to |tracks|
      invariant w.Written() + Entries(tracks[i..], w.offset) == FileBytes(tracks)
    {
      var rest := tracks[i..];
      assert rest[0] == tracks[i] && rest[1..] == tracks[i + 1..];
      EntriesUnfold(rest, w.offset);
      ghost var before, at := w.Written(), w.offset;
      w.WriteTi(tracks[i]);
      ThreeParts(before, Repeated(0, Align(at) - at), Entry(tracks[i]), Entries(rest[1..], w.offset));
    }
    assert tracks[|tracks|..] == [];
    NoEntries(w.offset);
    w.FlushBuffer();
    file := w.file;
  }

  lemma ThreeParts(a: Bytes, b: Bytes, c: Bytes, d: Bytes)
    ensures a + (b + c + d) == a + b + c + d
  {
  }

  method ValidCacheEntry(e: Bytes) returns (valid: bool)
    ensures valid <==> ValidEntry(e)
  {
    if |e| < ENTRY_TOTAL_SIZE {
      return false;
    }
    var area := e[ENTRY_TOTAL_SIZE..];
    var count := 0;
    for i := 0 to |area|
      invariant count + Zeros(area[i..]) == Zeros(area)
    {
      assert area[i..][1..] == area[i + 1..];
      if area[i] == 0 {
        count := count + 1;
      }
    }
    if count < 3 || count % 2 == 0 || area[0] == 0 {
      return false;
    }
    valid := area[|area| - 1] == 0;
  }

  method StringAt(area: Bytes, pos: nat) returns (s: Bytes)
    requires pos <= |area|
    ensures s == area[pos..][..StrLen(area[pos..])]
  {
    var end := pos;
    while end < |area| && area[end] != 0
      invariant pos <= end <= |area|
      invariant StrLen(area[pos..]) == end - pos + StrLen(area[end..])
    {
      assert area[end..][1..] == area[end + 1..];
      end := end + 1;
    }
    s := area[pos..end];
    assert area[pos..][..end - pos] == s;
  }

  /** Reads the strings of a valid entry one after another and ends exactly at its end. */
  method CacheEntryToTi(e: Bytes) returns (t: Track, pos: nat)
    requires ValidEntry(e)
    ensures t == DecodeEntry(e)
    ensures pos == |e| - ENTRY_TOTAL_SIZE
  {
    hide DecodeInt32, DecodeInt64, Split, Zeros, Unpaired;
    var area := e[ENTRY_TOTAL_SIZE..];
    SplitUsesAll(area);
    var count := CountZeros(area);
    var strings;
    strings, pos := ReadStrings(area, count);
    var kv := PairUp(strings, (count - 3) / 2);
    t := Track(strings[0], OrNone(strings[1]), OrNone(strings[2]), kv,
               DecodeInt32(e[4..8]), DecodeInt64(e[8..16]), DecodeInt32(e[16..20]), DecodeInt32(e[20..24]),
               DecodeInt32(e[24..28]));
  }

  method ReadStrings(area: Bytes, count: nat) returns (strings: seq<Bytes>, pos: nat)
    requires count == Zeros(area) && (area == [] || area[|area| - 1] == 0)
    ensures strings == Split(area) && pos == |area|
  {
    hide Split, Zeros, StrLen, Terminated;
    strings, pos := [], 0;
    SplitUsesAll(area);
    assert area[0..] == area;
    while |strings| < count
      invariant |strings| <= count && pos <= |area|
      invariant strings + Split(area[pos..]) == Split(area)
      decreases |area| - pos
    {
      var s := StringAt(area, pos);
      NextString(area, pos);
      strings := strings + [s];
      pos := pos + |s| + 1;
    }
    AllStringsRead(area, pos);
  }

  method PairUp(strings: seq<Bytes>, count: nat) returns (kv: seq<(Bytes, Bytes)>)
    requires |strings| == 3 + 2 * count
    ensures kv == Unpaired(strings[3..])
  {
    hide Unpaired;
    kv := [];
    for i := 0 to count
      invariant kv + Unpaired(strings[3 + 2 * i..]) == Unpaired(strings[3..])
    {
      NextUnpaired(strings, 3 + 2 * i);
      kv := kv + [(strings[3 + 2 * i], strings[4 + 2 * i])];
    }
    NoneUnpaired(strings[3 + 2 * count..]);
  }

  lemma NextUnpaired(strings: seq<Bytes>, k: nat)
    requires k + 2 <= |strings|
    ensures Unpaired(strings[k..]) == [(strings[k], strings[k + 1])] + Unpaired(strings[k + 2..])
  {
    assert strings[k..][2..] == strings[k + 2..];
  }

  lemma NoneUnpaired(strings: seq<Bytes>)
    requires |strings| < 2
    ensures Unpaired(strings) == []
  {
  }

  method CountZeros(s: Bytes) returns (count: nat)
    ensures count == Zeros(s)
  {
    count := 0;
    for i := 0 to |s|
      invariant count + Zeros(s[i..]) == Zeros(s)
    {
      assert s[i..][1..] == s[i + 1..];
      if s[i] == 0 {
        count := count + 1;
      }
    }
  }

  lemma NextString(area: Bytes, pos: nat)
    requires pos <= |area| && Split(area[pos..]) != []
    ensures var n := StrLen(area[pos..]);
            pos + n + 1 <= |area| && Split(area[pos..]) == [area[pos..][..n]] + Split(area[pos + n + 1..])
  {
    hide StrLen;
    var rest := area[pos..];
    var n := StrLen(rest);
    if n < |rest| {
      assert rest[n + 1..] == area[pos + n + 1..];
    }
  }

  lemma EndKept(area: Bytes, pos: nat)
    requires pos <= |area| && (area == [] || area[|area| - 1] == 0)
    ensures var rest := area[pos..]; rest == [] || rest[|rest| - 1] == 0
  {
  }

  lemma AllStringsRead(area: Bytes, pos: nat)
    requires pos <= |area| && Split(area[pos..]) == []
    requires area == [] || area[|area| - 1] == 0
    ensures pos == |area|
  {
    hide Split;
    EndKept(area, pos);
    SplitUsesAll(area[pos..]);
  }

  method ReadCache(file: Bytes) returns (r: Read)
    ensures r == ReadFile(file)
  {
    hide DecodeEntry, ReadFrom, EntrySizeAt, ValidEntry;
    if |file| < |HEADER| || file[..|HEADER|] != HEADER {
      return Read([], false);
    }
    var offset: nat := |HEADER|;
    var tracks: seq<Track> := [];
    while offset < |file|
      invariant ReadFrom(file, |HEADER|) ==
                Read(tracks + ReadFrom(file, offset).tracks, ReadFrom(file, offset).complete)
      decreases |file| - offset
    {
      ReadFromUnfold(file, offset);
      var pad := Align(offset) - offset;
      if pad > |file| - offset {
        return Read(tracks, false);
      }
      offset := offset + pad;
      if |file| - offset < ENTRY_TOTAL_SIZE {
        return Read(tracks, false);
      }
      var size := DecodeNat(file[offset..offset + 4]);
      assert size == EntrySizeAt(file, offset) by { EntrySizeIs(file, offset); }
      if size < ENTRY_TOTAL_SIZE || size > ENTRY_MAX_SIZE || size > |file| - offset {
        return Read(tracks, false);
      }
      var entry := file[offset..offset + size];
      var valid := ValidCacheEntry(entry);
      if !valid {
        return Read(tracks, false);
      }
      var t, _ := CacheEntryToTi(entry);
      tracks := tracks + [t];
      offset := offset + size;
    }
    ReadAtEnd(file, offset);
    r := Read(tracks, true);
  }

  lemma EntrySizeIs(file: Bytes, at: nat)
    requires at + ENTRY_TOTAL_SIZE <= |file|
    ensures EntrySizeAt(file, at) == DecodeNat(file[at..at + 4])
  {
  }
}
