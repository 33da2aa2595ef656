/** The board's non-volatile parameters: a 17-byte board ID followed by a
    CRC-16 of those bytes, kept at the start of the EEPROM. The record is
    stored little-endian, as the AVR lays out nvparams_t (19 bytes, no
    padding). The CRC is avr-libc's _crc16_update (polynomial 0xA001,
    reflected), folded from 0xFFFF. */
module NvParams {
  import opened Wrappers

  const BoardIdLenMax: nat := 16
  /** sizeof(nvparams_t.boardId) == BOARDID_LEN_MAX + 1. */
  const BoardIdBytes: nat := 17
  /** sizeof(nvparams_t). */
  const RecordBytes: nat := 19

  /** One step of the bitwise CRC: shift right, folding the polynomial in
      when a 1 drops out. */
  function CrcShift(crc: bv16): bv16 {
    if crc & 1 == 1 then (crc >> 1) ^ 0xA001 else crc >> 1
  }

  /** n shift steps. */
  function CrcShifts(crc: bv16, n: nat): bv16
    decreases n
  {
    if n == 0 then crc else CrcShifts(CrcShift(crc), n - 1)
  }

  /** Shift steps per byte. */
  const BitsPerByte: nat := 8

  /** _crc16_update(crc, a): xor the byte in, then eight shift steps. */
  function Crc16Update(crc: bv16, a: bv8): bv16 {
    CrcShifts(crc ^ (a as bv16), BitsPerByte)
  }

  /** The CRC of `bytes` continued from `crc`: the left fold of
      Crc16Update. */
  function CrcFrom(crc: bv16, bytes: seq<bv8>): bv16
    decreases |bytes|
  {
    if bytes == [] then crc else Crc16Update(CrcFrom(crc, bytes[..|bytes| - 1]), bytes[|bytes| - 1])
  }

  /** calculateCrc over `bytes`: the fold started at 0xFFFF. */
  function CrcOf(bytes: seq<bv8>): bv16 {
    CrcFrom(0xFFFF, bytes)
  }

  /** calculateCrc(start, nBytes): the accumulator loop. */
  method CalculateCrc(data: seq<bv8>, nBytes: nat) returns (crc: bv16)
    requires nBytes <= |data|
    ensures crc == CrcOf(data[..nBytes])
  {
    crc := 0xFFFF;
    var i := 0;
    while i < nBytes
      invariant i <= nBytes
      invariant crc == CrcOf(data[..i])
    {
      assert data[..i + 1][..i] == data[..i];
      crc := Crc16Update(crc, data[i]);
      i := i + 1;
    }
  }

  /** The fold of a concatenation is the fold of the second part continued
      from the fold of the first. */
  lemma {:induction false} CrcFromAppend(crc: bv16, a: seq<bv8>, b: seq<bv8>)
    ensures CrcFrom(crc, a + b) == CrcFrom(CrcFrom(crc, a), b)
    decreases |b|
  {
    if b == [] {
      assert a + b == a;
    } else {
      var last := |b| - 1;
      assert (a + b)[..|a + b| - 1] == a + b[..last];
      CrcFromAppend(crc, a, b[..last]);
    }
  }

  /** Each shift step loses no information: bit 15 of the result is the bit
      that dropped out. */
  lemma CrcShiftInjective(x: bv16, y: bv16)
    ensures CrcShift(x) == CrcShift(y) ==> x == y
  {
  }

  /** Any number of shift steps loses no information. */
  lemma {:induction false} CrcShiftsInjective(x: bv16, y: bv16, n: nat)
    ensures CrcShifts(x, n) == CrcShifts(y, n) ==> x == y
    decreases n
  {
    if n > 0 {
      CrcShiftsInjective(CrcShift(x), CrcShift(y), n - 1);
      CrcShiftInjective(x, y);
    }
  }

  /** Crc16Update is one-to-one in the running CRC and in the byte. */
  lemma Crc16UpdateInjective(c1: bv16, a1: bv8, c2: bv16, a2: bv8)
    requires c1 == c2 || a1 == a2
    ensures Crc16Update(c1, a1) == Crc16Update(c2, a2) ==> c1 == c2 && a1 == a2
  {
    var x := c1 ^ (a1 as bv16);
    var y := c2 ^ (a2 as bv16);
    if Crc16Update(c1, a1) == Crc16Update(c2, a2) {
      assert CrcShifts(x, BitsPerByte) == CrcShifts(y, BitsPerByte);
      CrcShiftsInjective(x, y, BitsPerByte);
      XorByteInjective(c1, a1, c2, a2);
    }
  }

  lemma XorByteInjective(c1: bv16, a1: bv8, c2: bv16, a2: bv8)
    requires c1 == c2 || a1 == a2
    ensures c1 ^ (a1 as bv16) == c2 ^ (a2 as bv16) ==> c1 == c2 && a1 == a2
  {
  }

  /** Folding the same bytes from two different CRCs gives two different
      CRCs. */
  lemma {:induction false} CrcFromInjective(c1: bv16, c2: bv16, bytes: seq<bv8>)
    ensures CrcFrom(c1, bytes) == CrcFrom(c2, bytes) ==> c1 == c2
    decreases |bytes|
  {
    if bytes != [] {
      var last := |bytes| - 1;
      CrcFromInjective(c1, c2, bytes[..last]);
      Crc16UpdateInjective(CrcFrom(c1, bytes[..last]), bytes[last], CrcFrom(c2, bytes[..last]), bytes[last]);
    }
  }

  /** The CRC catches every corruption confined to a single byte: two byte
      strings of the same length that differ in exactly one position have
      different CRCs. */
  lemma SingleByteErrorDetected(s: seq<bv8>, t: seq<bv8>, k: nat)
    requires |s| == |t| && k < |s| && s[k] != t[k]
    requires s[..k] == t[..k] && s[k + 1..] == t[k + 1..]
    ensures CrcOf(s) != CrcOf(t)
  {
    var p := s[..k];
    var q := s[k + 1..];
    assert s == (p + [s[k]]) + q;
    assert t == (p + [t[k]]) + q;
    CrcFromAppend(0xFFFF, p + [s[k]], q);
    CrcFromAppend(0xFFFF, p + [t[k]], q);
    assert (p + [s[k]])[..|p|] == p;
    assert (p + [t[k]])[..|p|] == p;
    CrcFromInjective(CrcFrom(0xFFFF, p + [s[k]]), CrcFrom(0xFFFF, p + [t[k]]), q);
    Crc16UpdateInjective(CrcFrom(0xFFFF, p), s[k], CrcFrom(0xFFFF, p), t[k]);
  }

  /** nvparams_t as a value: 17 ID bytes and the stored CRC. */
  datatype Record = Record(boardId: seq<bv8>, crc: bv16)

  /** The bytes of a record as the AVR stores it: the ID, then the CRC low
      byte first. */
  function Image(r: Record): (img: seq<bv8>)
    requires |r.boardId| == BoardIdBytes
    ensures |img| == RecordBytes && img[..BoardIdBytes] == r.boardId
  {
    r.boardId + [LowByte(r.crc), HighByte(r.crc)]
  }

  /** The record 19 stored bytes describe. */
  function FromImage(img: seq<bv8>): (r: Record)
    requires |img| == RecordBytes
    ensures |r.boardId| == BoardIdBytes
  {
    Record(img[..BoardIdBytes], Word(img[BoardIdBytes], img[BoardIdBytes + 1]))
  }

  /** Storing and reading back a record are inverse. */
  lemma ImageRoundTrip(r: Record, img: seq<bv8>)
    requires |r.boardId| == BoardIdBytes && |img| == RecordBytes
    ensures FromImage(Image(r)) == r
    ensures Image(FromImage(img)) == img
  {
    RecordThroughImage(r);
    ImageThroughRecord(img);
  }

  lemma RecordThroughImage(r: Record)
    requires |r.boardId| == BoardIdBytes
    ensures FromImage(Image(r)) == r
  {
    WordBytes(r.crc);
    assert Image(r)[..BoardIdBytes] == r.boardId;
  }

  lemma ImageThroughRecord(img: seq<bv8>)
    requires |img| == RecordBytes
    ensures Image(FromImage(img)) == img
  {
    var lo, hi := img[BoardIdBytes], img[BoardIdBytes + 1];
    BytesWord(lo, hi);
    assert img == img[..BoardIdBytes] + [lo, hi];
  }

  /** The bytes of a little-endian uint16_t, and the word two bytes make. */
  function LowByte(w: bv16): bv8 { (w & 0xFF) as bv8 }
  function HighByte(w: bv16): bv8 { (w >> 8) as bv8 }
  function Word(lo: bv8, hi: bv8): bv16 { (lo as bv16) | ((hi as bv16) << 8) }

  /** Splitting a word into its bytes and joining them again gives the word
      back. */
  lemma WordBytes(w: bv16)
    ensures Word(LowByte(w), HighByte(w)) == w
  {
  }

  /** Joining two bytes and splitting the word again gives them back. */
  lemma BytesWord(lo: bv8, hi: bv8)
    ensures LowByte(Word(lo, hi)) == lo && HighByte(Word(lo, hi)) == hi
  {
  }

  /** nvparams__load on the stored bytes: the record when its CRC matches
      the CRC of its ID bytes, else None. */
  function LoadImage(img: seq<bv8>): (r: Option<Record>)
    requires |img| == RecordBytes
    ensures r.Some? <==> CrcOf(img[..BoardIdBytes]) == FromImage(img).crc
    ensures r.Some? ==> |r.value.boardId| == BoardIdBytes && Image(r.value) == img
  {
    ImageRoundTrip(FromImage(img), img);
    var rec := FromImage(img);
    if CrcOf(img[..BoardIdBytes]) != rec.crc then None else Some(rec)
  }

  /** nvparams__save's record: the CRC field recomputed from the ID bytes,
      the ID unchanged. */
  function Sealed(r: Record): Record
    requires |r.boardId| == BoardIdBytes
  {
    r.(crc := CrcOf(r.boardId))
  }

  /** Round trip: the image nvparams__save writes is accepted by
      nvparams__load, which returns the saved record. */
  lemma SaveLoadRoundTrip(r: Record)
    requires |r.boardId| == BoardIdBytes
    ensures LoadImage(Image(Sealed(r))) == Some(Sealed(r))
  {
    ImageRoundTrip(Sealed(r), Image(Sealed(r)));
  }

  /** A stored record with one corrupted ID byte is refused. */
  lemma CorruptIdRefused(r: Record, k: nat, b: bv8)
    requires |r.boardId| == BoardIdBytes && k < BoardIdBytes && b != r.boardId[k]
    ensures LoadImage(Image(Sealed(r))[k := b]).None?
  {
    var img := Image(Sealed(r))[k := b];
    var id := img[..BoardIdBytes];
    assert id == r.boardId[k := b];
    assert id[..k] == r.boardId[..k] && id[k + 1..] == r.boardId[k + 1..];
    SingleByteErrorDetected(id, r.boardId, k);
    assert FromImage(img).crc == Sealed(r).crc by {
      ImageRoundTrip(Sealed(r), img);
      assert img[BoardIdBytes] == Image(Sealed(r))[BoardIdBytes];
      assert img[BoardIdBytes + 1] == Image(Sealed(r))[BoardIdBytes + 1];
    }
  }

  /** strncpy(dest, src, n) on the first n bytes: the bytes of src before
      its NUL, then NUL padding up to n. */
  function StrNCpy(dest: seq<bv8>, src: seq<bv8>, n: nat): (r: seq<bv8>)
    requires n <= |dest|
    requires forall i :: 0 <= i < |src| ==> src[i] != 0
    ensures |r| == |dest| && r[n..] == dest[n..]
    ensures forall i :: 0 <= i < n ==> r[i] == if i < |src| then src[i] else 0
  {
    var m := if |src| < n then |src| else n;
    src[..m] + seq(n - m, _ => 0 as bv8) + dest[n..]
  }

  /** nvparams__loadDefaults on a record: at most 16 bytes of the default
      ID, NUL-padded, then byte 15 forced to NUL. */
  function DefaultsInto(r: Record, defaultId: seq<bv8>): (d: Record)
    requires |r.boardId| == BoardIdBytes
    requires forall i :: 0 <= i < |defaultId| ==> defaultId[i] != 0
    ensures |d.boardId| == BoardIdBytes
  {
    r.(boardId := StrNCpy(r.boardId, defaultId, BoardIdLenMax)[BoardIdLenMax - 1 := 0])
  }

  /** After loadDefaults the ID holds the first min(|default|, 15) bytes of
      the default ID and then NUL, so it reads as a string of at most 15
      characters; byte 16 and the CRC are untouched. */
  lemma DefaultsIdShape(r: Record, defaultId: seq<bv8>)
    requires |r.boardId| == BoardIdBytes
    requires forall i :: 0 <= i < |defaultId| ==> defaultId[i] != 0
    ensures var d := DefaultsInto(r, defaultId);
            var n := if |defaultId| < BoardIdLenMax - 1 then |defaultId| else BoardIdLenMax - 1;
            d.boardId[..n] == defaultId[..n] &&
            (forall i :: n <= i < BoardIdLenMax ==> d.boardId[i] == 0) &&
            d.boardId[BoardIdLenMax] == r.boardId[BoardIdLenMax] && d.crc == r.crc
  {
  }

  /** The caller's nvparams_t, written through its pointer. */
  class NvRecord {
    var boardId: seq<bv8>
    var crc: bv16

    function Value(): Record
      reads this
    {
      Record(boardId, crc)
    }

    constructor (initial: Record)
      ensures Value() == initial
    {
      boardId := initial.boardId;
      crc := initial.crc;
    }
  }

  /** nvparams__loadDefaults(dest). */
  method LoadDefaults(dest: NvRecord, defaultId: seq<bv8>)
    requires |dest.boardId| == BoardIdBytes
    requires forall i :: 0 <= i < |defaultId| ==> defaultId[i] != 0
    modifies dest
    ensures dest.Value() == DefaultsInto(old(dest.Value()), defaultId)
  {
    dest.boardId := StrNCpy(dest.boardId, defaultId, BoardIdLenMax);
    dest.boardId := dest.boardId[BoardIdLenMax - 1 := 0];
  }

  /** nvparams__load(dest): -1 with dest untouched when the stored CRC does
      not match, else 0 with the stored record copied into dest. */
  method Load(eeprom: array<bv8>, dest: NvRecord) returns (r: int)
    requires RecordBytes <= eeprom.Length
    modifies dest
    ensures r == -1 || r == 0
    ensures r == -1 <==> LoadImage(eeprom[..RecordBytes]).None?
    ensures r == -1 ==> dest.Value() == old(dest.Value())
    ensures r == 0 ==> dest.Value() == LoadImage(eeprom[..RecordBytes]).value
  {
    var buf := FromImage(eeprom[..RecordBytes]);
    var crc := CalculateCrc(eeprom[..RecordBytes], RecordBytes - 2);
    assert eeprom[..RecordBytes][..RecordBytes - 2] == eeprom[..RecordBytes][..BoardIdBytes];
    if crc != buf.crc {
      return -1;
    }
    dest.boardId := buf.boardId;
    dest.crc := buf.crc;
    return 0;
  }

  /** nvparams__init(dest): the stored record when it validates, else the
      defaults written over dest. */
  method Init(eeprom: array<bv8>, dest: NvRecord, defaultId: seq<bv8>)
    requires RecordBytes <= eeprom.Length && |dest.boardId| == BoardIdBytes
    requires forall i :: 0 <= i < |defaultId| ==> defaultId[i] != 0
    modifies dest
    ensures LoadImage(eeprom[..RecordBytes]).Some? ==> dest.Value() == LoadImage(eeprom[..RecordBytes]).value
    ensures LoadImage(eeprom[..RecordBytes]).None? ==> dest.Value() == DefaultsInto(old(dest.Value()), defaultId)
  {
    var r := Load(eeprom, dest);
    if r < 0 {
      LoadDefaults(dest, defaultId);
    }
  }

  /** nvparams__save(src): src's CRC field recomputed, then the whole
      record written to the start of the EEPROM; later bytes untouched. */
  method Save(eeprom: array<bv8>, src: NvRecord)
    requires RecordBytes <= eeprom.Length && |src.boardId| == BoardIdBytes
    modifies eeprom, src
    ensures src.Value() == Sealed(old(src.Value()))
    ensures eeprom[..RecordBytes] == Image(src.Value())
    ensures eeprom[RecordBytes..] == old(eeprom[RecordBytes..])
  {
    var c := CalculateCrc(Image(src.Value()), RecordBytes - 2);
    assert Image(src.Value())[..RecordBytes - 2] == src.boardId;
    src.crc := c;
    var img := Image(src.Value());
    forall i | 0 <= i < RecordBytes {
      eeprom[i] := img[i];
    }
  }

  /** The ASCII text "123456789". */
  const CheckString: seq<bv8> := [0x31, 0x32, 0x33, 0x34, 0x35, 0x36, 0x37, 0x38, 0x39]

  /** The CRC is CRC-16/MODBUS: the standard check string "123456789"
      gives 0x4B37. */
  lemma CrcCheckValue()
    ensures CrcOf(CheckString) == 0x4B37
  {
    CheckChain(CheckString);
  }

  /** The check computation byte by byte, over any sequence that holds the
      check string's bytes, three bytes at a time. */
  lemma CheckChain(s: seq<bv8>)
    requires |s| == 9 && s[0] == 0x31 && s[1] == 0x32 && s[2] == 0x33 && s[3] == 0x34
    requires s[4] == 0x35 && s[5] == 0x36 && s[6] == 0x37 && s[7] == 0x38 && s[8] == 0x39
    ensures CrcOf(s) == 0x4B37
  {
    CheckChain1(s);
    CheckChain2(s);
    CheckChain3(s);
    assert s[..9] == s;
  }

  lemma CheckChain1(s: seq<bv8>)
    requires |s| >= 3 && s[0] == 0x31 && s[1] == 0x32 && s[2] == 0x33
    ensures CrcOf(s[..3]) == 0x7A75
  {
    assert s[..0] == [];
    CheckSteps1();
    CrcOfPrefix(s, 1, 0xFFFF, 0x947E);
    CrcOfPrefix(s, 2, 0x947E, 0xF595);
    CrcOfPrefix(s, 3, 0xF595, 0x7A75);
  }

  lemma CheckChain2(s: seq<bv8>)
    requires |s| >= 6 && CrcOf(s[..3]) == 0x7A75 && s[3] == 0x34 && s[4] == 0x35 && s[5] == 0x36
    ensures CrcOf(s[..6]) == 0x32E4
  {
    CheckSteps2();
    CrcOfPrefix(s, 4, 0x7A75, 0x30BA);
    CrcOfPrefix(s, 5, 0x30BA, 0xA471);
    CrcOfPrefix(s, 6, 0xA471, 0x32E4);
  }

  lemma CheckChain3(s: seq<bv8>)
    requires |s| >= 9 && CrcOf(s[..6]) == 0x32E4 && s[6] == 0x37 && s[7] == 0x38 && s[8] == 0x39
    ensures CrcOf(s[..9]) == 0x4B37
  {
    CheckSteps3();
    CrcOfPrefix(s, 7, 0x32E4, 0x9D73);
    CrcOfPrefix(s, 8, 0x9D73, 0x37DD);
    CrcOfPrefix(s, 9, 0x37DD, 0x4B37);
  }

  /** One step of the check computation: the CRC of the first i bytes from
      the CRC of the first i - 1. */
  lemma CrcOfPrefix(s: seq<bv8>, i: nat, before: bv16, after: bv16)
    requires 0 < i <= |s| && CrcOf(s[..i - 1]) == before && Crc16Update(before, s[i - 1]) == after
    ensures CrcOf(s[..i]) == after
  {
    assert s[..i][..i - 1] == s[..i - 1];
  }

  lemma CheckSteps1()
    ensures Crc16Update(0xFFFF, 0x31) == 0x947E
    ensures Crc16Update(0x947E, 0x32) == 0xF595
    ensures Crc16Update(0xF595, 0x33) == 0x7A75
  {
  }

  lemma CheckSteps2()
    ensures Crc16Update(0x7A75, 0x34) == 0x30BA
    ensures Crc16Update(0x30BA, 0x35) == 0xA471
    ensures Crc16Update(0xA471, 0x36) == 0x32E4
  {
  }

  lemma CheckSteps3()
    ensures Crc16Update(0x32E4, 0x37) == 0x9D73
    ensures Crc16Update(0x9D73, 0x38) == 0x37DD
    ensures Crc16Update(0x37DD, 0x39) == 0x4B37
  {
  }
}
