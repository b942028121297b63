/** Graph ids: a 16-bit label above a 48-bit entry id, held in a signed 64-bit integer, and the
    six-byte form in which compact postings store an entry id. */
module GraphIds {
  const TWO_48 := 0x1_0000_0000_0000
  const TWO_63 := 0x8000_0000_0000_0000
  const TWO_64 := 0x1_0000_0000_0000_0000

  /** `INVALID_LABEL_ID` */
  const NO_LABEL: Label := 0
  const LABEL_ID_MAX := 65535

  type GraphId = x: int | -TWO_63 <= x < TWO_63
  type Label = x: int | 0 <= x < 0x1_0000
  type EntryId = x: int | 0 <= x < TWO_48
  type Byte = x: int | 0 <= x < 0x100

  predicate ValidLabel(labelId: int) {
    1 <= labelId <= LABEL_ID_MAX
  }

  /** The cast to `uint64`. */
  function Unsigned(id: GraphId): (u: int)
    ensures 0 <= u < TWO_64
  {
    if id < 0 then id + TWO_64 else id
  }

  function LabelOf(id: GraphId): Label {
    Unsigned(id) / TWO_48
  }

  function EntryOf(id: GraphId): EntryId {
    Unsigned(id) % TWO_48
  }

  /** `make_graphid`; labels from 0x8000 up give negative ids. */
  function Make(labelId: Label, entry: EntryId): GraphId {
    var u := labelId * TWO_48 + entry;
    if u >= TWO_63 then u - TWO_64 else u
  }

  /** The parts of an id: its high and low bits, read as the cast to `uint64` has them. */
  lemma MakeOfParts(id: GraphId)
    ensures Make(LabelOf(id), EntryOf(id)) == id
    ensures LabelOf(id) * TWO_48 + EntryOf(id) == if id < 0 then id + TWO_64 else id
  {
  }

  lemma PartsOfMake(labelId: Label, entry: EntryId)
    ensures LabelOf(Make(labelId, entry)) == labelId && EntryOf(Make(labelId, entry)) == entry
    ensures Make(labelId, entry) == labelId * TWO_48 + entry - if labelId < 0x8000 then 0 else TWO_64
  {
    assert Unsigned(Make(labelId, entry)) == labelId * TWO_48 + entry;
  }

  /** Under one label, ids lie between that label's first and last id. */
  lemma LabelRange(id: GraphId)
    ensures Make(LabelOf(id), 0) <= id <= Make(LabelOf(id), TWO_48 - 1)
  {
    MakeOfParts(id);
  }

  datatype SixBytes = SixBytes(b0: Byte, b1: Byte, b2: Byte, b3: Byte, b4: Byte, b5: Byte)

  /** `value >> 8`, six times over, keeping the low byte each time. */
  function StoreEntryId48(entry: EntryId): SixBytes {
    var q1 := entry / 0x100;
    var q2 := q1 / 0x100;
    var q3 := q2 / 0x100;
    var q4 := q3 / 0x100;
    var q5 := q4 / 0x100;
    SixBytes(entry % 0x100, q1 % 0x100, q2 % 0x100, q3 % 0x100, q4 % 0x100, q5 % 0x100)
  }

  function LoadEntryId48(s: SixBytes): EntryId {
    s.b0 + 0x100 * (s.b1 + 0x100 * (s.b2 + 0x100 * (s.b3 + 0x100 * (s.b4 + 0x100 * s.b5))))
  }

  lemma LoadOfStore(entry: EntryId)
    ensures LoadEntryId48(StoreEntryId48(entry)) == entry
    ensures StoreEntryId48(entry).b0 == entry % 0x100
  {
  }

  /** Adding a byte below a number, then dividing, gives both back. */
  lemma ByteBelow(b: Byte, t: nat)
    ensures (b + 0x100 * t) / 0x100 == t && (b + 0x100 * t) % 0x100 == b
  {
  }

  lemma StoreOfLoad(s: SixBytes)
    ensures StoreEntryId48(LoadEntryId48(s)) == s
  {
    var t4 := s.b4 + 0x100 * s.b5;
    var t3 := s.b3 + 0x100 * t4;
    var t2 := s.b2 + 0x100 * t3;
    var t1 := s.b1 + 0x100 * t2;
    ByteBelow(s.b0, t1);
    ByteBelow(s.b1, t2);
    ByteBelow(s.b2, t3);
    ByteBelow(s.b3, t4);
    ByteBelow(s.b4, s.b5);
  }
}
