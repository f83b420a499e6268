/**
 The virtual disk as a value: a directory of contiguous extents and an image of bytes. The commands are functions
 from a disk to a disk; what they leave in the directory is what -out and -map are answered from.
 */
module VirtualDisk {

  const DISK_SIZE: int := 102400
  const BLOCK_SIZE: int := 1024
  const MAX_FILES: int := 32
  const ENTRY_SIZE: int := 44                            // a name of 32 characters and three integers
  const SB_SIZE: int := 8 + MAX_FILES * ENTRY_SIZE       // sizeof(super_block_t)
  const NAME_MAX: int := 31                              // characters of a name that strncpy keeps

  type Byte = x: int | 0 <= x < 256

  datatype Entry = Entry(name: string, start: int, size: int, used: bool)
  {
    function Blocks(): int { NeededBlocks(size) }
    function End(): int { start + Blocks() }
  }

  datatype Disk = Disk(dir: seq<Entry>, blocks: int, image: seq<Byte>)

  datatype Saved = SavedAt(start: int) | NameExists | NoSource | CatalogueFull | NoSpace

  datatype Option<T> = Some(value: T) | None

  function NeededBlocks(bytes: int): (r: int)
    ensures bytes >= 0 ==> bytes <= r * BLOCK_SIZE < bytes + BLOCK_SIZE
    ensures bytes > 0 ==> r > 0
  {
    (bytes + BLOCK_SIZE - 1) / BLOCK_SIZE
  }

  /** Where block b starts in the image. */
  function Offset(b: int): int { SB_SIZE + b * BLOCK_SIZE }

  function StoredName(name: string): string {
    if |name| <= NAME_MAX then name else name[..NAME_MAX]
  }

  /** create_disk */
  function Create(): (d: Disk) {
    Disk(seq(MAX_FILES, i => Entry("", 0, 0, false)), (DISK_SIZE - SB_SIZE) / BLOCK_SIZE,
         seq(SB_SIZE + (DISK_SIZE - SB_SIZE) / BLOCK_SIZE * BLOCK_SIZE, i => 0))
  }

  // ---------------------------------------------------------------- the invariant

  predicate Used(dir: seq<Entry>, i: int) { 0 <= i < |dir| && dir[i].used }

  /** Every file lies inside the data area and is not empty; no two files share a block. */
  ghost predicate ExtentsOk(dir: seq<Entry>, blocks: int) {
    && (forall i :: Used(dir, i) ==> dir[i].size > 0 && 0 <= dir[i].start && dir[i].End() <= blocks)
    && (forall i, j :: Used(dir, i) && Used(dir, j) && i != j ==>
      dir[i].End() <= dir[j].start || dir[j].End() <= dir[i].start)
  }

  ghost predicate NamesUnique(dir: seq<Entry>) {
    forall i, j :: Used(dir, i) && Used(dir, j) && dir[i].name == dir[j].name ==> i == j
  }

  ghost predicate NamesFit(dir: seq<Entry>) {
    forall i :: Used(dir, i) ==> |dir[i].name| <= NAME_MAX
  }

  ghost predicate DiskInv(d: Disk) {
    && |d.dir| == MAX_FILES && d.blocks == (DISK_SIZE - SB_SIZE) / BLOCK_SIZE && |d.image| == Offset(d.blocks)
    && ExtentsOk(d.dir, d.blocks) && NamesFit(d.dir)
  }

  // ---------------------------------------------------------------- searches

  /** First used entry from i on with this name, or -1. */
  function Find(dir: seq<Entry>, name: string, i: nat): (r: int)
    requires i <= |dir|
    ensures r == -1 || (i <= r < |dir| && Used(dir, r) && dir[r].name == name)
    ensures forall j :: i <= j < (if r < 0 then |dir| else r) ==> !(Used(dir, j) && dir[j].name == name)
    decreases |dir| - i
  {
    if i == |dir| then -1
    else if dir[i].used && dir[i].name == name then i
    else Find(dir, name, i + 1)
  }

  function FreeEntry(dir: seq<Entry>, i: nat): (r: int)
    requires i <= |dir|
    ensures r == -1 || (i <= r < |dir| && !Used(dir, r))
    ensures forall j :: i <= j < (if r < 0 then |dir| else r) ==> Used(dir, j)
    decreases |dir| - i
  {
    if i == |dir| then -1 else if !dir[i].used then i else FreeEntry(dir, i + 1)
  }

  /** Block b belongs to a file. */
  ghost predicate Occupied(dir: seq<Entry>, b: int) {
    exists i :: Used(dir, i) && dir[i].start <= b < dir[i].End()
  }

  /** The bitmap copy_to_virtual builds from the directory. */
  ghost function Bitmap(dir: seq<Entry>, blocks: nat): (r: seq<bool>)
    ensures |r| == blocks && forall b :: 0 <= b < blocks ==> (r[b] <==> Occupied(dir, b))
  {
    seq(blocks, b => Occupied(dir, b))
  }

  /** The streak scan: start of the first run of `need` free blocks, with `streak` free blocks just before i. */
  function Scan(bits: seq<bool>, need: int, i: nat, streak: nat): (r: int)
    requires i <= |bits|
    decreases |bits| - i
  {
    if i == |bits| then -1
    else if bits[i] then Scan(bits, need, i + 1, 0)
    else if streak + 1 == need then i - need + 1
    else Scan(bits, need, i + 1, streak + 1)
  }

  /** The blocks from b on are free for `need` blocks. */
  predicate RunAt(bits: seq<bool>, b: int, need: int) {
    0 <= b && b + need <= |bits| && forall k :: b <= k < b + need ==> !bits[k]
  }

  lemma {:induction false} ScanLowest(bits: seq<bool>, need: int, i: nat, streak: nat)
    requires i <= |bits| && streak <= i && streak < need
    requires forall k :: i - streak <= k < i ==> !bits[k]
    requires streak == i || bits[i - streak - 1]
    requires forall b :: RunAt(bits, b, need) ==> b >= i - streak
    ensures var r := Scan(bits, need, i, streak);
      if r < 0 then r == -1 && forall b :: !RunAt(bits, b, need)
      else RunAt(bits, r, need) && forall b :: RunAt(bits, b, need) ==> r <= b
    decreases |bits| - i
  {
    if i < |bits| {
      if bits[i] {
        forall b | RunAt(bits, b, need) ensures b >= i + 1 {
          assert b <= i ==> b <= i < b + need;
        }
        ScanLowest(bits, need, i + 1, 0);
      } else if streak + 1 < need {
        ScanLowest(bits, need, i + 1, streak + 1);
      }
    }
  }

  /** The scan finds the lowest run that is long enough; a request for no block is never met. */
  lemma ScanFinds(bits: seq<bool>, need: nat)
    ensures var r := Scan(bits, need, 0, 0);
      if r < 0 then r == -1 && (need == 0 || forall b :: !RunAt(bits, b, need))
      else need > 0 && RunAt(bits, r, need) && forall b :: RunAt(bits, b, need) ==> r <= b
  {
    if need == 0 { ScanNothing(bits, 0, 0); } else { ScanLowest(bits, need, 0, 0); }
  }

  lemma {:induction false} ScanNothing(bits: seq<bool>, i: nat, streak: nat)
    requires i <= |bits|
    ensures Scan(bits, 0, i, streak) == -1
    decreases |bits| - i
  {
    if i < |bits| { ScanNothing(bits, i + 1, if bits[i] then 0 else streak + 1); }
  }

  // ---------------------------------------------------------------- the commands

  /** The file padded with zeros to whole blocks. */
  function Padded(bytes: seq<Byte>): (r: seq<Byte>)
    ensures |r| == NeededBlocks(|bytes|) * BLOCK_SIZE
  {
    bytes + seq(NeededBlocks(|bytes|) * BLOCK_SIZE - |bytes|, i => 0)
  }

  /** Overwrite part of the image. */
  function Write(image: seq<Byte>, at: int, bytes: seq<Byte>): (r: seq<Byte>)
    requires 0 <= at && at + |bytes| <= |image|
    ensures |r| == |image|
    ensures forall k :: 0 <= k < |image| ==> r[k] == if at <= k < at + |bytes| then bytes[k - at] else image[k]
  {
    image[..at] + bytes + image[at + |bytes|..]
  }

  /** Where a new file of this size goes, or why it does not. */
  ghost function Admit(d: Disk, name: string, source: Option<seq<Byte>>): (r: Saved)
    requires DiskInv(d)
  {
    if Find(d.dir, name, 0) >= 0 then NameExists
    else if source.None? then NoSource
    else if FreeEntry(d.dir, 0) < 0 then CatalogueFull
    else
      var s := Scan(Bitmap(d.dir, d.blocks), NeededBlocks(|source.value|), 0, 0);
      if s == -1 then NoSpace else SavedAt(s)
  }

  lemma AdmitFits(d: Disk, name: string, source: Option<seq<Byte>>)
    requires DiskInv(d) && Admit(d, name, source).SavedAt?
    ensures source.Some? && |source.value| > 0 && 0 <= FreeEntry(d.dir, 0) < |d.dir| && Find(d.dir, name, 0) == -1
    ensures var s, n := Admit(d, name, source).start, NeededBlocks(|source.value|);
      RunAt(Bitmap(d.dir, d.blocks), s, n) && 0 <= s && s + n <= d.blocks
  {
    ScanFinds(Bitmap(d.dir, d.blocks), NeededBlocks(|source.value|));
  }

  /** copy_to_virtual; source is the host file, if it can be opened. */
  ghost function CopyIn(d: Disk, name: string, source: Option<seq<Byte>>): (r: (Saved, Disk))
    requires DiskInv(d)
  {
    var a := Admit(d, name, source);
    if !a.SavedAt? then (a, d)
    else
      AdmitFits(d, name, source);
      var i := FreeEntry(d.dir, 0);
      (a, d.(dir := d.dir[i := Entry(StoredName(name), a.start, |source.value|, true)],
             image := Write(d.image, Offset(a.start), Padded(source.value))))
  }

  /** copy_from_virtual: the bytes that reach the host file. */
  function CopyOut(d: Disk, name: string): (r: Option<seq<Byte>>)
    requires DiskInv(d)
  {
    var i := Find(d.dir, name, 0);
    if i < 0 then None
    else
      assert Used(d.dir, i);
      Some(d.image[Offset(d.dir[i].start)..Offset(d.dir[i].start) + d.dir[i].size])
  }

  /** delete_file */
  function Delete(d: Disk, name: string): (r: Disk) {
    var i := Find(d.dir, name, 0);
    if i < 0 then d else d.(dir := d.dir[i := d.dir[i].(used := false)])
  }
}
