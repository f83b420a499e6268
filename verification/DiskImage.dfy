/**
 The virtual disk in its own form: a directory table and an image of bytes, both written in place by the commands.
 */
module DiskImage {
  import opened VirtualDisk
  import opened DiskLaws
  import opened DiskMap

  /** Block b belongs to one of the first n directory entries. */
  ghost predicate OccupiedBefore(dir: seq<Entry>, n: int, b: int) {
    exists i :: i < n && Used(dir, i) && dir[i].start <= b < dir[i].End()
  }

  lemma OneMoreEntry(dir: seq<Entry>, n: int, b: int)
    requires 0 <= n < |dir|
    ensures OccupiedBefore(dir, n + 1, b) <==>
      OccupiedBefore(dir, n, b) || (Used(dir, n) && dir[n].start <= b < dir[n].End())
  {
    if Used(dir, n) && dir[n].start <= b < dir[n].End() { assert n < n + 1; }
    if OccupiedBefore(dir, n, b) {
      var i :| i < n && Used(dir, i) && dir[i].start <= b < dir[i].End();
      assert i < n + 1;
    }
  }

  class DiskFile {
    const dir: array<Entry>
    const image: array<Byte>
    var blockCount: int

    ghost function St(): Disk
      reads this, dir, image
    {
      Disk(dir[..], blockCount, image[..])
    }

    /** create_disk */
    constructor ()
      ensures fresh(dir) && fresh(image) && DiskInv(St()) && St() == Create()
    {
      dir := new Entry[MAX_FILES](_ => Entry("", 0, 0, false));
      image := new Byte[Offset((DISK_SIZE - SB_SIZE) / BLOCK_SIZE)](_ => 0);
      blockCount := (DISK_SIZE - SB_SIZE) / BLOCK_SIZE;
      new;
      CreateInv();
      assert dir[..] == Create().dir && image[..] == Create().image;
    }

    method FindFile(name: string) returns (idx: int)
      ensures idx == Find(dir[..], name, 0)
    {
      var i := 0;
      while i < dir.Length
        invariant 0 <= i <= dir.Length && Find(dir[..], name, 0) == Find(dir[..], name, i)
      {
        if dir[i].used && dir[i].name == name { return i; }
        i := i + 1;
      }
      return -1;
    }

    method FindFree() returns (idx: int)
      ensures idx == FreeEntry(dir[..], 0)
    {
      var i := 0;
      while i < dir.Length
        invariant 0 <= i <= dir.Length && FreeEntry(dir[..], 0) == FreeEntry(dir[..], i)
      {
        if !dir[i].used { return i; }
        i := i + 1;
      }
      return -1;
    }

    /** Mark the blocks of one file. */
    method Mark(bits: array<bool>, start: int, len: int)
      requires 0 <= start && 0 <= len && start + len <= bits.Length
      modifies bits
      ensures forall b :: 0 <= b < bits.Length ==> (bits[b] <==> old(bits[b]) || start <= b < start + len)
    {
      var k := 0;
      while k < len
        invariant 0 <= k <= len
        invariant forall b :: 0 <= b < bits.Length ==> (bits[b] <==> old(bits[b]) || start <= b < start + k)
      {
        bits[start + k] := true;
        k := k + 1;
      }
    }

    /** The bitmap of copy_to_virtual; every write is inside it because the extents lie inside the disk. */
    method BuildMap() returns (bits: array<bool>)
      requires DiskInv(St())
      ensures fresh(bits) && bits[..] == Bitmap(dir[..], blockCount)
    {
      bits := new bool[blockCount](_ => false);
      var i := 0;
      while i < dir.Length
        invariant 0 <= i <= dir.Length && fresh(bits) && bits.Length == blockCount
        invariant forall b :: 0 <= b < blockCount ==> (bits[b] <==> OccupiedBefore(dir[..], i, b))
        modifies bits
      {
        forall b ensures OccupiedBefore(dir[..], i + 1, b) <==>
          OccupiedBefore(dir[..], i, b) || (Used(dir[..], i) && dir[i].start <= b < dir[i].End())
        {
          OneMoreEntry(dir[..], i, b);
        }
        if dir[i].used {
          assert Used(dir[..], i);
          Mark(bits, dir[i].start, NeededBlocks(dir[i].size));
        }
        i := i + 1;
      }
      assert forall b :: OccupiedBefore(dir[..], i, b) <==> Occupied(dir[..], b);
    }

    /** The streak scan. */
    method FindStreak(bits: array<bool>, need: int) returns (start: int)
      ensures start == Scan(bits[..], need, 0, 0)
    {
      var i, streak := 0, 0;
      while i < bits.Length
        invariant 0 <= i <= bits.Length && streak >= 0
        invariant Scan(bits[..], need, 0, 0) == Scan(bits[..], need, i, streak)
      {
        if !bits[i] {
          streak := streak + 1;
          if streak == need { return i - need + 1; }
        } else {
          streak := 0;
        }
        i := i + 1;
      }
      return -1;
    }

    method WriteAt(at: int, bytes: seq<Byte>)
      requires 0 <= at && at + |bytes| <= image.Length
      modifies image
      ensures image[..] == Write(old(image[..]), at, bytes)
    {
      var k := 0;
      while k < |bytes|
        invariant 0 <= k <= |bytes|
        invariant forall j :: 0 <= j < image.Length ==>
          image[j] == if at <= j < at + k then bytes[j - at] else old(image[j])
      {
        image[at + k] := bytes[k];
        k := k + 1;
      }
    }

    /** copy_to_virtual */
    method CopyToVirtual(name: string, source: Option<seq<Byte>>) returns (out: Saved)
      requires DiskInv(St())
      modifies dir, image
      ensures (out, St()) == CopyIn(old(St()), name, source) && DiskInv(St())
    {
      ghost var d := St();
      CopyInKeeps(d, name, source);
      var found := FindFile(name);
      if found >= 0 { return NameExists; }
      if source.None? { return NoSource; }
      var free := FindFree();
      if free == -1 { return CatalogueFull; }
      var bits := BuildMap();
      var start := FindStreak(bits, NeededBlocks(|source.value|));
      if start == -1 { return NoSpace; }
      AdmitFits(d, name, source);
      WriteAt(Offset(start), Padded(source.value));
      dir[free] := Entry(StoredName(name), start, |source.value|, true);
      return SavedAt(start);
    }

    /** copy_from_virtual */
    method CopyFromVirtual(name: string) returns (bytes: Option<seq<Byte>>)
      requires DiskInv(St())
      ensures bytes == CopyOut(St(), name)
    {
      var idx := FindFile(name);
      if idx == -1 { return None; }
      assert Used(dir[..], idx);
      var from := Offset(dir[idx].start);
      return Some(image[from..from + dir[idx].size]);
    }

    /** delete_file */
    method DeleteFile(name: string) returns (found: bool)
      requires DiskInv(St())
      modifies dir
      ensures St() == Delete(old(St()), name) && found == (Find(old(dir[..]), name, 0) >= 0) && DiskInv(St())
    {
      DeleteKeeps(St(), name);
      var i := FindFile(name);
      found := i >= 0;
      if found { dir[i] := dir[i].(used := false); }
    }

    /** The used entries in table order, then sorted. */
    method SortedFiles() returns (s: seq<Entry>)
      ensures s == SortByStart(UsedFrom(dir[..], 0))
    {
      var found := [];
      var i := 0;
      while i < dir.Length
        invariant 0 <= i <= dir.Length && UsedFrom(dir[..], 0) == found + UsedFrom(dir[..], i)
      {
        if dir[i].used { found := found + [dir[i]]; }
        i := i + 1;
      }
      assert found == UsedFrom(dir[..], 0);
      s := SortByStart(found);
    }

    method AddFile(lines: seq<Line>, e: Entry, cur: int) returns (r: seq<Line>, next: int)
      ensures r == lines + GapBefore(e, cur) + [LineOf(e)] && next == e.End()
    {
      r := lines;
      if e.start > cur { r := r + [FreeLine(cur, e.start - cur)]; }
      var blocks := NeededBlocks(e.size);
      r := r + [FileLine(e.start, blocks, e.name, blocks * BLOCK_SIZE - e.size)];
      next := e.start + blocks;
    }

    /** show_map */
    method ShowMap() returns (lines: seq<Line>)
      ensures lines == MapOf(St())
    {
      hide Lines, LineOf, GapBefore, SortByStart, UsedFrom;
      var s := SortedFiles();
      lines := [];
      ghost var goal := Lines(s, 0, 0, blockCount);
      var cur, i := 0, 0;
      while i < |s|
        invariant 0 <= i <= |s| && goal == lines + Lines(s, i, cur, blockCount)
      {
        LinesStep(lines, s, i, cur, blockCount);
        lines, cur := AddFile(lines, s[i], cur);
        i := i + 1;
      }
      assert i == |s|;
      LinesEnd(s, cur, blockCount);
      assert goal == MapOf(St());
      if cur < blockCount { lines := lines + [FreeLine(cur, blockCount - cur)]; }
    }
  }
}
