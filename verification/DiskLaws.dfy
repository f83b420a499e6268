/**
 What the commands guarantee: extents stay apart and inside the disk, a file comes back as it was copied in and no
 other file changes, and the map of the disk shows exactly the free space that copying sees.
 */
module DiskLaws {
  import opened VirtualDisk

  // ---------------------------------------------------------------- copying in keeps the disk in order

  lemma NewExtentOk(dir: seq<Entry>, blocks: nat, i: int, e: Entry)
    requires ExtentsOk(dir, blocks) && 0 <= i < |dir| && !Used(dir, i) && e.used && e.size > 0
    requires RunAt(Bitmap(dir, blocks), e.start, e.Blocks())
    ensures ExtentsOk(dir[i := e], blocks)
  {
    var r := dir[i := e];
    var bits := Bitmap(dir, blocks);
    forall j | Used(r, j) && j != i ensures r[j].End() <= e.start || e.End() <= r[j].start {
      assert Used(dir, j);
      var b := if e.start < r[j].start then r[j].start else e.start;
      assert dir[j].start <= b < dir[j].End() ==> Occupied(dir, b);
      assert e.start <= b < e.End() ==> !bits[b];
    }
    forall j, k | Used(r, j) && Used(r, k) && j != k ensures r[j].End() <= r[k].start || r[k].End() <= r[j].start {
      if j != i && k != i { assert Used(dir, j) && Used(dir, k); }
    }
  }

  lemma CopyInKeeps(d: Disk, name: string, source: Option<seq<Byte>>)
    requires DiskInv(d)
    ensures DiskInv(CopyIn(d, name, source).1)
  {
    if Admit(d, name, source).SavedAt? {
      AdmitFits(d, name, source);
      var i := FreeEntry(d.dir, 0);
      var e := Entry(StoredName(name), Admit(d, name, source).start, |source.value|, true);
      NewExtentOk(d.dir, d.blocks, i, e);
      var r := d.dir[i := e];
      forall j | Used(r, j) ensures |r[j].name| <= NAME_MAX {
        if j != i { assert Used(d.dir, j); }
      }
    }
  }

  lemma DeleteKeeps(d: Disk, name: string)
    requires DiskInv(d)
    ensures DiskInv(Delete(d, name)) && (NamesUnique(d.dir) ==> NamesUnique(Delete(d, name).dir))
  {
    var r := Delete(d, name);
    assert forall j :: Used(r.dir, j) ==> Used(d.dir, j) && r.dir[j] == d.dir[j];
  }

  lemma CreateInv()
    ensures DiskInv(Create()) && NamesUnique(Create().dir)
    ensures Offset(Create().blocks) <= DISK_SIZE < Offset(Create().blocks + 1)
    ensures forall name :: CopyOut(Create(), name) == None
  {
    assert forall i :: !Used(Create().dir, i);
  }

  /** No data write reaches the superblock or grows the image, which ends within the disk. */
  lemma DataStaysInside(d: Disk, name: string, source: Option<seq<Byte>>)
    requires DiskInv(d)
    ensures var r := CopyIn(d, name, source).1;
      |r.image| == |d.image| <= DISK_SIZE && r.image[..SB_SIZE] == d.image[..SB_SIZE]
  {
    if Admit(d, name, source).SavedAt? { AdmitFits(d, name, source); }
  }

  /** Names stay unique exactly when the name as it is stored is not yet in use. */
  lemma NamesUniqueIff(d: Disk, name: string, source: Option<seq<Byte>>)
    requires DiskInv(d) && NamesUnique(d.dir) && CopyIn(d, name, source).0.SavedAt?
    ensures NamesUnique(CopyIn(d, name, source).1.dir) <==> Find(d.dir, StoredName(name), 0) == -1
  {
    AdmitFits(d, name, source);
    var r := CopyIn(d, name, source).1.dir;
    var i := FreeEntry(d.dir, 0);
    assert Used(r, i) && r[i].name == StoredName(name);
    assert forall j :: Used(d.dir, j) ==> j != i && Used(r, j) && r[j] == d.dir[j];
    assert forall j :: Used(r, j) && j != i ==> Used(d.dir, j);
    var f := Find(d.dir, StoredName(name), 0);
    if f >= 0 { assert Used(r, f) && r[f].name == r[i].name; }
  }

  /** A name that fits is tested in the form it is stored in, so it stays unique. */
  lemma FittingNamesStayUnique(d: Disk, name: string, source: Option<seq<Byte>>)
    requires DiskInv(d) && NamesUnique(d.dir) && |name| <= NAME_MAX
    ensures NamesUnique(CopyIn(d, name, source).1.dir)
  {
    if CopyIn(d, name, source).0.SavedAt? {
      AdmitFits(d, name, source);
      NamesUniqueIff(d, name, source);
    }
  }

  // ---------------------------------------------------------------- round trip and frame

  lemma FindAfterSave(dir: seq<Entry>, i: int, e: Entry, name: string, k: nat)
    requires 0 <= i < |dir| && !Used(dir, i) && e.used && k <= |dir|
    ensures e.name != name ==> Find(dir[i := e], name, k) == Find(dir, name, k)
    ensures e.name == name && Find(dir, name, k) == -1 && k <= i ==> Find(dir[i := e], name, k) == i
  {
    var r := dir[i := e];
    var f, g := Find(dir, name, k), Find(r, name, k);
    assert forall j :: j != i ==> (Used(r, j) <==> Used(dir, j));
    if e.name != name {
      if f >= 0 { assert Used(r, f); }
      if g >= 0 { assert Used(dir, g); }
    } else if f == -1 && k <= i {
      assert Used(r, i);
      if g >= 0 && g != i { assert Used(dir, g); }
    }
  }

  lemma WriteRead(image: seq<Byte>, at: int, bytes: seq<Byte>, n: nat)
    requires 0 <= at && at + |bytes| <= |image| && n <= |bytes|
    ensures Write(image, at, bytes)[at..at + n] == bytes[..n]
  {
  }

  lemma WriteElsewhere(image: seq<Byte>, at: int, bytes: seq<Byte>, from: int, n: nat)
    requires 0 <= at && at + |bytes| <= |image| && 0 <= from && from + n <= |image|
    requires from + n <= at || at + |bytes| <= from
    ensures Write(image, at, bytes)[from..from + n] == image[from..from + n]
  {
  }

  /** After a successful -cp, -out under the same name returns the file exactly if the name fits the directory. */
  lemma RoundTripIff(d: Disk, name: string, source: Option<seq<Byte>>)
    requires DiskInv(d) && CopyIn(d, name, source).0.SavedAt?
    ensures source.Some? && DiskInv(CopyIn(d, name, source).1)
    ensures CopyOut(CopyIn(d, name, source).1, name) == Some(source.value) <==> |name| <= NAME_MAX
    ensures |name| > NAME_MAX ==> CopyOut(CopyIn(d, name, source).1, name) == None
  {
    AdmitFits(d, name, source);
    CopyInKeeps(d, name, source);
    var r := CopyIn(d, name, source).1;
    var i := FreeEntry(d.dir, 0);
    var s := Admit(d, name, source).start;
    FindAfterSave(d.dir, i, r.dir[i], name, 0);
    WriteRead(d.image, Offset(s), Padded(source.value), |source.value|);
    assert Padded(source.value)[..|source.value|] == source.value;
  }

  /** Two files are apart in the image too. */
  lemma ApartInImage(d: Disk, r: Disk, i: int, f: int)
    requires DiskInv(d) && DiskInv(r) && Used(r.dir, i) && Used(r.dir, f) && i != f
    ensures var e, g := r.dir[i], r.dir[f];
      && 0 <= Offset(g.start) && Offset(g.start) + g.size <= |d.image|
      && (Offset(g.start) + g.size <= Offset(e.start) || Offset(e.start) + e.Blocks() * BLOCK_SIZE <= Offset(g.start))
  {
    var e, g := r.dir[i], r.dir[f];
    assert e.End() <= g.start || g.End() <= e.start;
  }

  /** No other file changes. */
  lemma OthersKept(d: Disk, name: string, source: Option<seq<Byte>>, other: string)
    requires DiskInv(d) && other != StoredName(name)
    ensures DiskInv(CopyIn(d, name, source).1) && CopyOut(CopyIn(d, name, source).1, other) == CopyOut(d, other)
  {
    CopyInKeeps(d, name, source);
    if Admit(d, name, source).SavedAt? {
      AdmitFits(d, name, source);
      var r := CopyIn(d, name, source).1;
      var i := FreeEntry(d.dir, 0);
      FindAfterSave(d.dir, i, r.dir[i], other, 0);
      var f := Find(d.dir, other, 0);
      if f >= 0 {
        assert Used(d.dir, f) && Used(r.dir, f) && Used(r.dir, i);
        var e, g := r.dir[i], d.dir[f];
        ApartInImage(d, r, i, f);
        hide NeededBlocks, Bitmap, Find, Admit, DiskInv, ExtentsOk;
        WriteElsewhere(d.image, Offset(e.start), Padded(source.value), Offset(g.start), g.size);
      }
    }
  }

  /** A refused -cp changes nothing, and every refusal has its reason. */
  lemma RefusedIff(d: Disk, name: string, source: Option<seq<Byte>>)
    requires DiskInv(d)
    ensures var (a, r) := CopyIn(d, name, source);
      && (!a.SavedAt? ==> r == d)
      && (a.NameExists? <==> exists i :: Used(d.dir, i) && d.dir[i].name == name)
      && (a.CatalogueFull? ==> forall i :: 0 <= i < |d.dir| ==> Used(d.dir, i))
  {
    var f := Find(d.dir, name, 0);
    if f >= 0 { assert Used(d.dir, f); }
  }

  /** The reasons in the order in which they are looked for. No run of free blocks does for a file without a block. */
  lemma RefusalReasons(d: Disk, name: string, source: Option<seq<Byte>>)
    requires DiskInv(d)
    ensures var a := CopyIn(d, name, source).0; var bits := Bitmap(d.dir, d.blocks);
      var taken := exists i :: Used(d.dir, i) && d.dir[i].name == name;
      var full := forall i :: 0 <= i < |d.dir| ==> d.dir[i].used;
      && (a.NoSource? <==> !taken && source.None?)
      && (a.CatalogueFull? <==> !taken && source.Some? && full)
      && (a.NoSpace? <==>
            !taken && source.Some? && !full
            && (|source.value| == 0 || forall b :: !RunAt(bits, b, NeededBlocks(|source.value|))))
  {
    var f := Find(d.dir, name, 0);
    if f >= 0 { assert Used(d.dir, f); }
    var e := FreeEntry(d.dir, 0);
    assert e >= 0 ==> !d.dir[e].used;
    assert e < 0 ==> forall i :: 0 <= i < |d.dir| ==> Used(d.dir, i);
    if source.Some? { ScanFinds(Bitmap(d.dir, d.blocks), NeededBlocks(|source.value|)); }
  }

  /** A file that is saved takes the first free entry and the lowest blocks that have room; its bytes are followed by
      zeros to the end of the last block, and no other byte of the image changes. */
  lemma SaveEffect(d: Disk, name: string, source: Option<seq<Byte>>, i: int, k: int)
    requires DiskInv(d) && CopyIn(d, name, source).0.SavedAt? && 0 <= i < |d.dir| && 0 <= k < |d.image|
    ensures var (a, r) := CopyIn(d, name, source); var at := SB_SIZE + a.start * BLOCK_SIZE;
      && source.Some? && |r.dir| == |d.dir| && |r.image| == |d.image| && r.blocks == d.blocks
      && RunAt(Bitmap(d.dir, d.blocks), a.start, NeededBlocks(|source.value|))
      && (forall b :: RunAt(Bitmap(d.dir, d.blocks), b, NeededBlocks(|source.value|)) ==> a.start <= b)
      && (if !d.dir[i].used && forall j :: 0 <= j < i ==> d.dir[j].used
          then r.dir[i].used && r.dir[i].start == a.start && r.dir[i].size == |source.value| && r.dir[i].name <= name
          else r.dir[i] == d.dir[i])
      && r.image[k] == if at <= k < at + |source.value| then source.value[k - at]
                       else if at <= k < at + NeededBlocks(|source.value|) * BLOCK_SIZE then 0
                       else d.image[k]
  {
    AdmitFits(d, name, source);
    ScanFinds(Bitmap(d.dir, d.blocks), NeededBlocks(|source.value|));
    FirstFree(d.dir, i);
  }

  lemma FirstFree(dir: seq<Entry>, i: int)
    requires 0 <= i < |dir| && FreeEntry(dir, 0) >= 0
    ensures i == FreeEntry(dir, 0) <==> !dir[i].used && forall j :: 0 <= j < i ==> dir[j].used
  {
    var e := FreeEntry(dir, 0);
    hide FreeEntry;
    assert !Used(dir, e);
    forall j | 0 <= j < e ensures dir[j].used { assert Used(dir, j); }
  }

  /** -rm removes the file of that name and no other. */
  lemma DeleteRemoves(d: Disk, name: string, other: string)
    requires DiskInv(d) && NamesUnique(d.dir)
    ensures DiskInv(Delete(d, name))
    ensures CopyOut(Delete(d, name), other) == if other == name then None else CopyOut(d, other)
  {
    DeleteKeeps(d, name);
    var r := Delete(d, name);
    assert forall j :: Used(r.dir, j) ==> Used(d.dir, j) && r.dir[j] == d.dir[j];
    var f, g := Find(d.dir, other, 0), Find(r.dir, other, 0);
    if f >= 0 && other != name { assert Used(r.dir, f); }
    if g >= 0 { assert Used(d.dir, g); }
  }

  /** Entry i is the first used one of this name. */
  predicate FirstNamed(dir: seq<Entry>, name: string, i: int) {
    && 0 <= i < |dir| && dir[i].used && dir[i].name == name
    && forall j :: 0 <= j < i ==> !(dir[j].used && dir[j].name == name)
  }

  /** When several files have one name, -out answers from the first, and -rm takes only that one away; without any,
      -out has no answer and -rm changes nothing. */
  lemma FirstNamedEffect(d: Disk, name: string, i: int)
    requires DiskInv(d)
    ensures FirstNamed(d.dir, name, i) ==>
      && var e := d.dir[i]; var at := SB_SIZE + e.start * BLOCK_SIZE;
      && 0 <= at <= at + e.size <= |d.image| && CopyOut(d, name) == Some(d.image[at..at + e.size])
      && Delete(d, name) == d.(dir := d.dir[i := e.(used := false)])
    ensures (forall j :: !FirstNamed(d.dir, name, j)) ==> CopyOut(d, name) == None && Delete(d, name) == d
  {
    var f := Find(d.dir, name, 0);
    if f >= 0 {
      assert FirstNamed(d.dir, name, f);
      if FirstNamed(d.dir, name, i) { assert Used(d.dir, i); }
    } else if FirstNamed(d.dir, name, i) {
      assert Used(d.dir, i);
    }
  }

  // ---------------------------------------------------------------- runs

  datatype Command = Cp(name: string, source: Option<seq<Byte>>) | Rm(name: string)

  /** A file is only copied in under a name that the directory holds in full. */
  predicate Fits(c: Command) { c.Cp? ==> |c.name| <= NAME_MAX }

  ghost function Run1(d: Disk, c: Command): Disk
    requires DiskInv(d)
  {
    match c
    case Cp(n, s) => CopyIn(d, n, s).1
    case Rm(n) => Delete(d, n)
  }

  /** The files a user expects: -cp that was accepted sets a name, -rm clears it. */
  ghost function Expect(m: map<string, seq<Byte>>, d: Disk, c: Command): map<string, seq<Byte>>
    requires DiskInv(d)
  {
    match c
    case Cp(n, s) => if CopyIn(d, n, s).0.SavedAt? && s.Some? then m[n := s.value] else m
    case Rm(n) => m - {n}
  }

  /** -out answers for every name what is expected. */
  ghost predicate Answers(d: Disk, m: map<string, seq<Byte>>)
    requires DiskInv(d)
  {
    forall n :: CopyOut(d, n) == if n in m then Some(m[n]) else None
  }

  lemma CommandAnswers(d: Disk, m: map<string, seq<Byte>>, c: Command)
    requires DiskInv(d) && NamesUnique(d.dir) && Answers(d, m) && Fits(c)
    ensures DiskInv(Run1(d, c)) && NamesUnique(Run1(d, c).dir) && Answers(Run1(d, c), Expect(m, d, c))
  {
    match c
    case Cp(name, s) =>
      CopyInKeeps(d, name, s);
      FittingNamesStayUnique(d, name, s);
      if CopyIn(d, name, s).0.SavedAt? { RoundTripIff(d, name, s); }
      forall n ensures CopyOut(Run1(d, c), n) == if n in Expect(m, d, c) then Some(Expect(m, d, c)[n]) else None {
        if n != name { OthersKept(d, name, s, n); }
      }
    case Rm(name) =>
      DeleteKeeps(d, name);
      forall n ensures CopyOut(Run1(d, c), n) == if n in Expect(m, d, c) then Some(Expect(m, d, c)[n]) else None {
        DeleteRemoves(d, name, n);
      }
  }

  ghost predicate DiskRun(run: seq<Disk>, maps: seq<map<string, seq<Byte>>>, commands: seq<Command>) {
    && |run| == |maps| == |commands| + 1 && run[0] == Create() && maps[0] == map[]
    && forall i :: 0 <= i < |commands| ==>
         DiskInv(run[i]) ==>
           run[i + 1] == Run1(run[i], commands[i]) && maps[i + 1] == Expect(maps[i], run[i], commands[i])
  }

  /** After any sequence of -cp on names that fit and of -rm, -out returns exactly what was last copied in. */
  lemma {:induction false} RunAnswers(run: seq<Disk>, maps: seq<map<string, seq<Byte>>>, commands: seq<Command>, i: nat)
    requires DiskRun(run, maps, commands) && i <= |commands| && forall k :: 0 <= k < |commands| ==> Fits(commands[k])
    ensures DiskInv(run[i]) && NamesUnique(run[i].dir) && Answers(run[i], maps[i])
  {
    CreateInv();
    if i > 0 {
      RunAnswers(run, maps, commands, i - 1);
      CommandAnswers(run[i - 1], maps[i - 1], commands[i - 1]);
    }
  }

  /** Names of more than 31 characters break this: two of them may share one stored name. */
  lemma LongNamesCollide(d: Disk, a: string, b: string, f: Option<seq<Byte>>, g: Option<seq<Byte>>)
    requires DiskInv(d) && NamesUnique(d.dir) && a != b && StoredName(a) == StoredName(b)
    requires CopyIn(d, a, f).0.SavedAt? && DiskInv(CopyIn(d, a, f).1) && CopyIn(CopyIn(d, a, f).1, b, g).0.SavedAt?
    ensures !NamesUnique(CopyIn(CopyIn(d, a, f).1, b, g).1.dir)
  {
    var e := CopyIn(d, a, f).1;
    AdmitFits(d, a, f);
    AdmitFits(e, b, g);
    var r := CopyIn(e, b, g).1.dir;
    var i, j := FreeEntry(d.dir, 0), FreeEntry(e.dir, 0);
    assert Used(e.dir, i) && Used(r, i) && Used(r, j) && r[i].name == r[j].name;
  }

  lemma SavesWhenFree(d: Disk, name: string, file: seq<Byte>, b: int)
    requires DiskInv(d) && Find(d.dir, name, 0) == -1 && FreeEntry(d.dir, 0) >= 0 && |file| == 1
    requires 0 <= b < d.blocks && !Occupied(d.dir, b)
    ensures CopyIn(d, name, Some(file)).0.SavedAt?
  {
    ScanFinds(Bitmap(d.dir, d.blocks), 1);
    assert RunAt(Bitmap(d.dir, d.blocks), b, 1);
  }

  /** On an empty disk a file of one byte is saved under any name, in entry 0 and block 0. */
  lemma FirstFile(name: string, file: seq<Byte>)
    requires |file| == 1
    ensures DiskInv(Create()) && CopyIn(Create(), name, Some(file)).0 == SavedAt(0)
    ensures CopyIn(Create(), name, Some(file)).1.dir == Create().dir[0 := Entry(StoredName(name), 0, 1, true)]
  {
    var d := Create();
    CreateInv();
    assert forall i :: !Used(d.dir, i);
    assert forall b :: !Occupied(d.dir, b);
    ScanFinds(Bitmap(d.dir, d.blocks), 1);
    assert RunAt(Bitmap(d.dir, d.blocks), 0, 1);
  }

  /** Two such names, on an empty disk: both files are saved, and the directory holds the same name twice. */
  lemma LongNamesCollideOnEmptyDisk(file: seq<Byte>) returns (a: string, b: string, d: Disk)
    requires |file| == 1
    ensures a != b && DiskInv(Create()) && d == CopyIn(Create(), a, Some(file)).1 && DiskInv(d)
    ensures CopyIn(Create(), a, Some(file)).0.SavedAt? && CopyIn(d, b, Some(file)).0.SavedAt?
    ensures !NamesUnique(CopyIn(d, b, Some(file)).1.dir)
  {
    var x := seq(NAME_MAX, i => 'x');
    a, b := x + "a", x + "b";
    assert a[NAME_MAX] != b[NAME_MAX] && StoredName(a) == x == StoredName(b);
    CreateInv();
    FirstFile(a, file);
    d := CopyIn(Create(), a, Some(file)).1;
    CopyInKeeps(Create(), a, Some(file));
    assert forall i :: Used(d.dir, i) ==> i == 0;
    assert !Used(d.dir, 1) && !Occupied(d.dir, 1);
    SavesWhenFree(d, b, file, 1);
    LongNamesCollide(Create(), a, b, Some(file), Some(file));
  }
}
