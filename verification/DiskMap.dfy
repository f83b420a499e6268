/**
 The map of the disk: a second view of the free space, made from the directory sorted by starting block. Its lines
 tile the data area, its FREE lines are the maximal runs of free blocks, and copying succeeds exactly when one of
 them is long enough.
 */
module DiskMap {
  import opened VirtualDisk

  datatype Line = FreeLine(at: int, len: int) | FileLine(at: int, len: int, name: string, slack: int)

  // ---------------------------------------------------------------- sorting the directory

  function UsedFrom(dir: seq<Entry>, i: nat): (r: seq<Entry>)
    requires i <= |dir|
    decreases |dir| - i
  {
    if i == |dir| then [] else (if dir[i].used then [dir[i]] else []) + UsedFrom(dir, i + 1)
  }

  function InsertByStart(s: seq<Entry>, e: Entry): (r: seq<Entry>)
    ensures multiset(r) == multiset(s) + multiset{e}
  {
    if s == [] || e.start <= s[0].start then [e] + s
    else
      assert s == [s[0]] + s[1..];
      [s[0]] + InsertByStart(s[1..], e)
  }

  function SortByStart(s: seq<Entry>): (r: seq<Entry>)
    ensures multiset(r) == multiset(s)
  {
    if s == [] then []
    else
      assert s == [s[0]] + s[1..];
      InsertByStart(SortByStart(s[1..]), s[0])
  }

  /** The extents follow one another. */
  ghost predicate Chain(s: seq<Entry>) {
    && (forall i :: 0 <= i < |s| ==> s[i].size > 0)
    && forall i, j :: 0 <= i < j < |s| ==> s[i].End() <= s[j].start
  }

  predicate Clear(e: Entry, f: Entry) { e.End() <= f.start || f.End() <= e.start }

  lemma {:induction false} InsertChain(s: seq<Entry>, e: Entry)
    requires Chain(s) && e.size > 0 && forall i :: 0 <= i < |s| ==> Clear(e, s[i])
    ensures Chain(InsertByStart(s, e))
    ensures forall x :: x in InsertByStart(s, e) <==> x == e || x in s
  {
    if s != [] && e.start > s[0].start {
      InsertChain(s[1..], e);
      var t := InsertByStart(s[1..], e);
      assert Clear(e, s[0]);
      forall j | 0 <= j < |t| ensures s[0].End() <= t[j].start {
        assert t[j] == e || t[j] in s[1..];
      }
      assert forall x :: x in s <==> x == s[0] || x in s[1..];
    }
  }

  /** e is a used entry from position i on. */
  ghost predicate ListedFrom(dir: seq<Entry>, i: int, e: Entry) {
    exists k :: i <= k && Used(dir, k) && dir[k] == e
  }

  lemma ListedStep(dir: seq<Entry>, i: nat, e: Entry)
    requires i < |dir|
    ensures ListedFrom(dir, i, e) <==> (dir[i].used && dir[i] == e) || ListedFrom(dir, i + 1, e)
  {
    if dir[i].used && dir[i] == e { assert Used(dir, i); }
  }

  lemma {:induction false} UsedFromIn(dir: seq<Entry>, i: nat, e: Entry)
    requires i <= |dir|
    ensures e in UsedFrom(dir, i) <==> ListedFrom(dir, i, e)
    decreases |dir| - i
  {
    if i < |dir| {
      UsedFromIn(dir, i + 1, e);
      ListedStep(dir, i, e);
      hide ListedFrom;
    }
  }

  /** Entries with extents that do not overlap. */
  ghost predicate AllClear(s: seq<Entry>) {
    && (forall i :: 0 <= i < |s| ==> s[i].size > 0)
    && forall i, j :: 0 <= i < j < |s| ==> Clear(s[i], s[j])
  }

  lemma {:induction false} UsedClear(dir: seq<Entry>, blocks: int, i: nat)
    requires ExtentsOk(dir, blocks) && i <= |dir|
    ensures AllClear(UsedFrom(dir, i))
    decreases |dir| - i
  {
    if i < |dir| {
      UsedClear(dir, blocks, i + 1);
      var u := UsedFrom(dir, i + 1);
      if dir[i].used {
        assert Used(dir, i);
        forall k | 0 <= k < |u| ensures Clear(dir[i], u[k]) {
          assert u[k] in u;
          UsedFromIn(dir, i + 1, u[k]);
        }
        assert UsedFrom(dir, i) == [dir[i]] + u;
      } else {
        assert UsedFrom(dir, i) == u;
      }
    }
  }

  lemma SameMembers(s: seq<Entry>, t: seq<Entry>)
    requires multiset(s) == multiset(t)
    ensures forall e :: e in s <==> e in t
  {
    forall e ensures e in s <==> e in t {
      assert e in s <==> e in multiset(s);
      assert e in t <==> e in multiset(t);
    }
  }

  lemma {:induction false} SortChain(s: seq<Entry>)
    requires AllClear(s)
    ensures Chain(SortByStart(s))
  {
    if s != [] {
      var t := SortByStart(s[1..]);
      SortChain(s[1..]);
      SameMembers(t, s[1..]);
      forall k | 0 <= k < |t| ensures Clear(s[0], t[k]) {
        assert t[k] in s[1..];
      }
      InsertChain(t, s[0]);
    }
  }

  lemma TailCount(s: seq<Entry>)
    requires s != []
    ensures multiset(s[1..]) == multiset(s) - multiset{s[0]}
  {
    assert s == [s[0]] + s[1..];
  }

  lemma SameHead(s: seq<Entry>, t: seq<Entry>)
    requires s != [] && Chain(s) && multiset(t) == multiset(s)
      && forall i, j :: 0 <= i < j < |t| ==> t[i].start <= t[j].start
    ensures t != [] && t[0] == s[0]
  {
    assert s[0] in multiset(t);
    var i :| 0 <= i < |t| && t[i] == s[0];
    assert t[0] in multiset(s);
    var j :| 0 <= j < |s| && s[j] == t[0];
  }

  /** Any list in order of start with the same entries is that list: it does not matter how qsort proceeds. */
  lemma {:induction false} SortUnique(s: seq<Entry>, t: seq<Entry>)
    requires Chain(s) && multiset(t) == multiset(s) && forall i, j :: 0 <= i < j < |t| ==> t[i].start <= t[j].start
    ensures t == s
  {
    if s == [] {
      assert |multiset(t)| == 0;
    } else {
      SameHead(s, t);
      TailCount(s);
      TailCount(t);
      SortUnique(s[1..], t[1..]);
      assert s == [s[0]] + s[1..] && t == [t[0]] + t[1..];
    }
  }

  // ---------------------------------------------------------------- the lines

  function GapBefore(e: Entry, cur: int): seq<Line> {
    if e.start > cur then [FreeLine(cur, e.start - cur)] else []
  }

  function LineOf(e: Entry): Line {
    FileLine(e.start, e.Blocks(), e.name, e.Blocks() * BLOCK_SIZE - e.size)
  }

  /** The lines from entry i on, when everything before block cur has been shown. */
  function Lines(s: seq<Entry>, i: nat, cur: int, blocks: int): (r: seq<Line>)
    requires i <= |s|
    decreases |s| - i
  {
    if i == |s| then (if cur < blocks then [FreeLine(cur, blocks - cur)] else [])
    else
      GapBefore(s[i], cur) + [LineOf(s[i])] + Lines(s, i + 1, s[i].End(), blocks)
  }

  /** The lines of entry i and of the gap in front of it. */
  lemma LinesStep(before: seq<Line>, s: seq<Entry>, i: nat, cur: int, blocks: int)
    requires i < |s|
    ensures before + Lines(s, i, cur, blocks) ==
      before + GapBefore(s[i], cur) + [LineOf(s[i])] + Lines(s, i + 1, s[i].End(), blocks)
  {
  }

  lemma LinesEnd(s: seq<Entry>, cur: int, blocks: int)
    ensures Lines(s, |s|, cur, blocks) == if cur < blocks then [FreeLine(cur, blocks - cur)] else []
  {
  }

  /** show_map */
  function MapOf(d: Disk): (r: seq<Line>) {
    Lines(SortByStart(UsedFrom(d.dir, 0)), 0, 0, d.blocks)
  }

  /** The lines cover [from, to) without gap or overlap, in order, none of them empty. */
  ghost predicate Tile(lines: seq<Line>, from: int, to: int) {
    if lines == [] then from == to
    else lines[0].at == from && lines[0].len > 0 && Tile(lines[1..], from + lines[0].len, to)
  }

  ghost predicate Within(s: seq<Entry>, blocks: int) {
    forall k :: 0 <= k < |s| ==> 0 <= s[k].start && s[k].End() <= blocks
  }

  lemma TileCons(line: Line, rest: seq<Line>, to: int)
    requires line.len > 0 && Tile(rest, line.at + line.len, to)
    ensures Tile([line] + rest, line.at, to)
  {
    assert ([line] + rest)[1..] == rest;
  }

  lemma {:induction false} LinesTile(s: seq<Entry>, i: nat, cur: int, blocks: int)
    requires Chain(s) && Within(s, blocks) && i <= |s| && cur <= blocks && (i < |s| ==> cur <= s[i].start)
    ensures Tile(Lines(s, i, cur, blocks), cur, blocks)
    decreases |s| - i
  {
    if i < |s| {
      var e := s[i];
      LinesTile(s, i + 1, e.End(), blocks);
      hide Chain, Within, Tile, NeededBlocks;
      var rest := Lines(s, i + 1, e.End(), blocks);
      var file := LineOf(e);
      TileCons(file, rest, blocks);
      if e.start > cur {
        var gap := FreeLine(cur, e.start - cur);
        TileCons(gap, [file] + rest, blocks);
        assert Lines(s, i, cur, blocks) == [gap] + ([file] + rest);
      } else {
        assert Lines(s, i, cur, blocks) == [file] + rest;
      }
    } else if cur < blocks {
      assert [FreeLine(cur, blocks - cur)][1..] == [];
    }
  }

  /** Block b lies in one of the extents. */
  ghost predicate In(s: seq<Entry>, b: int) {
    exists k :: 0 <= k < |s| && s[k].start <= b < s[k].End()
  }

  /** A maximal run of len free blocks at a. */
  ghost predicate MaxRun(s: seq<Entry>, blocks: int, a: int, len: int) {
    && len > 0 && 0 <= a && a + len <= blocks
    && (forall b :: a <= b < a + len ==> !In(s, b))
    && (a == 0 || In(s, a - 1)) && (a + len == blocks || In(s, a + len))
  }

  lemma InAfter(s: seq<Entry>, i: nat, b: int)
    requires Chain(s) && i <= |s| && (i > 0 ==> b >= s[i - 1].End()) && (i < |s| ==> b < s[i].start)
    ensures !In(s, b)
  {
    forall k | 0 <= k < |s| ensures !(s[k].start <= b < s[k].End()) {
      if k < i - 1 { assert s[k].End() <= s[i - 1].start; }
      if k > i { assert s[i].End() <= s[k].start; }
    }
  }

  /** The gap in front of entry i, or behind the last, is the only maximal run that starts in it. */
  lemma GapIsRun(s: seq<Entry>, i: nat, cur: int, end: int, blocks: int, a: int, len: int)
    requires Chain(s) && Within(s, blocks) && i <= |s| && cur == (if i == 0 then 0 else s[i - 1].End())
    requires end == (if i < |s| then s[i].start else blocks) && cur <= a && cur <= end
    ensures a < end ==> (MaxRun(s, blocks, a, len) <==> a == cur && len == end - cur)
  {
    if a < end {
      forall b | cur <= b < end ensures !In(s, b) { InAfter(s, i, b); }
      if i > 0 { assert s[i - 1].start <= cur - 1 < s[i - 1].End(); assert In(s, cur - 1); }
      if i < |s| { assert s[i].start <= end < s[i].End(); assert In(s, end); }
    }
  }

  lemma {:induction false} FreeLinesAreRuns(s: seq<Entry>, i: nat, cur: int, blocks: int, a: int, len: int)
    requires Chain(s) && Within(s, blocks) && i <= |s| && 0 <= cur <= blocks
    requires cur == (if i == 0 then 0 else s[i - 1].End())
    ensures FreeLine(a, len) in Lines(s, i, cur, blocks) <==> a >= cur && MaxRun(s, blocks, a, len)
    decreases |s| - i
  {
    if a >= cur { GapIsRun(s, i, cur, if i < |s| then s[i].start else blocks, blocks, a, len); }
    if i < |s| {
      FreeLinesAreRuns(s, i + 1, s[i].End(), blocks, a, len);
      if s[i].start <= a < s[i].End() { assert In(s, a); }
    }
  }

  // ---------------------------------------------------------------- both views agree

  /** The sorted directory, and what it says about blocks. */
  lemma Listing(d: Disk) returns (s: seq<Entry>)
    requires DiskInv(d)
    ensures s == SortByStart(UsedFrom(d.dir, 0)) && Chain(s) && Within(s, d.blocks)
    ensures forall b :: In(s, b) <==> Occupied(d.dir, b)
  {
    var u := UsedFrom(d.dir, 0);
    s := SortByStart(u);
    UsedClear(d.dir, d.blocks, 0);
    SortChain(u);
    SameMembers(s, u);
    forall k | 0 <= k < |s| ensures ListedFrom(d.dir, 0, s[k]) {
      UsedFromIn(d.dir, 0, s[k]);
    }
    forall b ensures In(s, b) <==> Occupied(d.dir, b) {
      InOccupied(d.dir, s, b);
    }
  }

  lemma InOccupied(dir: seq<Entry>, s: seq<Entry>, b: int)
    requires (forall e :: e in s <==> e in UsedFrom(dir, 0)) && forall k :: 0 <= k < |s| ==> ListedFrom(dir, 0, s[k])
    ensures In(s, b) <==> Occupied(dir, b)
  {
    if In(s, b) {
      var k :| 0 <= k < |s| && s[k].start <= b < s[k].End();
      assert ListedFrom(dir, 0, s[k]);
    }
    if Occupied(dir, b) {
      var i :| Used(dir, i) && dir[i].start <= b < dir[i].End();
      UsedFromIn(dir, 0, dir[i]);
      assert dir[i] in s;
    }
  }

  /** The lines of the map tile the data area. */
  lemma MapTiles(d: Disk)
    requires DiskInv(d)
    ensures Tile(MapOf(d), 0, d.blocks)
  {
    var s := Listing(d);
    LinesTile(s, 0, 0, d.blocks);
  }

  /** A maximal run of zeros in copy_to_virtual's bitmap. */
  ghost predicate MaxZeros(bits: seq<bool>, a: int, len: int) {
    len > 0 && RunAt(bits, a, len) && (a == 0 || bits[a - 1]) && (a + len == |bits| || bits[a + len])
  }

  lemma RunIsZeros(s: seq<Entry>, bits: seq<bool>, a: int, len: int)
    requires forall b :: 0 <= b < |bits| ==> (bits[b] <==> In(s, b))
    ensures MaxRun(s, |bits|, a, len) <==> MaxZeros(bits, a, len)
  {
    hide In;
  }

  /** The FREE lines are exactly the maximal zero runs of the bitmap. */
  lemma FreeLineIff(d: Disk, a: int, len: int)
    requires DiskInv(d)
    ensures FreeLine(a, len) in MapOf(d) <==> MaxZeros(Bitmap(d.dir, d.blocks), a, len)
  {
    hide Lines, Occupied, In, Chain, Within, MaxZeros;
    var s := Listing(d);
    FreeLinesAreRuns(s, 0, 0, d.blocks, a, len);
    RunIsZeros(s, Bitmap(d.dir, d.blocks), a, len);
  }

  // ---------------------------------------------------------------- the lines of files

  lemma {:induction false} FileLinesAre(s: seq<Entry>, i: nat, cur: int, blocks: int, line: Line)
    requires i <= |s| && line.FileLine?
    ensures line in Lines(s, i, cur, blocks) <==> exists k :: i <= k < |s| && LineOf(s[k]) == line
    decreases |s| - i
  {
    if i < |s| {
      FileLinesAre(s, i + 1, s[i].End(), blocks, line);
      assert line !in GapBefore(s[i], cur);
    }
  }

  /** Entry e is shown as a file of b blocks of which f bytes are not used: less than a block. */
  predicate Shown(e: Entry, a: int, b: int, name: string, f: int) {
    e.start == a && e.name == name && e.size == b * BLOCK_SIZE - f && 0 <= f < BLOCK_SIZE
  }

  lemma LineShows(e: Entry, a: int, b: int, name: string, f: int)
    requires e.size > 0
    ensures LineOf(e) == FileLine(a, b, name, f) <==> Shown(e, a, b, name, f)
  {
  }

  /** A line for a file is in the map exactly when the directory has that file, and its fragmentation is what the last
      of its blocks leaves unused. */
  lemma FileLineIff(d: Disk, a: int, b: int, name: string, f: int)
    requires DiskInv(d)
    ensures FileLine(a, b, name, f) in MapOf(d) <==> exists i :: Used(d.dir, i) && Shown(d.dir[i], a, b, name, f)
  {
    var u := UsedFrom(d.dir, 0);
    var s := SortByStart(u);
    FileLinesAre(s, 0, 0, d.blocks, FileLine(a, b, name, f));
    SameMembers(s, u);
    forall k | 0 <= k < |s| ensures ListedFrom(d.dir, 0, s[k]) && s[k].size > 0 { UsedFromIn(d.dir, 0, s[k]); }
    hide Shown, LineOf;
    if k :| 0 <= k < |s| && LineOf(s[k]) == FileLine(a, b, name, f) {
      LineShows(s[k], a, b, name, f);
      var i :| 0 <= i && Used(d.dir, i) && d.dir[i] == s[k];
    }
    if i :| Used(d.dir, i) && Shown(d.dir[i], a, b, name, f) {
      assert ListedFrom(d.dir, 0, d.dir[i]);
      UsedFromIn(d.dir, 0, d.dir[i]);
      var k :| 0 <= k < |s| && s[k] == d.dir[i];
      LineShows(s[k], a, b, name, f);
    }
  }

  function FileLines(lines: seq<Line>): nat {
    if lines == [] then 0 else (if lines[0].FileLine? then 1 else 0) + FileLines(lines[1..])
  }

  lemma {:induction false} FileLinesConcat(a: seq<Line>, b: seq<Line>)
    ensures FileLines(a + b) == FileLines(a) + FileLines(b)
  {
    if a == [] {
      assert a + b == b;
    } else {
      assert (a + b)[1..] == a[1..] + b;
      FileLinesConcat(a[1..], b);
    }
  }

  lemma {:induction false} FileLinesCount(s: seq<Entry>, i: nat, cur: int, blocks: int)
    requires i <= |s|
    ensures FileLines(Lines(s, i, cur, blocks)) == |s| - i
    decreases |s| - i
  {
    if i < |s| {
      var rest := Lines(s, i + 1, s[i].End(), blocks);
      FileLinesCount(s, i + 1, s[i].End(), blocks);
      FileLinesConcat(GapBefore(s[i], cur) + [LineOf(s[i])], rest);
      FileLinesConcat(GapBefore(s[i], cur), [LineOf(s[i])]);
    }
  }

  function UsedSlots(dir: seq<Entry>, i: nat): set<int> {
    set k | i <= k < |dir| && dir[k].used
  }

  lemma {:induction false} UsedFromCount(dir: seq<Entry>, i: nat)
    requires i <= |dir|
    ensures |UsedFrom(dir, i)| == |UsedSlots(dir, i)|
    decreases |dir| - i
  {
    if i < |dir| {
      UsedFromCount(dir, i + 1);
      assert UsedSlots(dir, i) == (if dir[i].used then {i} else {}) + UsedSlots(dir, i + 1);
    } else {
      assert UsedSlots(dir, i) == {};
    }
  }

  /** There is one such line for every used entry. */
  lemma OneLinePerFile(d: Disk)
    ensures FileLines(MapOf(d)) == |UsedSlots(d.dir, 0)|
  {
    var u := UsedFrom(d.dir, 0);
    FileLinesCount(SortByStart(u), 0, 0, d.blocks);
    UsedFromCount(d.dir, 0);
    assert |multiset(SortByStart(u))| == |multiset(u)|;
  }

  /** The end of the run of free blocks at b. */
  lemma {:induction false} RunEnd(bits: seq<bool>, b: int, e: int) returns (end: int)
    requires 0 <= b < e <= |bits| && RunAt(bits, b, e - b)
    ensures e <= end <= |bits| && RunAt(bits, b, end - b) && (end == |bits| || bits[end])
    decreases |bits| - e
  {
    if e == |bits| || bits[e] { end := e; } else { end := RunEnd(bits, b, e + 1); }
  }

  /** Some FREE line of the map has room for n blocks. */
  ghost predicate HasRoom(d: Disk, n: int) {
    exists a, len :: FreeLine(a, len) in MapOf(d) && len >= n
  }

  /** For a new name, a readable non-empty source and a free directory entry, copying succeeds exactly when some FREE
      line is long enough, and the file starts where the lowest such line starts. */
  lemma CopyAgreesWithMap(d: Disk, name: string, file: seq<Byte>)
    requires DiskInv(d) && Find(d.dir, name, 0) == -1 && FreeEntry(d.dir, 0) >= 0 && |file| > 0
    ensures var out := CopyIn(d, name, Some(file)).0; var n := NeededBlocks(|file|);
      && (out.SavedAt? <==> HasRoom(d, n))
      && (out.SavedAt? ==> exists len :: FreeLine(out.start, len) in MapOf(d) && len >= n)
      && (out.SavedAt? ==> forall a, len :: FreeLine(a, len) in MapOf(d) && len >= n ==> out.start <= a)
  {
    hide MapOf, Bitmap, NeededBlocks, Scan;
    var bits := Bitmap(d.dir, d.blocks);
    var n := NeededBlocks(|file|);
    ScanFinds(bits, n);
    forall a, len | FreeLine(a, len) in MapOf(d) && len >= n ensures RunAt(bits, a, n) {
      FreeLineIff(d, a, len);
    }
    var out := CopyIn(d, name, Some(file)).0;
    if out.SavedAt? {
      var x := out.start;
      var end := RunEnd(bits, x, x + n);
      assert x > 0 && !bits[x - 1] ==> RunAt(bits, x - 1, n);
      FreeLineIff(d, x, end - x);
    }
  }

  /** An empty file is refused whatever the space: no streak has length 0. */
  lemma EmptyFileRefused(d: Disk, name: string)
    requires DiskInv(d)
    ensures !CopyIn(d, name, Some([])).0.SavedAt? && CopyIn(d, name, Some([])).1 == d
  {
    ScanFinds(Bitmap(d.dir, d.blocks), 0);
  }
}
