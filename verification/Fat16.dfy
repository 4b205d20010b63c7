/** Reading a file of a FAT16 volume: a cursor over sectors and clusters against one flat sequence of bytes. */
module Fat16 {
  import opened Wrappers

  type Byte = b: nat | b < 256

  const SECTOR_SIZE: nat := 512
  const DIR_ENTRY_SIZE: nat := 32
  const FAT_ENTRY_SIZE: nat := 2
  const LAST_LBA: nat := 0x00fffffe

  const ZERO: Byte := 0

  type Sector = s: seq<Byte> | |s| == 512 witness seq(512, _ => ZERO)

  datatype BiosParameterBlock = BiosParameterBlock(
    sectorsPerCluster: nat,
    reservedSectors: nat,
    fatCount: nat,
    rootEntries: nat,
    sectorsPerFat: nat)

  /** A partition: where it starts on its drive, and its sectors. */
  datatype Volume = Volume(bpb: BiosParameterBlock, lba: nat, sectors: seq<Sector>)

  // ---------- Geometry ----------

  function FirstRootDirSector(b: BiosParameterBlock): nat
  {
    b.reservedSectors + b.fatCount * b.sectorsPerFat
  }

  function RootDirSectorCount(b: BiosParameterBlock): nat
  {
    b.rootEntries * DIR_ENTRY_SIZE / SECTOR_SIZE
  }

  function ClustersBase(b: BiosParameterBlock): nat
  {
    FirstRootDirSector(b) + RootDirSectorCount(b)
  }

  function FirstClusterSector(b: BiosParameterBlock, cluster: nat): nat
    requires cluster >= 2
  {
    ClustersBase(b) + (cluster - 2) * b.sectorsPerCluster
  }

  /** Reading elsewhere panics. */
  predicate Readable(v: Volume, n: nat)
  {
    n + 1 <= |v.sectors| && n + v.lba <= LAST_LBA
  }

  function FatSector(b: BiosParameterBlock, cluster: nat): nat
  {
    b.reservedSectors + cluster * FAT_ENTRY_SIZE / SECTOR_SIZE
  }

  /** What follows a cluster: another one, nothing, or no answer because of the disk or a panic. */
  datatype Link = To(cluster: nat) | End | Failed | Crash

  function NextCluster(v: Volume, cluster: nat, bad: set<nat>): Link
  {
    if cluster >= v.bpb.sectorsPerFat * SECTOR_SIZE / FAT_ENTRY_SIZE then Crash else
    var at, offset := FatSector(v.bpb, cluster), cluster * FAT_ENTRY_SIZE % SECTOR_SIZE;
    if !Readable(v, at) then Crash else
    if at in bad then Failed else
    var next := v.sectors[at][offset] as nat + 256 * (v.sectors[at][offset + 1] as nat);
    if next >= 0xfff8 then End else if next == 0xfff7 then Crash else To(next)
  }

  /** The entries of the table lie in the first copy of it, each in one sector. */
  lemma {:induction false} EntryInFat(b: BiosParameterBlock, cluster: nat)
    requires cluster < b.sectorsPerFat * SECTOR_SIZE / FAT_ENTRY_SIZE
    ensures b.reservedSectors <= FatSector(b, cluster) < b.reservedSectors + b.sectorsPerFat
    ensures cluster * FAT_ENTRY_SIZE % SECTOR_SIZE + 1 < SECTOR_SIZE
  {
    var at := cluster * FAT_ENTRY_SIZE / SECTOR_SIZE;
    assert cluster < b.sectorsPerFat * 256;
    assert at * 256 <= cluster;
  }

  /** Two clusters have no sector in common. */
  lemma {:induction false} ClustersApart(b: BiosParameterBlock, c: nat, d: nat)
    requires 2 <= c < d
    ensures ClustersBase(b) <= FirstClusterSector(b, c)
    ensures FirstClusterSector(b, c) + b.sectorsPerCluster <= FirstClusterSector(b, d)
  {
    var k, n := d - c - 1, b.sectorsPerCluster;
    assert (d - 2) * n == (c - 2) * n + n + k * n by { Spread(c - 2, k, n); }
  }

  lemma {:induction false} Spread(i: nat, k: nat, n: nat)
    ensures (i + 1 + k) * n == i * n + n + k * n
  {
  }

  /** Sector n belongs to a copy of the table. */
  ghost predicate InFat(b: BiosParameterBlock, n: nat)
  {
    exists i: nat, s: nat :: FatPlace(b, n, i, s)
  }

  /** It is sector s of copy i; the copies follow one another behind the reserved sectors. */
  ghost predicate FatPlace(b: BiosParameterBlock, n: nat, i: nat, s: nat)
  {
    i < b.fatCount && s < b.sectorsPerFat && n == b.reservedSectors + i * b.sectorsPerFat + s
  }

  lemma {:induction false} InCopies(i: nat, s: nat, copies: nat, size: nat)
    requires i < copies && s < size
    ensures i * size + s < copies * size
  {
    Spread(i, copies - i - 1, size);
  }

  lemma {:induction false} CopyOf(d: nat, copies: nat, size: nat)
    requires d < copies * size
    ensures size > 0 && d / size < copies && d == d / size * size + d % size
  {
    NoneInNothing(copies, size);
    var i := d / size;
    assert d == size * i + d % size;
    if i >= copies { OneMore(copies, i - copies, size); }
  }

  lemma {:induction false} NoneInNothing(copies: nat, size: nat)
    requires copies * size > 0
    ensures size > 0
  {
  }

  lemma {:induction false} OneMore(copies: nat, more: nat, size: nat)
    ensures (copies + more) * size >= copies * size
  {
    assert (copies + more) * size == copies * size + more * size;
  }

  /** The root directory begins right behind the last copy of the table. */
  lemma {:induction false} RootBehindFats(b: BiosParameterBlock, n: nat)
    ensures InFat(b, n) <==> b.reservedSectors <= n < FirstRootDirSector(b)
  {
    if InFat(b, n) {
      var i: nat, s: nat :| FatPlace(b, n, i, s);
      InCopies(i, s, b.fatCount, b.sectorsPerFat);
    }
    if b.reservedSectors <= n < FirstRootDirSector(b) {
      var d := n - b.reservedSectors;
      CopyOf(d, b.fatCount, b.sectorsPerFat);
      assert FatPlace(b, n, d / b.sectorsPerFat, d % b.sectorsPerFat);
    }
  }

  /** From the first cluster's sector on, each sector is one of exactly one cluster. */
  lemma {:induction false} OneCluster(b: BiosParameterBlock, n: nat)
    requires b.sectorsPerCluster > 0 && n >= ClustersBase(b)
    ensures exists c: nat :: InCluster(b, n, c) && forall d: nat :: InCluster(b, n, d) ==> d == c
  {
    var d, size := n - ClustersBase(b), b.sectorsPerCluster;
    var c := d / size + 2;
    assert d == size * (c - 2) + d % size;
    assert InCluster(b, n, c);
    forall e: nat | InCluster(b, n, e) ensures e == c {
      if c < e { ClustersApart(b, c, e); } else if e < c { ClustersApart(b, e, c); }
    }
  }

  ghost predicate InCluster(b: BiosParameterBlock, n: nat, c: nat)
  {
    c >= 2 && FirstClusterSector(b, c) <= n < FirstClusterSector(b, c) + b.sectorsPerCluster
  }

  /** The root directory's sectors all come before the clusters just if its entries fill them. */
  lemma {:induction false} RootBeforeClusters(b: BiosParameterBlock)
    ensures RootDirSectorCount(b) * SECTOR_SIZE >= b.rootEntries * DIR_ENTRY_SIZE <==> b.rootEntries % 16 == 0
  {
  }

  /** One entry: there is no sector for it. */
  lemma {:induction false} RootOverlaps(b: BiosParameterBlock)
    requires b.rootEntries == 1
    ensures RootDirSectorCount(b) == 0 && FirstClusterSector(b, 2) == FirstRootDirSector(b)
  {
  }

  // ---------- The flat contents of a chain ----------

  ghost function Sectors(v: Volume, first: nat, n: nat): (r: seq<Byte>)
    requires first + n <= |v.sectors|
    ensures |r| == n * SECTOR_SIZE
    decreases n
  {
    if n == 0 then [] else v.sectors[first] + Sectors(v, first + 1, n - 1)
  }

  /** All of the cluster can be read. */
  ghost predicate ClusterOk(v: Volume, c: nat)
  {
    && c >= 2
    && FirstClusterSector(v.bpb, c) + v.bpb.sectorsPerCluster <= |v.sectors|
    && FirstClusterSector(v.bpb, c) + v.bpb.sectorsPerCluster + v.lba <= LAST_LBA + 1
  }

  /** The table leads from each cluster to the next, and ends. */
  ghost predicate ChainOk(v: Volume, chain: seq<nat>)
    decreases chain
  {
    chain == [] ||
    (&& v.bpb.sectorsPerCluster > 0 && ClusterOk(v, chain[0])
     && NextCluster(v, chain[0], {}) == (if chain[1..] == [] then End else To(chain[1]))
     && ChainOk(v, chain[1..]))
  }

  ghost function Cluster(v: Volume, c: nat): seq<Byte>
    requires ClusterOk(v, c)
  {
    Sectors(v, FirstClusterSector(v.bpb, c), v.bpb.sectorsPerCluster)
  }

  ghost function Flat(v: Volume, chain: seq<nat>): seq<Byte>
    requires ChainOk(v, chain)
    decreases chain
  {
    if chain == [] then [] else Cluster(v, chain[0]) + Flat(v, chain[1..])
  }

  /** A byte of a run of sectors, by its place in the whole. */
  lemma {:induction false} ByteAt(v: Volume, first: nat, n: nat, k: nat)
    requires first + n <= |v.sectors| && k < n * SECTOR_SIZE
    ensures first + k / SECTOR_SIZE < |v.sectors|
    ensures Sectors(v, first, n)[k] == v.sectors[first + k / SECTOR_SIZE][k % SECTOR_SIZE]
    decreases n
  {
    if k >= SECTOR_SIZE {
      var next, less, j := first + 1, n - 1, k - SECTOR_SIZE;
      ByteAt(v, next, less, j);
      assert j / SECTOR_SIZE == k / SECTOR_SIZE - 1 && j % SECTOR_SIZE == k % SECTOR_SIZE;
    } else {
      assert k / SECTOR_SIZE == 0 && k % SECTOR_SIZE == k;
    }
  }

  /**
   What follows a cluster, as the first copy of the table says when it is read as one flat run of
   bytes: entry c is bytes 2c and 2c + 1, the low one first, and any value from 0xfff8 on is an end.
   */
  lemma {:induction false} LinkIsEntry(v: Volume, c: nat, bad: set<nat>)
    requires c < v.bpb.sectorsPerFat * 256 && v.bpb.reservedSectors + v.bpb.sectorsPerFat <= |v.sectors|
    requires v.bpb.reservedSectors + v.bpb.sectorsPerFat + v.lba <= LAST_LBA + 1
    ensures var table := Sectors(v, v.bpb.reservedSectors, v.bpb.sectorsPerFat);
      var entry := table[2 * c] as nat + 256 * (table[2 * c + 1] as nat);
      NextCluster(v, c, bad) ==
        if v.bpb.reservedSectors + 2 * c / SECTOR_SIZE in bad then Failed
        else if entry >= 0xfff8 then End else if entry == 0xfff7 then Crash else To(entry)
  {
    EntryInFat(v.bpb, c);
    var first, n := v.bpb.reservedSectors, v.bpb.sectorsPerFat;
    ByteAt(v, first, n, 2 * c);
    ByteAt(v, first, n, 2 * c + 1);
    SameEntrySector(c);
  }

  lemma {:induction false} SameEntrySector(c: nat)
    ensures (2 * c + 1) / SECTOR_SIZE == 2 * c / SECTOR_SIZE && (2 * c + 1) % SECTOR_SIZE == 2 * c % SECTOR_SIZE + 1
    ensures c * FAT_ENTRY_SIZE == 2 * c
  {
  }

  /** Numbers beyond the table panic. */
  lemma {:induction false} LinkBeyond(v: Volume, c: nat, bad: set<nat>)
    requires c >= v.bpb.sectorsPerFat * 256
    ensures NextCluster(v, c, bad) == Crash
  {
  }

  // ---------- The cursor ----------

  datatype Seek = Seek(cluster: Option<nat>, sector: nat, offset: nat)

  /** The cursor is in the first cluster of what is left of the chain. */
  ghost predicate At(v: Volume, chain: seq<nat>, k: Seek)
  {
    if chain == [] then k == Seek(None, 0, 0)
    else k.cluster == Some(chain[0]) && k.sector < v.bpb.sectorsPerCluster && k.offset <= SECTOR_SIZE
  }

  /** What there is to read from the cursor on. */
  ghost function Left(v: Volume, chain: seq<nat>, k: Seek): seq<Byte>
    requires ChainOk(v, chain) && At(v, chain, k)
  {
    if chain == [] then []
    else Sectors(v, FirstClusterSector(v.bpb, chain[0]) + k.sector, v.bpb.sectorsPerCluster - k.sector)[k.offset..]
         + Flat(v, chain[1..])
  }

  /** A read is over because its buffer is full, the chain ends, a sector cannot be read, or the kernel panics. */
  datatype Why = Full | EndOfFile | FatError | DataError | Panic

  /** The sector to copy from, or the end of the read. */
  datatype Step = Ready(seek: Seek, at: nat) | Stop(why: Why, seek: Seek)

  function Pick(v: Volume, k: Seek, bad: set<nat>): Step
  {
    match k.cluster
    case None => Stop(EndOfFile, k)
    case Some(c) =>
      if c < 2 then Stop(Panic, k) else
      var at := FirstClusterSector(v.bpb, c) + k.sector;
      if !Readable(v, at) then Stop(Panic, k) else if at in bad then Stop(DataError, k) else Ready(k, at)
  }

  /** The cursor goes to the next cluster; its sector is set before the table is read. */
  function Follow(v: Volume, k: Seek, bad: set<nat>): Step
  {
    var z := k.(sector := 0);
    match k.cluster
    case None => Pick(v, z, bad)
    case Some(c) =>
      match NextCluster(v, c, bad)
      case To(d) => Pick(v, z.(cluster := Some(d)), bad)
      case End => Pick(v, z.(cluster := None), bad)
      case Failed => Stop(FatError, z)
      case Crash => Stop(Panic, z)
  }

  function NextSector(v: Volume, k: Seek, bad: set<nat>): Step
  {
    var m := if k.offset == SECTOR_SIZE then Seek(k.cluster, k.sector + 1, 0) else k;
    if m.sector == v.bpb.sectorsPerCluster then Follow(v, m, bad) else Pick(v, m, bad)
  }

  datatype Outcome = Outcome(why: Why, bytes: seq<Byte>, seek: Seek)

  function Min(a: nat, b: nat): nat
  {
    if a < b then a else b
  }

  /** A whole read into a buffer of a length, while some sectors are bad. */
  ghost function Run(v: Volume, k: Seek, len: nat, bad: set<nat>): (r: Outcome)
    requires k.offset <= SECTOR_SIZE
    ensures r.seek.offset <= SECTOR_SIZE
    decreases len
  {
    if len == 0 then Outcome(Full, [], k) else
    match NextSector(v, k, bad)
    case Stop(why, t) => Outcome(why, [], t)
    case Ready(t, at) =>
      var n := Min(SECTOR_SIZE - t.offset, len);
      var r := Run(v, t.(offset := t.offset + n), len - n, bad);
      Outcome(r.why, v.sectors[at][t.offset..t.offset + n] + r.bytes, r.seek)
  }

  /** What the directory says of a file: where its chain begins, and how many bytes it has. */
  datatype DirEntry = DirEntry(firstCluster: nat, size: nat)

  class File {
    const fs: Volume
    const dirent: DirEntry
    var cluster: Option<nat>
    var sector: nat
    var offset: nat

    ghost predicate Valid()
      reads this
    {
      offset <= SECTOR_SIZE
    }

    function Cursor(): Seek
      reads this
    {
      Seek(cluster, sector, offset)
    }

    constructor (fs: Volume, dirent: DirEntry)
      ensures Valid() && this.fs == fs && this.dirent == dirent && Cursor() == Seek(Some(dirent.firstCluster), 0, 0)
    {
      this.fs, this.dirent, cluster, sector, offset := fs, dirent, Some(dirent.firstCluster), 0, 0;
    }

    /** The cursor moves on to the sector to read, as NextSector says. */
    method Move(bad: set<nat>) returns (why: Why, at: nat)
      requires Valid()
      modifies this
      ensures Valid()
      ensures match NextSector(fs, old(Cursor()), bad)
              case Stop(w, t) => why == w && w != Full && Cursor() == t
              case Ready(t, s) => why == Full && at == s && Cursor() == t && s < |fs.sectors| && t.offset < SECTOR_SIZE
    {
      at := 0;
      if offset == SECTOR_SIZE { offset, sector := 0, sector + 1; }
      if sector == fs.bpb.sectorsPerCluster {
        sector := 0;
        if cluster.Some? {
          match NextCluster(fs, cluster.value, bad)
          case To(d) => cluster := Some(d);
          case End => cluster := None;
          case Failed => return FatError, 0;
          case Crash => return Panic, 0;
        }
      }
      if cluster.None? { return EndOfFile, 0; }
      if cluster.value < 2 { return Panic, 0; }
      at := FirstClusterSector(fs.bpb, cluster.value) + sector;
      if !Readable(fs, at) { return Panic, 0; }
      if at in bad { return DataError, 0; }
      return Full, at;
    }

    /** As many bytes of the next sector as it has and as the buffer takes. */
    method ReadPart(buf: array<Byte>, total: nat, bad: set<nat>) returns (why: Why, n: nat)
      requires Valid() && total < buf.Length
      modifies this, buf
      ensures Valid() && total + n <= buf.Length && (why == Full ==> n > 0) && (why != Full ==> n == 0)
      ensures Part(fs, old(Cursor()), Cursor(), buf.Length - total, bad, why, buf[total..total + n])
      ensures buf[..total] == old(buf[..total])
      ensures buf[total + n..] == old(buf[total..])[n..]
    {
      var at;
      why, at := Move(bad);
      if why != Full { return why, 0; }
      n := Min(SECTOR_SIZE - offset, buf.Length - total);
      Copy(buf, total, fs.sectors[at][offset..offset + n]);
      offset := offset + n;
    }

    /** The bytes go to the front of the buffer, and the rest of it stays. */
    method Read(buf: array<Byte>, bad: set<nat>) returns (why: Why, total: nat)
      requires Valid()
      modifies this, buf
      ensures Valid() && total <= buf.Length
      ensures Outcome(why, buf[..total], Cursor()) == Run(fs, old(Cursor()), buf.Length, bad)
      ensures buf[total..] == old(buf[total..])
    {
      total := 0;
      why := Full;
      ghost var goal, contents := Run(fs, Cursor(), buf.Length, bad), buf[..];
      ghost var len: nat := buf.Length;
      while total < buf.Length && why == Full
        invariant Valid() && total + len == buf.Length && buf[total..] == contents[total..]
        invariant if why == Full then Then(buf[..total], Run(fs, Cursor(), len, bad)) == goal
                  else Outcome(why, buf[..total], Cursor()) == goal
        decreases len, why == Full
      {
        why, total, len := Turn(buf, total, len, bad);
      }
    }

    /** One turn of the loop: what is left to do of the whole read, with the bytes it adds, is the same. */
    method Turn(buf: array<Byte>, total: nat, ghost len: nat, bad: set<nat>)
      returns (why: Why, total': nat, ghost len': nat)
      requires Valid() && total < buf.Length && total + len == buf.Length
      modifies this, buf
      ensures Valid() && total' + len' == buf.Length && (if why == Full then len' < len else len' == len)
      ensures Then(old(buf[..total]), Run(fs, old(Cursor()), len, bad)) ==
              if why == Full then Then(buf[..total'], Run(fs, Cursor(), len', bad))
              else Outcome(why, buf[..total'], Cursor())
      ensures total' >= total && buf[total'..] == old(buf[total..])[total' - total..]
    {
      ghost var was, done := Cursor(), buf[..total];
      var n;
      why, n := ReadPart(buf, total, bad);
      total', len' := total + n, len - n;
      assert buf[..total'][total..] == buf[total..total'] && buf[..total'][..total] == buf[..total];
      PartRun(fs, was, Cursor(), len, bad, why, n, done, buf[..total'], len');
    }
  }

  /** What one turn of the loop does to the cursor, and the bytes it yields. */
  ghost predicate Part(v: Volume, k: Seek, m: Seek, len: nat, bad: set<nat>, why: Why, bytes: seq<Byte>)
  {
    match NextSector(v, k, bad)
    case Stop(w, t) => why == w && w != Full && m == t && bytes == []
    case Ready(t, at) =>
      && why == Full && at < |v.sectors| && t.offset < SECTOR_SIZE
      && var n := Min(SECTOR_SIZE - t.offset, len);
      m == t.(offset := t.offset + n) && bytes == v.sectors[at][t.offset..t.offset + n]
  }

  lemma {:induction false} PartRun(v: Volume, k: Seek, m: Seek, len: nat, bad: set<nat>, why: Why, n: nat,
      done: seq<Byte>, now: seq<Byte>, left: nat)
    requires k.offset <= SECTOR_SIZE && m.offset <= SECTOR_SIZE && len > 0 && left == len - n && |now| == |done| + n
    requires now[..|done|] == done && Part(v, k, m, len, bad, why, now[|done|..])
    ensures why == Full ==> Then(done, Run(v, k, len, bad)) == Then(now, Run(v, m, left, bad))
    ensures why != Full ==> Then(done, Run(v, k, len, bad)) == Outcome(why, now, m)
  {
    var bytes := now[|done|..];
    assert now == done + bytes;
    if why == Full {
      var r := Run(v, m, left, bad);
      assert done + (bytes + r.bytes) == now + r.bytes;
    }
  }

  ghost function Then(bytes: seq<Byte>, r: Outcome): Outcome
  {
    Outcome(r.why, bytes + r.bytes, r.seek)
  }

  /** copy_from_slice: some bytes go to a place in the buffer. */
  method Copy(buf: array<Byte>, to: nat, bytes: seq<Byte>)
    requires to + |bytes| <= buf.Length
    modifies buf
    ensures buf[..to] == old(buf[..to]) && buf[to..to + |bytes|] == bytes
      && buf[to + |bytes|..] == old(buf[to + |bytes|..])
  {
    forall i | 0 <= i < |bytes| { buf[to + i] := bytes[i]; }
  }

  // ---------- What a read yields ----------

  lemma {:induction false} FirstSector(v: Volume, first: nat, n: nat, next: nat, fewer: nat)
    requires n > 0 && first + n <= |v.sectors| && next == first + 1 && n == fewer + 1
    ensures Sectors(v, first, n)[..SECTOR_SIZE] == v.sectors[first]
    ensures Sectors(v, first, n)[SECTOR_SIZE..] == Sectors(v, next, fewer)
  {
  }

  /** From the end of a sector to the start of the next. */
  lemma {:induction false} SectorTurn(v: Volume, chain: seq<nat>, k: Seek, m: Seek)
    requires ChainOk(v, chain) && chain != [] && At(v, chain, k) && k.offset == SECTOR_SIZE
    requires m == Seek(k.cluster, k.sector + 1, 0) && m.sector < v.bpb.sectorsPerCluster
    ensures At(v, chain, m) && Left(v, chain, m) == Left(v, chain, k)
  {
    var first, n := FirstClusterSector(v.bpb, chain[0]) + k.sector, v.bpb.sectorsPerCluster - k.sector;
    FirstSector(v, first, n, first + 1, n - 1);
    assert Sectors(v, first + 1, n - 1)[0..] == Sectors(v, first + 1, n - 1);
  }

  /** At the end of a cluster only the following ones are left. */
  lemma {:induction false} ClusterEnd(v: Volume, chain: seq<nat>, k: Seek)
    requires ChainOk(v, chain) && chain != [] && At(v, chain, k) && k.offset == SECTOR_SIZE
    requires k.sector + 1 == v.bpb.sectorsPerCluster
    ensures Left(v, chain, k) == Flat(v, chain[1..])
  {
    assert |Sectors(v, FirstClusterSector(v.bpb, chain[0]) + k.sector, 1)| == SECTOR_SIZE;
  }

  /** At the start of a cluster, it and the following ones are left. */
  lemma {:induction false} ClusterStart(v: Volume, chain: seq<nat>, k: Seek)
    requires ChainOk(v, chain) && chain != [] && k == Seek(Some(chain[0]), 0, 0)
    ensures At(v, chain, k) && Left(v, chain, k) == Flat(v, chain)
  {
    var all := Cluster(v, chain[0]);
    assert all[0..] == all;
  }

  /** Bad sectors do not change a link that can be read. */
  lemma {:induction false} GoodLink(v: Volume, c: nat, bad: set<nat>)
    requires NextCluster(v, c, {}) != Crash
    ensures NextCluster(v, c, bad) == if FatSector(v.bpb, c) in bad then Failed else NextCluster(v, c, {})
  {
  }

  /** In a cluster of the chain, the next sector is ready unless it is bad. */
  lemma {:induction false} PickRight(v: Volume, chain: seq<nat>, k: Seek, bad: set<nat>)
    requires ChainOk(v, chain) && At(v, chain, k)
    ensures Pick(v, k, bad).seek == k && (Pick(v, k, bad).Stop? ==> Pick(v, k, bad).why == if chain == []
      then EndOfFile else DataError)
    ensures chain == [] ==> Pick(v, k, bad).Stop?
    ensures bad == {} && chain != [] ==> Pick(v, k, bad).Ready?
    ensures Pick(v, k, bad).Ready? ==>
      chain != [] && Pick(v, k, bad).at == FirstClusterSector(v.bpb, chain[0]) + k.sector
  {
  }

  /** What a step may do, as seen from what is left to read. */
  ghost predicate StepRight(v: Volume, chain: seq<nat>, k: Seek, bad: set<nat>, s: Step, rest: seq<nat>)
    requires ChainOk(v, chain) && At(v, chain, k)
  {
    && ChainOk(v, rest) && At(v, rest, s.seek)
    && (s.Ready? ==>
         rest != [] && s.seek.offset < SECTOR_SIZE && s.at == FirstClusterSector(v.bpb, rest[0]) + s.seek.sector)
    && (s.Stop? ==> s.why != Panic && s.why != Full && (s.why == EndOfFile <==> rest == []))
    && (bad == {} && s.Stop? ==> s.why == EndOfFile)
    && (s.Stop? && s.why == FatError ==> rest != [] && Left(v, rest, s.seek) == Cluster(v, rest[0]) + Left(v, chain, k))
    && (!(s.Stop? && s.why == FatError) ==> Left(v, rest, s.seek) == Left(v, chain, k))
  }

  lemma {:induction false} FollowRight(v: Volume, chain: seq<nat>, k: Seek, m: Seek, bad: set<nat>)
    returns (rest: seq<nat>)
    requires ChainOk(v, chain) && At(v, chain, k) && chain != [] && k.offset == SECTOR_SIZE
    requires k.sector + 1 == v.bpb.sectorsPerCluster && m == Seek(k.cluster, k.sector + 1, 0)
    ensures StepRight(v, chain, k, bad, Follow(v, m, bad), rest)
  {
    var c, z := chain[0], Seek(k.cluster, 0, 0);
    ClusterEnd(v, chain, k);
    GoodLink(v, c, bad);
    if FatSector(v.bpb, c) in bad {
      ClusterStart(v, chain, z);
      return chain;
    }
    rest := chain[1..];
    if rest == [] {
      PickRight(v, rest, z.(cluster := None), bad);
    } else {
      ClusterStart(v, rest, z.(cluster := Some(rest[0])));
      PickRight(v, rest, z.(cluster := Some(rest[0])), bad);
    }
  }

  lemma {:induction false} NextRight(v: Volume, chain: seq<nat>, k: Seek, bad: set<nat>) returns (rest: seq<nat>)
    requires ChainOk(v, chain) && At(v, chain, k)
    ensures StepRight(v, chain, k, bad, NextSector(v, k, bad), rest)
  {
    if chain == [] || k.offset < SECTOR_SIZE {
      PickRight(v, chain, k, bad);
      return chain;
    }
    var m := Seek(k.cluster, k.sector + 1, 0);
    if m.sector == v.bpb.sectorsPerCluster {
      rest := FollowRight(v, chain, k, m, bad);
    } else {
      SectorTurn(v, chain, k, m);
      PickRight(v, chain, m, bad);
      rest := chain;
    }
  }

  /** The first n bytes from an offset on are in the first sector, and the others come after them. */
  lemma {:induction false} Front(s: seq<Byte>, more: seq<Byte>, first: seq<Byte>, o: nat, n: nat, end: nat)
    requires end == o + n && end <= |first| <= |s| && s[..|first|] == first
    ensures (s[o..] + more)[..n] == first[o..end] && (s[o..] + more)[n..] == s[end..] + more
  {
    forall i | 0 <= i < n ensures s[o..][i] == first[o..end][i] { assert s[..|first|][o + i] == first[o + i]; }
    assert (s[o..] + more)[..n] == s[o..][..n] == first[o..end];
    forall i | 0 <= i < |s| - end ensures s[o..][n..][i] == s[end..][i] { }
    assert s[o..][n..] == s[end..];
  }

  lemma {:induction false} LeftIs(v: Volume, chain: seq<nat>, k: Seek, at: nat, n: nat)
    requires ChainOk(v, chain) && At(v, chain, k) && chain != []
    requires at == FirstClusterSector(v.bpb, chain[0]) + k.sector && n == v.bpb.sectorsPerCluster - k.sector
    ensures at + n <= |v.sectors| && k.offset <= n * SECTOR_SIZE
    ensures Left(v, chain, k) == Sectors(v, at, n)[k.offset..] + Flat(v, chain[1..])
  {
  }

  /** Bytes are copied from the sector the cursor is in. */
  lemma {:induction false} CopyRight(v: Volume, chain: seq<nat>, k: Seek, n: nat, m: Seek, at: nat)
    requires ChainOk(v, chain) && At(v, chain, k) && chain != [] && k.offset + n <= SECTOR_SIZE
    requires at == FirstClusterSector(v.bpb, chain[0]) + k.sector && m == k.(offset := k.offset + n)
    ensures At(v, chain, m) && n <= |Left(v, chain, k)|
    ensures Left(v, chain, k)[..n] == v.sectors[at][k.offset..m.offset]
    ensures Left(v, chain, m) == Left(v, chain, k)[n..]
  {
    var left := v.bpb.sectorsPerCluster - k.sector;
    var s := Sectors(v, at, left);
    FirstSector(v, at, left, at + 1, left - 1);
    var more := Flat(v, chain[1..]);
    LeftIs(v, chain, k, at, left);
    LeftIs(v, chain, m, at, left);
    Front(s, more, v.sectors[at], k.offset, n, m.offset);
  }

  /** What a read of a well-formed chain comes to. */
  ghost predicate RunRight(v: Volume, left: seq<Byte>, len: nat, bad: set<nat>, r: Outcome, rest: seq<nat>)
  {
    && ChainOk(v, rest) && At(v, rest, r.seek)
    && r.why != Panic && |r.bytes| <= |left| && |r.bytes| <= len && r.bytes == left[..|r.bytes|]
    && (r.why == Full <==> |r.bytes| == len)
    && (r.why == EndOfFile ==> r.bytes == left)
    && (bad == {} ==> r.why == Full || r.why == EndOfFile)
    && (r.why == FatError ==> rest != [])
    && Left(v, rest, r.seek) == (if r.why == FatError then Cluster(v, rest[0]) else []) + left[|r.bytes|..]
  }

  lemma {:induction false} PartThen(v: Volume, left: seq<Byte>, n: nat, len: nat, less: nat, bad: set<nat>,
      r: Outcome, rest: seq<nat>)
    requires 0 < n <= |left| && n + less == len && RunRight(v, left[n..], less, bad, r, rest)
    ensures RunRight(v, left, len, bad, Then(left[..n], r), rest)
  {
    var m := |r.bytes|;
    assert left[..n] + left[n..][..m] == left[..n + m];
    assert left[n..][m..] == left[n + m..];
    assert left[..n] + left[n..] == left;
  }

  /**
   A read yields the next bytes of the chain, all that is left or as many as the buffer takes, and
   a disk error is the only other way for it to end. Then the cursor is at the next byte, but if it
   was the table that could not be read: then it is back at the start of the cluster just read.
   */
  lemma {:induction false} ReadRight(v: Volume, chain: seq<nat>, k: Seek, len: nat, bad: set<nat>)
    returns (rest: seq<nat>)
    requires ChainOk(v, chain) && At(v, chain, k)
    ensures RunRight(v, Left(v, chain, k), len, bad, Run(v, k, len, bad), rest)
    decreases len
  {
    var left := Left(v, chain, k);
    if len == 0 {
      NoneRight(v, chain, k, bad);
      return chain;
    }
    rest := NextRight(v, chain, k, bad);
    match NextSector(v, k, bad)
    case Stop(why, t) =>
      StopRight(v, chain, k, len, bad, why, t, rest);
    case Ready(t, at) =>
      var n := Min(SECTOR_SIZE - t.offset, len);
      var m, less := t.(offset := t.offset + n), len - n;
      CopyRight(v, rest, t, n, m, at);
      rest := ReadRight(v, rest, m, less, bad);
      PartThen(v, left, n, len, less, bad, Run(v, m, less, bad), rest);
      RunReady(v, k, len, bad, t, at, n, m, less);
  }

  lemma {:induction false} NoneRight(v: Volume, chain: seq<nat>, k: Seek, bad: set<nat>)
    requires ChainOk(v, chain) && At(v, chain, k)
    ensures RunRight(v, Left(v, chain, k), 0, bad, Outcome(Full, [], k), chain)
  {
    assert Left(v, chain, k)[0..] == Left(v, chain, k);
  }

  lemma {:induction false} StopRight(v: Volume, chain: seq<nat>, k: Seek, len: nat, bad: set<nat>, why: Why, t: Seek,
      rest: seq<nat>)
    requires ChainOk(v, chain) && At(v, chain, k) && StepRight(v, chain, k, bad, Stop(why, t), rest) && len > 0
    ensures RunRight(v, Left(v, chain, k), len, bad, Outcome(why, [], t), rest)
  {
    var left := Left(v, chain, k);
    assert left[0..] == left && [] + left == left;
  }

  lemma {:induction false} RunReady(v: Volume, k: Seek, len: nat, bad: set<nat>, t: Seek, at: nat, n: nat, m: Seek,
      less: nat)
    requires k.offset <= SECTOR_SIZE && len > 0 && NextSector(v, k, bad) == Ready(t, at)
    requires n == Min(SECTOR_SIZE - t.offset, len) && m == t.(offset := t.offset + n) && n + less == len
    ensures Run(v, k, len, bad) == Then(v.sectors[at][t.offset..m.offset], Run(v, m, less, bad))
  {
  }

  // ---------- When a read can be gone on with, and when repeated ----------

  /** How many bytes of its cluster the cursor has before it. */
  ghost function Here(v: Volume, k: Seek): nat
    requires k.sector < v.bpb.sectorsPerCluster && k.offset <= SECTOR_SIZE
  {
    (v.bpb.sectorsPerCluster - k.sector) * SECTOR_SIZE - k.offset
  }

  /** The sector of the next byte, if it is in this cluster. */
  ghost function DataSector(v: Volume, c: nat, k: Seek): nat
    requires c >= 2
  {
    FirstClusterSector(v.bpb, c) + if k.offset == SECTOR_SIZE then k.sector + 1 else k.sector
  }

  /** What is left of the cluster can be read. */
  ghost predicate HereGood(v: Volume, c: nat, k: Seek, bad: set<nat>)
    requires c >= 2
  {
    forall s: nat :: DataSector(v, c, k) <= s < FirstClusterSector(v.bpb, c) + v.bpb.sectorsPerCluster ==> s !in bad
  }

  /**
   The cluster, counted from the cursor's, at whose end a read needs the table and cannot read it:
   the read asks for more than the bytes up to there, no sector of them is bad, and of the table's
   sectors on the way that one is the first bad one.
   */
  ghost function TableFails(v: Volume, chain: seq<nat>, k: Seek, len: nat, bad: set<nat>): Option<nat>
    requires ChainOk(v, chain) && At(v, chain, k)
    decreases chain
  {
    if chain == [] || Here(v, k) >= len || !HereGood(v, chain[0], k, bad) then None
    else if FatSector(v.bpb, chain[0]) in bad then Some(0)
    else if chain[1..] == [] then None
    else Later(TableFails(v, chain[1..], Seek(Some(chain[1]), 0, 0), len - Here(v, k), bad), 1)
  }

  ghost function Later(j: Option<nat>, d: nat): Option<nat>
  {
    match j case None => None case Some(n) => Some(n + d)
  }

  /** The cursor after a step: in the same cluster, or at the start of the next one. */
  lemma {:induction false} StepMeets(v: Volume, chain: seq<nat>, k: Seek, len: nat, bad: set<nat>)
    returns (rest: seq<nat>, d: nat)
    requires ChainOk(v, chain) && At(v, chain, k) && len > 0
    ensures d <= |chain| && rest == chain[d..] && ChainOk(v, rest)
    ensures var s := NextSector(v, k, bad);
      if s.Stop? && s.why == FatError
      then chain != [] && s.seek == Seek(Some(chain[0]), 0, 0) && TableFails(v, chain, k, len, bad) == Some(0)
      else At(v, rest, s.seek) && s == Pick(v, s.seek, bad) && (rest != [] ==> s.seek.offset < SECTOR_SIZE)
           && TableFails(v, chain, k, len, bad) == Later(TableFails(v, rest, s.seek, len, bad), d)
  {
    if chain == [] || k.offset < SECTOR_SIZE {
      PickRight(v, chain, k, bad);
      return chain, 0;
    }
    var m := Seek(k.cluster, k.sector + 1, 0);
    if m.sector < v.bpb.sectorsPerCluster {
      PickRight(v, chain, m, bad);
      SameFails(v, chain, k, m, len, bad);
      return chain, 0;
    }
    GoodLink(v, chain[0], bad);
    if FatSector(v.bpb, chain[0]) in bad { return chain, 0; }
    rest, d := chain[1..], 1;
    PickRight(v, rest, if rest == [] then Seek(None, 0, 0) else Seek(Some(rest[0]), 0, 0), bad);
  }

  lemma {:induction false} SameFails(v: Volume, chain: seq<nat>, k: Seek, m: Seek, len: nat, bad: set<nat>)
    requires ChainOk(v, chain) && chain != [] && At(v, chain, k) && At(v, chain, m)
    requires k.offset == SECTOR_SIZE && m == Seek(k.cluster, k.sector + 1, 0)
    ensures TableFails(v, chain, m, len, bad) == TableFails(v, chain, k, len, bad)
  {
    assert Here(v, m) == Here(v, k);
    assert DataSector(v, chain[0], m) == DataSector(v, chain[0], k);
  }

  /** Copying good bytes changes nothing about it. */
  lemma {:induction false} CopyFails(v: Volume, chain: seq<nat>, k: Seek, len: nat, n: nat, m: Seek, less: nat,
      bad: set<nat>)
    requires ChainOk(v, chain) && chain != [] && At(v, chain, k) && At(v, chain, m)
    requires k.offset < SECTOR_SIZE && m == k.(offset := k.offset + n) && len == less + n
    requires DataSector(v, chain[0], k) !in bad
    ensures TableFails(v, chain, m, less, bad) == TableFails(v, chain, k, len, bad)
  {
    assert Here(v, m) == Here(v, k) - n;
    HereGoodOn(v, chain[0], k, m, bad);
  }

  lemma {:induction false} HereGoodOn(v: Volume, c: nat, k: Seek, m: Seek, bad: set<nat>)
    requires c >= 2 && k.offset < SECTOR_SIZE && m.sector == k.sector && k.offset <= m.offset <= SECTOR_SIZE
    requires DataSector(v, c, k) !in bad
    ensures HereGood(v, c, m, bad) <==> HereGood(v, c, k, bad)
  {
    if HereGood(v, c, m, bad) {
      forall s: nat | DataSector(v, c, k) <= s < FirstClusterSector(v.bpb, c) + v.bpb.sectorsPerCluster
        ensures s !in bad
      {
        assert s == DataSector(v, c, k) || DataSector(v, c, m) <= s;
      }
    }
  }

  /** At the end of the chain and at a bad sector it is not the table that fails. */
  lemma {:induction false} StopFails(v: Volume, chain: seq<nat>, k: Seek, len: nat, bad: set<nat>, why: Why)
    requires ChainOk(v, chain) && At(v, chain, k) && Pick(v, k, bad) == Stop(why, k)
    requires chain != [] ==> k.offset < SECTOR_SIZE
    ensures why != FatError && TableFails(v, chain, k, len, bad) == None
  {
    PickRight(v, chain, k, bad);
    if chain != [] { assert DataSector(v, chain[0], k) in bad; }
  }

  /** A read fails in the table just where the disk says beforehand, and the cursor is at that cluster's start then. */
  lemma {:induction false} RunFails(v: Volume, chain: seq<nat>, k: Seek, len: nat, bad: set<nat>)
    requires ChainOk(v, chain) && At(v, chain, k)
    ensures FailsSo(chain, Run(v, k, len, bad), TableFails(v, chain, k, len, bad))
    decreases len
  {
    if len == 0 { return; }
    var rest, d := StepMeets(v, chain, k, len, bad);
    match NextSector(v, k, bad)
    case Stop(why, t) =>
      if why != FatError { StopFails(v, rest, t, len, bad, why); }
    case Ready(t, at) =>
      PickRight(v, rest, t, bad);
      var n := Min(SECTOR_SIZE - t.offset, len);
      var m, less := t.(offset := t.offset + n), len - n;
      RunReady(v, k, len, bad, t, at, n, m, less);
      CopyFails(v, rest, t, len, n, m, less, bad);
      RunFails(v, rest, m, less, bad);
      FailsLater(chain, d, rest, Run(v, m, less, bad), v.sectors[at][t.offset..m.offset],
          TableFails(v, rest, t, len, bad));
  }

  /** The table failed at the end of cluster j, or did not. */
  ghost predicate FailsSo(chain: seq<nat>, r: Outcome, j: Option<nat>)
  {
    && (r.why == FatError <==> j.Some?)
    && (j.Some? ==> j.value < |chain| && r.seek == Seek(Some(chain[j.value]), 0, 0))
  }

  lemma {:induction false} FailsLater(chain: seq<nat>, d: nat, rest: seq<nat>, r: Outcome, bytes: seq<Byte>,
      j: Option<nat>)
    requires d <= |chain| && rest == chain[d..] && FailsSo(rest, r, j)
    ensures FailsSo(chain, Then(bytes, r), Later(j, d))
  {
  }

  /** The next read goes on where this one ended, unless it needed a bad sector of the table. */
  lemma {:induction false} Resumes(v: Volume, chain: seq<nat>, k: Seek, len: nat, bad: set<nat>)
    returns (rest: seq<nat>)
    requires ChainOk(v, chain) && At(v, chain, k)
    ensures var r := Run(v, k, len, bad);
      && ChainOk(v, rest) && At(v, rest, r.seek) && |r.bytes| <= |Left(v, chain, k)|
      && (Left(v, rest, r.seek) == Left(v, chain, k)[|r.bytes|..] <==> TableFails(v, chain, k, len, bad) == None)
  {
    rest := ReadRight(v, chain, k, len, bad);
    RunFails(v, chain, k, len, bad);
    var r := Run(v, k, len, bad);
    if r.why == FatError { assert |Left(v, rest, r.seek)| == |Cluster(v, rest[0])| + |Left(v, chain, k)[|r.bytes|..]|; }
  }

  /** The first sector of data a read needs is bad, and it gets there. */
  ghost predicate FirstBad(v: Volume, chain: seq<nat>, k: Seek, bad: set<nat>)
    requires ChainOk(v, chain) && At(v, chain, k)
  {
    && chain != []
    && if Here(v, k) > 0 then DataSector(v, chain[0], k) in bad
       else
         var rest := chain[1..];
         && FatSector(v.bpb, chain[0]) !in bad && rest != [] && ChainOk(v, rest)
         && FirstClusterSector(v.bpb, rest[0]) in bad
  }

  /** A read begins at a cluster's start, and the table fails at the end of that very cluster. */
  ghost predicate BackToStart(v: Volume, chain: seq<nat>, k: Seek, len: nat, bad: set<nat>)
    requires ChainOk(v, chain) && At(v, chain, k)
  {
    && chain != []
    && if Here(v, k) > 0 then k.sector == 0 && k.offset == 0 && TableFails(v, chain, k, len, bad) == Some(0)
       else TableFails(v, chain, k, len, bad) == Some(1)
  }

  lemma {:induction false} FirstStep(v: Volume, chain: seq<nat>, k: Seek, bad: set<nat>)
    requires ChainOk(v, chain) && At(v, chain, k)
    ensures FirstBad(v, chain, k, bad) <==> NextSector(v, k, bad).Stop? && NextSector(v, k, bad).why == DataError
  {
    if chain != [] && Here(v, k) == 0 { GoodLink(v, chain[0], bad); }
  }

  /** A read stops at once at a bad sector of data, or copies something, or fails otherwise. */
  lemma {:induction false} StopsAtOnce(v: Volume, chain: seq<nat>, k: Seek, len: nat, bad: set<nat>)
    requires ChainOk(v, chain) && At(v, chain, k)
    ensures var r := Run(v, k, len, bad);
      r.why == DataError && r.bytes == [] <==> len > 0 && FirstBad(v, chain, k, bad)
  {
    FirstStep(v, chain, k, bad);
    if len > 0 && NextSector(v, k, bad).Ready? {
      var t, at := NextSector(v, k, bad).seek, NextSector(v, k, bad).at;
      var rest := NextRight(v, chain, k, bad);
      var n := Min(SECTOR_SIZE - t.offset, len);
      RunReady(v, k, len, bad, t, at, n, t.(offset := t.offset + n), len - n);
    }
  }

  /** A chain is determined by its first cluster. */
  lemma {:induction false} OneChain(v: Volume, a: seq<nat>, b: seq<nat>)
    requires ChainOk(v, a) && ChainOk(v, b) && a != [] && b != [] && a[0] == b[0]
    ensures a == b
    decreases a
  {
    if a[1..] != [] { OneChain(v, a[1..], b[1..]); }
    assert a == [a[0]] + a[1..] && b == [b[0]] + b[1..];
  }

  lemma {:induction false} ChainFrom(v: Volume, chain: seq<nat>, j: nat)
    requires ChainOk(v, chain) && j <= |chain|
    ensures ChainOk(v, chain[j..]) && |Flat(v, chain[j..])| <= |Flat(v, chain)|
    ensures j > 0 ==> |Flat(v, chain[j..])| < |Flat(v, chain)|
    decreases chain
  {
    if j > 0 {
      ChainFrom(v, chain[1..], j - 1);
      assert chain[1..][j - 1..] == chain[j..];
    } else {
      assert chain[0..] == chain;
    }
  }

  lemma {:induction false} LeftSize(v: Volume, chain: seq<nat>, k: Seek)
    requires ChainOk(v, chain) && chain != [] && At(v, chain, k)
    ensures |Left(v, chain, k)| == Here(v, k) + |Flat(v, chain[1..])|
    ensures Here(v, k) == 0 ==> Left(v, chain, k) == Flat(v, chain[1..])
  {
  }

  /** Where the table failed at the end of cluster j, the read begins anew from what it began with in two cases. */
  lemma {:induction false} SameAgain(v: Volume, chain: seq<nat>, k: Seek, j: nat)
    requires ChainOk(v, chain) && At(v, chain, k) && j < |chain|
    ensures ChainOk(v, chain[j..])
    ensures Flat(v, chain[j..]) == Left(v, chain, k) <==>
      if Here(v, k) > 0 then j == 0 && k.sector == 0 && k.offset == 0 else j == 1
  {
    LeftSize(v, chain, k);
    ChainFrom(v, chain, j);
    if j == 0 {
      assert chain[0..] == chain;
      if k.sector == 0 && k.offset == 0 { ClusterStart(v, chain, k); }
    } else {
      ChainFrom(v, chain[1..], j - 1);
      assert chain[1..][j - 1..] == chain[j..];
    }
  }

  /**
   A read that failed on the disk can be repeated, and yields what it would have yielded, just if it
   stopped at the first sector of data, or began at the start of the cluster it was put back to.
   */
  lemma {:induction false} Repeats(v: Volume, chain: seq<nat>, k: Seek, len: nat, bad: set<nat>)
    returns (rest: seq<nat>)
    requires ChainOk(v, chain) && At(v, chain, k)
    ensures var r := Run(v, k, len, bad);
      && ChainOk(v, rest) && At(v, rest, r.seek)
      && ((r.why == FatError || r.why == DataError) && Left(v, rest, r.seek) == Left(v, chain, k) <==>
            (len > 0 && FirstBad(v, chain, k, bad)) || BackToStart(v, chain, k, len, bad))
  {
    rest := ReadRight(v, chain, k, len, bad);
    RunFails(v, chain, k, len, bad);
    StopsAtOnce(v, chain, k, len, bad);
    match TableFails(v, chain, k, len, bad)
    case None => NoTable(v, chain, k, len, bad, rest);
    case Some(j) =>
      ChainFrom(v, chain, j);
      OneChain(v, rest, chain[j..]);
      ClusterStart(v, rest, Run(v, k, len, bad).seek);
      SameAgain(v, chain, k, j);
  }

  lemma {:induction false} NoTable(v: Volume, chain: seq<nat>, k: Seek, len: nat, bad: set<nat>, rest: seq<nat>)
    requires ChainOk(v, chain) && At(v, chain, k) && Run(v, k, len, bad).why != FatError
    requires RunRight(v, Left(v, chain, k), len, bad, Run(v, k, len, bad), rest)
    ensures Left(v, rest, Run(v, k, len, bad).seek) == Left(v, chain, k) <==> Run(v, k, len, bad).bytes == []
  {
    var left, n := Left(v, chain, k), |Run(v, k, len, bad).bytes|;
    assert |left[n..]| == |left| - n && left[0..] == left && [] + left[n..] == left[n..];
  }

  ghost function Sum(sizes: seq<nat>): nat
  {
    if sizes == [] then 0 else sizes[0] + Sum(sizes[1..])
  }

  /** One read after the other, from a disk without errors. */
  ghost function Reads(v: Volume, k: Seek, sizes: seq<nat>): seq<Byte>
    requires k.offset <= SECTOR_SIZE
    decreases sizes
  {
    if sizes == [] then [] else
    var r := Run(v, k, sizes[0], {});
    r.bytes + Reads(v, r.seek, sizes[1..])
  }

  lemma {:induction false} ReadThen(left: seq<Byte>, n: nat, size: nat, more: nat)
    requires n == Min(size, |left|)
    ensures left[..n] + left[n..][..Min(more, |left[n..]|)] == left[..Min(size + more, |left|)]
  {
    var m := Min(more, |left[n..]|);
    assert left[..n] + left[n..][..m] == left[..n + m];
  }

  /** Without errors a read is short just at the end of the chain. */
  lemma {:induction false} GoodRead(v: Volume, chain: seq<nat>, k: Seek, len: nat) returns (rest: seq<nat>)
    requires ChainOk(v, chain) && At(v, chain, k)
    ensures ChainOk(v, rest) && At(v, rest, Run(v, k, len, {}).seek)
    ensures var left, n := Left(v, chain, k), Min(len, |Left(v, chain, k)|);
      Run(v, k, len, {}).bytes == left[..n] && Left(v, rest, Run(v, k, len, {}).seek) == left[n..]
  {
    rest := ReadRight(v, chain, k, len, {});
    var left, r := Left(v, chain, k), Run(v, k, len, {});
    assert [] + left[|r.bytes|..] == left[|r.bytes|..];
  }

  /** Reads of any sizes together yield the chain's bytes, up to the total asked for. */
  lemma {:induction false} ReadsRight(v: Volume, chain: seq<nat>, k: Seek, sizes: seq<nat>)
    requires ChainOk(v, chain) && At(v, chain, k)
    ensures Reads(v, k, sizes) == Left(v, chain, k)[..Min(Sum(sizes), |Left(v, chain, k)|)]
    decreases sizes
  {
    if sizes != [] {
      var size, others := sizes[0], sizes[1..];
      var left, r := Left(v, chain, k), Run(v, k, size, {});
      var rest := GoodRead(v, chain, k, size);
      ReadsRight(v, rest, r.seek, others);
      ReadThen(left, |r.bytes|, size, Sum(others));
    }
  }

  /** How the reads are cut does not matter. */
  lemma {:induction false} CutsAlike(v: Volume, chain: seq<nat>, k: Seek, sizes: seq<nat>, others: seq<nat>)
    requires ChainOk(v, chain) && At(v, chain, k) && Sum(sizes) == Sum(others)
    ensures Reads(v, k, sizes) == Reads(v, k, others)
  {
    ReadsRight(v, chain, k, sizes);
    ReadsRight(v, chain, k, others);
  }

  /** A file just opened has all of its clusters to read, to the last byte of the last one, whatever its size. */
  lemma {:induction false} WholeFile(v: Volume, chain: seq<nat>, len: nat)
    requires ChainOk(v, chain) && chain != [] && len >= |Flat(v, chain)|
    ensures Run(v, Seek(Some(chain[0]), 0, 0), len, {}).bytes == Flat(v, chain)
    ensures |Flat(v, chain)| == |chain| * (v.bpb.sectorsPerCluster * SECTOR_SIZE)
  {
    ClusterStart(v, chain, Seek(Some(chain[0]), 0, 0));
    var rest := GoodRead(v, chain, Seek(Some(chain[0]), 0, 0), len);
    FlatLength(v, chain, v.bpb.sectorsPerCluster * SECTOR_SIZE);
  }

  /** So as many bytes as the directory says come out just if the file fills its clusters. */
  lemma {:induction false} SizeRight(v: Volume, e: DirEntry, chain: seq<nat>, len: nat)
    requires ChainOk(v, chain) && chain != [] && e.firstCluster == chain[0] && len >= |Flat(v, chain)|
    ensures |Run(v, Seek(Some(e.firstCluster), 0, 0), len, {}).bytes| == e.size <==>
      e.size == |chain| * (v.bpb.sectorsPerCluster * SECTOR_SIZE)
  {
    WholeFile(v, chain, len);
  }

  lemma {:induction false} FlatLength(v: Volume, chain: seq<nat>, bytes: nat)
    requires ChainOk(v, chain) && bytes == v.bpb.sectorsPerCluster * SECTOR_SIZE
    ensures |Flat(v, chain)| == |chain| * bytes
    decreases chain
  {
    if chain != [] {
      FlatLength(v, chain[1..], bytes);
      assert |Cluster(v, chain[0])| == bytes;
      assert |chain| * bytes == (|chain| - 1) * bytes + bytes;
    }
  }

  // ---------- Reads that go wrong ----------

  function Filled(b: Byte): Sector
  {
    seq(512, _ => b)
  }

  /** A table with cluster 3 after cluster 2, and no other after that. */
  function SmallTable(): Sector
  {
    seq(512, i => if i == 4 then 3 else if i == 6 || i == 7 then 255 else 0)
  }

  /** Two clusters of a sector each: the one all ones, the other all twos. */
  function SmallVolume(): Volume
  {
    Volume(BiosParameterBlock(1, 1, 1, 16, 1), 0, [Filled(0), SmallTable(), Filled(0), Filled(1), Filled(2)])
  }

  lemma {:induction false} SmallChain()
    ensures ChainOk(SmallVolume(), [2, 3]) && At(SmallVolume(), [2, 3], Seek(Some(2), 0, SECTOR_SIZE))
  {
    var v := SmallVolume();
    assert FatSector(v.bpb, 2) == 1 && FatSector(v.bpb, 3) == 1;
    assert NextCluster(v, 2, {}) == To(3);
    assert NextCluster(v, 3, {}) == End;
    assert ChainOk(v, [3]) by { assert [3][1..] == []; }
    assert [2, 3][1..] == [3];
  }

  lemma {:induction false} OneByte(v: Volume, k: Seek, t: Seek, at: nat)
    requires k.offset <= SECTOR_SIZE && NextSector(v, k, {}) == Ready(t, at) && at < |v.sectors|
      && t.offset < SECTOR_SIZE
    ensures Run(v, k, 1, {}).bytes == [v.sectors[at][t.offset]]
  {
    var m := t.(offset := t.offset + 1);
    assert Run(v, m, 0, {}).bytes == [];
    RunReady(v, k, 1, {}, t, at, 1, m, 0);
  }

  /**
   After the first cluster the next byte is a two. Had the table failed once, the cursor would be
   back at the start of that cluster, and the next byte be a one again.
   */
  lemma {:induction false} TableErrorRewinds()
    ensures ChainOk(SmallVolume(), [2, 3]) && At(SmallVolume(), [2, 3], Seek(Some(2), 0, SECTOR_SIZE))
    ensures var v, k := SmallVolume(), Seek(Some(2), 0, SECTOR_SIZE);
      && Run(v, k, 1, {}).bytes == [2]
      && Run(v, k, 1, {1}) == Outcome(FatError, [], Seek(Some(2), 0, 0))
      && Run(v, Run(v, k, 1, {1}).seek, 1, {}).bytes == [1]
  {
    var v, k := SmallVolume(), Seek(Some(2), 0, SECTOR_SIZE);
    SmallChain();
    assert NextCluster(v, 2, {}) == To(3) && NextCluster(v, 2, {1}) == Failed;
    OneByte(v, k, Seek(Some(3), 0, 0), 4);
    OneByte(v, Seek(Some(2), 0, 0), Seek(Some(2), 0, 0), 3);
  }

  /**
   The second cluster cannot be read: the read ends with an error, and the first cluster's bytes, of
   which the caller is not told, are passed over.
   */
  lemma {:induction false} DataErrorSkips()
    ensures var v, k := SmallVolume(), Seek(Some(2), 0, 0);
      && ChainOk(v, [2, 3]) && At(v, [2, 3], k) && TableFails(v, [2, 3], k, 1024, {4}) == None
      && Run(v, k, 1024, {4}).why == DataError && |Run(v, k, 1024, {4}).bytes| == 512
      && Run(v, k, 1, {}).bytes == [1] && Run(v, Run(v, k, 1024, {4}).seek, 1, {}).bytes == [2]
  {
    SmallChain();
    var v, k := SmallVolume(), Seek(Some(2), 0, 0);
    var m := Seek(Some(2), 0, SECTOR_SIZE);
    assert NextCluster(v, 2, {4}) == To(3);
    assert NextSector(v, k, {4}) == Ready(k, 3);
    RunReady(v, k, 1024, {4}, k, 3, 512, m, 512);
    assert NextSector(v, m, {4}) == Stop(DataError, Seek(Some(3), 0, 0));
    assert Run(v, m, 512, {4}) == Outcome(DataError, [], Seek(Some(3), 0, 0));
    OneByte(v, k, k, 3);
    OneByte(v, Seek(Some(3), 0, 0), Seek(Some(3), 0, 0), 4);
    RunFails(v, [2, 3], k, 1024, {4});
  }

  /** A file of a thousand bytes: 1024 come out. */
  lemma {:induction false} SizeIgnored()
    ensures var v, e := SmallVolume(), DirEntry(2, 1000);
      ChainOk(v, [2, 3]) && |Run(v, Seek(Some(e.firstCluster), 0, 0), 2000, {}).bytes| == 1024
  {
    SmallChain();
    WholeFile(SmallVolume(), [2, 3], 2000);
  }
}
