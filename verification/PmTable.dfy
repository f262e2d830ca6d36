/** Reading the PM table: smu_read_pm_table of ugreen/ryzen-smu-amkillam/smu.c with its cached
    geometry, and the life of the buffer it fills, from ryzen_smu_probe to every pm_table_show
    of ugreen/ryzen-smu-amkillam/drv.c.  The per-chip size tables are a parameter. */
module PmTable {
  import opened Words
  import opened SmuCommand
  import opened BaseAddress

  const PM_TABLE_MAX_SIZE: nat := 0x1AB0
  const PRIMARY_SPLIT: u32 := 0x608
  const SECONDARY_SPLIT: u32 := 0xA4
  const NO_VERSION: u32 := 0xDEAD_C0DE
  const INSUFFICIENT_SIZE: u32 := 0xF8
  const MAPPED_ERROR: u32 := 0xF7
  const PAGE_SIZE: nat := 4096
  const RETRIES_MIN: u32 := 500
  const RETRIES_MAX: u32 := 32768

  /** `split` chips have a primary and a secondary table; `versioned` ones look their size up. */
  datatype Chip = Chip(ch: Channel, split: bool, versioned: bool, sizes: u32 -> Option<u32>)

  /** Probe clamps the number of attempts. */
  ghost predicate ValidChip(c: Chip) {
    && (c.split ==> c.ch.cls == TwoTables && !c.versioned)
    && RETRIES_MIN <= c.ch.attempts <= RETRIES_MAX
    && (forall v: u32 :: c.sizes(v).Some? ==> c.sizes(v).value > 0)
  }

  /** What the hardware and the kernel answer during one read: the base commands, the version
      command, whether a refresh is due, the transfers, and the two mappings. */
  datatype Env = Env(
    base: Commands, version: Answer, due: bool, transfer: u32, transferAlt: u32, mapped: bool, mappedAlt: bool)

  /** The cached part of g_smu; the windows hold the mapped physical addresses. */
  datatype Cache = Cache(
    base: u64, baseAlt: u32, size: u32, sizeAlt: u32, window: Option<u64>, windowAlt: Option<u32>)

  const EMPTY: Cache := Cache(0, 0, 0, 0, None, None)

  // ---------- Geometry ----------

  predicate NeedsFetch(g: Cache) {
    g.base == 0 || g.size == 0
  }

  /** The size, once the base has been fetched, unless that is a return code. */
  function Settle(c: Chip, g: Cache, env: Env): (Option<u32>, Cache) {
    if g.base < 0xFF then (Some(g.base), g)
    else if c.versioned && env.version.ret != OK then (Some(env.version.ret), g)
    else if c.split then
      (None, g.(sizeAlt := SECONDARY_SPLIT, size := PRIMARY_SPLIT + SECONDARY_SPLIT,
                baseAlt := g.base / TWO32, base := g.base % TWO32))
    else
      match c.sizes(if c.versioned then env.version.arg0 else NO_VERSION)
      case None => (Some(UNSUPPORTED), g)
      case Some(n) => (None, g.(size := n))
  }

  /** Fetches the geometry unless it is cached; gives the code of an early return, if any. */
  function Fetch(c: Chip, g: Cache, env: Env): (Option<u32>, Cache) {
    if !NeedsFetch(g) then (None, g) else Settle(c, g.(base := DramBase(c.ch, env.base)), env)
  }

  // ---------- One read ----------

  /** A read returns a code, or faults by copying from the missing second window. */
  datatype Outcome = Returned(ret: u32) | Fault

  datatype Read = Read(outcome: Outcome, len: nat, cache: Cache, filled: bool)

  predicate Ready(g: Cache) {
    g.size >= g.sizeAlt
  }

  /** Maps the windows unless the first is there already. */
  function MapWindows(g: Cache, env: Env): (bool, Cache) {
    if g.window.Some? then (true, g)
    else if !env.mapped then (false, g)
    else
      var g1 := g.(window := Some(g.base));
      if g.sizeAlt == 0 then (true, g1)
      else if !env.mappedAlt then (false, g1)
      else (true, g1.(windowAlt := Some(g.baseAlt)))
  }

  function Transfer(g: Cache, env: Env): u32 {
    if !env.due then OK
    else if env.transfer != OK then env.transfer
    else if g.sizeAlt != 0 then env.transferAlt
    else OK
  }

  function ReadTable(c: Chip, g: Cache, len: nat, env: Env): Read {
    var (early, g1) := Fetch(c, g, env);
    if early.Some? then Read(Returned(early.value), len, g1, false)
    else if len < g1.size then Read(Returned(INSUFFICIENT_SIZE), g1.size, g1, false)
    else if Transfer(g1, env) != OK then Read(Returned(Transfer(g1, env)), g1.size, g1, false)
    else
      var (ok, g2) := MapWindows(g1, env);
      if !ok then Read(Returned(MAPPED_ERROR), g1.size, g2, false)
      else if g2.sizeAlt != 0 && g2.windowAlt.None? then Read(Fault, g1.size, g2, false)
      else Read(Returned(OK), g1.size, g2, true)
  }

  /** The bytes of physical memory. */
  type Dram = nat -> u8

  function Copy(dram: Dram, addr: nat, n: nat): seq<u8> {
    seq(n, i requires 0 <= i => dram(addr + i))
  }

  /** The whole table as the windows show it: the primary part, then the secondary. */
  function Table(dram: Dram, g: Cache): seq<u8>
    requires Ready(g) && g.window.Some? && (g.sizeAlt != 0 ==> g.windowAlt.Some?)
  {
    Copy(dram, g.window.value, g.size - g.sizeAlt)
    + (if g.sizeAlt != 0 then Copy(dram, g.windowAlt.value, g.sizeAlt) else [])
  }

  /** Byte by byte: the primary part at its window, the secondary after it at its own. */
  lemma TableBytes(dram: Dram, g: Cache, i: nat)
    requires Ready(g) && g.window.Some? && (g.sizeAlt != 0 ==> g.windowAlt.Some?)
    ensures |Table(dram, g)| == g.size
    ensures i < g.size - g.sizeAlt ==> Table(dram, g)[i] == dram(g.window.value + i)
    ensures i < g.sizeAlt ==> Table(dram, g)[g.size - g.sizeAlt + i] == dram(g.windowAlt.value + i)
  {
  }

  /** The buffer with some of its bytes replaced, from the given offset on. */
  function Overlay(s: seq<u8>, at: nat, bytes: seq<u8>): seq<u8>
    requires at + |bytes| <= |s|
  {
    s[..at] + bytes + s[at + |bytes|..]
  }

  lemma FetchReady(c: Chip, g: Cache, env: Env)
    requires ValidChip(c) && Ready(g) && (g.sizeAlt != 0 ==> c.split)
    ensures var (early, g1) := Fetch(c, g, env);
            Ready(g1) && (g1.sizeAlt != 0 ==> c.split) && g1.window == g.window && g1.windowAlt == g.windowAlt
            && (early.None? ==> g1.size > 0)
  {
  }

  /** On a split chip the two cached bases put together are the base that was fetched, and
      they are the answers to the two base requests. */
  lemma SplitBase(c: Chip, g: Cache, env: Env)
    requires ValidChip(c) && c.split && NeedsFetch(g) && Fetch(c, g, env).0.None?
    ensures var g1 := Fetch(c, g, env).1;
            && g1.baseAlt * TWO32 + g1.base == DramBase(c.ch, env.base)
            && ((forall k: nat :: k < 5 ==> Answers(c.ch, env.base)(k).ret == OK) ==>
                  g1.base == Answers(c.ch, env.base)(1).arg0 && g1.baseAlt == Answers(c.ch, env.base)(4).arg0)
  {
  }

  /** A read that answers OK has filled the buffer, except when the geometry was still to be
      fetched and the base came back as 1, which is taken for the code OK. */
  lemma OkFills(c: Chip, g: Cache, len: nat, env: Env)
    requires ValidChip(c)
    ensures var r := ReadTable(c, g, len, env);
            && (r.filled ==> r.outcome == Returned(OK) && r.len == r.cache.size <= len)
            && (r.outcome == Returned(OK) ==>
                  (r.filled <==> !(NeedsFetch(g) && DramBase(c.ch, env.base) == OK)))
  {
    var g1 := Fetch(c, g, env).1;
    if NeedsFetch(g) && DramBase(c.ch, env.base) >= 0xFF && Fetch(c, g, env).0.Some? {
      assert Fetch(c, g, env).0.value != OK;
    }
  }

  /** Within reach of the cache: a second window is never mapped without the first. */
  predicate Coherent(c: Chip, g: Cache) {
    && Ready(g)
    && (g.sizeAlt != 0 ==> c.split)
    && (g.window.Some? ==> g.size > 0)
    && (g.windowAlt.Some? ==> g.window.Some?)
    && (c.split && g.size > 0 ==> g.sizeAlt == SECONDARY_SPLIT && g.size == PRIMARY_SPLIT + SECONDARY_SPLIT)
  }

  lemma CoherentKept(c: Chip, g: Cache, len: nat, env: Env)
    requires ValidChip(c) && Coherent(c, g)
    ensures Coherent(c, ReadTable(c, g, len, env).cache)
  {
  }

  /** A read faults exactly when it gets to the copy and an earlier one mapped the primary
      table but not the secondary. */
  lemma FaultsWhen(c: Chip, g: Cache, len: nat, env: Env)
    requires ValidChip(c) && Coherent(c, g)
    ensures ReadTable(c, g, len, env).outcome == Fault <==>
              && c.split && g.window.Some? && g.windowAlt.None?
              && Fetch(c, g, env).0.None? && g.size <= len && Transfer(Fetch(c, g, env).1, env) == OK
  {
  }

  class Reader {
    const chip: Chip
    const dram: Dram
    var cache: Cache

    constructor (c: Chip, d: Dram)
      requires ValidChip(c)
      ensures chip == c && dram == d && cache == EMPTY
    {
      chip, dram, cache := c, d, EMPTY;
    }

    /** `len` is the size of the buffer as the caller knows it. */
    method SmuReadPmTable(dst: array<u8>, len: nat, env: Env) returns (outcome: Outcome, newLen: nat)
      requires ValidChip(chip) && Coherent(chip, cache) && len <= dst.Length
      modifies `cache, dst
      ensures Coherent(chip, cache)
      ensures var r := ReadTable(chip, old(cache), len, env);
              && outcome == r.outcome && newLen == r.len && cache == r.cache
              && (r.filled ==> newLen <= dst.Length && dst[..] == Overlay(old(dst[..]), 0, Table(dram, cache)))
              && (outcome.Returned? && !r.filled ==> dst[..] == old(dst[..]))
    {
      newLen := len;
      FetchReady(chip, cache, env);
      CoherentKept(chip, cache, len, env);
      var early := FetchGeometry(env);
      if early.Some? {
        return Returned(early.value), newLen;
      }
      newLen := cache.size;
      if len < cache.size {
        return Returned(INSUFFICIENT_SIZE), newLen;
      }
      var code := Transfer(cache, env);
      if code != OK {
        return Returned(code), newLen;
      }
      var ok := MapOnce(env);
      if !ok {
        return Returned(MAPPED_ERROR), newLen;
      }
      if cache.sizeAlt != 0 && cache.windowAlt.None? {
        return Fault, newLen;
      }
      CopyTable(dst);
      outcome := Returned(OK);
    }

    /** The part of a read that runs until base and size are known. */
    method FetchGeometry(env: Env) returns (early: Option<u32>)
      requires ValidChip(chip)
      modifies `cache
      ensures (early, cache) == Fetch(chip, old(cache), env)
    {
      if cache.base != 0 && cache.size != 0 {
        return None;
      }
      var base, _ := SmuGetDramBaseAddress(chip.ch, env.base);
      cache := cache.(base := base);
      early := SettleGeometry(env);
    }

    method SettleGeometry(env: Env) returns (early: Option<u32>)
      requires ValidChip(chip)
      modifies `cache
      ensures (early, cache) == Settle(chip, old(cache), env)
    {
      if cache.base < 0xFF {
        return Some(cache.base);
      }
      var version := NO_VERSION;
      if chip.versioned {
        if env.version.ret != OK {
          return Some(env.version.ret);
        }
        version := env.version.arg0;
      }
      early := UpdateSize(version);
    }

    /** smu_update_pmtable_size. */
    method UpdateSize(version: u32) returns (failed: Option<u32>)
      modifies `cache
      ensures chip.split ==>
                && failed.None? && cache.base < TWO32
                && cache.baseAlt * TWO32 + cache.base == old(cache).base
                && cache == old(cache).(sizeAlt := SECONDARY_SPLIT, size := PRIMARY_SPLIT + SECONDARY_SPLIT,
                                        baseAlt := cache.baseAlt, base := cache.base)
      ensures !chip.split && chip.sizes(version).None? ==> failed == Some(UNSUPPORTED) && cache == old(cache)
      ensures !chip.split && chip.sizes(version).Some? ==>
                failed.None? && cache == old(cache).(size := chip.sizes(version).value)
    {
      failed := None;
      if chip.split {
        cache := cache.(sizeAlt := SECONDARY_SPLIT);
        cache := cache.(size := PRIMARY_SPLIT + cache.sizeAlt);
        cache := cache.(baseAlt := cache.base / TWO32);
        cache := cache.(base := cache.base % TWO32);
      } else if chip.sizes(version).None? {
        failed := Some(UNSUPPORTED);
      } else {
        cache := cache.(size := chip.sizes(version).value);
      }
    }

    method MapOnce(env: Env) returns (ok: bool)
      modifies `cache
      ensures (ok, cache) == MapWindows(old(cache), env)
    {
      if cache.window.None? {
        if !env.mapped {
          return false;
        }
        cache := cache.(window := Some(cache.base));
        if cache.sizeAlt != 0 {
          if !env.mappedAlt {
            return false;
          }
          cache := cache.(windowAlt := Some(cache.baseAlt));
        }
      }
      ok := true;
    }

    method CopyTable(dst: array<u8>)
      requires Ready(cache) && cache.window.Some? && (cache.sizeAlt != 0 ==> cache.windowAlt.Some?)
      requires cache.size <= dst.Length
      modifies dst
      ensures dst[..] == Overlay(old(dst[..]), 0, Table(dram, cache))
    {
      var primary := cache.size - cache.sizeAlt;
      CopyFromIo(dst, 0, cache.window.value, primary);
      if cache.sizeAlt != 0 {
        CopyFromIo(dst, primary, cache.windowAlt.value, cache.sizeAlt);
      }
    }

    method CopyFromIo(dst: array<u8>, at: nat, addr: nat, n: nat)
      requires at + n <= dst.Length
      modifies dst
      ensures dst[..] == Overlay(old(dst[..]), at, Copy(dram, addr, n))
    {
      for i := 0 to n
        invariant forall k :: at <= k < at + i ==> dst[k] == dram(addr + k - at)
        invariant forall k :: 0 <= k < dst.Length && !(at <= k < at + i) ==> dst[k] == old(dst[k])
      {
        dst[at + i] := dram(addr + i);
      }
    }
  }

  // ---------- From probe to show ----------

  /** `readSize` is what the driver takes the buffer's size to be. */
  datatype Session = Session(cache: Cache, readSize: nat, published: bool)

  datatype Boot = Boot(rsmu: bool, transfer: u32, version: u32, buffer: bool, env: Env)

  /** The PM-table part of ryzen_smu_probe, from a fresh module. */
  function Probe(c: Chip, boot: Boot): Session {
    if !boot.rsmu || boot.transfer != OK || (boot.version != OK && boot.version != UNSUPPORTED) || !boot.buffer then
      Session(EMPTY, PM_TABLE_MAX_SIZE, false)
    else
      var r := ReadTable(c, EMPTY, PM_TABLE_MAX_SIZE, boot.env);
      Session(r.cache, r.len, r.outcome == Returned(OK))
  }

  function Show(c: Chip, s: Session, env: Env): (Read, Session) {
    var r := ReadTable(c, s.cache, s.readSize, env);
    (r, Session(r.cache, r.len, s.published))
  }

  /** Every one of these shows writes no more than was allocated. */
  predicate ShowsFit(c: Chip, s: Session, envs: seq<Env>)
    decreases |envs|
  {
    envs != [] ==>
      && (Show(c, s, envs[0]).0.filled ==> Show(c, s, envs[0]).0.len <= PM_TABLE_MAX_SIZE)
      && ShowsFit(c, Show(c, s, envs[0]).1, envs[1..])
  }

  /** The table's size is known and fits. */
  predicate Known(c: Chip, s: Session) {
    && Coherent(c, s.cache)
    && 0 < s.cache.size == s.readSize <= PM_TABLE_MAX_SIZE
    && (!c.split ==> s.cache.base != 0)
  }

  /** What probe publishes has a known size, unless the base came back as 1. */
  lemma ProbePublishes(c: Chip, boot: Boot)
    requires ValidChip(c) && Probe(c, boot).published
    ensures var s := Probe(c, boot);
            if DramBase(c.ch, boot.env.base) == OK
            then s == Session(EMPTY.(base := OK), PM_TABLE_MAX_SIZE, true)
            else Known(c, s) && s.cache.window.Some? && (c.split ==> s.cache.windowAlt.Some?)
  {
    OkFills(c, EMPTY, PM_TABLE_MAX_SIZE, boot.env);
    CoherentKept(c, EMPTY, PM_TABLE_MAX_SIZE, boot.env);
  }

  /** Once known, the size never changes, whatever the hardware answers later. */
  lemma {:induction false} KnownForever(c: Chip, s: Session, envs: seq<Env>)
    requires ValidChip(c) && Known(c, s)
    ensures ShowsFit(c, s, envs)
    ensures forall env :: var s' := Show(c, s, env).1; Known(c, s') && s'.readSize == s.readSize
    decreases |envs|
  {
    forall env ensures var s' := Show(c, s, env).1; Known(c, s') && s'.readSize == s.readSize {
      CoherentKept(c, s.cache, s.readSize, env);
    }
    if envs == [] {
    } else {
      KnownForever(c, Show(c, s, envs[0]).1, envs[1..]);
    }
  }

  lemma ShowKeepsKnown(c: Chip, s: Session, env: Env)
    requires ValidChip(c)
    ensures var s' := Show(c, s, env).1; Known(c, s) ==> Known(c, s') && s'.readSize == s.readSize
  {
    if Known(c, s) {
      KnownForever(c, s, []);
    }
  }

  /** A size that a fetch on this chip can come up with. */
  ghost predicate PossibleSize(c: Chip, n: u32) {
    if c.split then n == PRIMARY_SPLIT + SECONDARY_SPLIT
    else if c.versioned then exists v: u32 :: c.sizes(v) == Some(n)
    else c.sizes(NO_VERSION) == Some(n)
  }

  lemma {:induction false} SmallChipFits(c: Chip, s: Session, envs: seq<Env>)
    requires ValidChip(c) && Coherent(c, s.cache) && s.cache.size == 0 && s.readSize == PM_TABLE_MAX_SIZE
    requires forall n: u32 :: PossibleSize(c, n) ==> n <= PM_TABLE_MAX_SIZE
    ensures ShowsFit(c, s, envs)
    decreases |envs|
  {
    if envs == [] {
    } else {
      var (r, s') := Show(c, s, envs[0]);
      CoherentKept(c, s.cache, s.readSize, envs[0]);
      var (early, g1) := Fetch(c, s.cache, envs[0]);
      assert early.None? ==> PossibleSize(c, g1.size);
      if s'.cache.size == 0 {
        SmallChipFits(c, s', envs[1..]);
      } else {
        KnownForever(c, s', envs[1..]);
      }
    }
  }

  lemma ObligingBase(ch: Channel, arg0: u32, arg1: u32)
    requires !Undefined(ch.mb)
    ensures DramBase(ch, _ => Obliging(arg0, arg1)) ==
              match ch.cls
              case Whole => arg0 + arg1 * TWO32
              case Requested => arg0
              case TwoTables => arg0 * TWO32 + arg0
              case NoBase => UNSUPPORTED
  {
    var cmds: Commands := _ => Obliging(arg0, arg1);
    forall k: nat ensures Answers(ch, cmds)(k) == Answer(OK, arg0, arg1) {
      ObligingAnswers(ch, arg0, arg1, SentArgs(ch.cls, k));
    }
  }

  /** A base of 1 is no code of the driver's own, and comes through a mailbox. */
  lemma BaseOfOne(ch: Channel, cmds: Commands)
    requires DramBase(ch, cmds) == OK
    ensures !Undefined(ch.mb) && ch.cls != NoBase
  {
    if Undefined(ch.mb) {
      UndefinedMailbox(ch, cmds);
    }
  }

  /** The answers after which a chip with an oversized table fills it: a proper base, the
      version whose table is that large, and working mappings. */
  function OversizeEnv(version: u32): Env {
    Env(_ => Obliging(0xFF, 1), Answer(OK, version, 0), false, OK, OK, true, true)
  }

  lemma OversizeShown(c: Chip, s: Session, n: u32) returns (envs: seq<Env>)
    requires ValidChip(c) && c.ch.cls != NoBase && !Undefined(c.ch.mb)
    requires s.cache == EMPTY.(base := OK) && s.readSize == PM_TABLE_MAX_SIZE
    requires PossibleSize(c, n) && n > PM_TABLE_MAX_SIZE
    ensures !ShowsFit(c, s, envs)
  {
    var v: u32 := NO_VERSION;
    if c.versioned {
      v :| c.sizes(v) == Some(n);
    }
    var env := OversizeEnv(v);
    envs := [env, env];
    ObligingBase(c.ch, 0xFF, 1);
    var s1 := Show(c, s, env).1;
    assert s1.cache.size == s1.readSize == n;
    assert envs[1..] == [env];
    assert Show(c, s1, env).0.filled;
  }

  /** Over every probe and every run of shows after it, what is written fits what was
      allocated, if and only if the base of the probing read did not come back as 1 or no table
      of the chip is larger than the buffer. */
  lemma ShowsFitWhen(c: Chip, boot: Boot)
    requires ValidChip(c) && Probe(c, boot).published
    ensures (forall envs :: ShowsFit(c, Probe(c, boot), envs)) <==>
              DramBase(c.ch, boot.env.base) != OK || forall n: u32 :: PossibleSize(c, n) ==> n <= PM_TABLE_MAX_SIZE
  {
    var s := Probe(c, boot);
    ProbePublishes(c, boot);
    if DramBase(c.ch, boot.env.base) != OK {
      forall envs ensures ShowsFit(c, s, envs) {
        KnownForever(c, s, envs);
      }
    } else if n: u32 :| PossibleSize(c, n) && n > PM_TABLE_MAX_SIZE {
      BaseOfOne(c.ch, boot.env.base);
      var envs := OversizeShown(c, s, n);
    } else {
      forall envs ensures ShowsFit(c, s, envs) {
        SmallChipFits(c, s, envs);
      }
    }
  }

  // ---------- When shows fault, and what they map ----------

  predicate NoneFaults(c: Chip, s: Session, envs: seq<Env>)
    decreases |envs|
  {
    envs != [] ==>
      && Show(c, s, envs[0]).0.outcome != Fault
      && NoneFaults(c, Show(c, s, envs[0]).1, envs[1..])
  }

  /** Both windows stay once they are there, and one-table chips need the first only. */
  lemma {:induction false} MappedNeverFaults(c: Chip, s: Session, envs: seq<Env>)
    requires ValidChip(c) && Coherent(c, s.cache)
    requires !c.split || (s.cache.window.Some? && s.cache.windowAlt.Some?)
    ensures NoneFaults(c, s, envs)
    decreases |envs|
  {
    if envs == [] {
    } else {
      CoherentKept(c, s.cache, s.readSize, envs[0]);
      FaultsWhen(c, s.cache, s.readSize, envs[0]);
      MappedNeverFaults(c, Show(c, s, envs[0]).1, envs[1..]);
    }
  }

  /** Two shows, of which the first maps the primary table only and the second copies from both. */
  lemma HalfMappedFaults(c: Chip, s: Session) returns (envs: seq<Env>)
    requires ValidChip(c) && c.split && !Undefined(c.ch.mb)
    requires s.cache == EMPTY.(base := OK) && s.readSize == PM_TABLE_MAX_SIZE
    ensures !NoneFaults(c, s, envs)
  {
    var env := Env(_ => Obliging(0xFF, 1), Answer(OK, 0, 0), false, OK, OK, true, false);
    envs := [env, env];
    ObligingBase(c.ch, 0xFF, 1);
    var (r, s1) := Show(c, s, env);
    assert r.outcome == Returned(MAPPED_ERROR) && s1.cache.window.Some? && s1.cache.windowAlt.None?;
    assert envs[1..] == [env];
    assert Show(c, s1, env).0.outcome == Fault;
  }

  /** Over every probe and every run of shows after it, none copies from a missing window, if
      and only if the base of the probing read did not come back as 1 or the chip has one table
      only. */
  lemma NoShowFaultsWhen(c: Chip, boot: Boot)
    requires ValidChip(c) && Probe(c, boot).published
    ensures (forall envs :: NoneFaults(c, Probe(c, boot), envs)) <==> DramBase(c.ch, boot.env.base) != OK || !c.split
  {
    var s := Probe(c, boot);
    ProbePublishes(c, boot);
    CoherentKept(c, EMPTY, PM_TABLE_MAX_SIZE, boot.env);
    if DramBase(c.ch, boot.env.base) != OK || !c.split {
      forall envs ensures NoneFaults(c, s, envs) {
        MappedNeverFaults(c, s, envs);
      }
    } else {
      BaseOfOne(c.ch, boot.env.base);
      var envs := HalfMappedFaults(c, s);
    }
  }

  /** What a published session maps as its primary table's base, unless the base came back as 1:
      the words of the fetch, of which a split chip takes the low one.  They are all the SMU's own
      if and only if it answered every base command with OK and the registers that hold the base
      could be read; a return code among them is the first failing one, and at least 0xFF. */
  lemma MappedBaseIs(c: Chip, boot: Boot)
    requires ValidChip(c) && Probe(c, boot).published && DramBase(c.ch, boot.env.base) != OK
    ensures var words := BaseWords(c.ch, boot.env.base);
            && Probe(c, boot).cache.window == Some(if c.split then words[0].value else ValueOf(words))
            && ((forall i :: 0 <= i < |words| ==> words[i].origin == Reply) <==>
                  && (forall k: nat :: k < BaseCommands(c.ch.cls) ==> AnsweredOk(boot.env.base(k).rsp, c.ch.attempts))
                  && Collected(c.ch, boot.env.base))
            && (words[0].origin == Code ==>
                  FirstFailure(c.ch, boot.env.base, 0) == Some(words[0].value) && words[0].value >= 0xFF)
  {
    PublishedWindow(c, boot);
    WordsLow(c.ch, boot.env.base);
    GenuineWhen(c.ch, boot.env.base);
  }

  lemma PublishedWindow(c: Chip, boot: Boot)
    requires ValidChip(c) && Probe(c, boot).published && DramBase(c.ch, boot.env.base) != OK
    ensures var base := DramBase(c.ch, boot.env.base);
            base >= 0xFF && Probe(c, boot).cache.window == Some(if c.split then base % TWO32 else base)
    ensures !Undefined(c.ch.mb) && c.ch.cls != NoBase
  {
    OkFills(c, EMPTY, PM_TABLE_MAX_SIZE, boot.env);
    if Undefined(c.ch.mb) {
      UndefinedMailbox(c.ch, boot.env.base);
    }
  }

  lemma WordsLow(ch: Channel, cmds: Commands)
    requires ch.cls != NoBase
    ensures var words := BaseWords(ch, cmds);
            && DramBase(ch, cmds) == ValueOf(words) && ValueOf(words) % TWO32 == words[0].value
            && (words[0].origin == Code ==> FirstFailure(ch, cmds, 0) == Some(words[0].value) && |words| == 1)
  {
    MadeOfWords(ch, cmds);
    ValueLow(BaseWords(ch, cmds));
  }

  lemma ValueLow(words: seq<Word>)
    requires 1 <= |words| <= 2
    ensures ValueOf(words) % TWO32 == words[0].value
  {
    LowHalf(words[0].value, if |words| == 1 then 0 else words[1].value);
  }

  lemma LowHalf(low: u32, high: u32)
    ensures (low + high * TWO32) % TWO32 == low
  {
  }

  /** A split chip's second window shows the second word of the fetch, at its full 32 bits; a
      failing code in place of the words leaves it at 0. */
  lemma MappedAltIs(c: Chip, boot: Boot)
    requires ValidChip(c) && c.split && Probe(c, boot).published && DramBase(c.ch, boot.env.base) != OK
    ensures var words := BaseWords(c.ch, boot.env.base);
            Probe(c, boot).cache.windowAlt == Some(if |words| == 2 then words[1].value else 0)
  {
    PublishedWindow(c, boot);
    MadeOfWords(c.ch, boot.env.base);
    ValueHigh(BaseWords(c.ch, boot.env.base));
  }

  lemma ValueHigh(words: seq<Word>)
    requires 1 <= |words| <= 2
    ensures ValueOf(words) / TWO32 == if |words| == 2 then words[1].value else 0
  {
    HighHalf(words[0].value, if |words| == 1 then 0 else words[1].value);
  }

  lemma HighHalf(low: u32, high: u32)
    ensures (low + high * TWO32) / TWO32 == high
  {
  }

  /** The session after a run of shows. */
  function AfterShows(c: Chip, s: Session, envs: seq<Env>): Session
    decreases |envs|
  {
    if envs == [] then s else AfterShows(c, Show(c, s, envs[0]).1, envs[1..])
  }

  /** Windows once mapped are never mapped anew, and a known size stays. */
  lemma {:induction false} WindowsStay(c: Chip, s: Session, envs: seq<Env>)
    requires ValidChip(c) && Known(c, s) && s.cache.window.Some?
    ensures var t := AfterShows(c, s, envs);
            && Known(c, t) && t.readSize == s.readSize && t.published == s.published
            && t.cache.window == s.cache.window && t.cache.windowAlt == s.cache.windowAlt
    decreases |envs|
  {
    if envs == [] {
    } else {
      ShowKeepsKnown(c, s, envs[0]);
      WindowsStay(c, Show(c, s, envs[0]).1, envs[1..]);
    }
  }

  /** After every published probe whose base did not come back as 1, and any run of shows, the
      session still shows the bytes at the words of the probe's fetch, at the size of the table's
      version: a split chip 0x608 of them at the first word and 0xA4 at the second, any other
      its whole table at the base. */
  lemma SessionShows(c: Chip, boot: Boot, envs: seq<Env>)
    requires ValidChip(c) && Probe(c, boot).published && DramBase(c.ch, boot.env.base) != OK
    ensures var t, words := AfterShows(c, Probe(c, boot), envs), BaseWords(c.ch, boot.env.base);
            && t.published && t.readSize == t.cache.size
            && (c.split ==> t.readSize == 0x608 + 0xA4 && t.cache.sizeAlt == 0xA4
                            && t.cache.window == Some(words[0].value)
                            && t.cache.windowAlt == Some(if |words| == 2 then words[1].value else 0))
            && (!c.split ==> t.cache.sizeAlt == 0 && t.cache.window == Some(ValueOf(words))
                             && c.sizes(if c.versioned then boot.env.version.arg0 else 0xDEAD_C0DE) == Some(t.readSize))
  {
    ProbePublishes(c, boot);
    MappedBaseIs(c, boot);
    if c.split {
      MappedAltIs(c, boot);
    }
    WindowsStay(c, Probe(c, boot), envs);
  }

  /** The pages given out, with nothing of how windows are mapped: on a split chip whose base is
      made of two words, 0x608 bytes from the first followed by 0xA4 from the second; otherwise
      the whole table from the base. */
  lemma PagesShow(c: Chip, boot: Boot, envs: seq<Env>, dram: Dram)
    requires ValidChip(c) && Probe(c, boot).published && DramBase(c.ch, boot.env.base) != OK
    ensures var g, words := AfterShows(c, Probe(c, boot), envs).cache, BaseWords(c.ch, boot.env.base);
            && Ready(g) && g.window.Some? && (g.sizeAlt != 0 ==> g.windowAlt.Some?)
            && (c.split && |words| == 2 ==>
                  Table(dram, g) == seq(0x608, i requires 0 <= i => dram(words[0].value + i))
                                    + seq(0xA4, i requires 0 <= i => dram(words[1].value + i)))
            && (!c.split ==>
                  Table(dram, g) == seq(g.size, i requires 0 <= i => dram(ValueOf(words) + i)))
  {
    SessionShows(c, boot, envs);
    WindowsStay(c, Probe(c, boot), envs);
  }

  /** What the fetch needs to come to a size that fits the buffer. */
  predicate Fetchable(c: Chip, env: Env) {
    && DramBase(c.ch, env.base) >= 0xFF
    && (c.versioned ==> env.version.ret == 1)
    && (!c.split ==>
          match c.sizes(if c.versioned then env.version.arg0 else 0xDEAD_C0DE)
          case None => false
          case Some(n) => n <= 0x1AB0)
  }

  /** Probe publishes the table exactly if the mailbox works, a transfer and the version command
      succeed (the latter may be unsupported), there is a buffer, and the first read comes to a
      size, a refresh if one is due, and its mappings; or if the base comes back as 1. */
  lemma PublishedWhen(c: Chip, boot: Boot)
    requires ValidChip(c)
    ensures Probe(c, boot).published <==>
              && boot.rsmu && boot.transfer == 1 && (boot.version == 1 || boot.version == 0xF9) && boot.buffer
              && (|| DramBase(c.ch, boot.env.base) == 1
                  || (&& Fetchable(c, boot.env)
                      && (boot.env.due ==> boot.env.transfer == 1 && (c.split ==> boot.env.transferAlt == 1))
                      && boot.env.mapped && (c.split ==> boot.env.mappedAlt)))
  {
  }

  /** The code of a first read, from an empty cache: the base if it is a return code; the version
      command's failure; 0xF9 for a version without a size; 0xF8 if the buffer is too small; the
      first transfer that fails; 0xF7 if a mapping does; and OK if all is well. */
  lemma FirstReadCode(c: Chip, len: nat, env: Env)
    requires ValidChip(c)
    ensures var base, version := DramBase(c.ch, env.base), if c.versioned then env.version.arg0 else 0xDEAD_C0DE;
            ReadTable(c, EMPTY, len, env).outcome == Returned(
              if base < 0xFF then base
              else if c.versioned && env.version.ret != 1 then env.version.ret
              else if !c.split && c.sizes(version).None? then 0xF9
              else if len < (if c.split then 0x6AC else c.sizes(version).value) then 0xF8
              else if env.due && env.transfer != 1 then env.transfer
              else if env.due && c.split && env.transferAlt != 1 then env.transferAlt
              else if !env.mapped || (c.split && !env.mappedAlt) then 0xF7
              else 1)
  {
  }

  /** A show of a session whose base, size and windows are known returns OK exactly if no refresh
      is due or its transfers succeed, and otherwise the code of the first that fails. */
  lemma ShowOutcome(c: Chip, s: Session, env: Env)
    requires ValidChip(c) && Known(c, s) && s.cache.base != 0
    requires s.cache.window.Some? && (c.split ==> s.cache.windowAlt.Some?)
    ensures Show(c, s, env).0.outcome ==
              Returned(if !env.due then 1
                       else if env.transfer != 1 then env.transfer
                       else if c.split then env.transferAlt
                       else 1)
  {
  }

  /** The chip's table has a size that fits the buffer, whatever version it has if asked. */
  predicate Sizable(c: Chip, version: u32) {
    c.split || match c.sizes(if c.versioned then version else NO_VERSION)
               case None => false
               case Some(n) => n <= PM_TABLE_MAX_SIZE
  }

  function CalmBoot(cmds: Commands, version: u32): Boot {
    Boot(true, OK, OK, true, Env(cmds, Answer(OK, version, 0), false, OK, OK, true, true))
  }

  lemma CalmPublishes(c: Chip, cmds: Commands, version: u32)
    requires ValidChip(c) && Sizable(c, version) && DramBase(c.ch, cmds) >= 0xFF
    ensures var s := Probe(c, CalmBoot(cmds, version));
            && s.published
            && s.cache.window == Some(if c.split then DramBase(c.ch, cmds) % TWO32 else DramBase(c.ch, cmds))
  {
  }

  /** A failing code of at least 0xFF, the SMU's code for failure, is published as the base if
      it is the answer of the last budgeted read. */
  lemma FailureMapped(c: Chip, code: u32, version: u32)
    requires ValidChip(c) && Sizable(c, version) && c.ch.cls != NoBase && !Undefined(c.ch.mb) && code >= 0xFF
    ensures var s := Probe(c, CalmBoot(_ => Failing(c.ch, code), version));
            s.published && s.cache.window == Some(code)
  {
    var cmds: Commands := _ => Failing(c.ch, code);
    FailingAnswers(c.ch, code, SentArgs(c.ch.cls, 0));
    assert Answers(c.ch, cmds)(0).ret == code;
    CalmPublishes(c, cmds, version);
  }

  /** An SMU that refuses every base command at once gets the driver's own arguments published
      as the base. */
  lemma RefusalMapped(c: Chip, code: u32, version: u32)
    requires ValidChip(c) && Sizable(c, version) && !Undefined(c.ch.mb) && code != 0 && code != OK
    requires c.ch.cls == Whole || (c.ch.cls == TwoTables)
    ensures var cmds: Commands := (k: nat) => Refused(c.ch.cls, k, code);
            var s := Probe(c, CalmBoot(cmds, version));
            && s.published && FirstFailure(c.ch, cmds, 0).None?
            && (forall k: nat :: !AnsweredOk(cmds(k).rsp, c.ch.attempts))
            && s.cache.window == Some(if c.split then 3 else if c.ch.cls.Whole? then 1 + TWO32 else 3 + 5 * TWO32)
  {
    var cmds: Commands := (k: nat) => Refused(c.ch.cls, k, code);
    forall k: nat
      ensures !AnsweredOk(cmds(k).rsp, c.ch.attempts)
      ensures Answers(c.ch, cmds)(k) == Answer(OK, SentArgs(c.ch.cls, k)[0], SentArgs(c.ch.cls, k)[1])
    {
      RefusedAnswers(c.ch, k, code);
    }
    if FirstFailure(c.ch, cmds, 0).Some? {
      var k := FailureAt(c.ch, cmds, 0);
    }
    CalmPublishes(c, cmds, version);
  }

  // ---------- The page a show copies to ----------

  /** Every one of these shows that copies anything copies at most a page. */
  predicate PagesFit(c: Chip, s: Session, envs: seq<Env>)
    decreases |envs|
  {
    envs != [] ==>
      && (Show(c, s, envs[0]).0.outcome == Returned(OK) ==> Show(c, s, envs[0]).0.len <= PAGE_SIZE)
      && PagesFit(c, Show(c, s, envs[0]).1, envs[1..])
  }

  lemma {:induction false} SmallPages(c: Chip, s: Session, envs: seq<Env>)
    requires ValidChip(c) && Known(c, s) && s.readSize <= PAGE_SIZE
    ensures PagesFit(c, s, envs)
    decreases |envs|
  {
    if envs == [] {
    } else {
      OkFills(c, s.cache, s.readSize, envs[0]);
      ShowKeepsKnown(c, s, envs[0]);
      SmallPages(c, Show(c, s, envs[0]).1, envs[1..]);
    }
  }

  /** One more show of a published session copies its whole length again. */
  lemma LargePage(c: Chip, boot: Boot) returns (envs: seq<Env>)
    requires ValidChip(c) && Probe(c, boot).published && Probe(c, boot).readSize > PAGE_SIZE
    ensures !PagesFit(c, Probe(c, boot), envs)
  {
    var s := Probe(c, boot);
    ProbePublishes(c, boot);
    var env := boot.env.(due := false);
    envs := [env];
    assert DramBase(c.ch, env.base) == DramBase(c.ch, boot.env.base);
    var r := Show(c, s, env).0;
    assert r.outcome == Returned(OK) && r.len == s.readSize;
  }

  /** Over every probe and every run of shows after it, what is copied to the page fits it, if and
      only if the length that probe settled on does.  (A base of 1 settles on the buffer's own.) */
  lemma PagesFitWhen(c: Chip, boot: Boot)
    requires ValidChip(c) && Probe(c, boot).published
    ensures (forall envs :: PagesFit(c, Probe(c, boot), envs)) <==> Probe(c, boot).readSize <= PAGE_SIZE
  {
    ProbePublishes(c, boot);
    if Probe(c, boot).readSize <= PAGE_SIZE {
      forall envs ensures PagesFit(c, Probe(c, boot), envs) {
        SmallPages(c, Probe(c, boot), envs);
      }
    } else {
      var envs := LargePage(c, boot);
    }
  }

  // ---------- The module's driver ----------

  class Driver {
    const reader: Reader
    var pmTable: array<u8>
    var readSize: nat
    var published: bool

    ghost function State(): Session
      reads this, reader
    {
      Session(reader.cache, readSize, published)
    }

    ghost predicate Valid()
      reads this
    {
      ValidChip(reader.chip) && readSize <= PM_TABLE_MAX_SIZE
    }

    constructor (reader: Reader)
      requires ValidChip(reader.chip)
      ensures Valid() && this.reader == reader && fresh(pmTable)
      ensures readSize == PM_TABLE_MAX_SIZE && !published
    {
      this.reader, readSize, published := reader, PM_TABLE_MAX_SIZE, false;
      pmTable := new u8[0];
    }

    /** The PM-table part of ryzen_smu_probe: the attribute appears only after a read that
        answered OK. */
    method RyzenSmuProbe(boot: Boot)
      requires Valid() && State() == Session(EMPTY, PM_TABLE_MAX_SIZE, false)
      modifies this, reader`cache
      ensures State() == Probe(reader.chip, boot)
      ensures published ==> fresh(pmTable) && pmTable.Length == PM_TABLE_MAX_SIZE
    {
      if !boot.rsmu || boot.transfer != OK {
        return;
      }
      if boot.version != OK && boot.version != UNSUPPORTED {
        return;
      }
      if !boot.buffer {
        return;
      }
      pmTable := new u8[PM_TABLE_MAX_SIZE](_ => 0);
      var outcome, len := reader.SmuReadPmTable(pmTable, readSize, boot.env);
      readSize := len;
      published := outcome == Returned(OK);
    }

    /** A show of a published table, as long as the driver does not take the buffer for larger
        than it is (ShowsFitWhen says when it may): nothing if the read fails, else the whole
        table; or what the last read left, if the base still had to be fetched and came back
        as 1.  A known size stays known. */
    method PmTableShow(env: Env) returns (outcome: Outcome, page: seq<u8>)
      requires ValidChip(reader.chip) && Coherent(reader.chip, reader.cache)
      requires published && readSize <= pmTable.Length
      modifies `readSize, reader`cache, pmTable
      ensures Coherent(reader.chip, reader.cache)
      ensures var (r, s) := Show(reader.chip, old(State()), env); outcome == r.outcome && State() == s
      ensures Known(reader.chip, old(State())) ==> Known(reader.chip, State()) && readSize == old(readSize)
      ensures outcome != Returned(OK) ==> page == []
      ensures outcome == Returned(OK) ==>
                if NeedsFetch(old(reader.cache)) && DramBase(reader.chip.ch, env.base) == OK
                then page == old(pmTable[..readSize])
                else
                  && reader.cache.window.Some? && (reader.cache.sizeAlt != 0 ==> reader.cache.windowAlt.Some?)
                  && page == Table(reader.dram, reader.cache)
    {
      ShowKeepsKnown(reader.chip, State(), env);
      OkFills(reader.chip, reader.cache, readSize, env);
      page := [];
      var len;
      outcome, len := reader.SmuReadPmTable(pmTable, readSize, env);
      readSize := len;
      if outcome == Returned(OK) {
        page := pmTable[..readSize];
      }
    }
  }
}
