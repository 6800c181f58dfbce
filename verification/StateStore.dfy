/**
 The bounded cache of tuple states. At most a configured number of tuples is held in memory; the
 least recently used one is spilled to a file and read back when its tuple is seen again.
 */
module StateStore {
  import opened Common
  import opened Codec
  import opened DiskBudgets
  import opened HistoryModel
  import opened HistoryInput
  import opened TupleStates
  import opened TupleSafety
  import opened TupleCodec

  datatype Cached = Cached(state: TupleState, used: nat)

  type Hot = map<Digest, Cached>
  type Files = map<Digest, seq<byte>>
  type Known = map<Key, TupleState>

  /** What an unbounded map from tuples to states would answer. */
  function Reference(known: Known, p: TcpInput, source: SourceIdentity, c: Config, o: Opaque): (Known, Result<Decision>) {
    var s := if p.key in known then known[p.key] else TupleState(p.key, []);
    var (t, r) := Ingest(s, p, source, c, o);
    (known[p.key := t], r)
  }

  function IdOf(k: Key, o: Opaque): Digest {
    o.sha256(PutKey(k, []))
  }

  ghost predicate Held(hot: Hot, known: Known, o: Opaque) {
    forall id | id in hot ::
      var s := hot[id].state;
      s.key in known && known[s.key] == s && IdOf(s.key, o) == id
  }

  ghost predicate StoredAs(files: Files, id: Digest, s: TupleState, o: Opaque) {
    id in files && FileOf(s, o) == Ok(files[id])
  }

  ghost predicate Filed(files: Files, known: Known, o: Opaque) {
    forall id | id in files :: exists k | k in known :: IdOf(k, o) == id && StoredAs(files, id, known[k], o)
  }

  /** Each tuple is hot or in exactly one file, never both. */
  ghost predicate Placed(hot: Hot, files: Files, known: Known, o: Opaque) {
    forall k | k in known ::
      var id := IdOf(k, o);
      if id in hot then hot[id].state.key == k && id !in files else StoredAs(files, id, known[k], o)
  }

  ghost predicate KnownOk(known: Known, c: Config, o: Opaque) {
    forall k | k in known :: known[k].key == k && Storable(known[k], c, o)
  }

  ghost predicate Consistent(hot: Hot, files: Files, known: Known, c: Config, o: Opaque) {
    c.Valid() && Held(hot, known, o) && Filed(files, known, o) && Placed(hot, files, known, o) && KnownOk(known, c, o)
  }

  // ---------------------------------------------------------------- bytes on disk

  lemma {:induction false} SomeFile(files: Files)
    requires files != map[]
    ensures exists id :: id in files
  {
    assert (forall id :: id !in files) ==> files == map[];
  }

  lemma {:induction false} FewerFiles(files: Files, id: Digest)
    requires id in files
    ensures |files - {id}| == |files| - 1
  {
    assert (files - {id}).Keys == files.Keys - {id};
  }

  ghost function FileBytes(files: Files): nat
    decreases |files|
  {
    if files == map[] then 0
    else
      SomeFile(files);
      var id :| id in files;
      FewerFiles(files, id);
      |files[id]| + FileBytes(files - {id})
  }

  lemma {:induction false} FileBytesWithout(files: Files, id: Digest)
    requires id in files
    ensures FileBytes(files) == |files[id]| + FileBytes(files - {id})
    decreases |files|
  {
    SomeFile(files);
    var j: Digest :| j in files && FileBytes(files) == |files[j]| + FileBytes(files - {j});
    if j != id {
      FewerFiles(files, j);
      FileBytesWithout(files - {j}, id);
      FewerFiles(files, id);
      FileBytesWithout(files - {id}, j);
      assert (files - {j}) - {id} == (files - {id}) - {j};
    }
  }

  lemma {:induction false} FileBytesAdded(files: Files, id: Digest, b: seq<byte>)
    requires id !in files
    ensures FileBytes(files[id := b]) == FileBytes(files) + |b|
  {
    FileBytesWithout(files[id := b], id);
    assert files[id := b] - {id} == files;
  }

  // ---------------------------------------------------------------- steps of the cache

  /** Two storable states with the same file are the same state. */
  lemma {:induction false} FileUnique(a: TupleState, b: TupleState, c: Config, o: Opaque)
    requires c.Valid() && Storable(a, c, o) && Storable(b, c, o) && FileOf(a, o) == FileOf(b, o)
    ensures a == b
  {
    hide FileOf, ReadFile, Storable;
    FileRoundTrip(a, a.key, c, o);
    FileRoundTrip(b, a.key, c, o);
  }

  /** No two known tuples share a place. */
  lemma {:induction false} OneKeyPerPlace(hot: Hot, files: Files, known: Known, c: Config, o: Opaque, k: Key, m: Key)
    requires Consistent(hot, files, known, c, o) && k in known && m in known && IdOf(k, o) == IdOf(m, o)
    ensures k == m
  {
    hide FileOf, Storable, IdOf, Held, Filed;
    if IdOf(k, o) !in hot {
      FileUnique(known[k], known[m], c, o);
    }
  }

  lemma {:induction false} SpillHeld(hot: Hot, known: Known, o: Opaque, id: Digest)
    requires Held(hot, known, o) && id in hot
    ensures Held(hot - {id}, known, o)
  {
    hide IdOf;
  }

  lemma {:induction false} SpillFiled(files: Files, known: Known, o: Opaque, key: Key)
    requires Filed(files, known, o) && key in known && FileOf(known[key], o).Ok?
    ensures Filed(files[IdOf(key, o) := FileOf(known[key], o).value], known, o)
  {
    hide FileOf, IdOf;
    var id := IdOf(key, o);
    var after := files[id := FileOf(known[key], o).value];
    forall j | j in after
      ensures exists k | k in known :: IdOf(k, o) == j && StoredAs(after, j, known[k], o)
    {
      if j == id {
        assert StoredAs(after, j, known[key], o);
      } else {
        var k :| k in known && IdOf(k, o) == j && StoredAs(files, j, known[k], o);
        assert StoredAs(after, j, known[k], o);
      }
    }
  }

  lemma {:induction false} SpillPlaced(hot: Hot, files: Files, known: Known, o: Opaque, key: Key)
    requires Placed(hot, files, known, o) && key in known && IdOf(key, o) in hot && FileOf(known[key], o).Ok?
    ensures Placed(hot - {IdOf(key, o)}, files[IdOf(key, o) := FileOf(known[key], o).value], known, o)
    ensures IdOf(key, o) !in files
  {
    hide FileOf, IdOf;
    var id := IdOf(key, o);
    var after := files[id := FileOf(known[key], o).value];
    forall k | k in known
      ensures var j := IdOf(k, o);
              if j in hot - {id} then (hot - {id})[j].state.key == k && j !in after else StoredAs(after, j, known[k], o)
    {
      assert IdOf(k, o) == id ==> k == key;
    }
  }

  /** Moving a hot tuple to its file keeps the cache consistent. */
  lemma {:induction false} SpillConsistent(hot: Hot, files: Files, known: Known, c: Config, o: Opaque, id: Digest)
    requires Consistent(hot, files, known, c, o) && id in hot
    ensures id !in files && FileOf(hot[id].state, o).Ok?
    ensures Consistent(hot - {id}, files[id := FileOf(hot[id].state, o).value], known, c, o)
  {
    hide FileOf, Storable, IdOf, Filed, Placed;
    var s := hot[id].state;
    assert s.key in known && known[s.key] == s && IdOf(s.key, o) == id;
    FileRoundTrip(s, s.key, c, o);
    SpillHeld(hot, known, o, id);
    SpillFiled(files, known, o, s.key);
    SpillPlaced(hot, files, known, o, s.key);
  }

  /** A file is read back exactly for the tuple it was written for. */
  lemma {:induction false} LoadExact(hot: Hot, files: Files, known: Known, c: Config, o: Opaque, key: Key)
    requires Consistent(hot, files, known, c, o) && IdOf(key, o) in files && IdOf(key, o) !in hot
    ensures var r := ReadFile(files[IdOf(key, o)], key, c, o);
            && |files[IdOf(key, o)]| <= MaximumFile(c)
            && (r.Ok? <==> key in known)
            && (r.Ok? ==> r.value == known[key])
  {
    hide FileOf, ReadFile, Storable, IdOf, MaximumFile, Held;
    var id := IdOf(key, o);
    var k :| k in known && IdOf(k, o) == id && StoredAs(files, id, known[k], o);
    FileRoundTrip(known[k], key, c, o);
    if key in known {
      OneKeyPerPlace(hot, files, known, c, o, k, key);
    }
  }

  lemma {:induction false} LoadFiled(files: Files, known: Known, o: Opaque, id: Digest)
    requires Filed(files, known, o)
    ensures Filed(files - {id}, known, o)
  {
    hide FileOf, IdOf;
    var rest := files - {id};
    forall j | j in rest
      ensures exists k | k in known :: IdOf(k, o) == j && StoredAs(rest, j, known[k], o)
    {
      var k :| k in known && IdOf(k, o) == j && StoredAs(files, j, known[k], o);
      assert StoredAs(rest, j, known[k], o);
    }
  }

  /** Moving a tuple from its file into memory keeps the cache consistent. */
  lemma {:induction false} LoadConsistent(hot: Hot, files: Files, known: Known, c: Config, o: Opaque, key: Key, used: nat)
    requires Consistent(hot, files, known, c, o) && key in known && IdOf(key, o) !in hot
    ensures Consistent(hot[IdOf(key, o) := Cached(known[key], used)], files - {IdOf(key, o)}, known, c, o)
  {
    hide FileOf, Storable, IdOf, Filed;
    var id := IdOf(key, o);
    LoadFiled(files, known, o, id);
    var warm := hot[id := Cached(known[key], used)];
    forall k | k in known
      ensures var j := IdOf(k, o);
              if j in warm then warm[j].state.key == k && j !in files - {id} else StoredAs(files - {id}, j, known[k], o)
    {
      if IdOf(k, o) == id {
        OneKeyPerPlace(hot, files, known, c, o, k, key);
      }
    }
  }

  lemma {:induction false} FiledOthers(files: Files, known: Known, o: Opaque, t: TupleState)
    requires Filed(files, known, o) && IdOf(t.key, o) !in files
    ensures Filed(files, known[t.key := t], o)
  {
    hide FileOf, IdOf;
    var more := known[t.key := t];
    forall j | j in files
      ensures exists k | k in more :: IdOf(k, o) == j && StoredAs(files, j, more[k], o)
    {
      var k :| k in known && IdOf(k, o) == j && StoredAs(files, j, known[k], o);
      assert more[k] == known[k];
    }
  }

  /** A tuple seen for the first time starts without generations. */
  lemma {:induction false} NewConsistent(hot: Hot, files: Files, known: Known, c: Config, o: Opaque, key: Key, used: nat)
    requires Consistent(hot, files, known, c, o) && IdOf(key, o) !in hot && IdOf(key, o) !in files
    requires Canonical(key, o) && Strings(key, o)
    ensures key !in known
    ensures Consistent(hot[IdOf(key, o) := Cached(TupleState(key, []), used)], files, known[key := TupleState(key, [])], c, o)
  {
    hide FileOf, IdOf, Canonical, Filed;
    var t := TupleState(key, []);
    NewStorable(key, c, o);
    assert key !in known;
    FiledOthers(files, known, o, t);
    hide Storable;
  }

  lemma {:induction false} NewStorable(key: Key, c: Config, o: Opaque)
    requires Canonical(key, o) && Strings(key, o)
    ensures Storable(TupleState(key, []), c, o)
  {
    StartsOk(key, c);
  }

  /** A hot tuple may change its state; the known state changes with it. */
  lemma {:induction false} UpdateConsistent(hot: Hot, files: Files, known: Known, c: Config, o: Opaque, t: TupleState, used: nat)
    requires Consistent(hot, files, known, c, o) && t.key in known && IdOf(t.key, o) in hot && Storable(t, c, o)
    ensures Consistent(hot[IdOf(t.key, o) := Cached(t, used)], files, known[t.key := t], c, o)
  {
    hide FileOf, Storable, IdOf, Filed;
    FiledOthers(files, known, o, t);
  }

  /** A hot place belongs to one tuple. */
  lemma {:induction false} HotKey(hot: Hot, files: Files, known: Known, c: Config, o: Opaque, key: Key)
    requires Consistent(hot, files, known, c, o) && IdOf(key, o) in hot
    ensures var s := hot[IdOf(key, o)].state;
            s.key in known && known[s.key] == s && (key in known <==> s.key == key)
  {
    hide FileOf, Storable, IdOf, Filed;
    var s := hot[IdOf(key, o)].state;
    if key in known {
      OneKeyPerPlace(hot, files, known, c, o, key, s.key);
    }
  }

  // ---------------------------------------------------------------- the store

  /** The disk budget cannot hold the state's file. */
  ghost predicate NoRoom(s: TupleState, used: nat, maximum: nat, o: Opaque) {
    var f := FileOf(s, o);
    f.Ok? && used + |f.value| > maximum
  }

  /** The size of the file a state is spilled to. */
  ghost function FileSize(s: TupleState, o: Opaque): nat {
    if FileOf(s, o).Ok? then |FileOf(s, o).value| else 0
  }

  /** The bytes it takes to spill every hot tuple. */
  ghost function HotBytes(hot: Hot, o: Opaque): nat
    decreases |hot|
  {
    if hot == map[] then 0
    else
      SomeHot(hot);
      var id :| id in hot;
      FewerHot(hot, id);
      FileSize(hot[id].state, o) + HotBytes(hot - {id}, o)
  }

  lemma {:induction false} HotBytesWithout(hot: Hot, o: Opaque, id: Digest)
    requires id in hot
    ensures HotBytes(hot, o) == FileSize(hot[id].state, o) + HotBytes(hot - {id}, o)
    decreases |hot|
  {
    hide FileSize;
    SomeHot(hot);
    var j: Digest :| j in hot && HotBytes(hot, o) == FileSize(hot[j].state, o) + HotBytes(hot - {j}, o);
    if j != id {
      FewerHot(hot, j);
      HotBytesWithout(hot - {j}, o, id);
      FewerHot(hot, id);
      HotBytesWithout(hot - {id}, o, j);
      assert (hot - {j}) - {id} == (hot - {id}) - {j};
    }
  }

  ghost predicate NoRoomForSome(known: Known, used: nat, maximum: nat, o: Opaque) {
    exists k | k in known :: NoRoom(known[k], used, maximum, o)
  }

  /** Another tuple has the same digest. */
  ghost predicate Collides(known: Known, key: Key, o: Opaque) {
    exists k | k in known :: k != key && IdOf(k, o) == IdOf(key, o)
  }

  /** The known tuples once this one has a state. */
  ghost function Opened(known: Known, key: Key): Known {
    if key in known then known else known[key := TupleState(key, [])]
  }

  class Store {
    var hot: Hot
    var files: Files
    var clock: nat
    var failed: bool
    const config: Config
    const source: SourceIdentity
    const quota: DiskBudget
    const primitives: Opaque
    ghost const base: nat
    ghost var known: Known

    /** While the store works, memory and files together hold exactly the known tuples. */
    ghost predicate Valid()
      reads this, quota
    {
      !failed ==>
        && Consistent(hot, files, known, config, primitives)
        && |hot| <= config.hotTuples
        && quota.used == base + FileBytes(files)
    }

    constructor (config: Config, source: SourceIdentity, quota: DiskBudget, o: Opaque)
      requires config.Valid()
      ensures Valid() && !failed && known == map[] && this.quota == quota && this.config == config
      ensures this.source == source && this.primitives == o
    {
      this.hot := map[];
      this.files := map[];
      this.clock := 0;
      this.failed := false;
      this.config := config;
      this.source := source;
      this.quota := quota;
      this.primitives := o;
      this.base := quota.used;
      this.known := map[];
    }

    /** Write a hot tuple to its file and drop it from memory. */
    method Spill(id: Digest) returns (ok: bool)
      requires Valid() && !failed && id in hot
      modifies this, quota
      ensures known == old(known) && clock == old(clock) && failed == old(failed)
      ensures ok ==> Valid() && hot == old(hot) - {id} && id in files
      ensures !ok ==> NoRoom(old(hot[id].state), old(quota.used), quota.maximum, primitives)
      ensures ok <==> old(quota.used) + FileSize(old(hot[id].state), primitives) <= quota.maximum
      ensures ok ==> quota.used == old(quota.used) + FileSize(old(hot[id].state), primitives)
    {
      hide Consistent, FileOf, FileBytes;
      SpillConsistent(hot, files, known, config, primitives, id);
      var bytes := FileOf(hot[id].state, primitives);
      assert bytes.Ok?;
      FileBytesAdded(files, id, bytes.value);
      FewerHot(hot, id);
      hot := hot - {id};
      ok := quota.Charge(|bytes.value|);
      if !ok {
        return;
      }
      files := files[id := bytes.value];
    }

    /** Make room for one more tuple by spilling the least recently used one. */
    method Evict() returns (ok: bool)
      requires Valid() && !failed
      modifies this, quota
      ensures known == old(known) && clock == old(clock) && failed == old(failed)
      ensures ok ==> Valid() && |hot| < config.hotTuples && forall id | id in hot :: id in old(hot)
      ensures !ok ==> NoRoomForSome(known, old(quota.used), quota.maximum, primitives)
    {
      hide Consistent, FileOf, FileBytes, NoRoom;
      ConfigOk(hot, files, known, config, primitives);
      if |hot| < config.hotTuples {
        return true;
      }
      LeastUsed(hot);
      var oldest :| oldest in hot && forall id | id in hot :: hot[oldest].used <= hot[id].used;
      FewerHot(hot, oldest);
      HotKnown(hot, files, known, config, primitives, oldest);
      ok := Spill(oldest);
    }

    /** Bring a tuple into memory: from its file, or new. */
    method Warm(key: Key) returns (ok: bool)
      requires Valid() && !failed && Canonical(key, primitives) && Strings(key, primitives) && IdOf(key, primitives) !in hot
      modifies this, quota
      ensures clock == old(clock) && failed == old(failed)
      ensures ok ==> Valid() && known == Opened(old(known), key) && IdOf(key, primitives) in hot && hot[IdOf(key, primitives)].state.key == key
      ensures !ok ==> Collides(old(known), key, primitives) || NoRoomForSome(old(known), old(quota.used), quota.maximum, primitives)
    {
      hide Consistent, FileOf, FileBytes, NoRoomForSome, Collides, Canonical, IdOf, ReadFile;
      var id := IdOf(key, primitives);
      ok := Evict();
      if !ok {
        return;
      }
      if id in files {
        LoadExact(hot, files, known, config, primitives, key);
        var read := ReadFile(files[id], key, config, primitives);
        if read.Err? {
          FiledElsewhere(hot, files, known, config, primitives, key);
          return false;
        }
        LoadConsistent(hot, files, known, config, primitives, key, 0);
        FileBytesWithout(files, id);
        var size := |files[id]|;
        files := files - {id};
        ok := quota.Release(size);
        assert ok;
        MoreHot(hot, id, Cached(read.value, 0));
        hot := hot[id := Cached(read.value, 0)];
        KnownKey(hot, files, known, config, primitives, key);
      } else {
        NewConsistent(hot, files, known, config, primitives, key, 0);
        MoreHot(hot, id, Cached(TupleState(key, []), 0));
        hot := hot[id := Cached(TupleState(key, []), 0)];
        known := known[key := TupleState(key, [])];
      }
    }

    method IngestInner(p: TcpInput) returns (r: Result<Decision>)
      requires Valid() && !failed && Strings(p.key, primitives)
      modifies this, quota
      ensures failed == old(failed)
      ensures r.Ok? ==> Valid() && (known, r) == Reference(old(known), p, source, config, primitives)
      ensures r.Err? ==>
                || !Canonical(p.key, primitives) || Collides(old(known), p.key, primitives) || old(clock) >= U64_MAX
                || NoRoomForSome(old(known), old(quota.used), quota.maximum, primitives)
                || Reference(old(known), p, source, config, primitives).1.Err?
    {
      hide Consistent, FileBytes, NoRoomForSome, Collides, Canonical, IdOf, Ingest, PutKey;
      if EncodeKey(p.key, primitives).Err? {
        return Err(Bad("history_tuple"));
      }
      var id := IdOf(p.key, primitives);
      if id !in hot {
        var ok := Warm(p.key);
        if !ok {
          return Err(Bad("state_cache"));
        }
      }
      ghost var warm := known;
      if clock >= U64_MAX {
        return Err(Limit("state_clock"));
      }
      clock := clock + 1;
      var before := hot[id].state;
      HotKey(hot, files, known, config, primitives, p.key);
      var (state, decision) := Ingest(before, p, source, config, primitives);
      if before.key == p.key {
        IngestStorable(before, p, source, config, primitives, hot, files, known);
        UpdateConsistent(hot, files, known, config, primitives, state, clock);
      } else {
        WrongKeyRefused(before, p, source, config, primitives);
        KeyElsewhere(hot, files, known, config, primitives, p.key);
      }
      MoreHot(hot, id, Cached(state, clock));
      hot := hot[id := Cached(state, clock)];
      if before.key == p.key {
        known := known[p.key := state];
        assert known == old(known)[p.key := state];
      }
      r := decision;
    }

    /**
     The cache is invisible: as long as it answers, it answers what the unbounded map would. It
     stops answering only for a refused input, a full disk, an exhausted clock or a digest collision.
     */
    method IngestTuple(p: TcpInput) returns (r: Result<Decision>)
      requires Valid() && Strings(p.key, primitives)
      modifies this, quota
      ensures Valid() && failed == r.Err?
      ensures r.Ok? ==> !old(failed) && (known, r) == Reference(old(known), p, source, config, primitives)
      ensures r.Err? ==>
                || old(failed) || !Canonical(p.key, primitives) || Collides(old(known), p.key, primitives) || old(clock) >= U64_MAX
                || NoRoomForSome(old(known), old(quota.used), quota.maximum, primitives)
                || Reference(old(known), p, source, config, primitives).1.Err?
    {
      hide Consistent, FileBytes, NoRoomForSome, Collides, Canonical, Reference;
      if failed {
        return Err(Bad("state_cache"));
      }
      r := IngestInner(p);
      if r.Err? {
        failed := true;
      }
    }

    /**
     At the end every tuple goes to its file. Whatever the order, that succeeds exactly when the store
     still works and the disk budget holds the files of all tuples in memory.
     */
    method Finish() returns (ok: bool)
      requires Valid()
      modifies this, quota
      ensures ok <==> !old(failed) && (old(hot) == map[] || old(quota.used) + HotBytes(old(hot), primitives) <= quota.maximum)
      ensures ok ==> Valid() && !failed && hot == map[] && known == old(known)
      ensures ok ==> quota.used == old(quota.used) + HotBytes(old(hot), primitives)
      ensures ok ==> forall k | k in known :: StoredAs(files, IdOf(k, primitives), known[k], primitives)
    {
      hide FileBytes, IdOf, StoredAs, Held, Filed, KnownOk, FileSize, HotBytes;
      if failed {
        return false;
      }
      while hot != map[]
        invariant Valid() && !failed && known == old(known)
        invariant hot == old(hot) || quota.used <= quota.maximum
        invariant quota.used + HotBytes(hot, primitives) == old(quota.used) + HotBytes(old(hot), primitives)
        decreases |hot|
      {
        hide Consistent;
        SomeHot(hot);
        var id :| id in hot;
        FewerHot(hot, id);
        HotBytesWithout(hot, primitives, id);
        ok := Spill(id);
        if !ok {
          return;
        }
      }
      NothingHot(primitives);
      ok := true;
    }
  }

  lemma {:induction false} NothingHot(o: Opaque)
    ensures HotBytes(map[], o) == 0
  {
  }

  lemma {:induction false} SomeHot(hot: Hot)
    requires hot != map[]
    ensures exists id :: id in hot
  {
    assert (forall id :: id !in hot) ==> hot == map[];
  }

  lemma {:induction false} ConfigOk(hot: Hot, files: Files, known: Known, c: Config, o: Opaque)
    requires Consistent(hot, files, known, c, o)
    ensures 1 <= c.hotTuples
  {
  }

  lemma {:induction false} LeastUsed(hot: Hot)
    requires hot != map[]
    ensures exists id :: id in hot && forall j | j in hot :: hot[id].used <= hot[j].used
    decreases |hot|
  {
    SomeHot(hot);
    var id :| id in hot;
    if exists j :: j in hot && j != id {
      FewerHot(hot, id);
      LeastUsed(hot - {id});
      var m :| m in hot - {id} && forall j | j in hot - {id} :: (hot - {id})[m].used <= (hot - {id})[j].used;
      var best := if hot[m].used <= hot[id].used then m else id;
      assert forall j | j in hot :: hot[best].used <= hot[j].used by {
        forall j | j in hot ensures hot[best].used <= hot[j].used {
          assert j != id ==> j in hot - {id};
        }
      }
    }
  }

  lemma {:induction false} HotKnown(hot: Hot, files: Files, known: Known, c: Config, o: Opaque, id: Digest)
    requires Consistent(hot, files, known, c, o) && id in hot
    ensures hot[id].state.key in known && known[hot[id].state.key] == hot[id].state
  {
    hide IdOf, Filed, Placed, KnownOk;
  }

  lemma {:induction false} KnownKey(hot: Hot, files: Files, known: Known, c: Config, o: Opaque, key: Key)
    requires Consistent(hot, files, known, c, o) && key in known
    ensures known[key].key == key
  {
    hide IdOf, Filed, Placed, Held, Storable;
  }

  lemma {:induction false} FiledElsewhere(hot: Hot, files: Files, known: Known, c: Config, o: Opaque, key: Key)
    requires Consistent(hot, files, known, c, o) && IdOf(key, o) in files && key !in known
    ensures Collides(known, key, o)
  {
    hide IdOf, Placed, Held, KnownOk, FileOf;
    var k :| k in known && IdOf(k, o) == IdOf(key, o) && StoredAs(files, IdOf(key, o), known[k], o);
  }

  lemma {:induction false} KeyElsewhere(hot: Hot, files: Files, known: Known, c: Config, o: Opaque, key: Key)
    requires Consistent(hot, files, known, c, o) && IdOf(key, o) in hot && hot[IdOf(key, o)].state.key != key
    ensures Collides(known, key, o) && key !in known
  {
    hide IdOf, Filed, KnownOk, FileOf;
    var k := hot[IdOf(key, o)].state.key;
    assert k in known && IdOf(k, o) == IdOf(key, o);
  }

  /** A state refuses the observations of another tuple. */
  lemma {:induction false} WrongKeyRefused(s: TupleState, p: TcpInput, source: SourceIdentity, c: Config, o: Opaque)
    requires s.key != p.key
    ensures Ingest(s, p, source, c, o).1.Err?
  {
    hide Gather, Decide, EncodeState, Canonical, EncodeKey, Derive;
    if Derive(p, c, o).Ok? {
      DerivedFields(p, c, o);
    }
  }

  /** The state after an observation can be stored like the one before. */
  lemma {:induction false} IngestStorable(s: TupleState, p: TcpInput, source: SourceIdentity, c: Config, o: Opaque, hot: Hot, files: Files, known: Known)
    requires Consistent(hot, files, known, c, o) && s.key in known && known[s.key] == s
    ensures Storable(Ingest(s, p, source, c, o).0, c, o) && Ingest(s, p, source, c, o).0.key == s.key
  {
    hide Ingest, StateOk, Canonical, Strings, Held, Filed, Placed;
    assert Storable(s, c, o);
    IngestSafe(s, p, source, c, o);
    GrownKey(s, Ingest(s, p, source, c, o).0);
  }

  lemma {:induction false} GrownKey(s: TupleState, t: TupleState)
    requires Grown(s, t)
    ensures t.key == s.key
  {
  }

  lemma {:induction false} FewerHot(hot: Hot, id: Digest)
    requires id in hot
    ensures |hot - {id}| == |hot| - 1
  {
    assert (hot - {id}).Keys == hot.Keys - {id};
  }

  lemma {:induction false} MoreHot(hot: Hot, id: Digest, v: Cached)
    ensures |hot[id := v]| == if id in hot then |hot| else |hot| + 1
  {
    assert hot[id := v].Keys == hot.Keys + {id};
  }
}
