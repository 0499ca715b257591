/** Saving and loading the address manager. Only the records and the new buckets are written; ids, vRandom,
    mapAddr and the tried buckets are rebuilt on reading. Maps and sets are walked in any order. */
module AddrManDisk {
  import opened Basics
  import opened Sequences
  import opened AddrMan
  import opened AddrManCheck

  /** The fields of a record that reach the disk. */
  datatype Saved = Saved(svc: Service, services: set<nat>, time: int, source: nat, lastSuccess: int, attempts: int)

  /** The file: nNew, nTried and the number of buckets are the lengths of the three parts. */
  datatype Disk = Disk(newInfos: seq<Saved>, triedInfos: seq<Saved>, buckets: seq<seq<nat>>)

  function SaveOf(i: Info): Saved { Saved(i.svc, i.services, i.time, i.source, i.lastSuccess, i.attempts) }

  function Fresh(s: Saved, pos: nat, refCount: nat, tried: bool): Info {
    Info(s.svc, s.services, s.time, s.source, s.lastSuccess, 0, s.attempts, refCount, tried, pos)
  }

  function Sets(lists: seq<seq<nat>>): seq<set<nat>> {
    seq(|lists|, b requires 0 <= b < |lists| => Elements(lists[b]))
  }

  function All(d: Disk): seq<Saved> { d.newInfos + d.triedInfos }

  /** The record that id n gets when the file is read. */
  function RecordOf(d: Disk, n: nat): Info
    requires n < |All(d)|
  {
    if n < |d.newInfos| then Fresh(All(d)[n], n, Count(Sets(d.buckets), n), false) else Fresh(All(d)[n], n, 0, true)
  }

  /** The tried ids below `n` that hash to bucket k, in order. */
  function InBucket(d: Disk, bucketOf: Service -> nat, n: nat, k: nat): seq<nat>
    requires |d.newInfos| <= n <= |All(d)|
    decreases n
  {
    if n == |d.newInfos| then []
    else InBucket(d, bucketOf, n - 1, k)
         + if bucketOf(All(d)[n - 1].svc) % TRIED_BUCKET_COUNT == k then [n - 1] else []
  }

  /** Files from which a consistent state can be read. */
  ghost predicate WellFormed(d: Disk, bucketOf: Service -> nat) {
    && |d.buckets| == NEW_BUCKET_COUNT
    && (forall i, j :: 0 <= i < j < |All(d)| ==> All(d)[i].svc.ip != All(d)[j].svc.ip)
    && (forall i :: 0 <= i < |d.newInfos| ==> d.newInfos[i].lastSuccess >= 0)
    && (forall i :: 0 <= i < |d.triedInfos| ==> d.triedInfos[i].lastSuccess > 0)
    && (forall b :: 0 <= b < |d.buckets| ==> Distinct(d.buckets[b]) && |d.buckets[b]| <= NEW_BUCKET_SIZE)
    && (forall b, i :: 0 <= b < |d.buckets| && 0 <= i < |d.buckets[b]| ==> d.buckets[b][i] < |d.newInfos|)
    && (forall n :: 0 <= n < |d.newInfos| ==> 1 <= Count(Sets(d.buckets), n) <= NEW_BUCKETS_PER_ADDRESS)
    && (forall k :: 0 <= k < TRIED_BUCKET_COUNT ==> |InBucket(d, bucketOf, |All(d)|, k)| <= TRIED_BUCKET_SIZE)
  }

  // ------------------------------------------------------------ reading

  /** What is rebuilt from the records alone: ids in file order, no new bucket counted yet. */
  ghost predicate Rebuilt(d: Disk, n: nat, info: Infos, addr: map<nat, nat>, random: seq<nat>) {
    && n <= |All(d)| && |random| == n && (forall i :: 0 <= i < n ==> random[i] == i)
    && (forall id: nat :: id in info <==> id < n)
    && (forall id :: id in info ==> info[id] == Fresh(All(d)[id], id, 0, id >= |d.newInfos|))
    && (forall i :: 0 <= i < n ==> All(d)[i].svc.ip in addr && addr[All(d)[i].svc.ip] == i)
    && (forall ip :: ip in addr ==> addr[ip] < n && All(d)[addr[ip]].svc.ip == ip)
  }

  lemma RebuiltNext(d: Disk, n: nat, info: Infos, addr: map<nat, nat>, random: seq<nat>, bucketOf: Service -> nat)
    requires WellFormed(d, bucketOf) && Rebuilt(d, n, info, addr, random) && n < |All(d)|
    ensures var s := All(d)[n];
            Rebuilt(d, n + 1, info[n := Fresh(s, n, 0, n >= |d.newInfos|)], addr[s.svc.ip := n], random + [n])
  {
  }

  /** Read the untried records. */
  method LoadNew(d: Disk, ghost bucketOf: Service -> nat) returns (info: Infos, addr: map<nat, nat>, random: seq<nat>)
    requires WellFormed(d, bucketOf)
    ensures Rebuilt(d, |d.newInfos|, info, addr, random) && |random| == |d.newInfos|
  {
    info, addr, random := map[], map[], [];
    for n := 0 to |d.newInfos|
      invariant Rebuilt(d, n, info, addr, random)
    {
      RebuiltNext(d, n, info, addr, random, bucketOf);
      var s := d.newInfos[n];
      info := info[n := Fresh(s, |random|, 0, false)];
      addr := addr[s.svc.ip := n];
      random := random + [n];
    }
  }

  ghost predicate TriedBuilt(d: Disk, bucketOf: Service -> nat, n: nat, vvTried: seq<seq<nat>>) {
    && |vvTried| == TRIED_BUCKET_COUNT && |d.newInfos| <= n <= |All(d)|
    && forall k :: 0 <= k < TRIED_BUCKET_COUNT ==> vvTried[k] == InBucket(d, bucketOf, n, k)
  }

  lemma {:induction false} InBucketGrows(d: Disk, bucketOf: Service -> nat, n: nat, m: nat, k: nat)
    requires |d.newInfos| <= n <= m <= |All(d)|
    ensures |InBucket(d, bucketOf, n, k)| <= |InBucket(d, bucketOf, m, k)|
    decreases m
  {
    if n < m { InBucketGrows(d, bucketOf, n, m - 1, k); }
  }

  /** The next tried record finds room in its bucket. */
  lemma TriedNext(d: Disk, bucketOf: Service -> nat, n: nat, vvTried: seq<seq<nat>>)
    requires WellFormed(d, bucketOf) && TriedBuilt(d, bucketOf, n, vvTried) && n < |All(d)|
    ensures var k := bucketOf(All(d)[n].svc) % TRIED_BUCKET_COUNT;
            |vvTried[k]| < TRIED_BUCKET_SIZE && TriedBuilt(d, bucketOf, n + 1, vvTried[k := vvTried[k] + [n]])
  {
    var k := bucketOf(All(d)[n].svc) % TRIED_BUCKET_COUNT;
    InBucketGrows(d, bucketOf, n + 1, |All(d)|, k);
  }

  /** Read the tried records; none is lost, because no bucket overflows. */
  method LoadTried(d: Disk, bucketOf: Service -> nat, info0: Infos, addr0: map<nat, nat>, random0: seq<nat>)
    returns (info: Infos, addr: map<nat, nat>, random: seq<nat>, vvTried: seq<seq<nat>>, lost: int)
    requires WellFormed(d, bucketOf) && Rebuilt(d, |d.newInfos|, info0, addr0, random0) && |random0| == |d.newInfos|
    ensures Rebuilt(d, |All(d)|, info, addr, random) && TriedBuilt(d, bucketOf, |All(d)|, vvTried) && lost == 0
  {
    hide Rebuilt, WellFormed;
    info, addr, random, lost := info0, addr0, random0, 0;
    vvTried := seq(TRIED_BUCKET_COUNT, _ => []);
    var nIdCount := |d.newInfos|;
    for j := 0 to |d.triedInfos|
      invariant nIdCount == |d.newInfos| + j && lost == 0 && |random| == nIdCount
      invariant Rebuilt(d, nIdCount, info, addr, random) && TriedBuilt(d, bucketOf, nIdCount, vvTried)
    {
      var s := d.triedInfos[j];
      assert s == All(d)[nIdCount];
      var k := bucketOf(s.svc) % TRIED_BUCKET_COUNT;
      TriedNext(d, bucketOf, nIdCount, vvTried);
      if |vvTried[k]| < TRIED_BUCKET_SIZE {
        RebuiltNext(d, nIdCount, info, addr, random, bucketOf);
        info := info[nIdCount := Fresh(s, |random|, 0, true)];
        addr := addr[s.svc.ip := nIdCount];
        random := random + [nIdCount];
        vvTried := vvTried[k := vvTried[k] + [nIdCount]];
        nIdCount := nIdCount + 1;
      } else {
        lost := lost + 1;
      }
    }
  }

  lemma {:induction false} CountBelow(a: seq<set<nat>>, c: seq<set<nat>>, b: nat, x: nat)
    requires |a| == |c| && b <= |a| && forall i :: 0 <= i < |a| ==> a[i] <= c[i]
    ensures Count(a, x) <= Count(c, x)
    ensures b < |a| && x !in a[b] && x in c[b] ==> Count(a, x) < Count(c, x)
  {
    if a != [] {
      CountBelow(a[..|a| - 1], c[..|c| - 1], if b < |a| - 1 then b else |a| - 1, x);
    }
  }

  function NoneHeld(): seq<set<nat>> { seq(NEW_BUCKET_COUNT, _ => {}) }

  /** The buckets below b are read, and the first i entries of bucket b. */
  ghost predicate Filled(d: Disk, b: nat, i: nat, vvNew: seq<set<nat>>) {
    && |vvNew| == |d.buckets| && b <= |d.buckets| && (b < |d.buckets| ==> i <= |d.buckets[b]|)
    && forall c :: 0 <= c < |vvNew| ==>
         vvNew[c] == if c < b then Elements(d.buckets[c]) else if c == b then Elements(d.buckets[b][..i]) else {}
  }

  /** The records with their counts so far. */
  ghost predicate Counted(d: Disk, info: Infos, vvNew: seq<set<nat>>) {
    && (forall id: nat :: id in info <==> id < |All(d)|)
    && forall id :: id in info ==>
         info[id] == if id < |d.newInfos| then Fresh(All(d)[id], id, Count(vvNew, id), false) else Fresh(All(d)[id], id, 0, true)
  }

  /** The next entry of a bucket: its record is not yet at the maximum, and counting it keeps the records right. */
  lemma FillNext(d: Disk, bucketOf: Service -> nat, b: nat, i: nat, info: Infos, vvNew: seq<set<nat>>)
    requires WellFormed(d, bucketOf) && b < |d.buckets| && i < |d.buckets[b]|
    requires Filled(d, b, i, vvNew) && Counted(d, info, vvNew)
    ensures var x := d.buckets[b][i];
            && x in info && info[x].refCount < NEW_BUCKETS_PER_ADDRESS && b < |vvNew|
            && Filled(d, b, i + 1, vvNew[b := vvNew[b] + {x}])
            && Counted(d, info[x := info[x].(refCount := info[x].refCount + 1)], vvNew[b := vvNew[b] + {x}])
  {
    var x := d.buckets[b][i];
    FillSets(d, bucketOf, b, i, vvNew);
    CountBelow(vvNew, Sets(d.buckets), b, x);
    CountNext(d, b, x, info, vvNew);
  }

  lemma FillSets(d: Disk, bucketOf: Service -> nat, b: nat, i: nat, vvNew: seq<set<nat>>)
    requires WellFormed(d, bucketOf) && b < |d.buckets| && i < |d.buckets[b]| && Filled(d, b, i, vvNew)
    ensures var x := d.buckets[b][i];
            && x < |d.newInfos| && x !in vvNew[b] && x in Sets(d.buckets)[b]
            && Filled(d, b, i + 1, vvNew[b := vvNew[b] + {x}])
            && forall c :: 0 <= c < |vvNew| ==> vvNew[c] <= Sets(d.buckets)[c]
  {
    var list := d.buckets[b];
    var x := list[i];
    assert list[..i + 1] == list[..i] + [x];
    assert Elements(list[..i + 1]) == Elements(list[..i]) + {x};
  }

  lemma CountNext(d: Disk, b: nat, x: nat, info: Infos, vvNew: seq<set<nat>>)
    requires Counted(d, info, vvNew) && b < |vvNew| && x < |d.newInfos| && x !in vvNew[b] && x in info
    ensures Counted(d, info[x := info[x].(refCount := info[x].refCount + 1)], vvNew[b := vvNew[b] + {x}])
  {
    forall y ensures Count(vvNew[b := vvNew[b] + {x}], y) == Count(vvNew, y) + (if y == x then 1 else 0) {
      CountUpdate(vvNew, b, vvNew[b] + {x}, y);
    }
  }

  /** Read the new buckets. */
  method LoadBuckets(d: Disk, info0: Infos, ghost bucketOf: Service -> nat) returns (info: Infos, vvNew: seq<set<nat>>)
    requires WellFormed(d, bucketOf) && Counted(d, info0, NoneHeld())
    ensures vvNew == Sets(d.buckets) && Counted(d, info, vvNew)
  {
    hide WellFormed, Counted, Filled, Sets, NoneHeld;
    info, vvNew := info0, NoneHeld();
    FilledStart(d, bucketOf);
    for b := 0 to |d.buckets|
      invariant Filled(d, b, 0, vvNew) && Counted(d, info, vvNew)
    {
      var list := d.buckets[b];
      for i := 0 to |list|
        invariant Filled(d, b, i, vvNew) && Counted(d, info, vvNew)
      {
        var x := list[i];
        FillNext(d, bucketOf, b, i, info, vvNew);
        if info[x].refCount < NEW_BUCKETS_PER_ADDRESS {
          info := info[x := info[x].(refCount := info[x].refCount + 1)];
          vvNew := vvNew[b := vvNew[b] + {x}];
        }
      }
      FilledBucket(d, b, vvNew);
    }
    FilledAll(d, bucketOf, vvNew);
  }

  lemma FilledStart(d: Disk, bucketOf: Service -> nat)
    requires WellFormed(d, bucketOf)
    ensures Filled(d, 0, 0, NoneHeld())
  {
  }

  lemma FilledAll(d: Disk, bucketOf: Service -> nat, vvNew: seq<set<nat>>)
    requires WellFormed(d, bucketOf) && Filled(d, |d.buckets|, 0, vvNew)
    ensures vvNew == Sets(d.buckets)
  {
  }

  lemma FilledBucket(d: Disk, b: nat, vvNew: seq<set<nat>>)
    requires b < |d.buckets| && Filled(d, b, |d.buckets[b]|, vvNew)
    ensures Filled(d, b + 1, 0, vvNew)
  {
    assert d.buckets[b][..|d.buckets[b]|] == d.buckets[b];
  }

  /** The tables a file describes. */
  ghost predicate Tables(d: Disk, bucketOf: Service -> nat, info: Infos, vvNew: seq<set<nat>>, vvTried: seq<seq<nat>>) {
    && (forall id: nat :: id in info <==> id < |All(d)|)
    && (forall id :: id in info ==> info[id] == RecordOf(d, id))
    && vvNew == Sets(d.buckets)
    && TriedBuilt(d, bucketOf, |All(d)|, vvTried)
  }

  lemma CountedTables(d: Disk, bucketOf: Service -> nat, info: Infos, vvNew: seq<set<nat>>, vvTried: seq<seq<nat>>)
    requires vvNew == Sets(d.buckets) && Counted(d, info, vvNew) && TriedBuilt(d, bucketOf, |All(d)|, vvTried)
    ensures Tables(d, bucketOf, info, vvNew, vvTried)
  {
  }

  method Load(am: AddrMan, d: Disk)
    requires WellFormed(d, am.triedHash)
    modifies am
    ensures am.Valid() && Tables(d, am.triedHash, am.mapInfo, am.vvNew, am.vvTried)
    ensures am.nNew == |d.newInfos| && am.nTried == |d.triedInfos|
  {
    hide Counted, TriedBuilt, Tables, WellFormed, TriedOk, NewOk, AddrOk, RandomOk, StatsOk, NewIds, TriedIds, Rebuilt;
    var info, addr, random := LoadNew(d, am.triedHash);
    var vvTried, lost;
    info, addr, random, vvTried, lost := LoadTried(d, am.triedHash, info, addr, random);
    BeforeBuckets(d, info, addr, random);
    ghost var rebuilt := info;
    var vvNew;
    info, vvNew := LoadBuckets(d, info, am.triedHash);
    LoadedIndexed(d, am.triedHash, rebuilt, info, addr, random);
    LoadedNew(d, am.triedHash, info, vvNew);
    LoadedTried(d, am.triedHash, info, vvTried);
    CountedTables(d, am.triedHash, info, vvNew, vvTried);
    am.nIdCount, am.mapInfo, am.mapAddr, am.vRandom := |random|, info, addr, random;
    am.nNew, am.nTried := |d.newInfos|, |d.triedInfos| - lost;
    am.vvTried, am.vvNew := vvTried, vvNew;
  }

  function Range(a: nat, b: nat): set<nat> {
    if b <= a then {} else Range(a, b - 1) + {b - 1}
  }

  lemma {:induction false} RangeIs(a: nat, b: nat)
    ensures forall i :: i in Range(a, b) <==> a <= i < b
    ensures a <= b ==> |Range(a, b)| == b - a
    decreases b
  {
    if a < b { RangeIs(a, b - 1); }
  }

  lemma LoadedIndexed(d: Disk, bucketOf: Service -> nat, rebuilt: Infos, info: Infos, addr: map<nat, nat>, random: seq<nat>)
    requires WellFormed(d, bucketOf) && Rebuilt(d, |All(d)|, rebuilt, addr, random) && Counted(d, info, Sets(d.buckets))
    ensures RandomOk(info, random) && AddrOk(info, addr) && StatsOk(info, |All(d)|)
    ensures |NewIds(info)| == |d.newInfos| && |TriedIds(info)| == |d.triedInfos|
  {
    LoadedStats(d, bucketOf, info);
    LoadedSizes(d, info);
    LoadedAddr(d, rebuilt, info, addr, random);
  }

  lemma LoadedAddr(d: Disk, rebuilt: Infos, info: Infos, addr: map<nat, nat>, random: seq<nat>)
    requires Rebuilt(d, |All(d)|, rebuilt, addr, random) && Counted(d, info, Sets(d.buckets))
    ensures RandomOk(info, random) && AddrOk(info, addr)
  {
    forall id | id in info ensures info[id].svc == All(d)[id].svc && info[id].randomPos == id {}
  }

  lemma LoadedStats(d: Disk, bucketOf: Service -> nat, info: Infos)
    requires WellFormed(d, bucketOf) && Counted(d, info, Sets(d.buckets))
    ensures StatsOk(info, |All(d)|)
  {
    forall id | id in info && info[id].inTried ensures info[id].lastSuccess > 0 {
      assert All(d)[id] == d.triedInfos[id - |d.newInfos|];
    }
    forall id | id in info && !info[id].inTried ensures info[id].lastSuccess >= 0 {
      assert All(d)[id] == d.newInfos[id];
    }
  }

  lemma LoadedSizes(d: Disk, info: Infos)
    requires Counted(d, info, Sets(d.buckets))
    ensures |NewIds(info)| == |d.newInfos| && |TriedIds(info)| == |d.triedInfos|
  {
    var m, n := |d.newInfos|, |All(d)|;
    RangeIs(0, m);
    RangeIs(m, n);
    assert NewIds(info) == Range(0, m);
    assert TriedIds(info) == Range(m, n);
  }

  lemma LoadedNew(d: Disk, bucketOf: Service -> nat, info: Infos, vvNew: seq<set<nat>>)
    requires WellFormed(d, bucketOf) && vvNew == Sets(d.buckets) && Counted(d, info, vvNew)
    ensures NewOk(info, vvNew, None)
  {
    forall b | 0 <= b < |vvNew| ensures |vvNew[b]| <= NEW_BUCKET_SIZE { DistinctSize(d.buckets[b]); }
    forall b, id | 0 <= b < |vvNew| && id in vvNew[b] ensures id < |d.newInfos| {
      var i :| 0 <= i < |d.buckets[b]| && d.buckets[b][i] == id;
    }
    forall id | id in info && id >= |d.newInfos| ensures Count(vvNew, id) == 0 { CountZero(vvNew, id); }
  }

  lemma {:induction false} InBucketElements(d: Disk, bucketOf: Service -> nat, n: nat, k: nat)
    requires |d.newInfos| <= n <= |All(d)|
    ensures forall x :: x in InBucket(d, bucketOf, n, k) <==>
              |d.newInfos| <= x < n && bucketOf(All(d)[x].svc) % TRIED_BUCKET_COUNT == k
    ensures Distinct(InBucket(d, bucketOf, n, k))
    decreases n
  {
    if n > |d.newInfos| {
      InBucketElements(d, bucketOf, n - 1, k);
      var low := InBucket(d, bucketOf, n - 1, k);
      assert n - 1 !in low;
      DistinctConcat(low, [n - 1]);
    }
  }

  lemma LoadedTried(d: Disk, bucketOf: Service -> nat, info: Infos, vvTried: seq<seq<nat>>)
    requires WellFormed(d, bucketOf) && TriedBuilt(d, bucketOf, |All(d)|, vvTried) && Counted(d, info, Sets(d.buckets))
    ensures TriedOk(info, vvTried, bucketOf)
  {
    forall k | 0 <= k < TRIED_BUCKET_COUNT
      ensures Distinct(vvTried[k]) && |vvTried[k]| <= TRIED_BUCKET_SIZE
      ensures forall x :: x in vvTried[k] <==> |d.newInfos| <= x < |All(d)| && bucketOf(All(d)[x].svc) % TRIED_BUCKET_COUNT == k
    {
      InBucketElements(d, bucketOf, |All(d)|, k);
    }
    forall b, i | 0 <= b < |vvTried| && 0 <= i < |vvTried[b]|
      ensures vvTried[b][i] in info && info[vvTried[b][i]].inTried && bucketOf(info[vvTried[b][i]].svc) % TRIED_BUCKET_COUNT == b
    {
      assert vvTried[b][i] in vvTried[b];
    }
  }

  lemma EmptyCount(x: nat)
    ensures Count(NoneHeld(), x) == 0
  {
    CountZero(NoneHeld(), x);
  }

  lemma BeforeBuckets(d: Disk, info: Infos, addr: map<nat, nat>, random: seq<nat>)
    requires Rebuilt(d, |All(d)|, info, addr, random)
    ensures Counted(d, info, NoneHeld()) && |random| == |All(d)|
  {
    forall x ensures Count(NoneHeld(), x) == 0 { EmptyCount(x); }
  }

  // ------------------------------------------------------------ writing

  /** The ids with the given tried flag, in the given order. */
  function Pick(ids: seq<nat>, info: Infos, tried: bool): seq<nat> {
    if ids == [] then []
    else var id := ids[|ids| - 1];
         Pick(ids[..|ids| - 1], info, tried) + if id in info && info[id].inTried == tried then [id] else []
  }

  lemma {:induction false} PickElements(ids: seq<nat>, info: Infos, tried: bool)
    requires Distinct(ids)
    ensures Distinct(Pick(ids, info, tried))
    ensures forall x :: x in Pick(ids, info, tried) <==> x in ids && x in info && info[x].inTried == tried
  {
    if ids != [] {
      var init, id := ids[..|ids| - 1], ids[|ids| - 1];
      PickElements(init, info, tried);
      assert ids == init + [id];
      if id in info && info[id].inTried == tried { DistinctConcat(Pick(init, info, tried), [id]); }
    }
  }

  /** The picks of a prefix are a prefix of the picks. */
  lemma {:induction false} PickPrefix(ids: seq<nat>, info: Infos, tried: bool, n: nat)
    requires n <= |ids|
    ensures Pick(ids[..n], info, tried) <= Pick(ids, info, tried)
    decreases |ids|
  {
    if n == |ids| {
      assert ids[..n] == ids;
    } else {
      PickPrefix(ids[..|ids| - 1], info, tried, n);
      assert ids[..|ids| - 1][..n] == ids[..n];
    }
  }

  ghost predicate SavedAs(info: Infos, ids: seq<nat>, saved: seq<Saved>) {
    |saved| == |ids| && forall k :: 0 <= k < |ids| ==> ids[k] in info && saved[k] == SaveOf(info[ids[k]])
  }

  ghost predicate Numbered(ids: seq<nat>, numbers: map<nat, nat>) {
    forall k :: 0 <= k < |ids| ==> ids[k] in numbers && numbers[ids[k]] == k
  }

  /** One more id on the walk: it is the next pick, or not a pick at all. */
  lemma PickNext(ids: seq<nat>, info: Infos, tried: bool, i: nat)
    requires i < |ids| && Distinct(ids)
    ensures var done, next := Pick(ids[..i], info, tried), Pick(ids[..i + 1], info, tried);
            && next == done + (if ids[i] in info && info[ids[i]].inTried == tried then [ids[i]] else [])
            && next <= Pick(ids, info, tried) && ids[i] !in done
  {
    assert ids[..i + 1][..i] == ids[..i];
    PickPrefix(ids, info, tried, i + 1);
    PickElements(ids[..i], info, tried);
  }

  /** Write the untried records and number them; the walk stops once all of them are written. */
  method SaveNew(info: Infos, ids: seq<nat>, nNew: int) returns (saved: seq<Saved>, unkIds: map<nat, nat>)
    requires Distinct(ids) && Elements(ids) == info.Keys && nNew == |Pick(ids, info, false)|
    requires forall id :: id in info ==> (info[id].refCount == 0 <==> info[id].inTried)
    ensures SavedAs(info, Pick(ids, info, false), saved) && Numbered(Pick(ids, info, false), unkIds)
  {
    hide Pick, Distinct;
    saved, unkIds := [], map[];
    ghost var done: seq<nat> := [];
    PickNone(info, ids, false);
    for i := 0 to |ids|
      invariant done == Pick(ids[..i], info, false) && done <= Pick(ids, info, false)
      invariant SavedAs(info, done, saved) && Numbered(done, unkIds)
    {
      if |saved| == nNew { return; }
      var id := ids[i];
      assert id in Elements(ids);
      PickNext(ids, info, false, i);
      unkIds := unkIds[id := |saved|];
      if info[id].refCount != 0 {
        saved := saved + [SaveOf(info[id])];
        done := done + [id];
      }
    }
    assert ids[..|ids|] == ids;
  }

  lemma PickNone(info: Infos, ids: seq<nat>, tried: bool)
    ensures Pick(ids[..0], info, tried) == []
  {
  }

  method SaveTried(info: Infos, ids: seq<nat>, nTried: int) returns (saved: seq<Saved>)
    requires Distinct(ids) && Elements(ids) == info.Keys && nTried == |Pick(ids, info, true)|
    ensures SavedAs(info, Pick(ids, info, true), saved)
  {
    hide Pick, Distinct;
    saved := [];
    ghost var done: seq<nat> := [];
    PickNone(info, ids, true);
    for i := 0 to |ids|
      invariant done == Pick(ids[..i], info, true) && done <= Pick(ids, info, true)
      invariant SavedAs(info, done, saved)
    {
      if |saved| == nTried { return; }
      var id := ids[i];
      assert id in Elements(ids);
      PickNext(ids, info, true, i);
      if info[id].inTried {
        saved := saved + [SaveOf(info[id])];
        done := done + [id];
      }
    }
    assert ids[..|ids|] == ids;
  }

  /** A bucket written through the numbering: positions in `order` instead of ids. */
  ghost predicate Renumbered(order: seq<nat>, bucket: set<nat>, list: seq<nat>) {
    && Distinct(list) && (forall i :: 0 <= i < |list| ==> list[i] < |order| && order[list[i]] in bucket)
    && (forall n :: 0 <= n < |order| && order[n] in bucket ==> n in list)
  }

  method SaveBucket(bucket: set<nat>, unkIds: map<nat, nat>, ghost order: seq<nat>) returns (list: seq<nat>)
    requires Distinct(order) && Numbered(order, unkIds) && forall id :: id in bucket ==> id in order
    ensures Renumbered(order, bucket, list) && |list| == |bucket|
  {
    list := [];
    var rest := bucket;
    while rest != {}
      invariant rest <= bucket && |list| == |bucket| - |rest|
      invariant Renumbered(order, bucket - rest, list)
      decreases |rest|
    {
      var id :| id in rest;
      ghost var k :| 0 <= k < |order| && order[k] == id;
      list := list + [unkIds[id]];
      rest := rest - {id};
    }
    assert bucket - rest == bucket;
  }

  ghost predicate AllRenumbered(order: seq<nat>, vvNew: seq<set<nat>>, buckets: seq<seq<nat>>) {
    |buckets| == |vvNew| && forall b :: 0 <= b < |buckets| ==> Renumbered(order, vvNew[b], buckets[b]) && |buckets[b]| == |vvNew[b]|
  }

  method SaveBuckets(vvNew: seq<set<nat>>, unkIds: map<nat, nat>, ghost order: seq<nat>) returns (buckets: seq<seq<nat>>)
    requires Distinct(order) && Numbered(order, unkIds)
    requires forall b, id :: 0 <= b < |vvNew| && id in vvNew[b] ==> id in order
    ensures AllRenumbered(order, vvNew, buckets)
  {
    buckets := [];
    for b := 0 to |vvNew|
      invariant |buckets| == b && forall c :: 0 <= c < b ==> Renumbered(order, vvNew[c], buckets[c]) && |buckets[c]| == |vvNew[c]|
    {
      var list := SaveBucket(vvNew[b], unkIds, order);
      buckets := buckets + [list];
    }
  }

  /** d is a state with its ids renamed to their positions in `order`: untried ids first. */
  ghost predicate Describes(info: Infos, vvNew: seq<set<nat>>, order: seq<nat>, d: Disk) {
    && Distinct(order) && Elements(order) == info.Keys && SavedAs(info, order, All(d))
    && (forall n :: 0 <= n < |order| ==> (info[order[n]].inTried <==> n >= |d.newInfos|))
    && AllRenumbered(order[..|d.newInfos|], vvNew, d.buckets)
  }

  /** Save a consistent manager, walking mapInfo in the order `ids`. */
  method Save(am: AddrMan, ids: seq<nat>) returns (d: Disk, ghost order: seq<nat>)
    requires am.Valid() && Distinct(ids) && Elements(ids) == am.mapInfo.Keys
    ensures Describes(am.mapInfo, am.vvNew, order, d)
  {
    var info := am.mapInfo;
    PickSizes(info, ids);
    hide TriedOk, NewOk, AddrOk, RandomOk, Pick, Distinct, NewIds, TriedIds;
    var newInfos, unkIds := SaveNew(info, ids, am.nNew);
    var triedInfos := SaveTried(info, ids, am.nTried);
    ghost var news := Pick(ids, info, false);
    BucketsArePicked(info, am.vvNew, ids);
    var buckets := SaveBuckets(am.vvNew, unkIds, news);
    d, order := Disk(newInfos, triedInfos, buckets), news + Pick(ids, info, true);
    OrderSplits(info, ids, newInfos, triedInfos);
    assert order[..|newInfos|] == news;
  }

  lemma OrderSplits(info: Infos, ids: seq<nat>, newInfos: seq<Saved>, triedInfos: seq<Saved>)
    requires Distinct(ids) && Elements(ids) == info.Keys
    requires SavedAs(info, Pick(ids, info, false), newInfos) && SavedAs(info, Pick(ids, info, true), triedInfos)
    ensures var order := Pick(ids, info, false) + Pick(ids, info, true);
            && Distinct(order) && Elements(order) == info.Keys && SavedAs(info, order, newInfos + triedInfos)
            && (forall n :: 0 <= n < |order| ==> (info[order[n]].inTried <==> n >= |newInfos|))
  {
    hide Pick, Distinct, Elements, SavedAs;
    var news, tried := Pick(ids, info, false), Pick(ids, info, true);
    PickParts(info, ids);
    DistinctConcat(news, tried);
    SavedConcat(info, news, tried, newInfos, triedInfos);
    assert forall n :: 0 <= n < |news + tried| ==> (news + tried)[n] == if n < |news| then news[n] else tried[n - |news|];
  }

  /** The untried ids and the tried ones, each once, and together all. */
  lemma PickParts(info: Infos, ids: seq<nat>)
    requires Distinct(ids) && Elements(ids) == info.Keys
    ensures var news, tried := Pick(ids, info, false), Pick(ids, info, true);
            && Distinct(news) && Distinct(tried) && (forall x :: x in news ==> x !in tried)
            && Elements(news + tried) == info.Keys
            && (forall n :: 0 <= n < |news| ==> news[n] in info && !info[news[n]].inTried)
            && (forall n :: 0 <= n < |tried| ==> tried[n] in info && info[tried[n]].inTried)
  {
    var news, tried := Pick(ids, info, false), Pick(ids, info, true);
    PickElements(ids, info, false);
    PickElements(ids, info, true);
    hide Pick;
    forall id | id in info ensures id in news + tried { assert id in Elements(ids); }
    forall n | 0 <= n < |news| ensures news[n] in info && !info[news[n]].inTried { assert news[n] in news; }
    forall n | 0 <= n < |tried| ensures tried[n] in info && info[tried[n]].inTried { assert tried[n] in tried; }
  }

  lemma SavedConcat(info: Infos, a: seq<nat>, b: seq<nat>, x: seq<Saved>, y: seq<Saved>)
    requires SavedAs(info, a, x) && SavedAs(info, b, y)
    ensures |a| == |x| && SavedAs(info, a + b, x + y)
  {
  }

  lemma PickSizes(info: Infos, ids: seq<nat>)
    requires Distinct(ids) && Elements(ids) == info.Keys
    ensures |Pick(ids, info, false)| == |NewIds(info)| && |Pick(ids, info, true)| == |TriedIds(info)|
  {
    PickElements(ids, info, false);
    PickElements(ids, info, true);
    DistinctSize(Pick(ids, info, false));
    DistinctSize(Pick(ids, info, true));
    forall id | id in info ensures id in ids { assert id in Elements(ids); }
    assert Elements(Pick(ids, info, false)) == NewIds(info);
    assert Elements(Pick(ids, info, true)) == TriedIds(info);
  }

  lemma BucketsArePicked(info: Infos, vvNew: seq<set<nat>>, ids: seq<nat>)
    requires NewOk(info, vvNew, None) && Distinct(ids) && Elements(ids) == info.Keys
    ensures Distinct(Pick(ids, info, false))
    ensures forall b, id :: 0 <= b < |vvNew| && id in vvNew[b] ==> id in Pick(ids, info, false)
  {
    PickElements(ids, info, false);
    forall id | id in info ensures id in ids { assert id in Elements(ids); }
  }

  // ------------------------------------------------------------ the round trip

  lemma {:induction false} CountRename(bs: seq<set<nat>>, cs: seq<set<nat>>, x: nat, y: nat)
    requires |bs| == |cs| && forall b :: 0 <= b < |bs| ==> (x in bs[b] <==> y in cs[b])
    ensures Count(bs, x) == Count(cs, y)
  {
    if bs != [] { CountRename(bs[..|bs| - 1], cs[..|cs| - 1], x, y); }
  }

  /** Renaming ids renames the new buckets. */
  lemma RenamedBuckets(info: Infos, vvNew: seq<set<nat>>, order: seq<nat>, d: Disk)
    requires Describes(info, vvNew, order, d) && NewOk(info, vvNew, None)
    ensures forall b, n :: 0 <= b < |vvNew| && 0 <= n < |order| ==> (n in Sets(d.buckets)[b] <==> order[n] in vvNew[b])
    ensures forall n :: 0 <= n < |order| ==> Count(Sets(d.buckets), n) == Count(vvNew, order[n])
  {
    forall b, n | 0 <= b < |vvNew| && 0 <= n < |order| ensures n in Sets(d.buckets)[b] <==> order[n] in vvNew[b] {
      var news := order[..|d.newInfos|];
      if n < |d.newInfos| { assert news[n] == order[n]; }
      if n in d.buckets[b] {
        var i :| 0 <= i < |d.buckets[b]| && d.buckets[b][i] == n;
      }
    }
    forall n | 0 <= n < |order| ensures Count(Sets(d.buckets), n) == Count(vvNew, order[n]) {
      CountRename(Sets(d.buckets), vvNew, n, order[n]);
    }
  }

  function IdAt(order: seq<nat>, list: seq<nat>): seq<nat>
    requires forall i :: 0 <= i < |list| ==> list[i] < |order|
  {
    seq(|list|, i requires 0 <= i < |list| => order[list[i]])
  }

  /** The tried records of one bucket fit in it again. */
  lemma DistinctAt(order: seq<nat>, list: seq<nat>)
    requires Distinct(order) && Distinct(list) && forall i :: 0 <= i < |list| ==> list[i] < |order|
    ensures Distinct(IdAt(order, list))
  {
  }

  lemma BucketFits(info: Infos, vvNew: seq<set<nat>>, vvTried: seq<seq<nat>>, bucketOf: Service -> nat, order: seq<nat>, d: Disk, k: nat)
    requires Describes(info, vvNew, order, d) && TriedOk(info, vvTried, bucketOf) && k < TRIED_BUCKET_COUNT
    ensures |InBucket(d, bucketOf, |All(d)|, k)| <= TRIED_BUCKET_SIZE
  {
    hide Distinct;
    var list := InBucket(d, bucketOf, |All(d)|, k);
    InBucketElements(d, bucketOf, |All(d)|, k);
    forall i | 0 <= i < |list| ensures |d.newInfos| <= list[i] < |order| { assert list[i] in list; }
    var ids := IdAt(order, list);
    DistinctAt(order, list);
    forall x | x in Elements(ids) ensures x in Elements(vvTried[k]) {
      var i :| 0 <= i < |ids| && ids[i] == x;
      assert list[i] in list && x == order[list[i]];
      assert All(d)[list[i]].svc == info[x].svc;
    }
    DistinctSize(ids);
    DistinctSize(vvTried[k]);
    SubsetSize(Elements(ids), Elements(vvTried[k]));
  }

  lemma DescribedIsWellFormed(am: AddrMan, order: seq<nat>, d: Disk)
    requires am.Valid() && Describes(am.mapInfo, am.vvNew, order, d)
    ensures WellFormed(d, am.triedHash)
  {
    var info := am.mapInfo;
    SavedRecords(info, am.nIdCount, am.mapAddr, am.vvNew, order, d);
    RenamedBuckets(info, am.vvNew, order, d);
    forall k | 0 <= k < TRIED_BUCKET_COUNT ensures |InBucket(d, am.triedHash, |All(d)|, k)| <= TRIED_BUCKET_SIZE {
      BucketFits(info, am.vvNew, am.vvTried, am.triedHash, order, d, k);
    }
    SavedCounts(info, am.nIdCount, am.vvNew, order, d);
  }

  lemma SavedRecords(info: Infos, idCount: nat, addr: map<nat, nat>, vvNew: seq<set<nat>>, order: seq<nat>, d: Disk)
    requires StatsOk(info, idCount) && AddrOk(info, addr) && Describes(info, vvNew, order, d)
    ensures forall i, j :: 0 <= i < j < |All(d)| ==> All(d)[i].svc.ip != All(d)[j].svc.ip
    ensures forall i :: 0 <= i < |d.newInfos| ==> d.newInfos[i].lastSuccess >= 0
    ensures forall i :: 0 <= i < |d.triedInfos| ==> d.triedInfos[i].lastSuccess > 0
  {
    forall i | 0 <= i < |d.newInfos| ensures d.newInfos[i].lastSuccess >= 0 { assert All(d)[i] == d.newInfos[i]; }
    forall i | 0 <= i < |d.triedInfos| ensures d.triedInfos[i].lastSuccess > 0 {
      assert All(d)[|d.newInfos| + i] == d.triedInfos[i];
    }
  }

  lemma SavedCounts(info: Infos, idCount: nat, vvNew: seq<set<nat>>, order: seq<nat>, d: Disk)
    requires StatsOk(info, idCount) && NewOk(info, vvNew, None) && Describes(info, vvNew, order, d)
    requires forall n :: 0 <= n < |order| ==> Count(Sets(d.buckets), n) == Count(vvNew, order[n])
    ensures forall n :: 0 <= n < |d.newInfos| ==> 1 <= Count(Sets(d.buckets), n) <= NEW_BUCKETS_PER_ADDRESS
  {
    forall n | 0 <= n < |d.newInfos| ensures 1 <= Count(Sets(d.buckets), n) <= NEW_BUCKETS_PER_ADDRESS {
      assert order[n] in info && !info[order[n]].inTried;
    }
  }

  /** The same state with ids renamed along `order`; only the unsaved nLastTry and the places in vRandom differ. */
  ghost predicate Isomorphic(info: Infos, vvNew: seq<set<nat>>, vvTried: seq<seq<nat>>, order: seq<nat>,
                             info': Infos, vvNew': seq<set<nat>>, vvTried': seq<seq<nat>>)
  {
    && Distinct(order) && Elements(order) == info.Keys && (forall n: nat :: n in info' <==> n < |order|)
    && (forall n :: 0 <= n < |order| ==> order[n] in info && info'[n] == info[order[n]].(lastTry := 0, randomPos := n))
    && |vvNew'| == |vvNew| && |vvTried'| == |vvTried|
    && (forall b, n :: 0 <= b < |vvNew| && 0 <= n < |order| ==> (n in vvNew'[b] <==> order[n] in vvNew[b]))
    && (forall k, n :: 0 <= k < |vvTried| && 0 <= n < |order| ==> (n in vvTried'[k] <==> order[n] in vvTried[k]))
  }

  lemma RoundTripTried(info: Infos, vvNew: seq<set<nat>>, vvTried: seq<seq<nat>>, bucketOf: Service -> nat, order: seq<nat>, d: Disk, vvTried': seq<seq<nat>>)
    requires Describes(info, vvNew, order, d) && TriedOk(info, vvTried, bucketOf) && TriedBuilt(d, bucketOf, |All(d)|, vvTried')
    ensures forall k, n :: 0 <= k < |vvTried| && 0 <= n < |order| ==> (n in vvTried'[k] <==> order[n] in vvTried[k])
  {
    forall k, n | 0 <= k < |vvTried| && 0 <= n < |order| ensures n in vvTried'[k] <==> order[n] in vvTried[k] {
      InBucketElements(d, bucketOf, |All(d)|, k);
      var id := order[n];
      assert id in info && All(d)[n].svc == info[id].svc;
      if id in vvTried[k] {
        var i :| 0 <= i < |vvTried[k]| && vvTried[k][i] == id;
      }
    }
  }

  lemma RoundTripRecords(info: Infos, vvNew: seq<set<nat>>, idCount: nat, order: seq<nat>, d: Disk, info': Infos)
    requires Describes(info, vvNew, order, d) && NewOk(info, vvNew, None) && StatsOk(info, idCount)
    requires (forall id: nat :: id in info' <==> id < |All(d)|) && forall id :: id in info' ==> info'[id] == RecordOf(d, id)
    ensures forall n :: 0 <= n < |order| ==> order[n] in info && info'[n] == info[order[n]].(lastTry := 0, randomPos := n)
  {
    RenamedBuckets(info, vvNew, order, d);
    forall n | 0 <= n < |order| ensures order[n] in info && info'[n] == info[order[n]].(lastTry := 0, randomPos := n) {
      assert info'[n] == RecordOf(d, n);
    }
  }

  lemma DescribedSizes(am: AddrMan, order: seq<nat>, d: Disk)
    requires am.Valid() && Describes(am.mapInfo, am.vvNew, order, d)
    ensures |d.newInfos| == am.nNew && |d.triedInfos| == am.nTried
    ensures |am.vvNew| == NEW_BUCKET_COUNT && |am.vvTried| == TRIED_BUCKET_COUNT
  {
    var m := |d.newInfos|;
    DistinctSize(order[..m]);
    DistinctSize(order[m..]);
    forall id | id in am.mapInfo ensures id in order { assert id in Elements(order); }
    assert Elements(order[..m]) == NewIds(am.mapInfo);
    assert Elements(order[m..]) == TriedIds(am.mapInfo);
  }

  /** Writing a consistent state and reading it back gives a consistent state isomorphic to it; no tried
      entry is lost. */
  method SaveThenLoad(am: AddrMan, other: AddrMan, ids: seq<nat>) returns (ghost order: seq<nat>)
    requires am.Valid() && am != other && am.triedHash == other.triedHash
    requires Distinct(ids) && Elements(ids) == am.mapInfo.Keys
    modifies other
    ensures other.Valid() && other.nNew == am.nNew && other.nTried == am.nTried
    ensures Isomorphic(am.mapInfo, am.vvNew, am.vvTried, order, other.mapInfo, other.vvNew, other.vvTried)
  {
    var d;
    d, order := Save(am, ids);
    DescribedIsWellFormed(am, order, d);
    DescribedSizes(am, order, d);
    hide RandomOk, AddrOk, TriedOk, NewOk, StatsOk, WellFormed, NewIds, TriedIds, Tables, Describes, Isomorphic;
    Load(other, d);
    RoundTrip(am.mapInfo, am.vvNew, am.vvTried, am.triedHash, am.nIdCount, order, d, other.mapInfo, other.vvNew, other.vvTried);
  }

  lemma RoundTrip(info: Infos, vvNew: seq<set<nat>>, vvTried: seq<seq<nat>>, bucketOf: Service -> nat, idCount: nat, order: seq<nat>, d: Disk,
                  info': Infos, vvNew': seq<set<nat>>, vvTried': seq<seq<nat>>)
    requires Describes(info, vvNew, order, d) && Tables(d, bucketOf, info', vvNew', vvTried')
    requires NewOk(info, vvNew, None) && StatsOk(info, idCount) && TriedOk(info, vvTried, bucketOf)
    ensures Isomorphic(info, vvNew, vvTried, order, info', vvNew', vvTried')
  {
    RoundTripRecords(info, vvNew, idCount, order, d, info');
    RenamedBuckets(info, vvNew, order, d);
    RoundTripTried(info, vvNew, vvTried, bucketOf, order, d, vvTried');
  }
}
