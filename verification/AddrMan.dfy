/** The stochastic address manager: five redundant indexes over one table of address records, updated in
    place by every operation. Random draws, the clock and the bucket hashes are arbitrary inputs. */
module AddrMan {
  import opened Basics
  import opened Arithmetic
  import opened Sequences

  const TRIED_BUCKET_COUNT: nat := 64
  const TRIED_BUCKET_SIZE: nat := 64
  const NEW_BUCKET_COUNT: nat := 256
  const NEW_BUCKET_SIZE: nat := 64
  const NEW_BUCKETS_PER_ADDRESS: nat := 4
  const TRIED_ENTRIES_INSPECT_ON_EVICT: nat := 4
  const HORIZON_DAYS: int := 30
  const RETRIES: int := 3
  const MAX_FAILURES: int := 10
  const MIN_FAIL_DAYS: int := 7
  const GETADDR_MAX_PCT: nat := 23
  const GETADDR_MAX: nat := 2500

  /** A network address is an opaque number; a service adds the port. */
  datatype Service = Service(ip: nat, port: nat)

  datatype Address = Address(svc: Service, services: set<nat>, time: int, routable: bool)

  datatype Info = Info(svc: Service, services: set<nat>, time: int, source: nat, lastSuccess: int, lastTry: int,
                       attempts: int, refCount: int, inTried: bool, randomPos: nat)
  {
    predicate IsTerrible(now: int) {
      && !(lastTry != 0 && lastTry >= now - 60)
      && (|| time > now + 10 * 60
          || time == 0 || now - time > HORIZON_DAYS * 86400
          || (lastSuccess == 0 && attempts >= RETRIES)
          || (now - lastSuccess > MIN_FAIL_DAYS * 86400 && attempts >= MAX_FAILURES))
    }
  }

  type Infos = map<nat, Info>

  /** An address tried within a minute is spared. Else one from more than ten minutes ahead, or not seen for 30 days, is
      terrible; so is one with 3 failures that never succeeded, or 10 since its last success over a week ago. Nothing
      else is. */
  lemma TerribleLaws(i: Info, now: int)
    ensures i.lastTry != 0 && now - i.lastTry <= 60 ==> !i.IsTerrible(now)
    ensures (i.lastTry == 0 || now - i.lastTry > 60) && (i.time == 0 || i.time - now > 600 || now - i.time > 2592000) ==> i.IsTerrible(now)
    ensures (i.lastTry == 0 || now - i.lastTry > 60) && i.lastSuccess == 0 && i.attempts >= 3 ==> i.IsTerrible(now)
    ensures (i.lastTry == 0 || now - i.lastTry > 60) && now - i.lastSuccess > 604800 && i.attempts >= 10 ==> i.IsTerrible(now)
    ensures i.time != 0 && -600 <= now - i.time <= 2592000 ==>
              && (i.attempts < 3 ==> !i.IsTerrible(now)) && (i.lastSuccess != 0 && i.attempts < 10 ==> !i.IsTerrible(now))
              && (i.lastSuccess != 0 && now - i.lastSuccess <= 604800 ==> !i.IsTerrible(now))
  {
  }

  // ------------------------------------------------------------ the invariant, index by index

  /** vRandom and nRandomPos are inverse to each other. */
  ghost predicate RandomOk(info: Infos, random: seq<nat>) {
    && (forall id :: id in info ==> info[id].randomPos < |random| && random[info[id].randomPos] == id)
    && (forall i :: 0 <= i < |random| ==> random[i] in info && info[random[i]].randomPos == i)
  }

  /** mapAddr and the addresses in mapInfo are inverse to each other. */
  ghost predicate AddrOk(info: Infos, addr: map<nat, nat>) {
    && (forall id :: id in info ==> info[id].svc.ip in addr && addr[info[id].svc.ip] == id)
    && (forall ip :: ip in addr ==> addr[ip] in info && info[addr[ip]].svc.ip == ip)
  }

  ghost predicate PlacesOk(info: Infos, idCount: nat) {
    forall id :: id in info ==>
      id < idCount && if info[id].inTried then info[id].refCount == 0 else 1 <= info[id].refCount <= NEW_BUCKETS_PER_ADDRESS
  }

  ghost predicate TimesOk(info: Infos) {
    forall id :: id in info ==> info[id].lastTry >= 0 && info[id].lastSuccess >= 0 && (info[id].inTried ==> info[id].lastSuccess > 0)
  }

  ghost predicate StatsOk(info: Infos, idCount: nat) { PlacesOk(info, idCount) && TimesOk(info) }

  /** In how many buckets an id occurs. */
  function Count(buckets: seq<set<nat>>, id: nat): nat {
    if buckets == [] then 0
    else Count(buckets[..|buckets| - 1], id) + if id in buckets[|buckets| - 1] then 1 else 0
  }

  /** nRefCount is the number of new buckets holding the id, except that `pending` is about to enter one more. */
  ghost predicate NewOk(info: Infos, vvNew: seq<set<nat>>, pending: Option<nat>) {
    && |vvNew| == NEW_BUCKET_COUNT
    && (forall b :: 0 <= b < |vvNew| ==> |vvNew[b]| <= NEW_BUCKET_SIZE)
    && (forall b, id :: 0 <= b < |vvNew| && id in vvNew[b] ==> id in info && !info[id].inTried)
    && (forall id :: id in info ==>
          info[id].refCount == Count(vvNew, id) + if pending == Some(id) then 1 else 0)
  }

  /** Every tried id sits once, in the bucket its address hashes to. */
  ghost predicate TriedOk(info: Infos, vvTried: seq<seq<nat>>, bucketOf: Service -> nat) {
    && |vvTried| == TRIED_BUCKET_COUNT
    && (forall b :: 0 <= b < |vvTried| ==> |vvTried[b]| <= TRIED_BUCKET_SIZE && Distinct(vvTried[b]))
    && (forall b, i :: 0 <= b < |vvTried| && 0 <= i < |vvTried[b]| ==>
          && vvTried[b][i] in info && info[vvTried[b][i]].inTried
          && bucketOf(info[vvTried[b][i]].svc) % TRIED_BUCKET_COUNT == b)
    && (forall id :: id in info && info[id].inTried ==> id in vvTried[bucketOf(info[id].svc) % TRIED_BUCKET_COUNT])
  }

  function NewIds(info: Infos): set<nat> { set id | id in info && !info[id].inTried }

  function TriedIds(info: Infos): set<nat> { set id | id in info && info[id].inTried }

  // ------------------------------------------------------------ counting buckets

  lemma {:induction false} CountExt(bs: seq<set<nat>>, cs: seq<set<nat>>, id: nat)
    requires |bs| == |cs| && forall b :: 0 <= b < |bs| ==> (id in bs[b] <==> id in cs[b])
    ensures Count(bs, id) == Count(cs, id)
  {
    if bs != [] { CountExt(bs[..|bs| - 1], cs[..|cs| - 1], id); }
  }

  lemma {:induction false} CountUpdate(bs: seq<set<nat>>, b: nat, s: set<nat>, id: nat)
    requires b < |bs|
    ensures Count(bs[b := s], id)
            == Count(bs, id) + (if id in s then 1 else 0) - (if id in bs[b] then 1 else 0)
  {
    var n := |bs| - 1;
    if b == n {
      assert bs[b := s][..n] == bs[..n];
    } else {
      CountUpdate(bs[..n], b, s, id);
      assert bs[b := s][..n] == bs[..n][b := s];
    }
  }

  /** The count is zero exactly when no bucket holds the id. */
  lemma {:induction false} CountZero(bs: seq<set<nat>>, id: nat)
    ensures Count(bs, id) == 0 <==> forall b :: 0 <= b < |bs| ==> id !in bs[b]
  {
    if bs != [] {
      CountZero(bs[..|bs| - 1], id);
      assert forall b :: 0 <= b < |bs| - 1 ==> bs[..|bs| - 1][b] == bs[b];
    }
  }

  // ------------------------------------------------------------ what small changes keep

  /** Two records that differ at most in their place in vRandom. */
  ghost predicate Moved(a: Info, b: Info) { b == a.(randomPos := b.randomPos) }

  /** The same addresses with the same tried flags. */
  ghost predicate SameAddresses(info: Infos, info': Infos) {
    info.Keys == info'.Keys && forall id :: id in info ==> info'[id].svc == info[id].svc && info'[id].inTried == info[id].inTried
  }

  lemma SameAddressesKeep(info: Infos, info': Infos, addr: map<nat, nat>, vvTried: seq<seq<nat>>, bucketOf: Service -> nat)
    requires SameAddresses(info, info') && AddrOk(info, addr) && TriedOk(info, vvTried, bucketOf)
    ensures AddrOk(info', addr) && TriedOk(info', vvTried, bucketOf)
    ensures NewIds(info') == NewIds(info) && TriedIds(info') == TriedIds(info)
  {
  }

  /** A record that changes no place of an address only has to keep the statistics in order. */
  lemma StoreKeeps(info: Infos, id: nat, rec: Info, random: seq<nat>, vvNew: seq<set<nat>>, idCount: nat)
    requires id in info && SamePlaces(info[id], rec) && RandomOk(info, random) && StatsOk(info, idCount) && NewOk(info, vvNew, None)
    ensures SameAddresses(info, info[id := rec]) && RandomOk(info[id := rec], random) && NewOk(info[id := rec], vvNew, None)
    ensures PlacesOk(info[id := rec], idCount)
    ensures TimesOk(info[id := rec]) <==> rec.lastTry >= 0 && rec.lastSuccess >= 0 && (rec.inTried ==> rec.lastSuccess > 0)
  {
    hide Count;
    assert info[id := rec].Keys == info.Keys;
    assert info[id := rec][id] == rec;
  }

  /** Forgetting an untried address that is last in vRandom. */
  lemma ForgetKeeps(info: Infos, random: seq<nat>, addr: map<nat, nat>, vvTried: seq<seq<nat>>, bucketOf: Service -> nat, id: nat)
    requires RandomOk(info, random) && AddrOk(info, addr) && TriedOk(info, vvTried, bucketOf)
    requires id in info && !info[id].inTried && info[id].randomPos == |random| - 1
    ensures RandomOk(info - {id}, random[..|random| - 1])
    ensures AddrOk(info - {id}, addr - {info[id].svc.ip}) && TriedOk(info - {id}, vvTried, bucketOf)
    ensures |NewIds(info - {id})| == |NewIds(info)| - 1 && TriedIds(info - {id}) == TriedIds(info)
  {
    assert NewIds(info - {id}) == NewIds(info) - {id};
    assert TriedIds(info - {id}) == TriedIds(info);
  }

  /** Only the ids in `lost` are gone; the others keep their address and their tried flag. */
  ghost predicate Kept(info: Infos, info': Infos, lost: set<nat>) {
    && info'.Keys == info.Keys - lost
    && forall id :: id in info' ==> info'[id].svc == info[id].svc && info'[id].inTried == info[id].inTried
  }

  /** Two records of one address that agree on everything the indexes depend on. */
  ghost predicate SamePlaces(a: Info, b: Info) {
    b.svc == a.svc && b.inTried == a.inTried && b.refCount == a.refCount && b.randomPos == a.randomPos
  }

  /** The record brought up to date: a clearly newer time is taken over, services are added. */
  function Refreshed(info: Info, addr: Address, timePenalty: int, now: int): Info {
    var interval := if now - addr.time < 24 * 60 * 60 then 60 * 60 else 24 * 60 * 60;
    var newer := addr.time != 0 && (info.time == 0 || info.time < addr.time - interval - timePenalty);
    info.(time := if newer then Max(0, addr.time - timePenalty) else info.time, services := info.services + addr.services)
  }

  /** What is heard adds to the services. Its time, less the penalty, is taken over if it is one, and there was none or
      one older by more than the penalty and an hour, or a day for an address heard of a day ago or more. */
  lemma RefreshedIs(info: Info, addr: Address, timePenalty: int, now: int)
    ensures var r := Refreshed(info, addr, timePenalty, now);
            && SamePlaces(info, r) && r.source == info.source && r.lastSuccess == info.lastSuccess && r.lastTry == info.lastTry
            && r.attempts == info.attempts && info.services <= r.services && addr.services <= r.services
            && (forall x :: x in r.services ==> x in info.services || x in addr.services)
            && (addr.time == 0 ==> r.time == info.time)
            && (addr.time != 0 && info.time == 0 ==> r.time == Max(0, addr.time - timePenalty))
            && (addr.time != 0 && info.time != 0 && now - addr.time < 86400 ==>
                  r.time == if addr.time - timePenalty - info.time > 3600 then Max(0, addr.time - timePenalty) else info.time)
            && (addr.time != 0 && info.time != 0 && now - addr.time >= 86400 ==>
                  r.time == if addr.time - timePenalty - info.time > 86400 then Max(0, addr.time - timePenalty) else info.time)
  {
  }

  /** An untried address in less than four buckets enters one more on news later than its time, and a roll that is 0
      among as many as 2 to the number of its buckets. */
  predicate Wanted(info: Info, addr: Address, roll: nat) {
    && addr.time != 0 && (info.time == 0 || info.time < addr.time)
    && !info.inTried && 0 <= info.refCount != NEW_BUCKETS_PER_ADDRESS && roll % Pow2(info.refCount) == 0
  }

  method FindTerrible(bucket: set<nat>, info: Infos, now: int) returns (r: Option<nat>)
    requires bucket <= info.Keys
    ensures r.Some? ==> r.value in bucket && info[r.value].IsTerrible(now)
    ensures r.None? ==> forall id :: id in bucket ==> !info[id].IsTerrible(now)
  {
    var rest := bucket;
    while rest != {}
      invariant rest <= bucket && forall id :: id in bucket && id !in rest ==> !info[id].IsTerrible(now)
      decreases |rest|
    {
      var id :| id in rest;
      if info[id].IsTerrible(now) { return Some(id); }
      rest := rest - {id};
    }
    r := None;
  }

  /** Draw four positions and keep the entry with the oldest nTime among those at them. */
  method PickOldest(bucket: set<nat>, info: Infos) returns (oldest: nat, ghost inspected: set<nat>)
    requires bucket <= info.Keys && bucket != {}
    ensures inspected <= bucket && oldest in inspected && |inspected| <= 4
    ensures forall id :: id in inspected ==> info[oldest].time <= info[id].time
  {
    var size := |bucket|;
    var n0 := GetRandInt(size);
    var n1 := GetRandInt(size);
    var n2 := GetRandInt(size);
    var n3 := GetRandInt(size);
    var rest, i, best := bucket, 0, None;
    inspected := {};
    ghost var drawn, met: set<nat> := {n0, n1, n2, n3}, {};
    while rest != {}
      invariant rest <= bucket && i == size - |rest| && inspected <= bucket - rest
      invariant |inspected| == |met| && met <= drawn && forall n :: n in met ==> n < i
      invariant i > n0 ==> best.Some?
      invariant best.Some? ==> best.value in inspected && forall id :: id in inspected ==> info[best.value].time <= info[id].time
      invariant best.None? ==> inspected == {}
      decreases |rest|
    {
      var id :| id in rest;
      if i == n0 || i == n1 || i == n2 || i == n3 {
        inspected := inspected + {id};
        met := met + {i};
        if best.None? || info[id].time < info[best.value].time { best := Some(id); }
      }
      rest, i := rest - {id}, i + 1;
    }
    SubsetSize(met, drawn);
    oldest := best.value;
  }

  /** What ShrinkNew throws out: a terrible entry if there is one, else the oldest of up to four inspected. */
  method ChooseVictim(bucket: set<nat>, info: Infos, now: int) returns (code: int, victim: nat, ghost inspected: set<nat>)
    requires bucket <= info.Keys && bucket != {}
    ensures victim in inspected && inspected <= bucket && |inspected| <= 4 && (code == 0 || code == 1)
    ensures code == 0 <==> exists id :: id in bucket && info[id].IsTerrible(now)
    ensures code == 0 ==> info[victim].IsTerrible(now)
    ensures code == 1 ==> forall id :: id in inspected ==> info[victim].time <= info[id].time
  {
    var terrible := FindTerrible(bucket, info, now);
    if terrible.Some? { return 0, terrible.value, {terrible.value}; }
    code := 1;
    victim, inspected := PickOldest(bucket, info);
  }

  function Without(buckets: seq<set<nat>>, id: nat): seq<set<nat>> {
    seq(|buckets|, b requires 0 <= b < |buckets| => buckets[b] - {id})
  }

  lemma SwapPermutes(s: seq<nat>, i: nat, j: nat)
    requires i < |s| && j < |s|
    ensures multiset(s[i := s[j]][j := s[i]]) == multiset(s)
  {
  }

  predicate Draws(draws: seq<nat>, size: nat) { forall i :: 0 <= i < |draws| ==> i <= draws[i] < size }

  /** The bucket after the entries drawn have been swapped to the front, one after the other. */
  function Shuffled(s: seq<nat>, draws: seq<nat>): (t: seq<nat>)
    requires |draws| <= |s| && Draws(draws, |s|)
    ensures |t| == |s|
  {
    if draws == [] then s else
    var i := |draws| - 1;
    var t := Shuffled(s, draws[..i]);
    Swapped(t, i, draws[i])
  }

  /** The entries at i and p change places. */
  function Swapped(t: seq<nat>, i: nat, p: nat): seq<nat>
    requires i < |t| && p < |t|
  {
    t[p := t[i]][i := t[p]]
  }

  ghost predicate Known(info: Infos, s: seq<nat>) { forall i :: 0 <= i < |s| ==> s[i] in info }

  /** The first of the n entries at the front with the earliest success. */
  function Oldest(info: Infos, s: seq<nat>, n: nat): (k: nat)
    requires 0 < n <= |s| && Known(info, s)
    ensures k < n
  {
    if n == 1 then 0 else
    var k := Oldest(info, s, n - 1);
    if info[s[n - 1]].lastSuccess < info[s[k]].lastSuccess then n - 1 else k
  }

  lemma {:induction false} OldestIs(info: Infos, s: seq<nat>, n: nat)
    requires 0 < n <= |s| && Known(info, s)
    ensures forall i :: 0 <= i < n ==> info[s[Oldest(info, s, n)]].lastSuccess <= info[s[i]].lastSuccess
  {
    if n > 1 { OldestIs(info, s, n - 1); }
  }

  lemma {:induction false} OldestFrame(info: Infos, s: seq<nat>, t: seq<nat>, n: nat)
    requires 0 < n <= |s| && |t| == |s| && s[..n] == t[..n]
    requires Known(info, s) && Known(info, t)
    ensures Oldest(info, s, n) == Oldest(info, t, n)
  {
    assert forall i :: 0 <= i < n ==> s[i] == s[..n][i] == t[i];
    if n > 1 {
      assert s[..n - 1] == s[..n][..n - 1] && t[..n - 1] == t[..n][..n - 1];
      OldestFrame(info, s, t, n - 1);
    }
  }

  /** None of the entries inspected succeeded longer ago than the one at slot. */
  ghost predicate LeastRecent(info: Infos, s: seq<nat>, slot: nat) {
    forall i :: 0 <= i < Min(TRIED_ENTRIES_INSPECT_ON_EVICT, |s|) && slot < |s| && s[slot] in info && s[i] in info ==>
      info[s[slot]].lastSuccess <= info[s[i]].lastSuccess
  }

  /** Once drawn, an entry stays at its slot: it is the one that stood at the place drawn. */
  lemma {:induction false} DrawnFrom(s: seq<nat>, draws: seq<nat>, slot: nat)
    requires |draws| <= |s| && Draws(draws, |s|) && slot < |draws|
    ensures Draws(draws[..slot], |s|) && Shuffled(s, draws[..slot])[draws[slot]] == Shuffled(s, draws)[slot]
  {
    var i := |draws| - 1;
    if slot < i {
      DrawnFrom(s, draws[..i], slot);
      assert draws[..i][..slot] == draws[..slot];
    }
  }

  /** The place recorded for an entry is where it stood when drawn; afterwards that place holds it, if and only if it
      was drawn at its own slot. */
  lemma RecordedPlace(s: seq<nat>, draws: seq<nat>, slot: nat)
    requires Distinct(s) && |draws| <= |s| && Draws(draws, |s|) && slot < |draws|
    ensures Draws(draws[..slot], |s|) && Shuffled(s, draws[..slot])[draws[slot]] == Shuffled(s, draws)[slot]
    ensures Shuffled(s, draws)[draws[slot]] == Shuffled(s, draws)[slot] <==> draws[slot] == slot
  {
    hide Shuffled;
    DrawnFrom(s, draws, slot);
    ShuffledDistinct(s, draws);
  }

  lemma {:induction false} ShuffledDistinct(s: seq<nat>, draws: seq<nat>)
    requires Distinct(s) && |draws| <= |s| && Draws(draws, |s|)
    ensures Distinct(Shuffled(s, draws))
  {
    if draws != [] { ShuffledDistinct(s, draws[..|draws| - 1]); }
  }

  /** Two entries, the older one drawn from the second place: it moves to the first, and the place recorded is
      that of the younger one. */
  lemma YoungerIsEvicted(info: Infos)
    requires 1 in info && 2 in info && info[2].lastSuccess < info[1].lastSuccess
    ensures Shuffled([1, 2], [1, 1]) == [2, 1] && Oldest(info, [2, 1], 2) == 0 && [2, 1][[1, 1][0]] == 1
  {
    assert [1, 1][..1] == [1] && [1][..0] == [];
    assert Shuffled([1, 2], []) == [1, 2];
    assert Shuffled([1, 2], [1]) == [2, 1];
  }

  /** The loop of SelectTried over a local copy of the bucket; the recorded place is where the oldest entry
      stood before it was swapped forward. */
  method ShuffleFew(bucket0: seq<nat>, info: Infos) returns (bucket: seq<nat>, pos: nat, ghost draws: seq<nat>)
    requires bucket0 != [] && Known(info, bucket0)
    ensures multiset(bucket) == multiset(bucket0) && |draws| == Min(TRIED_ENTRIES_INSPECT_ON_EVICT, |bucket0|) > 0
    ensures Draws(draws, |bucket0|) && bucket == Shuffled(bucket0, draws)
    ensures Known(info, bucket) && pos == draws[Oldest(info, bucket, |draws|)]
  {
    hide Shuffled, Oldest;
    bucket, pos, draws := bucket0, 0, [];
    NoDraws(bucket0);
    var oldest: Option<nat> := None;
    var i := 0;
    while i < TRIED_ENTRIES_INSPECT_ON_EVICT && i < |bucket|
      invariant i == |draws| <= |bucket0| == |bucket| && i <= TRIED_ENTRIES_INSPECT_ON_EVICT && Draws(draws, |bucket0|)
      invariant multiset(bucket) == multiset(bucket0) && bucket == Shuffled(bucket0, draws)
      invariant Known(info, bucket)
      invariant if i == 0 then oldest.None?
                else oldest == Some(bucket[Oldest(info, bucket, i)]) && pos == draws[Oldest(info, bucket, i)]
    {
      var r := GetRandInt(|bucket| - i);
      var p := r + i;
      var id := bucket[p];
      ghost var before := bucket;
      SwapPermutes(bucket, p, i);
      bucket := bucket[p := bucket[i]][i := id];
      ShuffledNext(bucket0, draws, p);
      OldestNext(info, before, i, p, bucket);
      draws := draws + [p];
      if oldest.None? || info[id].lastSuccess < info[oldest.value].lastSuccess {
        oldest, pos := Some(id), p;
      }
      i := i + 1;
    }
  }

  lemma NoDraws(s: seq<nat>)
    ensures Shuffled(s, []) == s
  {
  }

  lemma ShuffledNext(s: seq<nat>, draws: seq<nat>, p: nat)
    requires |draws| < |s| && Draws(draws, |s|) && |draws| <= p < |s|
    ensures Draws(draws + [p], |s|)
    ensures var t, i := Shuffled(s, draws), |draws|; Shuffled(s, draws + [p]) == Swapped(t, i, p)
  {
    assert (draws + [p])[..|draws|] == draws;
  }

  lemma OldestNext(info: Infos, t: seq<nat>, i: nat, p: nat, t': seq<nat>)
    requires i <= p < |t| && Known(info, t) && t' == Swapped(t, i, p)
    ensures Known(info, t')
    ensures Oldest(info, t', i + 1) ==
            if i == 0 || info[t[p]].lastSuccess < info[t[Oldest(info, t, i)]].lastSuccess then i else Oldest(info, t, i)
  {
    if i > 0 {
      assert t'[..i] == t[..i];
      OldestFrame(info, t, t', i);
    }
  }

  function Slot(n: nat, start: nat, size: nat): (at: nat)
    requires size > 0
    ensures at < size
  {
    (n + start) % size
  }

  /** The search visits every bucket. */
  lemma SlotOf(c: nat, start: nat, size: nat) returns (m: nat)
    requires c < size && start < size
    ensures m < size && Slot(m, start, size) == c
  {
    m := if c >= start then c - start else c - start + size;
    if c < start { ModBelow(c, size); }
  }

  lemma ModBelow(c: nat, size: nat)
    requires c < size
    ensures (c + size) % size == c
  {
  }

  /** A bucket holding the id, searched from a random one on; None when no bucket does. */
  method FindBucket(buckets: seq<set<nat>>, id: nat) returns (b: Option<nat>)
    ensures b.Some? ==> b.value < |buckets| && id in buckets[b.value]
    ensures b.None? ==> forall c :: 0 <= c < |buckets| ==> id !in buckets[c]
  {
    hide Slot;
    var size := |buckets|;
    var start := GetRandInt(size);
    for n := 0 to size
      invariant forall m :: 0 <= m < n ==> id !in buckets[Slot(m, start, size)]
    {
      var at := Slot(n, start, size);
      if id in buckets[at] { return Some(at); }
    }
    forall c | 0 <= c < size ensures id !in buckets[c] {
      var m := SlotOf(c, start, size);
    }
    b := None;
  }

  method GetRandInt(n: nat) returns (r: nat)
    ensures n > 0 ==> r < n
  {
    if n == 0 { return 0; }
    r :| r < n;
  }

  class AddrMan {
    /** The keyed bucket hashes. */
    const triedHash: Service -> nat
    const newHash: (Service, nat) -> nat
    var nIdCount: nat
    var mapInfo: Infos
    var mapAddr: map<nat, nat>
    var vRandom: seq<nat>
    var nTried: int
    var nNew: int
    var vvTried: seq<seq<nat>>
    var vvNew: seq<set<nat>>

    constructor (triedHash: Service -> nat, newHash: (Service, nat) -> nat)
      ensures Valid() && mapInfo == map[] && this.triedHash == triedHash && this.newHash == newHash
    {
      this.triedHash, this.newHash := triedHash, newHash;
      nIdCount, nTried, nNew := 0, 0, 0;
      mapInfo, mapAddr, vRandom := map[], map[], [];
      vvTried := seq(TRIED_BUCKET_COUNT, _ => []);
      vvNew := seq(NEW_BUCKET_COUNT, _ => {});
    }

    /** Everything but the agreement of the new buckets with nRefCount. */
    ghost predicate ValidBut()
      reads this
    {
      Indexed() && StatsOk(mapInfo, nIdCount)
    }

    ghost predicate Valid()
      reads this
    {
      ValidBut() && NewOk(mapInfo, vvNew, None)
    }

    /** Everything but the recorded times is in order. */
    ghost predicate Placed()
      reads this
    {
      Indexed() && PlacesOk(mapInfo, nIdCount) && NewOk(mapInfo, vvNew, None)
    }

    function GetTriedBucket(svc: Service): (b: nat)
      ensures b < TRIED_BUCKET_COUNT
    {
      triedHash(svc) % TRIED_BUCKET_COUNT
    }

    function GetNewBucket(svc: Service, source: nat): (b: nat)
      ensures b < NEW_BUCKET_COUNT
    {
      newHash(svc, source) % NEW_BUCKET_COUNT
    }

    function Find(ip: nat): Option<nat>
      reads this
    {
      if ip in mapAddr && mapAddr[ip] in mapInfo then Some(mapAddr[ip]) else None
    }

    method Create(addr: Address, source: nat) returns (id: nat)
      requires Valid() && addr.svc.ip !in mapAddr
      modifies this`nIdCount, this`mapInfo, this`mapAddr, this`vRandom
      ensures id == old(nIdCount) && id !in old(mapInfo) && nIdCount == id + 1
      ensures mapInfo == old(mapInfo[id := Info(addr.svc, addr.services, addr.time, source, 0, 0, 0, 0, false, |vRandom|)])
      ensures mapAddr == old(mapAddr[addr.svc.ip := id]) && vRandom == old(vRandom) + [id]
    {
      id := nIdCount;
      nIdCount := nIdCount + 1;
      mapInfo := mapInfo[id := Info(addr.svc, addr.services, addr.time, source, 0, 0, 0, 0, false, |vRandom|)];
      mapAddr := mapAddr[addr.svc.ip := id];
      vRandom := vRandom + [id];
    }

    /** Exchange two places of vRandom; nothing but the two nRandomPos changes. */
    method SwapRandom(i: nat, j: nat)
      requires RandomOk(mapInfo, vRandom) && i < |vRandom| && j < |vRandom|
      modifies this`mapInfo, this`vRandom
      ensures RandomOk(mapInfo, vRandom)
      ensures vRandom == old(vRandom[i := vRandom[j]][j := vRandom[i]])
      ensures mapInfo.Keys == old(mapInfo.Keys)
      ensures forall id :: id in mapInfo ==>
                Moved(old(mapInfo)[id], mapInfo[id])
      ensures old(vRandom[i]) in mapInfo && mapInfo[old(vRandom[i])].randomPos == j
    {
      if i == j { return; }
      var id1, id2 := vRandom[i], vRandom[j];
      mapInfo := mapInfo[id1 := mapInfo[id1].(randomPos := j)];
      mapInfo := mapInfo[id2 := mapInfo[id2].(randomPos := i)];
      vRandom := vRandom[i := id2][j := id1];
    }

    /** Everything that does not concern the new buckets and the statistics. */
    ghost predicate Indexed()
      reads this
    {
      && RandomOk(mapInfo, vRandom) && AddrOk(mapInfo, mapAddr) && TriedOk(mapInfo, vvTried, triedHash)
      && nNew == |NewIds(mapInfo)| && nTried == |TriedIds(mapInfo)|
    }

    /** Swap an address to the end of vRandom. */
    method MoveLast(id: nat)
      requires Indexed() && id in mapInfo
      modifies this`mapInfo, this`vRandom
      ensures Indexed() && mapInfo.Keys == old(mapInfo.Keys) && mapInfo[id].randomPos == |vRandom| - 1
      ensures forall x :: x in mapInfo ==> Moved(old(mapInfo)[x], mapInfo[x])
    {
      ghost var info0 := mapInfo;
      assert mapInfo[id].randomPos < |vRandom| && vRandom[mapInfo[id].randomPos] == id;
      hide AddrOk, TriedOk, NewIds, TriedIds, RandomOk;
      SwapRandom(mapInfo[id].randomPos, |vRandom| - 1);
      SameAddressesKeep(info0, mapInfo, mapAddr, vvTried, triedHash);
    }

    /** Forget an untried address. */
    method Forget(id: nat)
      requires Indexed() && id in mapInfo && !mapInfo[id].inTried
      modifies this`mapInfo, this`mapAddr, this`vRandom, this`nNew
      ensures Indexed() && mapInfo.Keys == old(mapInfo.Keys) - {id}
      ensures forall x :: x in mapInfo ==> Moved(old(mapInfo)[x], mapInfo[x])
    {
      hide AddrOk, TriedOk, NewIds, TriedIds, RandomOk;
      MoveLast(id);
      var info := mapInfo[id];
      ForgetKeeps(mapInfo, vRandom, mapAddr, vvTried, triedHash, id);
      vRandom := vRandom[..|vRandom| - 1];
      mapAddr := mapAddr - {info.svc.ip};
      mapInfo := mapInfo - {id};
      nNew := nNew - 1;
    }

    /** Take an id out of one new bucket, forgetting it when that was the last one holding it. */
    method DropFromBucket(b: nat, id: nat, ghost pending: Option<nat>)
      requires ValidBut() && NewOk(mapInfo, vvNew, pending) && b < NEW_BUCKET_COUNT && id in vvNew[b] && pending != Some(id)
      modifies this`mapInfo, this`mapAddr, this`vRandom, this`nNew, this`vvNew
      ensures ValidBut() && NewOk(mapInfo, vvNew, pending)
      ensures vvNew == old(vvNew[b := vvNew[b] - {id}])
      ensures mapInfo.Keys == old(mapInfo.Keys) - (if old(mapInfo[id].refCount) == 1 then {id} else {})
      ensures forall x :: x in mapInfo && x != id ==> Moved(old(mapInfo)[x], mapInfo[x])
      ensures id in mapInfo ==> mapInfo[id] == old(mapInfo[id].(refCount := mapInfo[id].refCount - 1))
    {
      hide RandomOk, AddrOk, TriedOk, StatsOk, NewOk, NewIds, TriedIds;
      NewMember(mapInfo, vvNew, b, id, pending);
      var info := mapInfo[id];
      ghost var info0 := mapInfo;
      mapInfo := mapInfo[id := info.(refCount := info.refCount - 1)];
      RecountKeeps(info0, id, info.refCount - 1, vRandom, mapAddr, vvTried, triedHash);
      if info.refCount - 1 == 0 {
        Forget(id);
      }
      StatsDrop(info0, mapInfo, nIdCount, id);
      DropKeepsNew(info0, mapInfo, vvNew, b, id, pending);
      vvNew := vvNew[b := vvNew[b] - {id}];
    }

    /** Replace the statistics of a record; its identity and its places in the indexes stay. */
    method Store(id: nat, rec: Info)
      requires Valid() && id in mapInfo && SamePlaces(mapInfo[id], rec)
      modifies this`mapInfo
      ensures mapInfo == old(mapInfo[id := rec])
      ensures Placed() && (TimesOk(mapInfo) <==> Valid())
      ensures Valid() <==> rec.lastTry >= 0 && rec.lastSuccess >= 0 && (rec.inTried ==> rec.lastSuccess > 0)
    {
      hide RandomOk, AddrOk, TriedOk, PlacesOk, TimesOk, NewOk, NewIds, TriedIds, SameAddresses, SamePlaces;
      StoreKeeps(mapInfo, id, rec, vRandom, vvNew, nIdCount);
      SameAddressesKeep(mapInfo, mapInfo[id := rec], mapAddr, vvTried, triedHash);
      mapInfo := mapInfo[id := rec];
    }

    /** Make room in a new bucket by throwing out one entry. */
    method ShrinkNew(b: nat, now: int, ghost pending: Option<nat>) returns (code: int, ghost victim: nat, ghost inspected: set<nat>)
      requires ValidBut() && NewOk(mapInfo, vvNew, pending) && b < NEW_BUCKET_COUNT && vvNew[b] != {}
      requires pending.Some? ==> pending.value !in vvNew[b]
      modifies this`mapInfo, this`mapAddr, this`vRandom, this`nNew, this`vvNew
      ensures ValidBut() && NewOk(mapInfo, vvNew, pending)
      ensures victim in old(vvNew[b]) && victim in old(mapInfo) && vvNew == old(vvNew)[b := old(vvNew[b]) - {victim}]
      ensures code == 0 ==> old(mapInfo)[victim].IsTerrible(now)
      ensures code != 0 ==> code == 1 && forall id :: id in old(vvNew[b]) && id in old(mapInfo) ==> !old(mapInfo)[id].IsTerrible(now)
      ensures victim in inspected && inspected <= old(vvNew[b]) && inspected <= old(mapInfo).Keys && |inspected| <= 4
      ensures code == 1 ==> forall id :: id in inspected ==> old(mapInfo)[victim].time <= old(mapInfo)[id].time
      ensures Kept(old(mapInfo), mapInfo, if old(mapInfo)[victim].refCount == 1 then {victim} else {})
      ensures forall x :: x in mapInfo && x != victim ==> Moved(old(mapInfo)[x], mapInfo[x])
    {
      hide RandomOk, AddrOk, TriedOk, StatsOk, NewOk, NewIds, TriedIds;
      BucketKnown(mapInfo, vvNew, b, pending);
      var id;
      code, id, inspected := ChooseVictim(vvNew[b], mapInfo, now);
      victim := id;
      DropFromBucket(b, id, pending);
    }

    /** Announce that an untried id is about to enter one more bucket. */
    method Announce(id: nat)
      requires Indexed() && id in mapInfo && NewOk(mapInfo, vvNew, None)
      requires StatsOk(mapInfo[id := mapInfo[id].(refCount := mapInfo[id].refCount + 1)], nIdCount)
      modifies this`mapInfo
      ensures ValidBut() && NewOk(mapInfo, vvNew, Some(id))
      ensures mapInfo == old(mapInfo[id := mapInfo[id].(refCount := mapInfo[id].refCount + 1)])
    {
      hide RandomOk, AddrOk, TriedOk, StatsOk, NewOk, NewIds, TriedIds;
      RecountKeeps(mapInfo, id, mapInfo[id].refCount + 1, vRandom, mapAddr, vvTried, triedHash);
      EntryPending(mapInfo, vvNew, id);
      mapInfo := mapInfo[id := mapInfo[id].(refCount := mapInfo[id].refCount + 1)];
    }

    /** Let an untried id enter one more new bucket, making room there first if it is full. */
    method EnterBucket(id: nat, b: nat, now: int) returns (ghost lost: set<nat>)
      requires Indexed() && id in mapInfo && !mapInfo[id].inTried
      requires StatsOk(mapInfo[id := mapInfo[id].(refCount := mapInfo[id].refCount + 1)], nIdCount)
      requires NewOk(mapInfo, vvNew, None) && b < NEW_BUCKET_COUNT && id !in vvNew[b]
      modifies this`mapInfo, this`mapAddr, this`vRandom, this`nNew, this`vvNew
      ensures Valid() && id in vvNew[b] && id !in lost
      ensures |lost| <= 1 && Kept(old(mapInfo), mapInfo, lost)
      ensures id in mapInfo && Moved(old(mapInfo[id].(refCount := mapInfo[id].refCount + 1)), mapInfo[id])
    {
      hide RandomOk, AddrOk, TriedOk, StatsOk, NewOk, NewIds, TriedIds, Kept;
      ghost var info0 := mapInfo;
      Announce(id);
      lost := MakeRoom(b, now, id);
      KeptRecount(info0, mapInfo, id, info0[id].refCount + 1, lost);
      BucketKnown(mapInfo, vvNew, b, Some(id));
      EnterKeepsNew(mapInfo, vvNew, b, id);
      vvNew := vvNew[b := vvNew[b] + {id}];
    }

    /** Throw an entry out of bucket b if it is full. */
    method MakeRoom(b: nat, now: int, ghost id: nat) returns (ghost lost: set<nat>)
      requires ValidBut() && NewOk(mapInfo, vvNew, Some(id)) && b < NEW_BUCKET_COUNT && id in mapInfo && id !in vvNew[b]
      modifies this`mapInfo, this`mapAddr, this`vRandom, this`nNew, this`vvNew
      ensures ValidBut() && NewOk(mapInfo, vvNew, Some(id)) && |vvNew[b]| < NEW_BUCKET_SIZE && id !in vvNew[b]
      ensures id !in lost && |lost| <= 1 && Kept(old(mapInfo), mapInfo, lost)
      ensures id in mapInfo && Moved(old(mapInfo[id]), mapInfo[id])
    {
      hide RandomOk, AddrOk, TriedOk, StatsOk, NewOk, NewIds, TriedIds;
      BucketKnown(mapInfo, vvNew, b, Some(id));
      lost := {};
      if |vvNew[b]| == NEW_BUCKET_SIZE {
        var code;
        ghost var victim, inspected;
        code, victim, inspected := ShrinkNew(b, now, Some(id));
        lost := if old(mapInfo)[victim].refCount == 1 then {victim} else {};
        BucketKnown(mapInfo, vvNew, b, Some(id));
      }
    }

    /** Take note of an address heard of from `source`. The random number drawn for a known address is `roll`, reduced to
        the range asked for. */
    method Add(addr: Address, source: nat, timePenalty: int, now: int, roll: nat) returns (fNew: bool, ghost lost: set<nat>)
      requires Valid() && addr.time >= 0
      modifies this
      ensures Valid()
      ensures fNew <==> addr.routable && addr.svc.ip !in old(mapAddr)
      ensures !addr.routable ==> mapInfo == old(mapInfo) && vvNew == old(vvNew)
      ensures addr.routable ==> addr.svc.ip in mapAddr
      ensures addr.routable && !fNew ==>
                var id := mapAddr[addr.svc.ip];
                id in mapInfo && id in old(mapInfo) &&
                var info, b := Refreshed(old(mapInfo)[id], addr, timePenalty, now), GetNewBucket(old(mapInfo)[id].svc, source);
                && mapInfo[id] == info.(refCount := mapInfo[id].refCount, randomPos := mapInfo[id].randomPos)
                && (Wanted(info, addr, roll) ==> id in vvNew[b])
                && (!Wanted(info, addr, roll) ==> mapInfo == old(mapInfo)[id := info] && vvNew == old(vvNew))
                && mapInfo[id].refCount == old(mapInfo)[id].refCount + if Wanted(info, addr, roll) && id !in old(vvNew)[b] then 1 else 0
      ensures fNew ==> var id := mapAddr[addr.svc.ip]; var b := GetNewBucket(addr.svc, source);
                       && id in mapInfo && id !in old(mapInfo) && id in vvNew[b]
                       && mapInfo[id] == Info(addr.svc, addr.services, Max(0, addr.time - timePenalty), source,
                                              0, 0, 0, 1, false, mapInfo[id].randomPos)
      ensures |lost| <= 1 && forall id :: id in old(mapInfo) && id !in lost ==>
                id in mapInfo && mapInfo[id].svc == old(mapInfo)[id].svc && mapInfo[id].inTried == old(mapInfo)[id].inTried
    {
      hide RandomOk, AddrOk, TriedOk, StatsOk, NewOk, NewIds, TriedIds;
      lost := {};
      if !addr.routable { return false, {}; }
      FindIsLookup(mapInfo, mapAddr, addr.svc.ip);
      var found := Find(addr.svc.ip);
      var id;
      if found.Some? {
        id := found.value;
        var more := Refresh(id, addr, timePenalty, now, roll);
        if !more {
          FindIsLookup(mapInfo, mapAddr, addr.svc.ip);
          return false, {};
        }
        StatsBump(mapInfo, nIdCount, id);
        fNew := false;
      } else {
        id := CreateNew(addr, source, timePenalty);
        fNew := true;
      }
      var b := GetNewBucket(mapInfo[id].svc, source);
      KnownBuckets(mapInfo, vvNew);
      if id !in vvNew[b] {
        lost := EnterBucket(id, b, now);
      }
      FindIsLookup(mapInfo, mapAddr, addr.svc.ip);
    }

    /** Create and date an address nobody knew; it is in no bucket yet. */
    method CreateNew(addr: Address, source: nat, timePenalty: int) returns (id: nat)
      requires Valid() && addr.svc.ip !in mapAddr
      modifies this`nIdCount, this`mapInfo, this`mapAddr, this`vRandom, this`nNew
      ensures Indexed() && NewOk(mapInfo, vvNew, None) && id !in old(mapInfo)
      ensures mapInfo == old(mapInfo[id := Info(addr.svc, addr.services, Max(0, addr.time - timePenalty), source, 0, 0, 0, 0, false, |vRandom|)])
      ensures StatsOk(mapInfo[id := mapInfo[id].(refCount := 1)], nIdCount)
      ensures |vvNew| == NEW_BUCKET_COUNT && forall b :: 0 <= b < |vvNew| ==> id !in vvNew[b]
    {
      hide RandomOk, AddrOk, TriedOk, StatsOk, NewOk, NewIds, TriedIds;
      ghost var info0, addr0, random0, count0 := mapInfo, mapAddr, vRandom, nIdCount;
      id := Create(addr, source);
      mapInfo := mapInfo[id := mapInfo[id].(time := Max(0, mapInfo[id].time - timePenalty))];
      nNew := nNew + 1;
      CreateCounted(info0, random0, vvNew, count0, mapInfo[id]);
      CreateIndexed(info0, addr0, random0, vvTried, triedHash, id, mapInfo[id]);
      assert mapInfo == info0[id := mapInfo[id]];
      assert mapInfo[id := mapInfo[id].(refCount := 1)] == info0[id := mapInfo[id].(refCount := 1)];
    }

    /** Update what is known about an address; whether it should go on to enter one more bucket. */
    method Refresh(id: nat, addr: Address, timePenalty: int, now: int, roll: nat) returns (more: bool)
      requires Valid() && id in mapInfo && addr.time >= 0
      modifies this`mapInfo
      ensures Valid() && Kept(old(mapInfo), mapInfo, {})
      ensures mapInfo == old(mapInfo[id := Refreshed(mapInfo[id], addr, timePenalty, now)])
      ensures more ==> mapInfo[id].refCount < NEW_BUCKETS_PER_ADDRESS
      ensures more <==> Wanted(mapInfo[id], addr, roll)
    {
      hide RandomOk, AddrOk, TriedOk, NewOk, NewIds, TriedIds;
      var info := mapInfo[id];
      var interval := if now - addr.time < 24 * 60 * 60 then 60 * 60 else 24 * 60 * 60;
      if addr.time != 0 && (info.time == 0 || info.time < addr.time - interval - timePenalty) {
        info := info.(time := Max(0, addr.time - timePenalty));
      }
      info := info.(services := info.services + addr.services);
      Store(id, info);
      if addr.time == 0 || (info.time != 0 && addr.time <= info.time) { return false; }
      if info.inTried || info.refCount == NEW_BUCKETS_PER_ADDRESS { return false; }
      var factor := 1;
      for n := 0 to info.refCount
        modifies {}
        invariant factor == Pow2(n)
      {
        factor := factor * 2;
      }
      if factor > 1 && roll % factor != 0 { return false; }
      return true;
    }

    /** Shuffle the first few entries of a tried bucket and return the place recorded for eviction. The
        record of the id being moved is already detached, hence the table `info0` from before. */
    method SelectTried(k: nat, ghost info0: Infos) returns (pos: nat, ghost draws: seq<nat>, ghost slot: nat)
      requires TriedOk(info0, vvTried, triedHash) && k < TRIED_BUCKET_COUNT && vvTried[k] != []
      requires mapInfo.Keys == info0.Keys
      modifies this`vvTried
      ensures TriedOk(info0, vvTried, triedHash) && |vvTried[k]| == |old(vvTried[k])| && pos < |vvTried[k]|
      ensures vvTried == old(vvTried)[k := vvTried[k]] && multiset(vvTried[k]) == multiset(old(vvTried[k]))
      ensures |draws| == Min(TRIED_ENTRIES_INSPECT_ON_EVICT, |vvTried[k]|) && Draws(draws, |vvTried[k]|)
      ensures vvTried[k] == Shuffled(old(vvTried[k]), draws)
      ensures slot < |draws| && LeastRecent(mapInfo, vvTried[k], slot) && pos == draws[slot]
      ensures Draws(draws[..slot], |vvTried[k]|) && Shuffled(old(vvTried[k]), draws[..slot])[pos] == vvTried[k][slot]
      ensures vvTried[k][pos] == vvTried[k][slot] <==> pos == slot
    {
      hide TriedOk, Shuffled, Oldest;
      TriedBucket(info0, vvTried, triedHash, k);
      var bucket := vvTried[k];
      bucket, pos, draws := ShuffleFew(bucket, mapInfo);
      slot := Oldest(mapInfo, bucket, |draws|);
      OldestIs(mapInfo, bucket, |draws|);
      RecordedPlace(vvTried[k], draws, slot);
      ShuffledKeeps(info0, vvTried, triedHash, k, bucket);
      vvTried := vvTried[k := bucket];
    }

    /** Take an id out of every new bucket. */
    method LeaveNew(id: nat)
      requires id in mapInfo && mapInfo[id].refCount == Count(vvNew, id)
      modifies this`vvNew, this`mapInfo
      ensures vvNew == Without(old(vvNew), id) && mapInfo == old(mapInfo[id := mapInfo[id].(refCount := 0)])
    {
      ghost var info0, vv := mapInfo, vvNew;
      for b := 0 to |vvNew|
        invariant |vvNew| == |vv| && forall c :: 0 <= c < |vv| ==> vvNew[c] == if c < b then vv[c] - {id} else vv[c]
        invariant mapInfo == info0[id := info0[id].(refCount := Count(vvNew, id))]
      {
        if id in vvNew[b] {
          CountUpdate(vvNew, b, vvNew[b] - {id}, id);
          vvNew := vvNew[b := vvNew[b] - {id}];
          mapInfo := mapInfo[id := mapInfo[id].(refCount := mapInfo[id].refCount - 1)];
        }
      }
      assert vvNew == Without(vv, id);
      CountZero(vvNew, id);
    }

    /** Move an id from the new buckets to its tried bucket, sending an entry of a full tried bucket back to
        a new bucket: its own if there is room, else the one the id came from. */
    method MakeTried(id: nat, origin: nat) returns (ghost evicted: Option<nat>)
      requires Placed() && origin < NEW_BUCKET_COUNT && id in vvNew[origin]
      modifies this`vvNew, this`mapInfo, this`nNew, this`nTried, this`vvTried
      ensures Placed() && id in old(mapInfo)
      ensures var k := GetTriedBucket(old(mapInfo)[id].svc);
              && k < |old(vvTried)| && (evicted.None? <==> |old(vvTried)[k]| < TRIED_BUCKET_SIZE)
              && (evicted.None? ==> vvTried == old(vvTried)[k := old(vvTried)[k] + [id]])
              && (evicted.Some? ==> evicted.value in old(vvTried)[k])
      ensures evicted.None? ==> mapInfo == Promoted(old(mapInfo), id) && vvNew == Without(old(vvNew), id)
      ensures evicted.Some? ==>
                && evicted.value in old(mapInfo) && old(mapInfo)[evicted.value].inTried
                && mapInfo == Exchanged(old(mapInfo), id, evicted.value)
                && SentBack(old(vvNew), id, origin, evicted.value, old(mapInfo)[evicted.value], vvNew)
    {
      hide RandomOk, AddrOk, TriedOk, PlacesOk, NewOk, NewIds, TriedIds, Count;
      ghost var info0, vv0 := mapInfo, vvNew;
      NewMember(mapInfo, vvNew, origin, id, None);
      RefCountIs(mapInfo, vvNew, id);
      LeaveNew(id);
      nNew := nNew - 1;
      var k := GetTriedBucket(mapInfo[id].svc);
      TriedBucket(info0, vvTried, triedHash, k);
      if |vvTried[k]| < TRIED_BUCKET_SIZE {
        PromoteIndexed(info0, id, vRandom, mapAddr, nIdCount);
        PromoteNew(info0, id, vv0);
        PromoteTried(info0, id, vvTried, triedHash);
        vvTried := vvTried[k := vvTried[k] + [id]];
        nTried := nTried + 1;
        mapInfo := mapInfo[id := mapInfo[id].(inTried := true)];
        assert mapInfo == Promoted(info0, id);
        return None;
      }
      evicted := TradePlaces(id, k, origin, info0, vv0);
    }

    /** The state in which id has left all new buckets but nothing else has changed since (info0, vv0). */
    ghost predicate Detached(id: nat, info0: Infos, vv0: seq<set<nat>>)
      reads this
    {
      && RandomOk(info0, vRandom) && AddrOk(info0, mapAddr) && PlacesOk(info0, nIdCount) && NewOk(info0, vv0, None)
      && TriedOk(info0, vvTried, triedHash) && nNew == |NewIds(info0)| - 1 && nTried == |TriedIds(info0)|
      && id in info0 && !info0[id].inTried
      && mapInfo == info0[id := info0[id].(refCount := 0)] && vvNew == Without(vv0, id)
    }

    /** The entry given up by a tried bucket is in the new bucket of its address if that has room once id has
        left, else in the one id came from. */
    ghost predicate SentBack(vv: seq<set<nat>>, id: nat, origin: nat, victim: nat, rec: Info, vv': seq<set<nat>>)
      reads this
    {
      var w, own := Without(vv, id), GetNewBucket(rec.svc, rec.source);
      && own < |w| && origin < |w|
      && var target := if |w[own]| < NEW_BUCKET_SIZE then own else origin;
         vv' == w[target := w[target] + {victim}]
    }

    /** Put a detached id in the place of an entry of its full tried bucket. */
    method TradePlaces(id: nat, k: nat, origin: nat, ghost info0: Infos, ghost vv0: seq<set<nat>>) returns (ghost evicted: Option<nat>)
      requires Detached(id, info0, vv0) && |vv0| == NEW_BUCKET_COUNT && origin < |vv0| && id in vv0[origin]
      requires k == GetTriedBucket(info0[id].svc) && k < |vvTried| && vvTried[k] != []
      modifies this`vvNew, this`mapInfo, this`nNew, this`vvTried
      ensures Placed() && evicted.Some? && evicted.value in info0 && info0[evicted.value].inTried
      ensures mapInfo == Exchanged(info0, id, evicted.value) && evicted.value in old(vvTried)[k]
      ensures SentBack(vv0, id, origin, evicted.value, info0[evicted.value], vvNew)
    {
      hide RandomOk, AddrOk, TriedOk, PlacesOk, NewOk, NewIds, TriedIds, Count, Distinct, Exchanged, Put, Shuffled, Draws, LeastRecent;
      var pos;
      ghost var draws, slot;
      pos, draws, slot := SelectTried(k, info0);
      var victim := vvTried[k][pos];
      assert victim in multiset(vvTried[k]);
      TriedBucket(info0, vvTried, triedHash, k);
      var u := GetNewBucket(mapInfo[victim].svc, mapInfo[victim].source);
      BucketKnown(info0, vv0, origin, None);
      var target := if |vvNew[u]| < NEW_BUCKET_SIZE then u else origin;
      ExchangeIndexed(info0, id, victim, vRandom, mapAddr, nIdCount);
      ExchangeNew(info0, id, victim, vv0, target);
      ExchangeTried(info0, id, victim, vvTried, triedHash, k, pos);
      WriteTrade(id, k, pos, target, info0);
      evicted := Some(victim);
    }

    /** The entry at pos of tried bucket k goes to new bucket target, and id takes its place. */
    method WriteTrade(id: nat, k: nat, pos: nat, target: nat, ghost info0: Infos)
      requires k < |vvTried| && pos < |vvTried[k]| && target < |vvNew| && id in info0 && !info0[id].inTried
      requires vvTried[k][pos] in info0 && info0[vvTried[k][pos]].inTried && mapInfo == info0[id := info0[id].(refCount := 0)]
      modifies this`vvNew, this`mapInfo, this`nNew, this`vvTried
      ensures mapInfo == Exchanged(info0, id, old(vvTried[k][pos])) && vvTried == old(vvTried)[k := Put(old(vvTried)[k], pos, id)]
      ensures vvNew == old(vvNew)[target := old(vvNew)[target] + {old(vvTried[k][pos])}] && nNew == old(nNew) + 1
    {
      var victim := vvTried[k][pos];
      mapInfo := mapInfo[victim := mapInfo[victim].(inTried := false, refCount := 1)];
      vvNew := vvNew[target := vvNew[target] + {victim}];
      nNew := nNew + 1;
      vvTried := vvTried[k := Put(vvTried[k], pos, id)];
      mapInfo := mapInfo[id := mapInfo[id].(inTried := true)];
    }

    /** Record a successful connection; an untried address moves to the tried buckets. */
    method Good(svc: Service, time: int) returns (ghost evicted: Option<nat>)
      requires Valid()
      modifies this
      ensures Placed() && mapInfo.Keys == old(mapInfo.Keys) && mapAddr == old(mapAddr) && vRandom == old(vRandom)
      ensures Valid() <==> time > 0 || !(svc.ip in mapAddr && old(mapInfo)[mapAddr[svc.ip]].svc == svc)
      ensures svc.ip in mapAddr && old(mapInfo)[mapAddr[svc.ip]].svc == svc ==>
                var id := mapAddr[svc.ip];
                && mapInfo[id] == old(mapInfo)[id].(lastSuccess := time, lastTry := time, time := time, attempts := 0,
                                                    inTried := true, refCount := 0)
                && id in vvTried[GetTriedBucket(svc)]
      ensures !(svc.ip in mapAddr && old(mapInfo)[mapAddr[svc.ip]].svc == svc) ==>
                mapInfo == old(mapInfo) && vvNew == old(vvNew) && vvTried == old(vvTried)
      ensures forall id :: id in mapInfo && id != (if svc.ip in mapAddr then mapAddr[svc.ip] else 0) && Some(id) != evicted ==>
                mapInfo[id] == old(mapInfo)[id]
      ensures evicted.Some? ==>
                && evicted.value in mapInfo && old(mapInfo)[evicted.value].inTried
                && evicted.value in old(vvTried)[GetTriedBucket(svc)] && |old(vvTried)[GetTriedBucket(svc)]| >= TRIED_BUCKET_SIZE
                && mapInfo[evicted.value] == old(mapInfo)[evicted.value].(inTried := false, refCount := 1)
    {
      hide RandomOk, AddrOk, TriedOk, PlacesOk, TimesOk, NewOk, NewIds, TriedIds;
      hide Promoted, Exchanged, Without, SentBack;
      evicted := None;
      FindIsLookup(mapInfo, mapAddr, svc.ip);
      var found := Find(svc.ip);
      if found.None? { return; }
      var id := found.value;
      if mapInfo[id].svc != svc { return; }
      ghost var info0 := mapInfo;
      Store(id, mapInfo[id].(lastSuccess := time, lastTry := time, time := time, attempts := 0));
      ghost var info1 := mapInfo;
      TriedUncounted(info0, id, nIdCount);
      if !mapInfo[id].inTried {
        var b := FindBucket(vvNew, id);
        UntriedIsHeld(mapInfo, vvNew, id, nIdCount);
        if b.None? { return; }
        evicted := MakeTried(id, b.value);
        TablesTraded(info1, id, evicted, mapInfo);
      }
      GoodTimes(info0, mapInfo, id, time);
      TriedHome(mapInfo, vvTried, triedHash, id);
    }

    method Attempt(svc: Service, time: int)
      requires Valid()
      modifies this`mapInfo
      ensures mapInfo.Keys == old(mapInfo.Keys)
      ensures Valid() <==> time >= 0 || forall id :: id in mapInfo ==> old(mapInfo)[id].svc != svc
      ensures forall id :: id in mapInfo ==>
                mapInfo[id] == if old(mapInfo)[id].svc == svc
                               then old(mapInfo)[id].(lastTry := time, attempts := old(mapInfo)[id].attempts + 1)
                               else old(mapInfo)[id]
    {
      hide RandomOk, AddrOk, TriedOk, PlacesOk, TimesOk, NewOk, NewIds, TriedIds;
      FindIsLookup(mapInfo, mapAddr, svc.ip);
      TimesOf(mapInfo);
      var found := Find(svc.ip);
      if found.None? || mapInfo[found.value].svc != svc { return; }
      var info := mapInfo[found.value];
      Store(found.value, info.(lastTry := time, attempts := info.attempts + 1));
    }

    method Connected(svc: Service, time: int)
      requires Valid()
      modifies this`mapInfo
      ensures Valid() && mapInfo.Keys == old(mapInfo.Keys)
      ensures forall id :: id in mapInfo ==>
                mapInfo[id] == if old(mapInfo)[id].svc == svc && time - old(mapInfo)[id].time > 20 * 60
                               then old(mapInfo)[id].(time := time) else old(mapInfo)[id]
    {
      hide RandomOk, AddrOk, TriedOk, NewOk, NewIds, TriedIds;
      FindIsLookup(mapInfo, mapAddr, svc.ip);
      var found := Find(svc.ip);
      if found.None? || mapInfo[found.value].svc != svc { return; }
      var info := mapInfo[found.value];
      if time - info.time > 20 * 60 { Store(found.value, info.(time := time)); }
    }

    /** Swap two places of vRandom in a consistent state. */
    method Shuffle(i: nat, j: nat)
      requires Valid() && i <= j < |vRandom|
      modifies this`mapInfo, this`vRandom
      ensures Valid() && Moves(old(mapInfo), mapInfo) && |vRandom| == |old(vRandom)|
      ensures vRandom[..i] == old(vRandom[..i])
    {
      hide RandomOk, AddrOk, TriedOk, StatsOk, NewOk, NewIds, TriedIds;
      ghost var info0 := mapInfo;
      SwapRandom(i, j);
      MovesKeep(info0, mapInfo, mapAddr, vvTried, triedHash, nIdCount, vvNew);
    }

    /** A random selection of known addresses, none twice. */
    method GetAddr() returns (addrs: seq<Service>)
      requires Valid()
      modifies this`mapInfo, this`vRandom
      ensures Valid() && Moves(old(mapInfo), mapInfo)
      ensures |addrs| == if GETADDR_MAX_PCT * |vRandom| / 100 > GETADDR_MAX then GETADDR_MAX else GETADDR_MAX_PCT * |vRandom| / 100
      ensures forall i, j :: 0 <= i < j < |addrs| ==> addrs[i].ip != addrs[j].ip
      ensures forall i :: 0 <= i < |addrs| ==> addrs[i].ip in mapAddr && mapInfo[mapAddr[addrs[i].ip]].svc == addrs[i]
    {
      hide RandomOk, AddrOk, TriedOk, StatsOk, NewOk, NewIds, TriedIds;
      var nodes := GETADDR_MAX_PCT * |vRandom| / 100;
      if nodes > GETADDR_MAX { nodes := GETADDR_MAX; }
      addrs := [];
      for n := 0 to nodes
        invariant Valid() && Moves(old(mapInfo), mapInfo) && |vRandom| == |old(vRandom)|
        invariant Selected(mapInfo, vRandom[..n], addrs)
      {
        var r := GetRandInt(|vRandom| - n);
        ghost var info0, picked := mapInfo, vRandom[..n];
        Shuffle(n, r + n);
        RandomKnown(mapInfo, vRandom);
        SelectedMoves(info0, mapInfo, picked, addrs);
        assert vRandom[..n + 1] == picked + [vRandom[n]];
        addrs := addrs + [mapInfo[vRandom[n]].svc];
      }
      SelectionDistinct(mapInfo, vRandom, mapAddr, addrs);
    }
  }

  /** Under the invariant, an address is found exactly when it has an id. */
  lemma FindIsLookup(info: Infos, addr: map<nat, nat>, ip: nat)
    requires AddrOk(info, addr)
    ensures ip in addr ==> addr[ip] in info && info[addr[ip]].svc.ip == ip
    ensures forall id :: id in info && info[id].svc.ip == ip ==> ip in addr && addr[ip] == id
  {
  }

  lemma TriedBucket(info: Infos, vvTried: seq<seq<nat>>, bucketOf: Service -> nat, k: nat)
    requires TriedOk(info, vvTried, bucketOf) && k < TRIED_BUCKET_COUNT
    ensures |vvTried| == TRIED_BUCKET_COUNT && Distinct(vvTried[k]) && |vvTried[k]| <= TRIED_BUCKET_SIZE
    ensures forall i :: 0 <= i < |vvTried[k]| ==>
              && vvTried[k][i] in info && info[vvTried[k][i]].inTried
              && bucketOf(info[vvTried[k][i]].svc) % TRIED_BUCKET_COUNT == k
  {
  }

  lemma {:induction false} DistinctMultiplicity(s: seq<nat>, x: nat)
    requires Distinct(s)
    ensures multiset(s)[x] <= 1
  {
    if s != [] {
      DistinctMultiplicity(s[1..], x);
      assert s == [s[0]] + s[1..];
      assert s[0] == x ==> x !in s[1..];
    }
  }

  lemma RepeatedMultiplicity(t: seq<nat>, i: nat, j: nat)
    requires i < j < |t|
    ensures t[i] == t[j] ==> multiset(t)[t[i]] >= 2
  {
    assert t == t[..i] + [t[i]] + t[i + 1..j] + [t[j]] + t[j + 1..];
  }

  /** A permutation of distinct elements is distinct. */
  lemma PermutedDistinct(s: seq<nat>, t: seq<nat>)
    requires Distinct(s) && multiset(s) == multiset(t)
    ensures Distinct(t) && |s| == |t| && forall x :: x in s <==> x in t
  {
    assert |multiset(s)| == |s| && |multiset(t)| == |t|;
    forall x ensures x in s <==> x in t { assert x in multiset(s) <==> x in multiset(t); }
    forall i, j | 0 <= i < j < |t| ensures t[i] != t[j] {
      RepeatedMultiplicity(t, i, j);
      DistinctMultiplicity(s, t[i]);
    }
  }

  lemma ShuffledKeeps(info: Infos, vvTried: seq<seq<nat>>, bucketOf: Service -> nat, k: nat, bucket: seq<nat>)
    requires TriedOk(info, vvTried, bucketOf) && k < |vvTried| && multiset(bucket) == multiset(vvTried[k])
    ensures TriedOk(info, vvTried[k := bucket], bucketOf)
  {
    PermutedDistinct(vvTried[k], bucket);
    forall i | 0 <= i < |bucket| ensures bucket[i] in vvTried[k] { assert bucket[i] in bucket; }
  }

  function Put(s: seq<nat>, i: nat, x: nat): seq<nat>
    requires i < |s|
  {
    s[i := x]
  }

  function Promoted(info: Infos, id: nat): Infos
    requires id in info
  {
    info[id := info[id].(refCount := 0, inTried := true)]
  }

  /** The table after id and a tried victim changed places. */
  function Exchanged(info: Infos, id: nat, victim: nat): Infos
    requires id in info && victim in info
  {
    Promoted(info, id)[victim := info[victim].(inTried := false, refCount := 1)]
  }

  lemma TriedUncounted(info: Infos, id: nat, idCount: nat)
    requires PlacesOk(info, idCount) && id in info
    ensures info[id].inTried ==> info[id].refCount == 0
  {
  }

  /** What becoming tried changes in the table. */
  lemma TablesTraded(info: Infos, id: nat, evicted: Option<nat>, info': Infos)
    requires id in info && !info[id].inTried
    requires evicted.None? ==> info' == Promoted(info, id)
    requires evicted.Some? ==> evicted.value in info && info[evicted.value].inTried && info' == Exchanged(info, id, evicted.value)
    ensures info'.Keys == info.Keys && info'[id] == info[id].(inTried := true, refCount := 0)
    ensures forall i :: i in info && i != id && Some(i) != evicted ==> info'[i] == info[i]
    ensures evicted.Some? ==> info'[evicted.value] == info[evicted.value].(inTried := false, refCount := 1)
  {
  }

  lemma RefCountIs(info: Infos, vvNew: seq<set<nat>>, id: nat)
    requires NewOk(info, vvNew, None) && id in info
    ensures info[id].refCount == Count(vvNew, id)
  {
  }

  lemma WithoutCount(vvNew: seq<set<nat>>, id: nat, x: nat)
    ensures Count(Without(vvNew, id), x) == if x == id then 0 else Count(vvNew, x)
  {
    if x == id { CountZero(Without(vvNew, id), id); } else { CountExt(vvNew, Without(vvNew, id), x); }
  }

  /** Moving an untried id out of the new buckets and flagging it tried. */
  lemma PromoteIndexed(info: Infos, id: nat, random: seq<nat>, addr: map<nat, nat>, idCount: nat)
    requires RandomOk(info, random) && AddrOk(info, addr) && PlacesOk(info, idCount)
    requires id in info && !info[id].inTried
    ensures RandomOk(Promoted(info, id), random) && AddrOk(Promoted(info, id), addr) && PlacesOk(Promoted(info, id), idCount)
    ensures |NewIds(Promoted(info, id))| == |NewIds(info)| - 1 && |TriedIds(Promoted(info, id))| == |TriedIds(info)| + 1
  {
    assert NewIds(Promoted(info, id)) == NewIds(info) - {id};
    assert TriedIds(Promoted(info, id)) == TriedIds(info) + {id};
  }

  lemma PromoteNew(info: Infos, id: nat, vvNew: seq<set<nat>>)
    requires NewOk(info, vvNew, None) && id in info && !info[id].inTried
    ensures NewOk(Promoted(info, id), Without(vvNew, id), None)
  {
    var w := Without(vvNew, id);
    forall x { WithoutCount(vvNew, id, x); }
    forall b | 0 <= b < |vvNew| ensures |w[b]| <= NEW_BUCKET_SIZE { SubsetSize(w[b], vvNew[b]); }
  }

  lemma PromoteTried(info: Infos, id: nat, vvTried: seq<seq<nat>>, bucketOf: Service -> nat)
    requires TriedOk(info, vvTried, bucketOf) && id in info && !info[id].inTried
    requires |vvTried[bucketOf(info[id].svc) % TRIED_BUCKET_COUNT]| < TRIED_BUCKET_SIZE
    ensures var k := bucketOf(info[id].svc) % TRIED_BUCKET_COUNT;
            TriedOk(Promoted(info, id), vvTried[k := vvTried[k] + [id]], bucketOf)
  {
  }

  lemma ExchangeIndexed(info: Infos, id: nat, victim: nat, random: seq<nat>, addr: map<nat, nat>, idCount: nat)
    requires RandomOk(info, random) && AddrOk(info, addr) && PlacesOk(info, idCount)
    requires id in info && !info[id].inTried && victim in info && info[victim].inTried
    ensures var info' := Exchanged(info, id, victim);
            && RandomOk(info', random) && AddrOk(info', addr) && PlacesOk(info', idCount)
            && |NewIds(info')| == |NewIds(info)| && |TriedIds(info')| == |TriedIds(info)|
  {
    PromoteIndexed(info, id, random, addr, idCount);
    ExchangeIds(info, id, victim);
    DemoteIndexed(Promoted(info, id), victim, random, addr, idCount);
    hide NewIds, TriedIds, RandomOk, AddrOk, PlacesOk;
  }

  lemma DemoteIndexed(info: Infos, victim: nat, random: seq<nat>, addr: map<nat, nat>, idCount: nat)
    requires RandomOk(info, random) && AddrOk(info, addr) && PlacesOk(info, idCount) && victim in info
    ensures var info' := info[victim := info[victim].(inTried := false, refCount := 1)];
            RandomOk(info', random) && AddrOk(info', addr) && PlacesOk(info', idCount)
  {
  }

  lemma ExchangeIds(info: Infos, id: nat, victim: nat)
    requires id in info && !info[id].inTried && victim in info && info[victim].inTried
    ensures var info', p := Exchanged(info, id, victim), Promoted(info, id);
            |NewIds(info')| == |NewIds(p)| + 1 && |TriedIds(info')| == |TriedIds(p)| - 1
  {
    var info', p := Exchanged(info, id, victim), Promoted(info, id);
    assert NewIds(info') == NewIds(p) + {victim};
    assert TriedIds(p) == TriedIds(info') + {victim};
  }

  /** The new side of the exchange: the victim enters the bucket `target`, which has room once the id left. */
  lemma ExchangeNew(info: Infos, id: nat, victim: nat, vvNew: seq<set<nat>>, target: nat)
    requires NewOk(info, vvNew, None) && id in info && !info[id].inTried && victim in info && info[victim].inTried
    requires target < |vvNew| && |Without(vvNew, id)[target]| < NEW_BUCKET_SIZE
    ensures var w := Without(vvNew, id);
            NewOk(Exchanged(info, id, victim), w[target := w[target] + {victim}], None)
  {
    hide Count, Without, Promoted;
    var w := Without(vvNew, id);
    PromoteNew(info, id, vvNew);
    PromotedAt(info, id, victim);
    DemoteNew(Promoted(info, id), victim, w, target);
  }

  lemma PromotedAt(info: Infos, id: nat, x: nat)
    requires id in info && !info[id].inTried && x in info && info[x].inTried
    ensures x in Promoted(info, id) && Promoted(info, id)[x] == info[x]
  {
  }

  /** A tried id enters a new bucket with room. */
  lemma DemoteNew(info: Infos, victim: nat, w: seq<set<nat>>, target: nat)
    requires NewOk(info, w, None) && victim in info && info[victim].inTried && target < |w| && |w[target]| < NEW_BUCKET_SIZE
    ensures NewOk(info[victim := info[victim].(inTried := false, refCount := 1)], w[target := w[target] + {victim}], None)
  {
    CountZero(w, victim);
    hide Count;
    forall x ensures Count(w[target := w[target] + {victim}], x) == Count(w, x) + (if x == victim then 1 else 0) {
      CountUpdate(w, target, w[target] + {victim}, x);
    }
  }

  lemma ExchangeTried(info: Infos, id: nat, victim: nat, vvTried: seq<seq<nat>>, bucketOf: Service -> nat, k: nat, pos: nat)
    requires TriedOk(info, vvTried, bucketOf) && id in info && !info[id].inTried
    requires k == bucketOf(info[id].svc) % TRIED_BUCKET_COUNT && pos < |vvTried[k]| && victim == vvTried[k][pos]
    ensures victim in info && TriedOk(Exchanged(info, id, victim), vvTried[k := Put(vvTried[k], pos, id)], bucketOf)
  {
    var info', bucket := Exchanged(info, id, victim), Put(vvTried[k], pos, id);
    assert info[victim].inTried && bucketOf(info[victim].svc) % TRIED_BUCKET_COUNT == k;
    forall x | x in info' && info'[x].inTried ensures x in vvTried[k := bucket][bucketOf(info'[x].svc) % TRIED_BUCKET_COUNT] {
      if x == id {
        assert bucket[pos] == id;
      } else if bucketOf(info[x].svc) % TRIED_BUCKET_COUNT == k {
        var i :| 0 <= i < |vvTried[k]| && vvTried[k][i] == x;
        assert bucket[i] == x;
      }
    }
  }

  /** Only places in vRandom differ. */
  ghost predicate Moves(info: Infos, info': Infos) {
    info.Keys == info'.Keys && forall id :: id in info ==> Moved(info[id], info'[id])
  }

  lemma MovesKeep(info: Infos, info': Infos, addr: map<nat, nat>, vvTried: seq<seq<nat>>, bucketOf: Service -> nat, idCount: nat, vvNew: seq<set<nat>>)
    requires Moves(info, info') && AddrOk(info, addr) && TriedOk(info, vvTried, bucketOf) && StatsOk(info, idCount) && NewOk(info, vvNew, None)
    ensures AddrOk(info', addr) && TriedOk(info', vvTried, bucketOf) && StatsOk(info', idCount) && NewOk(info', vvNew, None)
    ensures NewIds(info') == NewIds(info) && TriedIds(info') == TriedIds(info)
  {
    SameAddressesKeep(info, info', addr, vvTried, bucketOf);
  }

  lemma TimesOf(info: Infos)
    requires TimesOk(info)
    ensures forall id :: id in info ==> info[id].lastTry >= 0 && info[id].lastSuccess >= 0 && (info[id].inTried ==> info[id].lastSuccess > 0)
  {
  }

  /** Of a record that got a new success time, and others that at most lost their tried flag, the times are in order if
      and only if the new one is positive. */
  lemma GoodTimes(info: Infos, info': Infos, id: nat, time: int)
    requires TimesOk(info) && info'.Keys == info.Keys && id in info
    requires info'[id].inTried && info'[id].lastTry == info'[id].lastSuccess == time
    requires forall x :: x in info && x != id ==>
               && info'[x].lastTry == info[x].lastTry && info'[x].lastSuccess == info[x].lastSuccess
               && (info'[x].inTried ==> info[x].inTried)
    ensures TimesOk(info') <==> time > 0
  {
  }

  /** An untried address is always in some new bucket, so the search for one cannot fail. */
  lemma UntriedIsHeld(info: Infos, vvNew: seq<set<nat>>, id: nat, idCount: nat)
    requires NewOk(info, vvNew, None) && PlacesOk(info, idCount) && id in info && !info[id].inTried
    ensures |vvNew| == NEW_BUCKET_COUNT && exists b :: 0 <= b < |vvNew| && id in vvNew[b]
  {
    CountZero(vvNew, id);
  }

  lemma TriedHome(info: Infos, vvTried: seq<seq<nat>>, bucketOf: Service -> nat, id: nat)
    requires TriedOk(info, vvTried, bucketOf) && id in info && info[id].inTried
    ensures |vvTried| == TRIED_BUCKET_COUNT && id in vvTried[bucketOf(info[id].svc) % TRIED_BUCKET_COUNT]
  {
  }

  lemma RandomKnown(info: Infos, random: seq<nat>)
    requires RandomOk(info, random)
    ensures forall k :: 0 <= k < |random| ==> random[k] in info
  {
  }

  /** The addresses of the given ids. */
  ghost predicate Selected(info: Infos, ids: seq<nat>, addrs: seq<Service>) {
    |ids| == |addrs| && forall k :: 0 <= k < |ids| ==> ids[k] in info && addrs[k] == info[ids[k]].svc
  }

  lemma SelectedMoves(info: Infos, info': Infos, ids: seq<nat>, addrs: seq<Service>)
    requires Selected(info, ids, addrs) && Moves(info, info')
    ensures Selected(info', ids, addrs)
  {
  }

  lemma SelectionDistinct(info: Infos, random: seq<nat>, addr: map<nat, nat>, addrs: seq<Service>)
    requires RandomOk(info, random) && AddrOk(info, addr) && |addrs| <= |random| && Selected(info, random[..|addrs|], addrs)
    ensures forall i, j :: 0 <= i < j < |addrs| ==> addrs[i].ip != addrs[j].ip
    ensures forall i :: 0 <= i < |addrs| ==> addrs[i].ip in addr && addr[addrs[i].ip] in info && info[addr[addrs[i].ip]].svc == addrs[i]
  {
    assert forall k :: 0 <= k < |addrs| ==> random[..|addrs|][k] == random[k];
  }

  lemma KnownBuckets(info: Infos, vvNew: seq<set<nat>>)
    requires NewOk(info, vvNew, None)
    ensures |vvNew| == NEW_BUCKET_COUNT && forall b :: 0 <= b < |vvNew| ==> vvNew[b] <= info.Keys
  {
  }

  /** A new, last record without buckets. */
  ghost predicate Blank(rec: Info, random: seq<nat>) {
    rec.randomPos == |random| && rec.refCount == 0 && !rec.inTried && rec.lastTry >= 0 && rec.lastSuccess >= 0
  }

  lemma CreateIndexed(info: Infos, addr: map<nat, nat>, random: seq<nat>, vvTried: seq<seq<nat>>, bucketOf: Service -> nat, id: nat, rec: Info)
    requires RandomOk(info, random) && AddrOk(info, addr) && TriedOk(info, vvTried, bucketOf)
    requires id !in info && rec.svc.ip !in addr && Blank(rec, random)
    ensures RandomOk(info[id := rec], random + [id]) && AddrOk(info[id := rec], addr[rec.svc.ip := id])
    ensures TriedOk(info[id := rec], vvTried, bucketOf)
    ensures |NewIds(info[id := rec])| == |NewIds(info)| + 1 && TriedIds(info[id := rec]) == TriedIds(info)
  {
    CreateIds(info, id, rec);
    hide NewIds, TriedIds, Distinct;
  }

  lemma CreateIds(info: Infos, id: nat, rec: Info)
    requires id !in info && !rec.inTried
    ensures |NewIds(info[id := rec])| == |NewIds(info)| + 1 && TriedIds(info[id := rec]) == TriedIds(info)
  {
    assert NewIds(info[id := rec]) == NewIds(info) + {id};
  }

  lemma CreateCounted(info: Infos, random: seq<nat>, vvNew: seq<set<nat>>, id: nat, rec: Info)
    requires StatsOk(info, id) && NewOk(info, vvNew, None) && Blank(rec, random)
    ensures id !in info && NewOk(info[id := rec], vvNew, None) && StatsOk(info[id := rec.(refCount := 1)], id + 1)
    ensures |vvNew| == NEW_BUCKET_COUNT && forall b :: 0 <= b < |vvNew| ==> id !in vvNew[b]
  {
    CountZero(vvNew, id);
  }

  lemma StatsBump(info: Infos, idCount: nat, id: nat)
    requires StatsOk(info, idCount) && id in info && !info[id].inTried && info[id].refCount < NEW_BUCKETS_PER_ADDRESS
    ensures StatsOk(info[id := info[id].(refCount := info[id].refCount + 1)], idCount)
  {
  }

  lemma KeptRecount(info: Infos, info': Infos, id: nat, n: int, lost: set<nat>)
    requires id in info
    requires Kept(info[id := info[id].(refCount := n)], info', lost)
    ensures Kept(info, info', lost) && (id !in lost ==> id in info' && info'[id].svc == info[id].svc && info'[id].inTried == info[id].inTried)
  {
  }

  lemma BucketKnown(info: Infos, vvNew: seq<set<nat>>, b: nat, pending: Option<nat>)
    requires NewOk(info, vvNew, pending) && b < NEW_BUCKET_COUNT
    ensures |vvNew| == NEW_BUCKET_COUNT && vvNew[b] <= info.Keys && |vvNew[b]| <= NEW_BUCKET_SIZE
  {
  }

  lemma EntryPending(info: Infos, vvNew: seq<set<nat>>, id: nat)
    requires NewOk(info, vvNew, None) && id in info
    ensures NewOk(info[id := info[id].(refCount := info[id].refCount + 1)], vvNew, Some(id))
  {
  }

  lemma EnterKeepsNew(info: Infos, vvNew: seq<set<nat>>, b: nat, id: nat)
    requires NewOk(info, vvNew, Some(id)) && id in info && !info[id].inTried
    requires b < NEW_BUCKET_COUNT && |vvNew[b]| < NEW_BUCKET_SIZE && id !in vvNew[b]
    ensures NewOk(info, vvNew[b := vvNew[b] + {id}], None)
  {
    forall x | x in info ensures Count(vvNew[b := vvNew[b] + {id}], x) == Count(vvNew, x) + (if x == id then 1 else 0) {
      CountUpdate(vvNew, b, vvNew[b] + {id}, x);
    }
  }

  lemma NewMember(info: Infos, vvNew: seq<set<nat>>, b: nat, id: nat, pending: Option<nat>)
    requires NewOk(info, vvNew, pending) && b < NEW_BUCKET_COUNT && id in vvNew[b]
    ensures |vvNew| == NEW_BUCKET_COUNT && id in info && !info[id].inTried
  {
  }

  /** Changing one nRefCount touches none of the indexes but the new buckets. */
  lemma RecountKeeps(info: Infos, id: nat, n: int, random: seq<nat>, addr: map<nat, nat>, vvTried: seq<seq<nat>>, bucketOf: Service -> nat)
    requires id in info && RandomOk(info, random) && AddrOk(info, addr) && TriedOk(info, vvTried, bucketOf)
    ensures var info' := info[id := info[id].(refCount := n)];
            && RandomOk(info', random) && AddrOk(info', addr) && TriedOk(info', vvTried, bucketOf)
            && NewIds(info') == NewIds(info) && TriedIds(info') == TriedIds(info)
  {
    SameAddressesKeep(info, info[id := info[id].(refCount := n)], addr, vvTried, bucketOf);
  }

  lemma StatsDrop(info: Infos, info': Infos, idCount: nat, id: nat)
    requires StatsOk(info, idCount) && id in info && !info[id].inTried
    requires info'.Keys == info.Keys - (if info[id].refCount == 1 then {id} else {})
    requires forall x :: x in info' && x != id ==> Moved(info[x], info'[x])
    requires id in info' ==> info'[id] == info[id].(refCount := info[id].refCount - 1)
    ensures StatsOk(info', idCount)
  {
  }

  lemma DropKeepsNew(info: Infos, info': Infos, vvNew: seq<set<nat>>, b: nat, id: nat, pending: Option<nat>)
    requires NewOk(info, vvNew, pending) && b < |vvNew| && id in vvNew[b] && pending != Some(id)
    requires info'.Keys == info.Keys - (if info[id].refCount == 1 then {id} else {})
    requires forall x :: x in info' && x != id ==> info'[x].refCount == info[x].refCount && info'[x].inTried == info[x].inTried
    requires id in info' ==> info'[id].refCount == info[id].refCount - 1 && info'[id].inTried == info[id].inTried
    ensures NewOk(info', vvNew[b := vvNew[b] - {id}], pending)
  {
    var vv := vvNew[b := vvNew[b] - {id}];
    forall x | x in info ensures Count(vv, x) == Count(vvNew, x) - (if x == id then 1 else 0) {
      CountUpdate(vvNew, b, vvNew[b] - {id}, x);
    }
    CountZero(vv, id);
    assert |vvNew[b] - {id}| <= |vvNew[b]|;
  }
}
