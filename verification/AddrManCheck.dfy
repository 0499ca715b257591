/** CAddrMan::Check_, the consistency check of the address manager: exactly which tables it passes, and that
    it passes every consistent state. */
module AddrManCheck {
  import opened Sequences
  import opened AddrMan

  /** What operator[] of the address map reads: the id, or 0 for an unknown address. */
  function Lookup(addr: map<nat, nat>, ip: nat): nat { if ip in addr then addr[ip] else 0 }

  predicate RecordOk(rec: Info, id: nat, addr: map<nat, nat>, random: seq<nat>) {
    && (if rec.inTried then rec.lastSuccess != 0 && rec.refCount == 0
        else 1 <= rec.refCount <= NEW_BUCKETS_PER_ADDRESS)
    && Lookup(addr, rec.svc.ip) == id
    && rec.randomPos < |random| && random[rec.randomPos] == id
    && rec.lastTry >= 0 && rec.lastSuccess >= 0
  }

  /** The code Check_ returns for a record, 0 for a good one. */
  function RecordError(rec: Info, id: nat, addr: map<nat, nat>, random: seq<nat>): (err: int)
    ensures err == 0 <==> RecordOk(rec, id, addr, random)
  {
    if rec.inTried && rec.lastSuccess == 0 then -1
    else if rec.inTried && rec.refCount != 0 then -2
    else if !rec.inTried && (rec.refCount < 0 || rec.refCount > NEW_BUCKETS_PER_ADDRESS) then -3
    else if !rec.inTried && rec.refCount == 0 then -4
    else if Lookup(addr, rec.svc.ip) != id then -5
    else if rec.randomPos >= |random| || random[rec.randomPos] != id then -14
    else if rec.lastTry < 0 then -6
    else if rec.lastSuccess < 0 then -8
    else 0
  }

  /** One counter per untried id, at its nRefCount. */
  ghost predicate Counters(info: Infos, mapNew: map<nat, int>) {
    mapNew.Keys == NewIds(info) && forall id :: id in mapNew ==> mapNew[id] == info[id].refCount
  }

  function Joined(ss: seq<seq<nat>>): seq<nat> {
    if ss == [] then [] else Joined(ss[..|ss| - 1]) + ss[|ss| - 1]
  }

  /** The tried buckets hold every tried id exactly once and nothing else. */
  ghost predicate TriedExact(info: Infos, vvTried: seq<seq<nat>>) {
    Distinct(Joined(vvTried)) && forall id :: id in Joined(vvTried) <==> id in TriedIds(info)
  }

  /** The new buckets hold untried ids only, each in as many buckets as its nRefCount says. */
  ghost predicate NewExact(info: Infos, vvNew: seq<set<nat>>) {
    && (forall b, id :: 0 <= b < |vvNew| && id in vvNew[b] ==> id in NewIds(info))
    && (forall id :: id in NewIds(info) ==> info[id].refCount == Count(vvNew, id))
  }

  ghost predicate Checked(info: Infos, addr: map<nat, nat>, random: seq<nat>, nTried: int, nNew: int,
                          vvTried: seq<seq<nat>>, vvNew: seq<set<nat>>)
  {
    && |random| == nTried + nNew
    && (forall id :: id in info ==> RecordOk(info[id], id, addr, random))
    && |TriedIds(info)| == nTried && |NewIds(info)| == nNew
    && TriedExact(info, vvTried) && NewExact(info, vvNew)
  }

  // ------------------------------------------------------------ the check

  method CheckRecords(info: Infos, addr: map<nat, nat>, random: seq<nat>) returns (err: int, setTried: set<nat>, mapNew: map<nat, int>)
    ensures err == 0 <==> forall id :: id in info ==> RecordOk(info[id], id, addr, random)
    ensures err == 0 ==> setTried == TriedIds(info) && Counters(info, mapNew)
  {
    setTried, mapNew := {}, map[];
    var rest := info.Keys;
    while rest != {}
      invariant rest <= info.Keys
      invariant forall id :: id in info && id !in rest ==> RecordOk(info[id], id, addr, random)
      invariant forall id :: id in setTried <==> id in info && id !in rest && info[id].inTried
      invariant forall id :: id in mapNew <==> id in info && id !in rest && !info[id].inTried
      invariant forall id :: id in mapNew ==> mapNew[id] == info[id].refCount
      decreases |rest|
    {
      var id :| id in rest;
      var rec := info[id];
      err := RecordError(rec, id, addr, random);
      if err != 0 { return; }
      if rec.inTried { setTried := setTried + {id}; } else { mapNew := mapNew[id := rec.refCount]; }
      rest := rest - {id};
    }
    err := 0;
  }

  lemma {:induction false} FlattenMember(ss: seq<seq<nat>>, b: nat)
    requires b < |ss|
    ensures Joined(ss[..b]) + ss[b] == Joined(ss[..b + 1])
    ensures |Joined(ss[..b + 1])| <= |Joined(ss)| && Joined(ss)[..|Joined(ss[..b + 1])|] == Joined(ss[..b + 1])
    decreases |ss|
  {
    assert ss[..b + 1][..b] == ss[..b];
    if b == |ss| - 1 {
      assert ss[..b + 1] == ss;
    } else {
      FlattenMember(ss[..|ss| - 1], b);
      assert ss[..|ss| - 1][..b + 1] == ss[..b + 1] && ss[..|ss| - 1][..b] == ss[..b];
      assert Joined(ss) == Joined(ss[..|ss| - 1]) + ss[|ss| - 1];
    }
  }

  /** Strike every element of the tried buckets off the set; -11 at one that is not (or no longer) in it. */
  method CheckTried(info: Infos, vvTried: seq<seq<nat>>, tried: set<nat>) returns (err: int, left: set<nat>)
    requires tried == TriedIds(info)
    ensures err == 0 && left == {} <==> TriedExact(info, vvTried)
  {
    left := tried;
    ghost var seen: seq<nat> := [];
    for b := 0 to |vvTried|
      invariant seen == Joined(vvTried[..b]) && Distinct(seen)
      invariant left <= tried && forall id :: id in tried ==> (id in seen <==> id !in left)
      invariant forall id :: id in seen ==> id in tried
    {
      FlattenMember(vvTried, b);
      ghost var before := seen;
      assert vvTried[b][..0] == [] && before + [] == before;
      for i := 0 to |vvTried[b]|
        invariant seen == before + vvTried[b][..i] && Distinct(seen)
        invariant left <= tried && forall id :: id in tried ==> (id in seen <==> id !in left)
        invariant forall id :: id in seen ==> id in tried
      {
        var id := vvTried[b][i];
        assert vvTried[b][..i + 1] == vvTried[b][..i] + [id];
        assert before + vvTried[b][..i + 1] == seen + [id];
        if id !in left {
          assert Joined(vvTried)[|seen|] == id by {
            assert Joined(vvTried[..b + 1])[|seen|] == id;
          }
          NotExact(info, vvTried, seen, id);
          return -11, left;
        }
        left := left - {id};
        seen := seen + [id];
      }
      assert vvTried[b][..|vvTried[b]|] == vvTried[b];
    }
    assert vvTried[..|vvTried|] == vvTried;
    err := 0;
  }

  lemma NotExact(info: Infos, vvTried: seq<seq<nat>>, seen: seq<nat>, id: nat)
    requires |seen| < |Joined(vvTried)| && seen == Joined(vvTried)[..|seen|] && id == Joined(vvTried)[|seen|]
    requires id in seen || id !in TriedIds(info)
    ensures !TriedExact(info, vvTried)
  {
    var f := Joined(vvTried);
    if id in seen {
      var i :| 0 <= i < |seen| && seen[i] == id;
      assert f[i] == f[|seen|];
    } else {
      assert id in f;
    }
  }

  lemma {:induction false} CountPrefix(vvNew: seq<set<nat>>, b: nat, id: nat)
    requires b < |vvNew|
    ensures Count(vvNew[..b], id) + (if id in vvNew[b] then 1 else 0) == Count(vvNew[..b + 1], id) <= Count(vvNew, id)
    decreases |vvNew|
  {
    assert vvNew[..b + 1][..b] == vvNew[..b];
    if b == |vvNew| - 1 {
      assert vvNew[..b + 1] == vvNew;
    } else {
      CountPrefix(vvNew[..|vvNew| - 1], b, id);
      assert vvNew[..|vvNew| - 1][..b + 1] == vvNew[..b + 1] && vvNew[..|vvNew| - 1][..b] == vvNew[..b];
    }
  }

  /** The counters still open after the ids of the buckets `seen` have been met. */
  ghost predicate Open(info: Infos, mapNew: map<nat, int>, seen: seq<set<nat>>) {
    && (forall id :: id in mapNew <==> id in NewIds(info) && Count(seen, id) < info[id].refCount)
    && (forall id :: id in mapNew ==> mapNew[id] == info[id].refCount - Count(seen, id))
  }

  /** The ids met so far are untried, none more often than its nRefCount. */
  ghost predicate Within(info: Infos, seen: seq<set<nat>>) {
    && (forall id :: id in NewIds(info) ==> Count(seen, id) <= info[id].refCount)
    && (forall b, id :: 0 <= b < |seen| && id in seen[b] ==> id in NewIds(info))
  }

  lemma CountSnoc(seen: seq<set<nat>>, d: set<nat>, id: nat)
    ensures Count(seen + [d], id) == Count(seen, id) + if id in d then 1 else 0
  {
    assert (seen + [d])[..|seen|] == seen;
  }

  lemma OpenStart(info: Infos, mapNew: map<nat, int>, seen: seq<set<nat>>)
    requires Open(info, mapNew, seen)
    ensures Open(info, mapNew, seen + [{}])
  {
    hide Count, NewIds;
    forall id ensures Count(seen + [{}], id) == Count(seen, id) { CountSnoc(seen, {}, id); }
  }

  function CountDown(mapNew: map<nat, int>, id: nat): map<nat, int>
    requires id in mapNew
  {
    if mapNew[id] - 1 == 0 then mapNew - {id} else mapNew[id := mapNew[id] - 1]
  }

  /** One more id of the bucket, of which d have been met. */
  lemma OpenNext(info: Infos, mapNew: map<nat, int>, seen: seq<set<nat>>, d: set<nat>, id: nat)
    requires Open(info, mapNew, seen + [d]) && id !in d
    ensures id in mapNew <==> id in NewIds(info) && Count(seen, id) < info[id].refCount
    ensures id in mapNew ==> Open(info, CountDown(mapNew, id), seen + [d + {id}])
  {
    hide Count, NewIds;
    CountSnoc(seen, d, id);
    forall x ensures Count(seen + [d + {id}], x) == Count(seen + [d], x) + if x == id then 1 else 0 {
      CountSnoc(seen, d, x);
      CountSnoc(seen, d + {id}, x);
    }
  }

  lemma MeetNext(bucket: set<nat>, rest: set<nat>, id: nat)
    requires rest <= bucket && id in rest
    ensures bucket - rest + {id} == bucket - (rest - {id}) && id !in bucket - rest
  {
  }

  lemma CountedDown(mapNew: map<nat, int>, id: nat)
    requires id in mapNew
    ensures CountDown(mapNew, id) ==
            var m := mapNew[id := mapNew[id] - 1]; if m[id] == 0 then m - {id} else m
  {
  }

  /** One bucket: count each of its ids down, erasing the counters that reach zero; -12 at an id without one. */
  method CheckBucket(info: Infos, mapNew0: map<nat, int>, bucket: set<nat>, ghost seen: seq<set<nat>>)
    returns (err: int, mapNew: map<nat, int>)
    requires Open(info, mapNew0, seen)
    ensures err == 0 <==> forall id :: id in bucket ==> id in NewIds(info) && Count(seen, id) < info[id].refCount
    ensures err == 0 ==> Open(info, mapNew, seen + [bucket])
  {
    hide Open, Count;
    mapNew := mapNew0;
    var rest := bucket;
    OpenStart(info, mapNew, seen);
    assert bucket - rest == {};
    while rest != {}
      invariant rest <= bucket && Open(info, mapNew, seen + [bucket - rest])
      invariant forall id :: id in bucket && id !in rest ==> id in NewIds(info) && Count(seen, id) < info[id].refCount
      decreases |rest|
    {
      var id :| id in rest;
      OpenNext(info, mapNew, seen, bucket - rest, id);
      MeetNext(bucket, rest, id);
      if id !in mapNew { return -12, mapNew; }
      ghost var before := mapNew;
      mapNew := mapNew[id := mapNew[id] - 1];
      if mapNew[id] == 0 { mapNew := mapNew - {id}; }
      CountedDown(before, id);
      rest := rest - {id};
    }
    assert bucket - rest == bucket;
    err := 0;
  }

  lemma WithinNext(info: Infos, vvNew: seq<set<nat>>, b: nat)
    requires b < |vvNew| && Within(info, vvNew[..b])
    requires forall id :: id in vvNew[b] ==> id in NewIds(info) && Count(vvNew[..b], id) < info[id].refCount
    ensures Within(info, vvNew[..b] + [vvNew[b]])
  {
    hide Count, NewIds;
    forall id ensures Count(vvNew[..b] + [vvNew[b]], id) == Count(vvNew[..b], id) + if id in vvNew[b] then 1 else 0 {
      CountSnoc(vvNew[..b], vvNew[b], id);
    }
  }

  /** An id met once too often, or not untried, is not counted right. */
  lemma MetTooOften(info: Infos, vvNew: seq<set<nat>>, b: nat, id: nat)
    requires b < |vvNew| && id in vvNew[b] && !(id in NewIds(info) && Count(vvNew[..b], id) < info[id].refCount)
    ensures !NewExact(info, vvNew)
  {
    CountPrefix(vvNew, b, id);
  }

  lemma AllMet(info: Infos, vvNew: seq<set<nat>>, left: map<nat, int>)
    requires Open(info, left, vvNew) && Within(info, vvNew)
    ensures left == map[] <==> NewExact(info, vvNew)
  {
    hide Count;
    if left == map[] {
      forall id | id in NewIds(info) ensures info[id].refCount == Count(vvNew, id) { assert id !in left; }
    } else {
      var id :| id in left;
    }
  }

  method CheckNew(info: Infos, vvNew: seq<set<nat>>, counters: map<nat, int>) returns (err: int, left: map<nat, int>)
    requires Counters(info, counters)
    requires forall id :: id in NewIds(info) ==> info[id].refCount >= 1
    ensures err == 0 && left == map[] <==> NewExact(info, vvNew)
  {
    left := counters;
    assert vvNew[..0] == [];
    NothingMet(info, counters);
    hide Open, Within, NewIds, Count, NewExact, Counters;
    for b := 0 to |vvNew|
      invariant Open(info, left, vvNew[..b]) && Within(info, vvNew[..b])
    {
      err, left := CheckBucket(info, left, vvNew[b], vvNew[..b]);
      if err != 0 {
        var id :| id in vvNew[b] && !(id in NewIds(info) && Count(vvNew[..b], id) < info[id].refCount);
        MetTooOften(info, vvNew, b, id);
        return;
      }
      WithinNext(info, vvNew, b);
      assert vvNew[..b + 1] == vvNew[..b] + [vvNew[b]];
    }
    assert vvNew[..|vvNew|] == vvNew;
    AllMet(info, vvNew, left);
    err := 0;
  }

  lemma NothingMet(info: Infos, counters: map<nat, int>)
    requires Counters(info, counters) && forall id :: id in NewIds(info) ==> info[id].refCount >= 1
    ensures Open(info, counters, []) && Within(info, [])
  {
  }

  /** The check returns 0 exactly on the tables that satisfy Checked. */
  method Check(info: Infos, addr: map<nat, nat>, random: seq<nat>, nTried: int, nNew: int,
               vvTried: seq<seq<nat>>, vvNew: seq<set<nat>>) returns (err: int)
    ensures err == 0 <==> Checked(info, addr, random, nTried, nNew, vvTried, vvNew)
  {
    if |random| != nTried + nNew { return -7; }
    var setTried, mapNew;
    err, setTried, mapNew := CheckRecords(info, addr, random);
    if err != 0 { return; }
    if |setTried| != nTried { return -9; }
    if |mapNew| != nNew { return -10; }
    err, setTried := CheckTried(info, vvTried, setTried);
    if err != 0 { return; }
    err, mapNew := CheckNew(info, vvNew, mapNew);
    if err != 0 { return; }
    if setTried != {} { return -13; }
    if mapNew != map[] { return -15; }
  }

  // ------------------------------------------------------------ consistent states pass

  function Elements(s: seq<nat>): set<nat> { set x | x in s }

  lemma {:induction false} DistinctSize(s: seq<nat>)
    requires Distinct(s)
    ensures |Elements(s)| == |s|
  {
    if s != [] {
      var init, x := s[..|s| - 1], s[|s| - 1];
      DistinctSize(init);
      assert s == init + [x];
      assert Elements(s) == Elements(init) + {x};
      assert x !in Elements(init);
    }
  }

  /** vRandom lists every address once. */
  lemma RandomSize(info: Infos, random: seq<nat>)
    requires RandomOk(info, random)
    ensures |random| == |NewIds(info)| + |TriedIds(info)|
  {
    DistinctSize(random);
    assert Elements(random) == info.Keys;
    assert info.Keys == NewIds(info) + TriedIds(info);
  }

  lemma {:induction false} FlattenElements(ss: seq<seq<nat>>, n: nat, id: nat)
    requires n <= |ss|
    ensures id in Joined(ss[..n]) <==> exists b :: 0 <= b < n && id in ss[b]
  {
    if n > 0 {
      FlattenElements(ss, n - 1, id);
      assert ss[..n][..n - 1] == ss[..n - 1];
      assert Joined(ss[..n]) == Joined(ss[..n - 1]) + ss[n - 1];
    }
  }

  lemma {:induction false} FlattenDistinct(info: Infos, ss: seq<seq<nat>>, bucketOf: Service -> nat, n: nat)
    requires TriedOk(info, ss, bucketOf) && n <= |ss|
    ensures Distinct(Joined(ss[..n]))
  {
    if n > 0 {
      FlattenDistinct(info, ss, bucketOf, n - 1);
      assert ss[..n][..n - 1] == ss[..n - 1];
      var low, last := Joined(ss[..n - 1]), ss[n - 1];
      forall x | x in low ensures x !in last {
        FlattenElements(ss, n - 1, x);
      }
      assert Joined(ss[..n]) == low + last;
      DistinctConcat(low, last);
    }
  }

  lemma DistinctConcat(s: seq<nat>, t: seq<nat>)
    requires Distinct(s) && Distinct(t) && forall x :: x in s ==> x !in t
    ensures Distinct(s + t)
  {
    forall i, j | 0 <= i < j < |s + t| ensures (s + t)[i] != (s + t)[j] {
      if i < |s| && j >= |s| { assert s[i] in s && t[j - |s|] in t; }
    }
  }

  lemma TriedIsExact(info: Infos, vvTried: seq<seq<nat>>, bucketOf: Service -> nat)
    requires TriedOk(info, vvTried, bucketOf)
    ensures TriedExact(info, vvTried)
  {
    var n := |vvTried|;
    assert vvTried[..n] == vvTried;
    FlattenDistinct(info, vvTried, bucketOf, n);
    forall id ensures id in Joined(vvTried) <==> id in TriedIds(info) {
      FlattenElements(vvTried, n, id);
    }
  }

  /** Every consistent address manager passes the check. */
  lemma ConsistentPasses(am: AddrMan)
    requires am.Valid()
    ensures Checked(am.mapInfo, am.mapAddr, am.vRandom, am.nTried, am.nNew, am.vvTried, am.vvNew)
  {
    RandomSize(am.mapInfo, am.vRandom);
    TriedIsExact(am.mapInfo, am.vvTried, am.triedHash);
  }
}
