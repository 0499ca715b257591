/** Headers-first block download: a queue of wanted blocks, the set of tracked hashes and the map of requests
    in flight, changed by headers, arriving blocks and the scheduling pass over a peer. Maps are walked in any
    order; the clock and the blocks the node already has are inputs. */
module Scheduler {
  import opened Basics

  type Peer = nat

  const MAX_IN_FLIGHT_PER_PEER: nat := 128
  const DOWNLOAD_WINDOW: int := 1024
  const DOWNLOAD_TIMEOUT: int := 30
  const STALL_TIMEOUT: int := 10
  const MAX_HEADERS: nat := 2000

  datatype HeaderLink = HeaderLink(prev: Hash, hash: Hash)

  datatype Request = Request(peer: Peer, time: int)

  type Requests = map<Hash, Request>

  // ------------------------------------------------------------ requests owned by a peer

  function OwnedSet(inFlight: Requests, p: Peer): set<Hash> { set h | h in inFlight && inFlight[h].peer == p }

  function Owned(inFlight: Requests, p: Peer): nat { |OwnedSet(inFlight, p)| }

  /** A request handed to p takes one from its previous owner, if it had one, and leaves all others alone. */
  lemma OwnedAssign(inFlight: Requests, h: Hash, r: Request, q: Peer)
    requires h in inFlight ==> inFlight[h].peer != r.peer
    ensures Owned(inFlight[h := r], q)
            == Owned(inFlight, q) + (if q == r.peer then 1 else 0) - (if h in inFlight && inFlight[h].peer == q then 1 else 0)
  {
    var after, before := OwnedSet(inFlight[h := r], q), OwnedSet(inFlight, q);
    if q == r.peer {
      assert after == before + {h};
    } else if h in inFlight && inFlight[h].peer == q {
      assert after == before - {h};
    } else {
      assert after == before;
    }
  }

  lemma OwnedRemove(inFlight: Requests, h: Hash, q: Peer)
    ensures Owned(inFlight - {h}, q) <= Owned(inFlight, q)
  {
    var after, before := OwnedSet(inFlight - {h}, q), OwnedSet(inFlight, q);
    if h in before {
      assert after == before - {h};
    } else {
      assert after == before;
    }
  }

  ghost predicate WithinLimits(inFlight: Requests) { forall p :: Owned(inFlight, p) <= MAX_IN_FLIGHT_PER_PEER }

  /** A peer with room in its window can be given a request, also one another peer had. */
  lemma AssignWithinLimits(inFlight: Requests, h: Hash, r: Request)
    requires WithinLimits(inFlight) && Owned(inFlight, r.peer) < MAX_IN_FLIGHT_PER_PEER
    requires h in inFlight ==> inFlight[h].peer != r.peer
    ensures WithinLimits(inFlight[h := r]) && Owned(inFlight[h := r], r.peer) == Owned(inFlight, r.peer) + 1
  {
    var next := inFlight[h := r];
    forall q ensures Owned(next, q) <= MAX_IN_FLIGHT_PER_PEER { OwnedAssign(inFlight, h, r, q); }
    OwnedAssign(inFlight, h, r, r.peer);
  }

  lemma LimitOf(inFlight: Requests, p: Peer)
    requires WithinLimits(inFlight)
    ensures Owned(inFlight, p) <= MAX_IN_FLIGHT_PER_PEER
  {
  }

  lemma RemoveWithinLimits(inFlight: Requests, h: Hash)
    requires WithinLimits(inFlight)
    ensures WithinLimits(inFlight - {h})
  {
    forall q ensures Owned(inFlight - {h}, q) <= MAX_IN_FLIGHT_PER_PEER { OwnedRemove(inFlight, h, q); }
  }

  // ------------------------------------------------------------ headers

  /** The heights of the headers among the first n that connect to an indexed block or to an earlier one. */
  function Connected(headers: seq<HeaderLink>, index: map<Hash, int>, n: nat): map<Hash, int>
    requires n <= |headers|
  {
    if n == 0 then map[] else
    var known, h := Connected(headers, index, n - 1), headers[n - 1];
    if h.prev in index then known[h.hash := index[h.prev] + 1]
    else if h.prev in known then known[h.hash := known[h.prev] + 1]
    else known
  }

  /** Header i leads to an indexed block through earlier headers of the batch, and is at height n above it. */
  ghost predicate Climbs(headers: seq<HeaderLink>, index: map<Hash, int>, i: nat, n: int)
    requires i < |headers|
    decreases i
  {
    var prev := headers[i].prev;
    if prev in index then n == index[prev] + 1 else exists j :: 0 <= j < i && headers[j].hash == prev && Climbs(headers, index, j, n - 1)
  }

  ghost predicate ClimbsTo(headers: seq<HeaderLink>, index: map<Hash, int>, k: nat, h: Hash, n: int) {
    exists i :: 0 <= i < k && i < |headers| && headers[i].hash == h && Climbs(headers, index, i, n)
  }

  /** The headers that connect are exactly those that lead to an indexed block, and their heights are heights above it. */
  lemma ConnectedExactly(headers: seq<HeaderLink>, index: map<Hash, int>, k: nat, h: Hash)
    requires k <= |headers|
    ensures h in Connected(headers, index, k) <==> exists n :: ClimbsTo(headers, index, k, h, n)
    ensures h in Connected(headers, index, k) ==> ClimbsTo(headers, index, k, h, Connected(headers, index, k)[h])
  {
    hide Climbs, Connected, ClimbsTo;
    if h in Connected(headers, index, k) { ConnectedClimbs(headers, index, k, h); }
    forall n | ClimbsTo(headers, index, k, h, n) ensures h in Connected(headers, index, k) { ClimbsConnected(headers, index, k, h, n); }
  }

  lemma {:induction false} ConnectedClimbs(headers: seq<HeaderLink>, index: map<Hash, int>, k: nat, h: Hash)
    requires k <= |headers| && h in Connected(headers, index, k)
    ensures ClimbsTo(headers, index, k, h, Connected(headers, index, k)[h])
    decreases k
  {
    var header, known := headers[k - 1], Connected(headers, index, k - 1);
    var n := Connected(headers, index, k)[h];
    if header.hash == h && header.prev in index {
      assert Climbs(headers, index, k - 1, n);
    } else if header.hash == h && header.prev in known {
      ConnectedClimbs(headers, index, k - 1, header.prev);
      var j :| 0 <= j < k - 1 && headers[j].hash == header.prev && Climbs(headers, index, j, n - 1);
      assert Climbs(headers, index, k - 1, n);
    } else {
      ConnectedClimbs(headers, index, k - 1, h);
      var i :| 0 <= i < k - 1 && headers[i].hash == h && Climbs(headers, index, i, n);
    }
  }

  lemma {:induction false} ClimbsConnected(headers: seq<HeaderLink>, index: map<Hash, int>, k: nat, h: Hash, n: int)
    requires k <= |headers| && ClimbsTo(headers, index, k, h, n)
    ensures h in Connected(headers, index, k)
    decreases k
  {
    var i :| 0 <= i < k && headers[i].hash == h && Climbs(headers, index, i, n);
    if i < k - 1 {
      assert ClimbsTo(headers, index, k - 1, h, n);
      ClimbsConnected(headers, index, k - 1, h, n);
    } else if headers[i].prev !in index {
      var j :| 0 <= j < i && headers[j].hash == headers[i].prev && Climbs(headers, index, j, n - 1);
      assert ClimbsTo(headers, index, k - 1, headers[i].prev, n - 1);
      ClimbsConnected(headers, index, k - 1, headers[i].prev, n - 1);
    }
  }

  /** Taking one more header into account. */
  lemma NextConnected(headers: seq<HeaderLink>, index: map<Hash, int>, i: nat)
    requires i < |headers|
    ensures var known, header := Connected(headers, index, i), headers[i];
            var n := if header.prev in index then Some(index[header.prev]) else if header.prev in known then Some(known[header.prev]) else None;
            && Connected(headers, index, i + 1) == (if n.Some? then known[header.hash := n.value + 1] else known)
            && (n.Some? ==> ClimbsTo(headers, index, |headers|, header.hash, n.value + 1))
  {
    var header, next := headers[i], Connected(headers, index, i + 1);
    if header.prev in index || header.prev in Connected(headers, index, i) {
      hide Climbs;
      ConnectedClimbs(headers, index, i + 1, header.hash);
      var j :| 0 <= j < i + 1 && headers[j].hash == header.hash && Climbs(headers, index, j, next[header.hash]);
    }
  }

  /** The newly tracked hashes have the height of one of their headers; the other heights are as they were. */
  ghost predicate HeightsLearnt(headers: seq<HeaderLink>, index: map<Hash, int>, tracked: set<Hash>, tracked': set<Hash>,
                                heights: map<Hash, int>, heights': map<Hash, int>) {
    && (forall h :: h in tracked' && h !in tracked ==> h in heights' && ClimbsTo(headers, index, |headers|, h, heights'[h]))
    && (forall h :: h in tracked || h !in tracked' ==> (h in heights' <==> h in heights) && (h in heights' ==> heights'[h] == heights[h]))
  }

  lemma NoneConnected(headers: seq<HeaderLink>, index: map<Hash, int>, tracked: set<Hash>, heights: map<Hash, int>)
    ensures Connected(headers, index, 0) == map[] && HeightsLearnt(headers, index, tracked, tracked, heights, heights)
  {
  }

  lemma LearnHeight(headers: seq<HeaderLink>, index: map<Hash, int>, tracked: set<Hash>, tracked': set<Hash>,
                    heights: map<Hash, int>, heights': map<Hash, int>, h: Hash, n: int)
    requires HeightsLearnt(headers, index, tracked, tracked', heights, heights') && tracked <= tracked' && h !in tracked'
    requires ClimbsTo(headers, index, |headers|, h, n)
    ensures HeightsLearnt(headers, index, tracked, tracked' + {h}, heights, heights'[h := n])
  {
    hide ClimbsTo;
  }

  // ------------------------------------------------------------ overdue and stuck requests

  predicate PeerActive(lastBlock: map<Peer, int>, p: Peer, now: int) {
    p in lastBlock && now - lastBlock[p] <= STALL_TIMEOUT
  }

  predicate Overdue(r: Request, lastBlock: map<Peer, int>, now: int) {
    now - r.time > 2 * DOWNLOAD_TIMEOUT || (now - r.time > DOWNLOAD_TIMEOUT && !PeerActive(lastBlock, r.peer, now))
  }

  predicate Stuck(r: Request, p: Peer, now: int) { r.peer != p && now - r.time > STALL_TIMEOUT }

  function HeightOf(heights: map<Hash, int>, h: Hash): int { if h in heights then heights[h] else 0 }

  /** Not held, and no further above the tip than a peer's window. */
  predicate InReach(heights: map<Hash, int>, have: set<Hash>, tip: int, w: Hash) {
    w !in have && HeightOf(heights, w) <= tip + MAX_IN_FLIGHT_PER_PEER
  }

  /** Of the hashes that left the queue, those the node holds by now are forgotten, and nothing else. */
  ghost predicate Cleared(gone: seq<Hash>, have: set<Hash>, tracked: set<Hash>, tracked': set<Hash>, heights: map<Hash, int>, heights': map<Hash, int>) {
    && (forall h :: h in tracked' <==> h in tracked && !(h in gone && h in have))
    && (forall h :: h in heights' <==> h in heights && !(h in gone && h in have))
    && forall h :: h in heights' ==> heights'[h] == heights[h]
  }

  lemma NoneCleared(have: set<Hash>, tracked: set<Hash>, heights: map<Hash, int>)
    ensures Cleared([], have, tracked, tracked, heights, heights)
  {
  }

  lemma ClearNext(gone: seq<Hash>, have: set<Hash>, tracked: set<Hash>, tracked': set<Hash>, heights: map<Hash, int>, heights': map<Hash, int>, h: Hash)
    requires Cleared(gone, have, tracked, tracked', heights, heights')
    ensures h in have ==> Cleared(gone + [h], have, tracked, tracked' - {h}, heights, heights' - {h})
    ensures h !in have ==> Cleared(gone + [h], have, tracked, tracked', heights, heights')
    ensures h in heights && h !in have ==> h in heights' && heights'[h] == heights[h]
  {
  }

  predicate LowestStuck(inFlight: Requests, heights: map<Hash, int>, p: Peer, now: int, w: Hash) {
    && w in inFlight && Stuck(inFlight[w], p, now)
    && forall h :: h in inFlight && Stuck(inFlight[h], p, now) ==> HeightOf(heights, w) <= HeightOf(heights, h)
  }

  /** The lowest block that has been outstanding on another peer for too long. */
  method FindWedge(inFlight: Requests, heights: map<Hash, int>, p: Peer, now: int) returns (wedge: Option<Hash>)
    ensures wedge.Some? ==> LowestStuck(inFlight, heights, p, now, wedge.value)
    ensures wedge.None? ==> forall h :: h in inFlight ==> !Stuck(inFlight[h], p, now)
  {
    wedge := None;
    var rest := inFlight.Keys;
    while rest != {}
      invariant rest <= inFlight.Keys
      invariant wedge.Some? ==>
                  && wedge.value in inFlight && Stuck(inFlight[wedge.value], p, now)
                  && forall h :: h in inFlight && h !in rest && Stuck(inFlight[h], p, now) ==> HeightOf(heights, wedge.value) <= HeightOf(heights, h)
      invariant wedge.None? ==> forall h :: h in inFlight && h !in rest ==> !Stuck(inFlight[h], p, now)
      decreases |rest|
    {
      var h :| h in rest;
      if Stuck(inFlight[h], p, now) && (wedge.None? || HeightOf(heights, h) < HeightOf(heights, wedge.value)) {
        wedge := Some(h);
      }
      rest := rest - {h};
    }
  }

  method CountOwned(inFlight: Requests, p: Peer) returns (n: nat)
    ensures n == Owned(inFlight, p)
  {
    n := 0;
    var rest := inFlight.Keys;
    ghost var seen: set<Hash> := {};
    while rest != {}
      invariant rest <= inFlight.Keys && seen == set h | h in inFlight && h !in rest && inFlight[h].peer == p
      invariant n == |seen|
      decreases |rest|
    {
      var h :| h in rest;
      rest := rest - {h};
      if inFlight[h].peer == p {
        n := n + 1;
        seen := seen + {h};
      }
    }
    assert seen == OwnedSet(inFlight, p);
  }

  class Scheduler {
    var toDownload: seq<Hash>
    var tracked: set<Hash>
    var inFlight: Requests
    var heights: map<Hash, int>
    var lastBlock: map<Peer, int>

    constructor ()
      ensures Valid() && tracked == {} && inFlight == map[] && toDownload == []
    {
      toDownload, tracked, inFlight, heights, lastBlock := [], {}, map[], map[], map[];
      new;
      assert forall p :: OwnedSet(inFlight, p) == {};
    }

    /** Every tracked hash is queued or in flight, and no peer owns more requests than its window. */
    ghost predicate Valid()
      reads this
    {
      Covered(tracked, toDownload, inFlight) && WithinLimits(inFlight)
    }

    /** Learn of blocks ahead. Too many headers at once are refused. */
    method OnHeaders(headers: seq<HeaderLink>, index: map<Hash, int>, have: set<Hash>) returns (ok: bool)
      requires Valid()
      modifies this`toDownload, this`tracked, this`heights
      ensures Valid()
      ensures ok <==> |headers| <= MAX_HEADERS
      ensures !ok ==> unchanged(this)
      ensures ok ==> forall h :: h in tracked <==> h in old(tracked) || (h in Connected(headers, index, |headers|) && h !in have)
      ensures ok ==> old(toDownload) <= toDownload && forall h :: h in toDownload[|old(toDownload)|..] <==> h in tracked && h !in old(tracked)
      ensures HeightsLearnt(headers, index, old(tracked), tracked, old(heights), heights)
    {
      hide ClimbsTo, Connected, HeightsLearnt, WithinLimits;
      NoneConnected(headers, index, tracked, heights);
      if |headers| > MAX_HEADERS { return false; }
      var batch: map<Hash, int> := map[];
      ghost var added: seq<Hash> := [];
      for i := 0 to |headers|
        invariant batch == Connected(headers, index, i)
        invariant forall h :: h in tracked <==> h in old(tracked) || (h in batch && h !in have)
        invariant toDownload == old(toDownload) + added && forall h :: h in added <==> h in tracked && h !in old(tracked)
        invariant HeightsLearnt(headers, index, old(tracked), tracked, old(heights), heights)
      {
        NextConnected(headers, index, i);
        var header := headers[i];
        var prevHeight;
        if header.prev in index {
          prevHeight := index[header.prev];
        } else if header.prev in batch {
          prevHeight := batch[header.prev];
        } else {
          continue;
        }
        var h := header.hash;
        batch := batch[h := prevHeight + 1];
        if h !in have && h !in tracked {
          LearnHeight(headers, index, old(tracked), tracked, old(heights), heights, h, prevHeight + 1);
          toDownload := toDownload + [h];
          tracked := tracked + {h};
          heights := heights[h := prevHeight + 1];
          added := added + [h];
        }
      }
      assert toDownload[|old(toDownload)|..] == added;
      return true;
    }

    /** A block arrives: accepted ones leave the books, rejected ones go back to the head of the queue. */
    method OnBlock(h: Hash, p: Peer, now: int, accepted: bool)
      requires Valid()
      modifies this`toDownload, this`tracked, this`inFlight, this`lastBlock
      ensures Valid()
      ensures tracked == if accepted then old(tracked) - {h} else old(tracked)
      ensures inFlight == old(inFlight) - {h} && lastBlock == old(lastBlock)[p := now]
      ensures toDownload == if !accepted && h in old(tracked) then [h] + old(toDownload) else old(toDownload)
    {
      lastBlock := lastBlock[p := now];
      RemoveWithinLimits(inFlight, h);
      inFlight := inFlight - {h};
      if accepted {
        tracked := tracked - {h};
      } else if h in tracked {
        toDownload := [h] + toDownload;
      }
    }

    /** Put overdue requests back at the head of the queue. */
    method RequeueOverdue(now: int)
      requires Valid()
      modifies this`toDownload, this`inFlight
      ensures Valid()
      ensures forall h :: h in inFlight <==> h in old(inFlight) && !Overdue(old(inFlight)[h], lastBlock, now)
      ensures forall h :: h in inFlight ==> inFlight[h] == old(inFlight)[h]
      ensures var n := |toDownload| - |old(toDownload)|;
              && n >= 0 && toDownload[n..] == old(toDownload)
              && forall h :: h in toDownload[..n] <==> h in old(inFlight) && Overdue(old(inFlight)[h], lastBlock, now)
    {
      hide Overdue, Owned, WithinLimits, Covered;
      var rest := inFlight.Keys;
      ghost var before := inFlight;
      ghost var retried: seq<Hash> := [];
      while rest != {}
        modifies this`toDownload, this`inFlight
        invariant Valid() && rest <= before.Keys
        invariant forall h :: h in inFlight <==> h in before && (h in rest || !Overdue(before[h], lastBlock, now))
        invariant forall h :: h in inFlight ==> inFlight[h] == before[h]
        invariant toDownload == retried + old(toDownload)
        invariant forall h :: h in retried <==> h in before && h !in rest && Overdue(before[h], lastBlock, now)
        decreases |rest|
      {
        var h :| h in rest;
        rest := rest - {h};
        if Overdue(inFlight[h], lastBlock, now) {
          RemoveWithinLimits(inFlight, h);
          RequeueCovered(tracked, toDownload, inFlight, h);
          assert [h] + (retried + old(toDownload)) == [h] + retried + old(toDownload);
          toDownload := [h] + toDownload;
          retried := [h] + retried;
          inFlight := inFlight - {h};
        }
      }
      assert toDownload[..|retried|] == retried;
    }

    /** Hand queued blocks to peer p up to its window, dropping those the node has by now. */
    method Assign(p: Peer, now: int, tip: int, have: set<Hash>, owned0: nat) returns (requested: seq<Hash>, owned: nat)
      requires Valid() && owned0 == Owned(inFlight, p)
      modifies this`toDownload, this`tracked, this`inFlight, this`heights
      ensures Valid() && owned == Owned(inFlight, p) <= MAX_IN_FLIGHT_PER_PEER
      ensures forall h :: h in requested ==> h !in have && h !in old(inFlight) && h in inFlight && inFlight[h] == Request(p, now)
      ensures forall h :: h in inFlight <==> h in old(inFlight) || h in requested
      ensures forall h :: h in old(inFlight) ==> inFlight[h] == old(inFlight)[h]
      ensures forall h :: h in requested ==> h in old(heights) ==> old(heights)[h] <= tip + DOWNLOAD_WINDOW
      ensures var k := |old(toDownload)| - |toDownload|;
              && k >= 0 && toDownload == old(toDownload)[k..]
              && (forall h :: h in old(toDownload)[..k] ==> h in have || h in inFlight)
              && (forall h :: h in requested ==> h in old(toDownload)[..k])
              && Cleared(old(toDownload)[..k], have, old(tracked), tracked, old(heights), heights)
      ensures owned == MAX_IN_FLIGHT_PER_PEER || toDownload == []
              || (toDownload[0] in heights && heights[toDownload[0]] > tip + DOWNLOAD_WINDOW)
    {
      hide Owned, WithinLimits, Covered, Cleared;
      LimitOf(inFlight, p);
      requested, owned := [], owned0;
      ghost var queue, k := toDownload, 0;
      NoneCleared(have, tracked, heights);
      while owned < MAX_IN_FLIGHT_PER_PEER && toDownload != []
        modifies this`toDownload, this`tracked, this`inFlight, this`heights
        invariant Valid() && owned == Owned(inFlight, p) <= MAX_IN_FLIGHT_PER_PEER
        invariant forall h :: h in requested ==> h !in have && h !in old(inFlight) && h in inFlight && inFlight[h] == Request(p, now)
        invariant forall h :: h in inFlight <==> h in old(inFlight) || h in requested
        invariant forall h :: h in old(inFlight) ==> inFlight[h] == old(inFlight)[h]
        invariant forall h :: h in requested ==> h in old(heights) ==> old(heights)[h] <= tip + DOWNLOAD_WINDOW
        invariant k <= |queue| && toDownload == queue[k..] && forall h :: h in queue[..k] ==> h in have || h in inFlight
        invariant forall h :: h in requested ==> h in queue[..k]
        invariant Cleared(queue[..k], have, old(tracked), tracked, old(heights), heights)
        decreases |toDownload|
      {
        var h := toDownload[0];
        if h in heights && heights[h] > tip + DOWNLOAD_WINDOW { break; }
        toDownload := toDownload[1..];
        assert queue[..k + 1] == queue[..k] + [h];
        PopCovered(tracked, queue[k..], inFlight, Request(p, now));
        ClearNext(queue[..k], have, old(tracked), tracked, old(heights), heights, h);
        k := k + 1;
        if h in have {
          tracked := tracked - {h};
          heights := heights - {h};
          continue;
        }
        if h in inFlight { continue; }
        requested := requested + [h];
        AssignWithinLimits(inFlight, h, Request(p, now));
        inFlight := inFlight[h := Request(p, now)];
        owned := owned + 1;
      }
    }

    /** Ask p as well for the lowest block another peer has been sitting on, if it holds back the tip. */
    method BreakStall(p: Peer, now: int, tip: int, have: set<Hash>, owned: nat) returns (again: Option<Hash>, ghost wedge: Option<Hash>)
      requires Valid() && owned == Owned(inFlight, p)
      modifies this`inFlight
      ensures Valid()
      ensures wedge.Some? <==> owned < MAX_IN_FLIGHT_PER_PEER && exists h :: h in old(inFlight) && Stuck(old(inFlight)[h], p, now)
      ensures wedge.Some? ==> LowestStuck(old(inFlight), heights, p, now, wedge.value)
      ensures again == if wedge.Some? && InReach(heights, have, tip, wedge.value) then wedge else None
      ensures inFlight == if again.Some? then old(inFlight)[again.value := Request(p, now)] else old(inFlight)
    {
      again, wedge := None, None;
      if owned < MAX_IN_FLIGHT_PER_PEER && inFlight != map[] {
        var found := FindWedge(inFlight, heights, p, now);
        wedge := found;
        if found.Some? && HeightOf(heights, found.value) <= tip + MAX_IN_FLIGHT_PER_PEER && found.value !in have {
          AssignWithinLimits(inFlight, found.value, Request(p, now));
          inFlight := inFlight[found.value := Request(p, now)];
          again := found;
        }
      }
    }

    /** The scheduling pass over one peer. Requests that are overdue go back to the head of the queue; the queue is
        handed to p up to its window, or to the first block too far ahead; and if p has room left, it is asked as well
        for the lowest block that is stuck on another peer. */
    method SendMessages(p: Peer, now: int, tip: int, have: set<Hash>)
      returns (getData: seq<Hash>, ghost retried: seq<Hash>, ghost asked: seq<Hash>, ghost handed: Requests, ghost wedge: Option<Hash>)
      requires Valid()
      modifies this`toDownload, this`tracked, this`inFlight, this`heights
      ensures Valid()
      ensures tracked <= old(tracked) && forall h :: h in old(tracked) && h !in tracked ==> h in have
      ensures forall h :: h in getData ==> h !in have && h in inFlight && inFlight[h] == Request(p, now)
      ensures forall h :: h in inFlight ==> h in getData || (h in old(inFlight) && inFlight[h] == old(inFlight)[h] && !Overdue(inFlight[h], lastBlock, now))
      ensures forall h :: h in retried <==> h in old(inFlight) && Overdue(old(inFlight)[h], lastBlock, now)
      ensures var queue := retried + old(toDownload); var k := |queue| - |toDownload|;
              && k >= 0 && toDownload == queue[k..]
              && (forall h :: h in queue[..k] ==> h in have || h in handed)
              && (forall h :: h in asked ==> h in queue[..k])
              && Cleared(queue[..k], have, old(tracked), tracked, old(heights), heights)
      ensures forall h :: h in handed <==> h in asked || (h in old(inFlight) && h !in retried)
      ensures forall h :: h in handed ==> handed[h] == if h in asked then Request(p, now) else old(inFlight)[h]
      ensures forall h :: h in asked ==> h !in have && (h in old(inFlight) ==> h in retried)
      ensures forall h :: h in asked && h in old(heights) ==> old(heights)[h] <= tip + DOWNLOAD_WINDOW
      ensures Owned(handed, p) == MAX_IN_FLIGHT_PER_PEER || toDownload == []
              || (toDownload[0] in heights && heights[toDownload[0]] > tip + DOWNLOAD_WINDOW)
      ensures wedge.Some? <==>
                Owned(handed, p) < MAX_IN_FLIGHT_PER_PEER && exists h :: h in handed && handed[h].peer != p && now - handed[h].time > STALL_TIMEOUT
      ensures wedge.Some? ==>
                && wedge.value in handed && handed[wedge.value].peer != p && now - handed[wedge.value].time > STALL_TIMEOUT
                && forall h :: h in handed && handed[h].peer != p && now - handed[h].time > STALL_TIMEOUT ==>
                     HeightOf(heights, wedge.value) <= HeightOf(heights, h)
      ensures getData == asked + if wedge.Some? && InReach(heights, have, tip, wedge.value) then [wedge.value] else []
      ensures inFlight == if wedge.Some? && InReach(heights, have, tip, wedge.value) then handed[wedge.value := Request(p, now)] else handed
    {
      hide Owned, Overdue, WithinLimits, Covered;
      RequeueOverdue(now);
      retried := toDownload[..|toDownload| - |old(toDownload)|];
      assert toDownload == retried + old(toDownload);
      var owned := CountOwned(inFlight, p);
      var requested;
      requested, owned := Assign(p, now, tip, have, owned);
      asked, handed := requested, inFlight;
      var again;
      again, wedge := BreakStall(p, now, tip, have, owned);
      getData := if again.Some? then requested + [again.value] else requested;
    }
  }

  /** What a pass does not give out is not late: no request is older than twice the timeout, one older than the timeout
      is with a peer that delivered something lately, and younger ones are left alone. */
  lemma NotLate(r: Request, lastBlock: map<Peer, int>, now: int)
    ensures now - r.time <= 30 ==> !Overdue(r, lastBlock, now)
    ensures now - r.time > 60 ==> Overdue(r, lastBlock, now)
    ensures 30 < now - r.time <= 60 ==> (!Overdue(r, lastBlock, now) <==> r.peer in lastBlock && lastBlock[r.peer] >= now - 10)
  {
  }

  // ------------------------------------------------------------ whole runs

  /** What the message handler feeds the scheduler; have is what the node holds at that moment. */
  datatype Event =
    | Headers(headers: seq<HeaderLink>, index: map<Hash, int>, have: set<Hash>)
    | Arrived(h: Hash, peer: Peer, now: int, accepted: bool)
    | Pass(peer: Peer, now: int, tip: int, have: set<Hash>)

  /** The event accepts h or finds that the node has it. */
  predicate Settles(e: Event, h: Hash) {
    (e.Arrived? && e.accepted && e.h == h) || (e.Pass? && h in e.have)
  }

  /** Handle a sequence of events, one after the other. A hash tracked at any time is still tracked unless a
      later event accepted it or found it held. */
  method Handle(sch: Scheduler, events: seq<Event>) returns (ghost history: seq<set<Hash>>)
    requires sch.Valid()
    modifies sch
    ensures sch.Valid() && |history| == |events| + 1 && history[0] == old(sch.tracked) && history[|events|] == sch.tracked
    ensures forall i, j, h :: 0 <= i <= j <= |events| && h in history[i] && h !in history[j] ==>
              exists k :: i <= k < j && Settles(events[k], h)
  {
    history := [sch.tracked];
    for n := 0 to |events|
      invariant sch.Valid() && |history| == n + 1 && history[0] == old(sch.tracked) && history[n] == sch.tracked
      invariant forall i, j, h :: 0 <= i <= j <= n && h in history[i] && h !in history[j] ==>
                  exists k :: i <= k < j && Settles(events[k], h)
    {
      ghost var before := sch.tracked;
      match events[n] {
        case Headers(headers, index, have) => var _ := sch.OnHeaders(headers, index, have);
        case Arrived(h, peer, now, accepted) => sch.OnBlock(h, peer, now, accepted);
        case Pass(peer, now, tip, have) => var _, _, _, _, _ := sch.SendMessages(peer, now, tip, have);
      }
      assert forall h :: h in before && h !in sch.tracked ==> Settles(events[n], h);
      history := history + [sch.tracked];
    }
  }

  /** Taking the front off the queue: its hash is dropped, in flight already, or requested. */
  lemma PopCovered(tracked: set<Hash>, queue: seq<Hash>, inFlight: Requests, r: Request)
    requires Covered(tracked, queue, inFlight) && queue != []
    ensures Covered(tracked - {queue[0]}, queue[1..], inFlight) && Covered(tracked, queue[1..], inFlight[queue[0] := r])
    ensures queue[0] in inFlight ==> Covered(tracked, queue[1..], inFlight)
  {
  }

  lemma RequeueCovered(tracked: set<Hash>, toDownload: seq<Hash>, inFlight: Requests, h: Hash)
    requires Covered(tracked, toDownload, inFlight)
    ensures Covered(tracked, [h] + toDownload, inFlight - {h})
  {
  }

  ghost predicate Covered(tracked: set<Hash>, toDownload: seq<Hash>, inFlight: Requests) {
    forall h :: h in tracked ==> h in toDownload || h in inFlight
  }
}
