/**
 `NodeService`: the object behind the scheduler's state machine, and the getdata batches it
 hands out.
 */
module Downloads {
  import opened Bytes
  import opened Lists
  import opened Scheduler

  // ---- batches ------------------------------------------------------------------------------

  /** The hashes that a list of downloads asks of one peer, in order. */
  function Asked(ds: seq<Download>, p: Peer): seq<Hash>
  {
    if ds == [] then [] else
    Asked(ds[..|ds| - 1], p) + if ds[|ds| - 1].peer == p then [ds[|ds| - 1].hash] else []
  }

  function Flatten(batches: seq<seq<Hash>>): seq<Hash>
  {
    if batches == [] then [] else Flatten(batches[..|batches| - 1]) + batches[|batches| - 1]
  }

  /** Cuts a list of items into pieces of at most `size`. */
  method ChunkInventory(items: seq<Hash>, size: int) returns (batches: seq<seq<Hash>>)
    requires size > 0
    ensures Flatten(batches) == items
    ensures forall i | 0 <= i < |batches| :: 0 < |batches[i]| <= size
    ensures forall i | 0 <= i < |batches| - 1 :: |batches[i]| == size
  {
    batches := [];
    var start := 0;
    while start < |items|
      invariant 0 <= start && Flatten(batches) == items[..if start < |items| then start else |items|]
      invariant forall i | 0 <= i < |batches| :: 0 < |batches[i]| <= size
      invariant forall i | 0 <= i < |batches| - 1 :: |batches[i]| == size
      invariant start < |items| && batches != [] ==> |batches[|batches| - 1]| == size
      decreases |items| - start
    {
      var end := if start + size <= |items| then start + size else |items|;
      var more := batches + [items[start..end]];
      assert more[..|more| - 1] == batches;
      assert items[..start] + items[start..end] == items[..end];
      batches := more;
      start := start + size;
    }
    assert items[..|items|] == items;
  }

  /** `requests` names for each peer exactly what the new downloads ask of it. */
  ghost predicate Matches(requests: map<Peer, seq<Hash>>, ds: seq<Download>)
  {
    forall p :: (p in requests <==> Asked(ds, p) != []) && (p in requests ==> requests[p] == Asked(ds, p))
  }

  lemma MatchesNothing()
    ensures Matches(map[], [])
  {
  }

  lemma MatchesSnoc(requests: map<Peer, seq<Hash>>, ds: seq<Download>, d: Download)
    requires Matches(requests, ds)
    ensures Matches(requests[d.peer := (if d.peer in requests then requests[d.peer] else []) + [d.hash]], ds + [d])
  {
    forall p
      ensures Asked(ds + [d], p) == Asked(ds, p) + if d.peer == p then [d.hash] else []
    {
      assert (ds + [d])[..|ds|] == ds;
    }
  }

  lemma {:induction false} AskedIs(ds: seq<Download>, p: Peer, h: Hash)
    ensures h in Asked(ds, p) <==> exists i | 0 <= i < |ds| :: ds[i].peer == p && ds[i].hash == h
  {
    if ds != [] {
      var n := |ds| - 1;
      AskedIs(ds[..n], p, h);
      if i :| 0 <= i < |ds| && ds[i].peer == p && ds[i].hash == h {
        if i < n {
          assert ds[..n][i] == ds[i];
        }
      }
      if j :| 0 <= j < n && ds[..n][j].peer == p && ds[..n][j].hash == h {
        assert ds[j] == ds[..n][j];
      }
    }
  }

  predicate DistinctHashes(ds: seq<Download>)
  {
    forall i, j | 0 <= i < j < |ds| :: ds[i].hash != ds[j].hash
  }

  lemma {:induction false} AskedDistinct(ds: seq<Download>, p: Peer)
    requires DistinctHashes(ds)
    ensures Distinct(Asked(ds, p))
  {
    if ds != [] {
      var n := |ds| - 1;
      AskedDistinct(ds[..n], p);
      var before := Asked(ds[..n], p);
      forall k | 0 <= k < |before|
        ensures before[k] != ds[n].hash
      {
        assert before[k] in before;
        AskedIs(ds[..n], p, before[k]);
        var i :| 0 <= i < n && ds[..n][i].hash == before[k];
        assert ds[i].hash == before[k];
      }
    }
  }

  /**
   The batches ask for exactly these downloads: every peer is asked for its own, in order
   and in pieces of bounded size, and nobody else is asked for anything.
   */
  ghost predicate Sends(c: Config, batches: map<Peer, seq<seq<Hash>>>, ds: seq<Download>)
  {
    forall p ::
      (p in batches <==> Asked(ds, p) != []) &&
      (p in batches ==> Flatten(batches[p]) == Asked(ds, p) && forall i | 0 <= i < |batches[p]| :: 0 < |batches[p][i]| <= c.batch)
  }

  lemma MatchesSends(c: Config, requests: map<Peer, seq<Hash>>, batches: map<Peer, seq<seq<Hash>>>, ds: seq<Download>)
    requires Matches(requests, ds) && batches.Keys == requests.Keys
    requires forall p | p in requests ::
               Flatten(batches[p]) == requests[p] && forall i | 0 <= i < |batches[p]| :: 0 < |batches[p][i]| <= c.batch
    ensures Sends(c, batches, ds)
  {
    hide Asked, Flatten;
  }

  lemma {:induction false} InFlatten(batches: seq<seq<Hash>>, h: Hash)
    ensures h in Flatten(batches) <==> exists i | 0 <= i < |batches| :: h in batches[i]
  {
    if batches != [] {
      var n := |batches| - 1;
      var init := batches[..n];
      InFlatten(init, h);
      assert forall i | 0 <= i < n :: init[i] == batches[i];
      if i :| 0 <= i < |batches| && h in batches[i] {
        assert i < n ==> h in init[i];
      }
    }
  }

  lemma Apart(a: seq<Hash>, b: seq<Hash>)
    requires Distinct(a + b)
    ensures forall h | h in a :: h !in b
  {
    var whole := a + b;
    forall i, j | 0 <= i < |a| && 0 <= j < |b|
      ensures a[i] != b[j]
    {
      assert whole[i] == a[i] && whole[|a| + j] == b[j];
    }
  }

  /** No repetition in the whole means no repetition within a batch or across batches. */
  lemma {:induction false} FlattenOnce(batches: seq<seq<Hash>>, i: nat, a: nat, j: nat, b: nat)
    requires Distinct(Flatten(batches)) && i <= j < |batches| && a < |batches[i]| && b < |batches[j]|
    requires batches[i][a] == batches[j][b]
    ensures i == j && a == b
  {
    var n := |batches| - 1;
    var init, last, whole := batches[..n], batches[n], Flatten(batches);
    var before := Flatten(init);
    assert whole == before + last;
    if j < n {
      assert forall k | 0 <= k < |before| :: whole[k] == before[k];
      assert init[i] == batches[i] && init[j] == batches[j];
      FlattenOnce(init, i, a, j, b);
    } else {
      assert whole[|before| + b] == last[b];
      if i < n {
        assert batches[i][a] in init[i];
        InFlatten(init, batches[i][a]);
        Apart(before, last);
        assert false;
      } else {
        assert whole[|before| + a] == last[a];
      }
    }
  }

  lemma NewHashesDistinct(c: Config, sv: Service, start: nat)
    requires Orderly(c, sv) && start <= |sv.inFlight|
    ensures DistinctHashes(sv.inFlight[start..])
  {
    hide CountFor;
    var ds := sv.inFlight[start..];
    assert forall i | 0 <= i < |ds| :: ds[i] == sv.inFlight[start + i];
  }

  /** One place in the batches. */
  datatype Slot = Slot(peer: Peer, batch: nat, item: nat)

  predicate Within(batches: map<Peer, seq<seq<Hash>>>, s: Slot)
  {
    s.peer in batches && s.batch < |batches[s.peer]| && s.item < |batches[s.peer][s.batch]|
  }

  function HashAt(batches: map<Peer, seq<seq<Hash>>>, s: Slot): Hash
    requires Within(batches, s)
  {
    batches[s.peer][s.batch][s.item]
  }

  /** This place asks for the download, of the peer it is recorded with. */
  predicate AsksFor(batches: map<Peer, seq<seq<Hash>>>, s: Slot, d: Download)
  {
    Within(batches, s) && s.peer == d.peer && HashAt(batches, s) == d.hash
  }

  /**
   Every newly in-flight hash stands in exactly one place of one getdata batch, and that
   batch goes to the peer the download is recorded with; nothing else is asked for.
   */
  lemma AskedExactlyOnce(c: Config, sv: Service, start: nat, batches: map<Peer, seq<seq<Hash>>>)
    requires Orderly(c, sv) && start <= |sv.inFlight| && Sends(c, batches, sv.inFlight[start..])
    ensures forall d | d in sv.inFlight[start..] :: exists s :: AsksFor(batches, s, d)
    ensures forall s | Within(batches, s) :: exists d | d in sv.inFlight[start..] :: AsksFor(batches, s, d)
    ensures forall s, t | Within(batches, s) && Within(batches, t) && HashAt(batches, s) == HashAt(batches, t) :: s == t
  {
    hide Orderly, Asked, Flatten, Sends;
    var ds := sv.inFlight[start..];
    NewHashesDistinct(c, sv, start);
    forall d | d in ds
      ensures exists s :: AsksFor(batches, s, d)
    {
      var k :| 0 <= k < |ds| && ds[k] == d;
      var s := SlotOf(c, batches, ds, k);
    }
    forall s | Within(batches, s)
      ensures exists d | d in ds :: AsksFor(batches, s, d)
    {
      var k := DownloadAt(c, batches, ds, s);
      assert ds[k] in ds;
    }
    forall s, t | Within(batches, s) && Within(batches, t) && HashAt(batches, s) == HashAt(batches, t)
      ensures s == t
    {
      SlotsDiffer(c, batches, ds, s, t);
    }
  }

  lemma SlotOf(c: Config, batches: map<Peer, seq<seq<Hash>>>, ds: seq<Download>, k: nat) returns (s: Slot)
    requires Sends(c, batches, ds) && k < |ds|
    ensures AsksFor(batches, s, ds[k])
  {
    hide Asked, Flatten;
    var d := ds[k];
    AskedIs(ds, d.peer, d.hash);
    assert d.peer in batches;
    InFlatten(batches[d.peer], d.hash);
    var b :| 0 <= b < |batches[d.peer]| && d.hash in batches[d.peer][b];
    var a :| 0 <= a < |batches[d.peer][b]| && batches[d.peer][b][a] == d.hash;
    s := Slot(d.peer, b, a);
  }

  lemma DownloadAt(c: Config, batches: map<Peer, seq<seq<Hash>>>, ds: seq<Download>, s: Slot) returns (k: nat)
    requires Sends(c, batches, ds) && Within(batches, s)
    ensures k < |ds| && AsksFor(batches, s, ds[k])
  {
    hide Asked, Flatten;
    var h := HashAt(batches, s);
    assert h in batches[s.peer][s.batch];
    InFlatten(batches[s.peer], h);
    AskedIs(ds, s.peer, h);
    k :| 0 <= k < |ds| && ds[k].peer == s.peer && ds[k].hash == h;
  }

  lemma SlotsDiffer(c: Config, batches: map<Peer, seq<seq<Hash>>>, ds: seq<Download>, s: Slot, t: Slot)
    requires Sends(c, batches, ds) && DistinctHashes(ds) && Within(batches, s) && Within(batches, t)
    requires HashAt(batches, s) == HashAt(batches, t)
    ensures s == t
  {
    hide Asked, Flatten;
    var k := DownloadAt(c, batches, ds, s);
    var m := DownloadAt(c, batches, ds, t);
    assert k == m;
    AskedDistinct(ds, s.peer);
    if s.batch <= t.batch {
      FlattenOnce(batches[s.peer], s.batch, s.item, t.batch, t.item);
    } else {
      FlattenOnce(batches[s.peer], t.batch, t.item, s.batch, s.item);
    }
  }

  /** What is still in flight once the overdue downloads are out. */
  function Current(c: Config, ds: seq<Download>, now: int): seq<Download>
  {
    Pick(ds, Flip(ExpiredMask(c, ds, now)))
  }

  lemma ExpireLeaves(c: Config, sv: Service, now: int)
    ensures Expire(c, sv, now).inFlight == Current(c, sv.inFlight, now)
  {
    hide TimeOut;
    var m := ExpiredMask(c, sv.inFlight, now);
    TimeOutOk(sv.(inFlight := Pick(sv.inFlight, Flip(m))), Pick(sv.inFlight, m));
  }

  /** `batches` asks for what is in flight after beyond what was in flight before and is not overdue. */
  ghost predicate Asks(c: Config, before: seq<Download>, after: seq<Download>, batches: map<Peer, seq<seq<Hash>>>, now: int)
  {
    Current(c, before, now) <= after && Sends(c, batches, after[|Current(c, before, now)|..])
  }

  lemma {:induction false} RequestAllAppends(c: Config, sv: Service, ws: seq<Wish>, now: int)
    ensures sv.inFlight <= RequestAll(c, sv, ws, now).inFlight
  {
    hide Select, ShouldRequest;
    if ws != [] {
      RequestAllAppends(c, sv, ws[..|ws| - 1], now);
    }
  }

  class NodeService {
    const config: Config
    var sessions: map<Peer, set<Hash>>
    var inFlight: seq<Download>
    var blocks: set<Hash>
    var chain: set<Hash>
    var progress: map<Peer, Progress>
    var history: Option<map<Peer, Progress>>
    var misbehaviour: map<Peer, int>

    /** The fields as one value. */
    function Abs(): Service
      reads this
    {
      Service(sessions, inFlight, blocks, chain, progress, history, misbehaviour)
    }

    constructor (c: Config, stored: Option<map<Peer, Progress>>)
      ensures config == c && Abs() == FreshService(stored)
    {
      config := c;
      sessions, inFlight, blocks, chain := map[], [], {}, {};
      progress, history, misbehaviour := map[], stored, map[];
    }

    method InFlightCount(p: Peer) returns (n: nat)
      ensures n == CountFor(inFlight, p)
    {
      n := 0;
      for i := 0 to |inFlight|
        invariant n == CountFor(inFlight[..i], p)
      {
        assert inFlight[..i + 1] == inFlight[..i] + [inFlight[i]];
        CountSnoc(inFlight[..i], inFlight[i], p);
        if inFlight[i].peer == p {
          n := n + 1;
        }
      }
      assert inFlight[..|inFlight|] == inFlight;
    }

    function Counters(p: Peer): (now: Progress)
      reads this
      ensures now == ProgressOf(Abs(), p)
    {
      if p in progress then progress[p]
      else if history.Some? && p in history.value then history.value[p]
      else NO_PROGRESS
    }

    method RecordProgress(p: Peer, requested: int, completed: int, timedOut: int, failed: int)
      modifies this`progress, this`history
      ensures var was := ProgressOf(old(Abs()), p);
              Abs() == Record(old(Abs()), p,
                              Progress(was.requested + requested, was.completed + completed,
                                       was.timedOut + timedOut, was.failed + failed))
    {
      var was := Counters(p);
      var now := Progress(was.requested + requested, was.completed + completed, was.timedOut + timedOut, was.failed + failed);
      progress := progress[p := now];
      if history.Some? {
        history := Some(history.value[p := now]);
      }
    }

    method SelectBlockDownloadPeer(source: Peer, h: Hash, avoid: Option<Peer>) returns (peer: Option<Peer>)
      ensures peer == Select(config, Abs(), source, h, avoid)
    {
      hide KeyOf, KeyLess;
      var among := Candidates(Abs(), source, h, avoid);
      if among == {} {
        return Some(source);
      }
      var rest := among;
      ghost var below: set<Peer> := {};
      var best: Option<Peer> := None;
      while rest != {}
        invariant rest <= among && below == BelowCap(config, Abs(), among - rest)
        invariant best.None? <==> below == {}
        invariant best.Some? ==> IsLeast(Abs(), source, below, best.value)
        decreases rest
      {
        var p :| p in rest;
        var load := InFlightCount(p);
        assert among - (rest - {p}) == among - rest + {p};
        if load < config.cap {
          assert BelowCap(config, Abs(), among - (rest - {p})) == below + {p};
          if best.None? {
            best := Some(p);
          } else {
            ghost var least := Lesser(Abs(), source, below, best.value, p);
            if KeyLess(KeyOf(Abs(), source, p), KeyOf(Abs(), source, best.value)) {
              best := Some(p);
            }
          }
          below := below + {p};
        } else {
          assert BelowCap(config, Abs(), among - (rest - {p})) == below;
        }
        rest := rest - {p};
      }
      assert among - rest == among;
      if best.Some? {
        LeastIsUnique(Abs(), source, below, best.value, Least(Abs(), source, below));
      }
      return best;
    }

    /** Requests every wanted block that is missing, and groups the requests by peer. */
    method RequestBlocks(ws: seq<Wish>, now: int) returns (requests: map<Peer, seq<Hash>>)
      modifies this`inFlight, this`progress, this`history
      ensures Abs() == RequestAll(config, old(Abs()), ws, now)
      ensures old(inFlight) <= inFlight && Matches(requests, inFlight[|old(inFlight)|..])
    {
      hide Matches, Select, ShouldRequest, ProgressOf, Record;
      requests := map[];
      MatchesNothing();
      ghost var n := |inFlight|;
      assert inFlight[n..] == [];
      for i := 0 to |ws|
        invariant Abs() == RequestAll(config, old(Abs()), ws[..i], now)
        invariant n <= |inFlight| && Matches(requests, inFlight[n..])
      {
        var w := ws[i];
        assert ws[..i + 1][..i] == ws[..i];
        if ShouldRequest(Abs(), w.hash) {
          var peer := SelectBlockDownloadPeer(w.source, w.hash, w.avoid);
          if peer.Some? {
            var d := Download(w.hash, peer.value, now);
            MatchesSnoc(requests, inFlight[n..], d);
            assert (inFlight + [d])[n..] == inFlight[n..] + [d];
            ghost var was := Abs();
            inFlight := inFlight + [d];
            SameProgress(was, Abs(), peer.value);
            RecordProgress(peer.value, 1, 0, 0, 0);
            requests := requests[d.peer := (if d.peer in requests then requests[d.peer] else []) + [d.hash]];
          }
        }
      }
      assert ws[..|ws|] == ws;
      RequestAllAppends(config, old(Abs()), ws, now);
    }

    method ExpireBlockDownloads(now: int) returns (expired: seq<Download>)
      modifies this`inFlight, this`progress, this`history
      ensures Abs() == Expire(config, old(Abs()), now)
      ensures expired == Expired(config, old(Abs()), now)
    {
      hide Pick;
      var all := inFlight;
      ghost var m := ExpiredMask(config, all, now);
      expired := [];
      var kept: seq<Download> := [];
      PickNone(all[..0], m[..0]);
      PickNone(all[..0], Flip(m)[..0]);
      for i := 0 to |all|
        invariant Abs() == old(Abs())
        invariant expired == Pick(all[..i], m[..i]) && kept == Pick(all[..i], Flip(m)[..i])
      {
        PickSnoc(all[..i], m[..i], all[i], m[i]);
        PickSnoc(all[..i], Flip(m)[..i], all[i], !m[i]);
        assert all[..i + 1] == all[..i] + [all[i]] && m[..i + 1] == m[..i] + [m[i]] && Flip(m)[..i + 1] == Flip(m)[..i] + [!m[i]];
        if now - all[i].requestedAt >= config.timeout {
          expired := expired + [all[i]];
        } else {
          kept := kept + [all[i]];
        }
      }
      assert all[..|all|] == all && m[..|all|] == m && Flip(m)[..|all|] == Flip(m);
      inFlight := kept;
      ghost var left := Abs();
      for i := 0 to |expired|
        invariant Abs() == TimeOut(left, expired[..i])
      {
        assert expired[..i + 1][..i] == expired[..i];
        RecordProgress(expired[i].peer, 0, 0, 1, 0);
      }
      assert expired[..|expired|] == expired;
    }

    method ClearPeerDownloads(p: Peer)
      modifies this`inFlight, this`progress, this`history
      ensures Abs() == ClearPeer(old(Abs()), p)
    {
      hide Pick;
      var all := inFlight;
      ghost var m := PeerMask(all, p);
      var kept: seq<Download> := [];
      var gone := 0;
      PickNone(all[..0], m[..0]);
      PickNone(all[..0], Flip(m)[..0]);
      for i := 0 to |all|
        invariant Abs() == old(Abs())
        invariant gone == |Pick(all[..i], m[..i])| && kept == Pick(all[..i], Flip(m)[..i])
      {
        PickSnoc(all[..i], m[..i], all[i], m[i]);
        PickSnoc(all[..i], Flip(m)[..i], all[i], !m[i]);
        assert all[..i + 1] == all[..i] + [all[i]] && m[..i + 1] == m[..i] + [m[i]] && Flip(m)[..i + 1] == Flip(m)[..i] + [!m[i]];
        if all[i].peer == p {
          gone := gone + 1;
        } else {
          kept := kept + [all[i]];
        }
      }
      assert all[..|all|] == all && m[..|all|] == m && Flip(m)[..|all|] == Flip(m);
      inFlight := kept;
      if gone > 0 {
        RecordProgress(p, 0, 0, 0, gone);
      }
    }

    /** Adds ten points; at the threshold the peer is banned and dismissed. */
    method PenalizePeer(p: Peer) returns (banned: bool)
      modifies this
      ensures Abs() == Penalize(config, old(Abs()), p)
      ensures banned <==> misbehaviour[p] >= config.banThreshold
    {
      hide ClearPeer;
      var score := (if p in misbehaviour then misbehaviour[p] else 0) + 10;
      misbehaviour := misbehaviour[p := score];
      banned := score >= config.banThreshold;
      if banned {
        sessions := sessions - {p};
        ClearPeerDownloads(p);
      }
    }

    /** `connect_peer` and `accept_inbound_peer`, after the peer manager has had its say. */
    method ConnectPeer(p: Peer, admitted: bool)
      modifies this
      ensures Abs() == Step(config, old(Abs()), Connect(p, admitted))
    {
      if admitted {
        sessions := sessions[p := {}];
        if p !in misbehaviour {
          misbehaviour := misbehaviour[p := 0];
        }
      }
    }

    method DisconnectPeer(p: Peer) returns (known: bool)
      modifies this
      ensures Abs() == Step(config, old(Abs()), Disconnect(p))
      ensures known <==> p in old(misbehaviour)
    {
      hide ClearPeer;
      known := p in misbehaviour;
      if known {
        sessions := sessions - {p};
        ClearPeerDownloads(p);
      }
    }

    /** Expires, then asks for the missing blocks, unless the headers hang in the air. */
    method HandleHeadersMessage(p: Peer, hashes: seq<Hash>, previous: Hash, now: int)
      returns (getdata: Option<map<Peer, seq<seq<Hash>>>>)
      requires p in sessions
      modifies this
      ensures Abs() == HandleHeaders(config, old(Abs()), p, hashes, previous, now)
      ensures getdata.None? <==> hashes != [] && !Connects(old(Abs()), previous)
      ensures getdata.Some? ==> Asks(config, old(inFlight), inFlight, getdata.value, now)
    {
      hide Expire, Penalize, RequestAll, Matches, Sends, Current;
      ExpireLeaves(config, Abs(), now);
      var connected := Connects(Abs(), previous);
      var _ := ExpireBlockDownloads(now);
      if hashes != [] && !connected {
        var _ := PenalizePeer(p);
        return None;
      }
      var batches := RequestInBatches(HeaderWishes(p, hashes), now);
      return Some(batches);
    }

    /** Requests the missing blocks and packs the requests. */
    method RequestInBatches(ws: seq<Wish>, now: int) returns (batches: map<Peer, seq<seq<Hash>>>)
      modifies this`inFlight, this`progress, this`history
      ensures Abs() == RequestAll(config, old(Abs()), ws, now)
      ensures old(inFlight) <= inFlight && Sends(config, batches, inFlight[|old(inFlight)|..])
    {
      hide RequestAll, Matches, Sends, Flatten;
      var requests := RequestBlocks(ws, now);
      batches := GetdataBatches(requests);
      MatchesSends(config, requests, batches, inFlight[|old(inFlight)|..]);
    }

    method RetryExpiredBlockDownloads(now: int) returns (getdata: map<Peer, seq<seq<Hash>>>)
      modifies this
      ensures Abs() == Step(config, old(Abs()), Retry(now))
      ensures Asks(config, old(inFlight), inFlight, getdata, now)
    {
      hide Expire, RequestAll, Matches, Expired, Sends, Current;
      ExpireLeaves(config, Abs(), now);
      var expired := ExpireBlockDownloads(now);
      getdata := RequestInBatches(RetryWishes(expired), now);
    }

    /** A block that is new to the service; `outcome` is what the node's import did. */
    method HandleBlockMessage(p: Peer, h: Hash, outcome: Outcome)
      requires p in sessions
      modifies this
      ensures forall now :: Abs() == Handle(config, old(Abs()), p, BlockOf(h, outcome), now)
    {
      hide Penalize, Pick;
      if h in blocks || outcome.Raised? {
        return;
      }
      if outcome.Refused? {
        var _ := PenalizePeer(p);
        return;
      }
      blocks, chain := blocks + {h}, chain + {h};
      ghost var with := Abs();
      var all := inFlight;
      ghost var m := HashMask(all, h);
      var done: seq<Download> := [];
      var kept: seq<Download> := [];
      PickNone(all[..0], m[..0]);
      PickNone(all[..0], Flip(m)[..0]);
      for i := 0 to |all|
        invariant Abs() == with
        invariant done == Pick(all[..i], m[..i]) && kept == Pick(all[..i], Flip(m)[..i])
      {
        PickSnoc(all[..i], m[..i], all[i], m[i]);
        PickSnoc(all[..i], Flip(m)[..i], all[i], !m[i]);
        assert all[..i + 1] == all[..i] + [all[i]] && m[..i + 1] == m[..i] + [m[i]] && Flip(m)[..i + 1] == Flip(m)[..i] + [!m[i]];
        if all[i].hash == h {
          done := done + [all[i]];
        } else {
          kept := kept + [all[i]];
        }
      }
      assert all[..|all|] == all && m[..|all|] == m && Flip(m)[..|all|] == Flip(m);
      inFlight := kept;
      if done != [] {
        RecordProgress(done[0].peer, 0, 1, 0, 0);
      }
    }

    /** One message from a peer; `content` is what the session made of it. */
    method ReceiveMessage(p: Peer, admitted: bool, content: Content, now: int) returns (getdata: map<Peer, seq<seq<Hash>>>)
      modifies this
      ensures Abs() == Step(config, old(Abs()), Receive(p, admitted, content, now))
      ensures var heard := content.Headers? && (p in old(sessions) || admitted) &&
                           (content.hashes == [] || Connects(old(Abs()), content.previous));
              if heard then Asks(config, old(inFlight), inFlight, getdata, now) else getdata == map[]
    {
      hide Penalize, HandleHeaders, Arrived, Asks;
      getdata := map[];
      if p !in sessions {
        if !admitted {
          return;
        }
        ConnectPeer(p, true);
      }
      assert Abs() == WithSession(old(Abs()), p);
      match content
      case Rejected(learned) =>
        sessions := sessions[p := sessions[p] + learned];
        var _ := PenalizePeer(p);
      case Headers(hashes, previous) =>
        sessions := sessions[p := sessions[p] + set h | h in hashes];
        var wanted := HandleHeadersMessage(p, hashes, previous, now);
        if wanted.Some? {
          getdata := wanted.value;
        }
      case BlockOf(h, outcome) =>
        HandleBlockMessage(p, h, outcome);
      case BadPayload =>
        var _ := PenalizePeer(p);
      case Harmless =>
    }

    /** The getdata messages for a set of requests, in batches of bounded size. */
    method GetdataBatches(requests: map<Peer, seq<Hash>>) returns (batches: map<Peer, seq<seq<Hash>>>)
      ensures batches.Keys == requests.Keys
      ensures forall p | p in requests ::
                Flatten(batches[p]) == requests[p] && forall i | 0 <= i < |batches[p]| :: 0 < |batches[p][i]| <= config.batch
    {
      batches := map[];
      var rest := requests.Keys;
      while rest != {}
        invariant rest <= requests.Keys && batches.Keys == requests.Keys - rest
        invariant forall p | p in batches ::
            Flatten(batches[p]) == requests[p] && forall i | 0 <= i < |batches[p]| :: 0 < |batches[p][i]| <= config.batch
        decreases rest
      {
        var p :| p in rest;
        var pieces := ChunkInventory(requests[p], config.batch);
        batches := batches[p := pieces];
        rest := rest - {p};
      }
    }
  }
}
