/**
 What the scheduler does, in terms of sessions, loads and counters: whom it asks for a block,
 whom it asks again when a block is overdue, that it does ask for what it misses, and which
 counter each event moves.
 */
module Selection {
  import opened Bytes
  import opened Lists
  import opened Scheduler

  // ---- whom to ask ------------------------------------------------------------------------

  /** A connected peer that sent the headers in question or announced the header itself. */
  ghost predicate Knows(sv: Service, source: Peer, h: Hash, p: Peer)
  {
    p in sv.sessions && (p == source || h in sv.sessions[p])
  }

  /** Knows the block and is not the one to avoid, unless nobody else knows it. */
  ghost predicate MayAsk(sv: Service, source: Peer, h: Hash, avoid: Option<Peer>, p: Peer)
  {
    Knows(sv, source, h, p) && (avoid == Some(p) ==> forall q | Knows(sv, source, h, q) :: q == p)
  }

  ghost predicate Free(c: Config, sv: Service, p: Peer)
  {
    CountFor(sv.inFlight, p) < c.cap
  }

  function Marks(sv: Service, p: Peer): int
  {
    if p in sv.misbehaviour then sv.misbehaviour[p] else 0
  }

  /** A hundred for a failure, twenty for a timeout, one for a request, less ten for a block; never negative. */
  function Faults(sv: Service, p: Peer): int
  {
    var q := ProgressOf(sv, p);
    var sum := 100 * q.failed + 20 * q.timedOut + q.requested - 10 * q.completed;
    if sum < 0 then 0 else sum
  }

  /**
   `p` goes before `q`: fewer downloads in flight; then fewer faults; then less
   misbehaviour; then the source; then the smaller address.
   */
  ghost predicate Before(sv: Service, source: Peer, p: Peer, q: Peer)
  {
    var a, b := CountFor(sv.inFlight, p), CountFor(sv.inFlight, q);
    a < b || (a == b && (
      Faults(sv, p) < Faults(sv, q) || (Faults(sv, p) == Faults(sv, q) && (
        Marks(sv, p) < Marks(sv, q) || (Marks(sv, p) == Marks(sv, q) && (
          p == source || (q != source && Less(p, q))))))))
  }

  lemma KeyMeans(sv: Service, source: Peer, p: Peer, q: Peer)
    requires p != q
    ensures KeyLess(KeyOf(sv, source, p), KeyOf(sv, source, q)) <==> Before(sv, source, p, q)
  {
    hide CountFor, ProgressOf;
  }

  lemma CandidatesAre(sv: Service, source: Peer, h: Hash, avoid: Option<Peer>, p: Peer)
    ensures p in Candidates(sv, source, h, avoid) <==> MayAsk(sv, source, h, avoid, p)
  {
    var all := set a | a in sv.sessions && (a == source || h in sv.sessions[a]);
    var others := set a | a in all && avoid != Some(a);
    assert forall a :: a in all <==> Knows(sv, source, h, a);
    if others == {} {
      assert forall q | Knows(sv, source, h, q) :: q in others || avoid == Some(q);
    } else {
      var x :| x in others;
      assert Knows(sv, source, h, x) && avoid != Some(x);
    }
  }

  /**
   The peer asked for a block, if anyone connected knows it: one that may be asked and is
   below its cap, before every other such peer; and nobody only if all are at their cap.
   */
  lemma ChoiceIs(c: Config, sv: Service, source: Peer, h: Hash, avoid: Option<Peer>)
    requires exists q :: Knows(sv, source, h, q)
    ensures match Select(c, sv, source, h, avoid)
            case None => forall q | MayAsk(sv, source, h, avoid, q) :: !Free(c, sv, q)
            case Some(p) =>
              MayAsk(sv, source, h, avoid, p) && Free(c, sv, p) &&
              forall q | MayAsk(sv, source, h, avoid, q) && Free(c, sv, q) && q != p :: Before(sv, source, p, q)
  {
    hide CountFor, KeyOf, KeyLess, Candidates, Before;
    var among := Candidates(sv, source, h, avoid);
    forall q
      ensures q in among <==> MayAsk(sv, source, h, avoid, q)
    {
      CandidatesAre(sv, source, h, avoid, q);
    }
    SomeoneMayBeAsked(sv, source, h, avoid);
    match Select(c, sv, source, h, avoid)
    case None =>
      forall q | MayAsk(sv, source, h, avoid, q)
        ensures !Free(c, sv, q)
      {
        assert q in among && q !in BelowCap(c, sv, among);
      }
    case Some(p) =>
      forall q | MayAsk(sv, source, h, avoid, q) && Free(c, sv, q) && q != p
        ensures Before(sv, source, p, q)
      {
        assert q in BelowCap(c, sv, among);
        KeyMeans(sv, source, p, q);
      }
  }

  lemma SomeoneMayBeAsked(sv: Service, source: Peer, h: Hash, avoid: Option<Peer>)
    requires exists q :: Knows(sv, source, h, q)
    ensures exists q :: MayAsk(sv, source, h, avoid, q)
  {
    var q :| Knows(sv, source, h, q);
    if !MayAsk(sv, source, h, avoid, q) {
      var x :| Knows(sv, source, h, x) && x != q;
      assert MayAsk(sv, source, h, avoid, x);
    }
  }

  // ---- a list of wishes -------------------------------------------------------------------

  /** The wish is settled: nothing to ask for, asked for, or nobody left to ask. */
  ghost predicate Settled(c: Config, sv: Service, w: Wish)
  {
    w.hash in sv.blocks || w.hash in sv.chain || IsInFlight(sv.inFlight, w.hash) ||
    forall q | MayAsk(sv, w.source, w.hash, w.avoid, q) :: !Free(c, sv, q)
  }

  /** Same sessions and stored blocks, and nobody's load is smaller. */
  ghost predicate Grown(a: Service, b: Service)
  {
    a.sessions == b.sessions && a.blocks == b.blocks && a.chain == b.chain && a.inFlight <= b.inFlight &&
    forall p :: CountFor(a.inFlight, p) <= CountFor(b.inFlight, p)
  }

  lemma SettledStays(c: Config, a: Service, b: Service, w: Wish)
    requires Settled(c, a, w) && Grown(a, b)
    ensures Settled(c, b, w)
  {
    hide CountFor;
    if IsInFlight(a.inFlight, w.hash) {
      var i :| 0 <= i < |a.inFlight| && a.inFlight[i].hash == w.hash;
      assert b.inFlight[i].hash == w.hash;
    } else if !(w.hash in a.blocks || w.hash in a.chain) {
      forall q | MayAsk(b, w.source, w.hash, w.avoid, q)
        ensures !Free(c, b, q)
      {
        SameChoice(a, b, w, q);
      }
    }
  }

  lemma GrowsOne(c: Config, sv: Service, w: Wish, now: int)
    requires w.source in sv.sessions
    ensures var to := RequestOne(c, sv, w, now);
            Grown(sv, to) && Settled(c, to, w) && |to.inFlight| <= |sv.inFlight| + 1 &&
            (|to.inFlight| == |sv.inFlight| + 1 ==>
               var d := to.inFlight[|sv.inFlight|];
               d.hash == w.hash && d.requestedAt == now && MayAsk(sv, w.source, w.hash, w.avoid, d.peer) && ShouldRequest(sv, w.hash))
  {
    hide CountFor, Select, ProgressOf, MayAsk, IsInFlight;
    assert Knows(sv, w.source, w.hash, w.source);
    ChoiceIs(c, sv, w.source, w.hash, w.avoid);
    if ShouldRequest(sv, w.hash) && Select(c, sv, w.source, w.hash, w.avoid).Some? {
      var d := Download(w.hash, Select(c, sv, w.source, w.hash, w.avoid).value, now);
      forall p
        ensures CountFor(sv.inFlight, p) <= CountFor(sv.inFlight + [d], p)
      {
        CountSnoc(sv.inFlight, d, p);
      }
      NowInFlight(sv.inFlight, d);
    }
  }

  lemma NowInFlight(ds: seq<Download>, d: Download)
    ensures IsInFlight(ds + [d], d.hash)
  {
    assert (ds + [d])[|ds|] == d;
  }

  /** Which wish a new download answers. */
  ghost predicate Answers(sv: Service, w: Wish, d: Download, now: int)
  {
    d.hash == w.hash && d.requestedAt == now && MayAsk(sv, w.source, w.hash, w.avoid, d.peer) &&
    w.hash !in sv.blocks && w.hash !in sv.chain && !IsInFlight(sv.inFlight, w.hash)
  }

  /**
   Working through a list of wishes settles every one of them, and every new download
   answers one: it was missing, and its peer may be asked.
   */
  lemma {:induction false} WishesAreSettled(c: Config, sv: Service, ws: seq<Wish>, now: int)
    requires forall i | 0 <= i < |ws| :: ws[i].source in sv.sessions
    ensures var to := RequestAll(c, sv, ws, now);
            Grown(sv, to) && (forall i | 0 <= i < |ws| :: Settled(c, to, ws[i])) &&
            forall k | |sv.inFlight| <= k < |to.inFlight| ::
              exists i :: 0 <= i < |ws| && Answers(sv, ws[i], to.inFlight[k], now)
  {
    hide RequestOne, Settled, CountFor, MayAsk, IsInFlight;
    if ws == [] {
      assert Grown(sv, sv);
    } else {
      var n := |ws| - 1;
      var init := ws[..n];
      WishesAreSettled(c, sv, init, now);
      var mid, to := RequestAll(c, sv, init, now), RequestAll(c, sv, ws, now);
      GrowsOne(c, mid, ws[n], now);
      forall i | 0 <= i < |ws|
        ensures Settled(c, to, ws[i])
      {
        if i < n {
          assert init[i] == ws[i];
          SettledStays(c, mid, to, ws[i]);
        }
      }
      forall k | |sv.inFlight| <= k < |to.inFlight|
        ensures exists i :: 0 <= i < |ws| && Answers(sv, ws[i], to.inFlight[k], now)
      {
        if k < |mid.inFlight| {
          var i :| 0 <= i < |init| && Answers(sv, init[i], mid.inFlight[k], now);
          assert ws[i] == init[i] && to.inFlight[k] == mid.inFlight[k];
        } else {
          SameChoice(sv, mid, ws[n], to.inFlight[k].peer);
          assert Answers(sv, ws[n], to.inFlight[k], now);
        }
      }
    }
  }

  lemma SameChoice(a: Service, b: Service, w: Wish, p: Peer)
    requires Grown(a, b)
    ensures MayAsk(b, w.source, w.hash, w.avoid, p) ==> MayAsk(a, w.source, w.hash, w.avoid, p)
    ensures IsInFlight(a.inFlight, w.hash) ==> IsInFlight(b.inFlight, w.hash)
  {
    hide CountFor;
    if MayAsk(b, w.source, w.hash, w.avoid, p) {
      forall q | Knows(a, w.source, w.hash, q)
        ensures Knows(b, w.source, w.hash, q)
      {
      }
    }
    if i :| 0 <= i < |a.inFlight| && a.inFlight[i].hash == w.hash {
      assert b.inFlight[i].hash == w.hash;
    }
  }

  // ---- headers and retries ------------------------------------------------------------------

  /** Downloads that are not overdue at `now`. */
  ghost predicate Timely(c: Config, d: Download, now: int)
  {
    now - d.requestedAt < c.timeout
  }

  /** Expiry takes out exactly the overdue downloads and leaves sessions and blocks alone. */
  lemma ExpiryIsExact(c: Config, sv: Service, now: int)
    ensures var to := Expire(c, sv, now);
            to.sessions == sv.sessions && to.blocks == sv.blocks && to.chain == sv.chain &&
            (forall d :: d in to.inFlight <==> d in sv.inFlight && Timely(c, d, now)) &&
            forall d :: d in Expired(c, sv, now) <==> d in sv.inFlight && !Timely(c, d, now)
  {
    hide Pick, TimeOut;
    var ds, m := sv.inFlight, ExpiredMask(c, sv.inFlight, now);
    TimeOutOk(sv.(inFlight := Pick(ds, Flip(m))), Pick(ds, m));
    forall d
      ensures d in Pick(ds, m) <==> d in ds && !Timely(c, d, now)
      ensures d in Pick(ds, Flip(m)) <==> d in ds && Timely(c, d, now)
    {
      PickedIff(ds, m, d);
      PickedIff(ds, Flip(m), d);
    }
  }

  lemma {:induction false} PickedIff(ds: seq<Download>, m: seq<bool>, d: Download)
    requires |m| == |ds|
    ensures d in Pick(ds, m) <==> exists i | 0 <= i < |ds| :: ds[i] == d && m[i]
    decreases |ds|
  {
    if ds != [] {
      PickedIff(ds[1..], m[1..], d);
      if i :| 0 <= i < |ds| && ds[i] == d && m[i] {
        if i > 0 {
          assert ds[1..][i - 1] == d && m[1..][i - 1];
        }
      }
      if i :| 0 <= i < |ds[1..]| && ds[1..][i] == d && m[1..][i] {
        assert ds[i + 1] == d && m[i + 1];
      }
    }
  }

  /**
   After headers that connect, every announced block is stored, known to the service or in
   flight, unless every connected peer that knows it is at its cap. New downloads are of
   announced blocks that were missing, from peers that know them.
   */
  lemma HeadersAreFollowed(c: Config, sv: Service, p: Peer, hashes: seq<Hash>, previous: Hash, now: int)
    requires p in sv.sessions && (previous in sv.chain || (sv.chain == {} && previous == ZERO_HASH))
    ensures var to := HandleHeaders(c, sv, p, hashes, previous, now);
            to.sessions == sv.sessions && to.blocks == sv.blocks && to.chain == sv.chain &&
            (forall h | h in hashes && h !in to.blocks && h !in to.chain && !IsInFlight(to.inFlight, h) ::
               forall q | Knows(to, p, h, q) :: !Free(c, to, q)) &&
            forall d | d in to.inFlight :: (d in sv.inFlight && Timely(c, d, now)) ||
              (d.hash in hashes && d.hash !in sv.blocks && d.hash !in sv.chain && d.requestedAt == now && Knows(sv, p, d.hash, d.peer))
  {
    hide Expire, RequestAll, CountFor, IsInFlight, Expired;
    var mid, ws := Expire(c, sv, now), HeaderWishes(p, hashes);
    ExpiryIsExact(c, sv, now);
    WishesAreSettled(c, mid, ws, now);
    var to := RequestAll(c, mid, ws, now);
    forall h, q | h in hashes && h !in to.blocks && h !in to.chain && !IsInFlight(to.inFlight, h) && Knows(to, p, h, q)
      ensures !Free(c, to, q)
    {
      var i :| 0 <= i < |hashes| && hashes[i] == h;
      assert Settled(c, to, ws[i]);
      assert MayAsk(to, p, h, None, q);
    }
    forall d | d in to.inFlight
      ensures (d in sv.inFlight && Timely(c, d, now)) ||
              (d.hash in hashes && d.hash !in sv.blocks && d.hash !in sv.chain && d.requestedAt == now && Knows(sv, p, d.hash, d.peer))
    {
      var k :| 0 <= k < |to.inFlight| && to.inFlight[k] == d;
      if k < |mid.inFlight| {
        assert mid.inFlight[k] == d && d in mid.inFlight;
      } else {
        var i :| 0 <= i < |ws| && Answers(mid, ws[i], to.inFlight[k], now);
        assert ws[i].hash == hashes[i];
      }
    }
  }

  /**
   The same for the whole message: its sender is from then on known to have the announced
   blocks, and each of them is stored, known, in flight, or with nobody left to ask.
   */
  lemma HeadersAreHeard(c: Config, sv: Service, p: Peer, admitted: bool, hashes: seq<Hash>, previous: Hash, now: int)
    requires p in sv.sessions && (previous in sv.chain || (sv.chain == {} && previous == ZERO_HASH))
    ensures var to := Step(c, sv, Receive(p, admitted, Headers(hashes, previous), now));
            to.sessions == sv.sessions[p := sv.sessions[p] + set h | h in hashes] &&
            forall h | h in hashes && h !in to.blocks && h !in to.chain && !IsInFlight(to.inFlight, h) ::
              forall q | q in to.sessions && h in to.sessions[q] :: !Free(c, to, q)
  {
    hide HandleHeaders, CountFor, IsInFlight, Expire;
    var known := sv.(sessions := sv.sessions[p := sv.sessions[p] + set h | h in hashes]);
    HeadersAreFollowed(c, known, p, hashes, previous, now);
    var to := Step(c, sv, Receive(p, admitted, Headers(hashes, previous), now));
    forall h, q | h in hashes && h !in to.blocks && h !in to.chain && !IsInFlight(to.inFlight, h) && q in to.sessions && h in to.sessions[q]
      ensures !Free(c, to, q)
    {
      assert Knows(to, p, h, q);
    }
  }

  /** Somebody other than `d.peer` is connected and announced the block. */
  ghost predicate OtherKnows(sv: Service, d: Download, q: Peer)
  {
    q != d.peer && q in sv.sessions && d.hash in sv.sessions[q]
  }

  /**
   What a retry does about an overdue download of a block that is still missing. If another
   connected peer announced it, the one that let it expire is not asked again: the block is
   in flight with such a peer, or all of those are at their cap. If nobody else announced it,
   it is in flight with the same peer, unless that one is at its cap.
   */
  lemma RetryAsksElsewhere(c: Config, sv: Service, d: Download, now: int)
    requires Orderly(c, sv) && d in sv.inFlight && !Timely(c, d, now) && d.hash !in sv.blocks && d.hash !in sv.chain
    ensures var to := HandleRetry(c, sv, now);
            to.sessions == sv.sessions &&
            (forall e | e in to.inFlight && e.hash == d.hash ::
               e.requestedAt == now && (OtherKnows(sv, d, e.peer) || (e.peer == d.peer && forall q :: !OtherKnows(sv, d, q)))) &&
            (!IsInFlight(to.inFlight, d.hash) ==>
               if exists q :: OtherKnows(sv, d, q) then forall q | OtherKnows(sv, d, q) :: !Free(c, to, q)
               else !Free(c, to, d.peer))
  {
    hide Expire, RequestAll, CountFor, IsInFlight, Expired, Pick, MayAsk, OtherKnows, Free;
    ExpiryIsExact(c, sv, now);
    var mid, late := Expire(c, sv, now), Expired(c, sv, now);
    var ws := RetryWishes(late);
    forall i | 0 <= i < |ws|
      ensures ws[i].source in mid.sessions
    {
      assert late[i] in late && late[i] in sv.inFlight;
    }
    WishesAreSettled(c, mid, ws, now);
    var to := RequestAll(c, mid, ws, now);
    var m :| 0 <= m < |late| && late[m] == d;
    WishMeans(sv, mid, d);
    forall e | e in to.inFlight && e.hash == d.hash
      ensures e.requestedAt == now && MayAsk(mid, d.peer, d.hash, Some(d.peer), e.peer)
    {
      var k :| 0 <= k < |to.inFlight| && to.inFlight[k] == e;
      if k < |mid.inFlight| {
        assert mid.inFlight[k] == e && e in mid.inFlight;
        OneDownload(c, sv, d, e);
      } else {
        var i :| 0 <= i < |ws| && Answers(mid, ws[i], to.inFlight[k], now);
        assert late[i] in late;
        OneDownload(c, sv, d, late[i]);
      }
    }
    assert Settled(c, to, ws[m]);
    WishMeans(sv, to, d);
  }

  lemma OneDownload(c: Config, sv: Service, a: Download, b: Download)
    requires Orderly(c, sv) && a in sv.inFlight && b in sv.inFlight && a.hash == b.hash
    ensures a == b
  {
    hide CountFor;
    var i :| 0 <= i < |sv.inFlight| && sv.inFlight[i] == a;
    var j :| 0 <= j < |sv.inFlight| && sv.inFlight[j] == b;
  }

  /** Whom the retry of `d` may ask. */
  lemma WishMeans(sv: Service, to: Service, d: Download)
    requires d.peer in sv.sessions && to.sessions == sv.sessions
    ensures forall p :: MayAsk(to, d.peer, d.hash, Some(d.peer), p) <==>
                        OtherKnows(sv, d, p) || (p == d.peer && forall q :: !OtherKnows(sv, d, q))
  {
    assert Knows(to, d.peer, d.hash, d.peer);
    forall p
      ensures MayAsk(to, d.peer, d.hash, Some(d.peer), p) <==>
              OtherKnows(sv, d, p) || (p == d.peer && forall q :: !OtherKnows(sv, d, q))
    {
      assert forall q :: Knows(to, d.peer, d.hash, q) <==> q == d.peer || OtherKnows(sv, d, q);
    }
  }
}
