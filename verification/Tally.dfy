/** Which counter each scheduler event moves, for which peer and by how much, and who leaves. */
module Tally {
  import opened Bytes
  import opened Lists
  import opened Scheduler
  import opened Selection

  // ---- requests ---------------------------------------------------------------------------

  lemma RequestCountsOne(c: Config, sv: Service, w: Wish, now: int, p: Peer)
    ensures var to, was := RequestOne(c, sv, w, now), ProgressOf(sv, p);
            ProgressOf(to, p) == was.(requested := was.requested + CountFor(to.inFlight, p) - CountFor(sv.inFlight, p))
  {
    hide CountFor, Select, ProgressOf, ShouldRequest;
    if ShouldRequest(sv, w.hash) && Select(c, sv, w.source, w.hash, w.avoid).Some? {
      var q := Select(c, sv, w.source, w.hash, w.avoid).value;
      var d, was := Download(w.hash, q, now), ProgressOf(sv, q);
      CountSnoc(sv.inFlight, d, p);
      var mid := sv.(inFlight := sv.inFlight + [d]);
      RecordIs(mid, q, was.(requested := was.requested + 1), p);
      SameProgress(sv, mid, p);
    }
  }

  /** Every new download counts as one request of its peer; nothing else is counted. */
  lemma {:induction false} RequestsCount(c: Config, sv: Service, ws: seq<Wish>, now: int, p: Peer)
    ensures var to, was := RequestAll(c, sv, ws, now), ProgressOf(sv, p);
            ProgressOf(to, p) == was.(requested := was.requested + CountFor(to.inFlight, p) - CountFor(sv.inFlight, p))
  {
    hide CountFor, RequestOne, ProgressOf;
    if ws != [] {
      var n := |ws| - 1;
      RequestsCount(c, sv, ws[..n], now, p);
      RequestCountsOne(c, RequestAll(c, sv, ws[..n], now), ws[n], now, p);
    }
  }

  // ---- timeouts ---------------------------------------------------------------------------

  lemma {:induction false} TimeOutCounts(sv: Service, ds: seq<Download>, p: Peer)
    ensures var was := ProgressOf(sv, p);
            ProgressOf(TimeOut(sv, ds), p) == was.(timedOut := was.timedOut + CountFor(ds, p))
  {
    hide ProgressOf;
    if ds != [] {
      var init, d := ds[..|ds| - 1], ds[|ds| - 1];
      TimeOutCounts(sv, init, p);
      TimeOutCounts(sv, init, d.peer);
      var before := TimeOut(sv, init);
      var was := ProgressOf(before, d.peer);
      RecordIs(before, d.peer, was.(timedOut := was.timedOut + 1), p);
    }
  }

  /** Every overdue download counts as one timeout of its peer; nothing else is counted. */
  lemma ExpiryCounts(c: Config, sv: Service, now: int, p: Peer)
    ensures var to, was := Expire(c, sv, now), ProgressOf(sv, p);
            ProgressOf(to, p) == was.(timedOut := was.timedOut + CountFor(sv.inFlight, p) - CountFor(to.inFlight, p))
  {
    hide CountFor, Pick, TimeOut, ProgressOf;
    var m := ExpiredMask(c, sv.inFlight, now);
    var left := sv.(inFlight := Pick(sv.inFlight, Flip(m)));
    TimeOutCounts(left, Pick(sv.inFlight, m), p);
    TimeOutOk(left, Pick(sv.inFlight, m));
    CountSplit(sv.inFlight, m, p);
    SameProgress(sv, left, p);
  }

  // ---- leaving and misbehaving --------------------------------------------------------------

  /**
   `to` is `sv` without the peer: no session, none of its downloads, each of them counted as
   its failure; everybody else keeps session, downloads and counters.
   */
  ghost predicate Left(sv: Service, to: Service, p: Peer)
  {
    to.sessions == sv.sessions - {p} && to.blocks == sv.blocks && to.chain == sv.chain &&
    (forall d :: d in to.inFlight <==> d in sv.inFlight && d.peer != p) &&
    forall q :: ProgressOf(to, q) ==
                var was := ProgressOf(sv, q);
                if q == p then was.(failed := was.failed + CountFor(sv.inFlight, p)) else was
  }

  lemma DismissedHasLeft(sv: Service, p: Peer)
    ensures Left(sv, Dismiss(sv, p), p) && Dismiss(sv, p).misbehaviour == sv.misbehaviour
  {
    hide CountFor, Pick, ProgressOf;
    var ds, m := sv.inFlight, PeerMask(sv.inFlight, p);
    var gone, kept := Pick(ds, m), Pick(ds, Flip(m));
    var left := sv.(sessions := sv.sessions - {p}, inFlight := kept);
    forall d
      ensures d in kept <==> d in ds && d.peer != p
    {
      PickedIff(ds, Flip(m), d);
    }
    PickSatisfies(ds, m, (d: Download) => d.peer == p);
    PickSatisfies(ds, Flip(m), (d: Download) => d.peer != p);
    CountSame(gone, p, p);
    CountOthers(kept, p);
    CountSplit(ds, m, p);
    forall q
      ensures ProgressOf(Dismiss(sv, p), q) ==
              var was := ProgressOf(sv, q);
              if q == p then was.(failed := was.failed + CountFor(sv.inFlight, p)) else was
    {
      var was := ProgressOf(left, p);
      SameProgress(sv, left, q);
      RecordIs(left, p, was.(failed := was.failed + |gone|), q);
    }
  }

  lemma {:induction false} CountOthers(ds: seq<Download>, p: Peer)
    requires forall i | 0 <= i < |ds| :: ds[i].peer != p
    ensures CountFor(ds, p) == 0
  {
    if ds != [] {
      CountOthers(ds[..|ds| - 1], p);
    }
  }

  /** Ten marks for the peer; it is made to leave exactly when that reaches the threshold. */
  lemma PenaltyMeans(c: Config, sv: Service, p: Peer)
    ensures var to, marks := Penalize(c, sv, p), Marks(sv, p) + 10;
            to.misbehaviour == sv.misbehaviour[p := marks] &&
            if marks >= c.banThreshold then Left(sv, to, p) else to == sv.(misbehaviour := to.misbehaviour)
  {
    hide Dismiss, ProgressOf, CountFor;
    var marked := sv.(misbehaviour := sv.misbehaviour[p := Marks(sv, p) + 10]);
    DismissedHasLeft(marked, p);
    forall q
      ensures ProgressOf(marked, q) == ProgressOf(sv, q)
    {
      SameProgress(sv, marked, q);
    }
  }

  // ---- arriving -----------------------------------------------------------------------------

  /**
   An imported block is stored and known, no longer in flight, and counted once for the peer
   it was asked of, if any; the other downloads and counters stay.
   */
  lemma ArrivalCounts(c: Config, sv: Service, h: Hash, p: Peer)
    requires Orderly(c, sv)
    ensures var to, was := Arrived(sv, h), ProgressOf(sv, p);
            to.blocks == sv.blocks + {h} && to.chain == sv.chain + {h} && to.sessions == sv.sessions &&
            (forall d :: d in to.inFlight <==> d in sv.inFlight && d.hash != h) &&
            ProgressOf(to, p) == was.(completed := was.completed + if (exists d :: d in sv.inFlight && d.hash == h && d.peer == p) then 1 else 0)
  {
    hide CountFor, Pick, ProgressOf;
    var ds, m := sv.inFlight, HashMask(sv.inFlight, h);
    var done := Pick(ds, m);
    var left := sv.(inFlight := Pick(ds, Flip(m)), blocks := sv.blocks + {h}, chain := sv.chain + {h});
    forall d
      ensures d in done <==> d in ds && d.hash == h
      ensures d in left.inFlight <==> d in ds && d.hash != h
    {
      PickedIff(ds, m, d);
      PickedIff(ds, Flip(m), d);
    }
    SameProgress(sv, left, p);
    if done != [] {
      assert done[0] in done;
      var q := done[0].peer;
      SameProgress(sv, left, q);
      var was := ProgressOf(left, q);
      RecordIs(left, q, was.(completed := was.completed + 1), p);
      forall d | d in ds && d.hash == h
        ensures d == done[0]
      {
        OneDownload(c, sv, d, done[0]);
      }
    }
  }

  // ---- messages -----------------------------------------------------------------------------

  /** What a peer is penalised for. */
  ghost predicate Offence(sv: Service, content: Content)
  {
    match content
    case Rejected(_) => true
    case BadPayload => true
    case Harmless => false
    case BlockOf(h, outcome) => h !in sv.blocks && outcome == Refused
    case Headers(hashes, previous) => hashes != [] && previous !in sv.chain && (sv.chain != {} || previous != ZERO_HASH)
  }

  lemma {:induction false} TimeOutKeepsMarks(sv: Service, ds: seq<Download>)
    ensures TimeOut(sv, ds).misbehaviour == sv.misbehaviour
  {
    hide ProgressOf;
    if ds != [] {
      TimeOutKeepsMarks(sv, ds[..|ds| - 1]);
    }
  }

  lemma {:induction false} RequestsKeepMarks(c: Config, sv: Service, ws: seq<Wish>, now: int)
    ensures RequestAll(c, sv, ws, now).misbehaviour == sv.misbehaviour
  {
    hide Select, ProgressOf, ShouldRequest;
    if ws != [] {
      RequestsKeepMarks(c, sv, ws[..|ws| - 1], now);
    }
  }

  /** A message costs its sender ten marks exactly when it is an offence, and nobody else anything. */
  lemma MessageMarks(c: Config, sv: Service, p: Peer, admitted: bool, content: Content, now: int, q: Peer)
    requires p in sv.sessions
    ensures Marks(Step(c, sv, Receive(p, admitted, content, now)), q) ==
            Marks(sv, q) + if q == p && Offence(sv, content) then 10 else 0
  {
    hide Dismiss, TimeOut, Pick, ProgressOf, RequestAll, CountFor, Left;
    match content
    case Rejected(learned) =>
      PenaltyMeans(c, Learn(sv, p, learned), p);
    case Headers(hashes, previous) =>
      var known := Learn(sv, p, set h | h in hashes);
      var mid := Expire(c, known, now);
      var m := ExpiredMask(c, known.inFlight, now);
      var left := known.(inFlight := Pick(known.inFlight, Flip(m)));
      TimeOutKeepsMarks(left, Pick(known.inFlight, m));
      PenaltyMeans(c, mid, p);
      RequestsKeepMarks(c, mid, HeaderWishes(p, hashes), now);
    case BlockOf(h, outcome) =>
      PenaltyMeans(c, sv, p);
    case BadPayload =>
      PenaltyMeans(c, sv, p);
    case Harmless =>
  }

  /**
   Connecting opens an empty session and forgives nothing; disconnecting makes a known peer
   leave, marks kept; who is not admitted changes nothing; a stored block joins the chain.
   */
  lemma SessionsMean(c: Config, sv: Service, p: Peer, content: Content, now: int, h: Hash, served: bool, q: Peer)
    ensures var to := Step(c, sv, Connect(p, true));
            to.sessions == sv.sessions[p := {}] && to.inFlight == sv.inFlight && p in to.misbehaviour &&
            Marks(to, q) == Marks(sv, q) && ProgressOf(to, q) == ProgressOf(sv, q)
    ensures Step(c, sv, Connect(p, false)) == sv
    ensures p !in sv.sessions ==> Step(c, sv, Receive(p, false, content, now)) == sv
    ensures var to := Step(c, sv, Disconnect(p));
            if p in sv.misbehaviour then Left(sv, to, p) && Marks(to, q) == Marks(sv, q) else to == sv
    ensures var to := Step(c, sv, Stored(h, served));
            h in to.chain && (served ==> h in to.blocks) && to.inFlight == sv.inFlight && to.sessions == sv.sessions
  {
    hide Left, Dismiss, Handle;
    DismissedHasLeft(sv, p);
  }

  /** Headers that do not connect still let overdue downloads expire, and then cost ten marks. */
  lemma UnconnectedHeaders(c: Config, sv: Service, p: Peer, hashes: seq<Hash>, previous: Hash, now: int)
    requires hashes != [] && previous !in sv.chain && (sv.chain != {} || previous != ZERO_HASH)
    ensures var to := HandleHeaders(c, sv, p, hashes, previous, now);
            Marks(to, p) == Marks(sv, p) + 10 &&
            (Marks(to, p) < c.banThreshold ==>
               to.sessions == sv.sessions && forall d :: d in to.inFlight <==> d in sv.inFlight && Timely(c, d, now)) &&
            (Marks(to, p) >= c.banThreshold ==>
               to.sessions == sv.sessions - {p} && forall d :: d in to.inFlight <==> d in sv.inFlight && Timely(c, d, now) && d.peer != p)
  {
    hide Dismiss, TimeOut, Pick, ProgressOf, CountFor, Expired;
    ExpiryIsExact(c, sv, now);
    var m := ExpiredMask(c, sv.inFlight, now);
    TimeOutKeepsMarks(sv.(inFlight := Pick(sv.inFlight, Flip(m))), Pick(sv.inFlight, m));
    PenaltyMeans(c, Expire(c, sv, now), p);
  }

  // ---- persistence ----------------------------------------------------------------------------

  /** With a store attached, every counter in memory is also stored. */
  ghost predicate Persisted(sv: Service)
  {
    sv.history.Some? ==> forall p | p in sv.progress :: p in sv.history.value && sv.history.value[p] == sv.progress[p]
  }

  lemma RecordPersists(sv: Service, p: Peer, now: Progress)
    requires Persisted(sv)
    ensures Persisted(Record(sv, p, now))
  {
  }

  lemma {:induction false} TimeOutPersists(sv: Service, ds: seq<Download>)
    requires Persisted(sv)
    ensures Persisted(TimeOut(sv, ds))
  {
    hide Persisted, Record;
    if ds != [] {
      TimeOutPersists(sv, ds[..|ds| - 1]);
      var before, p := TimeOut(sv, ds[..|ds| - 1]), ds[|ds| - 1].peer;
      var was := ProgressOf(before, p);
      RecordPersists(before, p, was.(timedOut := was.timedOut + 1));
    }
  }

  lemma {:induction false} RequestsPersist(c: Config, sv: Service, ws: seq<Wish>, now: int)
    requires Persisted(sv)
    ensures Persisted(RequestAll(c, sv, ws, now))
  {
    hide Select, ProgressOf, ShouldRequest;
    if ws != [] {
      RequestsPersist(c, sv, ws[..|ws| - 1], now);
    }
  }

  lemma DismissPersists(sv: Service, p: Peer)
    requires Persisted(sv)
    ensures Persisted(Dismiss(sv, p))
  {
    hide Pick, ProgressOf;
  }

  lemma ExpirePersists(c: Config, sv: Service, now: int)
    requires Persisted(sv)
    ensures Persisted(Expire(c, sv, now))
  {
    hide Pick, TimeOut;
    var m := ExpiredMask(c, sv.inFlight, now);
    TimeOutPersists(sv.(inFlight := Pick(sv.inFlight, Flip(m))), Pick(sv.inFlight, m));
  }

  /** Every event keeps what is stored up to date with what is counted. */
  lemma StepPersists(c: Config, sv: Service, e: Event)
    requires Persisted(sv)
    ensures Persisted(Step(c, sv, e))
  {
    hide Dismiss, Expire, RequestAll, Pick, ProgressOf, Persisted;
    match e
    case Connect(p, _) => SamePersisted(sv, OpenSession(sv, p));
    case Disconnect(p) => DismissPersists(sv, p);
    case Receive(p, admitted, content, now) =>
      SamePersisted(sv, WithSession(sv, p));
      if p in sv.sessions || admitted {
        HandlePersists(c, WithSession(sv, p), p, content, now);
      }
    case Expiry(now) => ExpirePersists(c, sv, now);
    case Retry(now) =>
      ExpirePersists(c, sv, now);
      RequestsPersist(c, Expire(c, sv, now), RetryWishes(Expired(c, sv, now)), now);
    case Stored(h, served) => SamePersisted(sv, Step(c, sv, e));
  }

  lemma SamePersisted(a: Service, b: Service)
    requires Persisted(a) && a.progress == b.progress && a.history == b.history
    ensures Persisted(b)
  {
  }

  lemma PenalizePersists(c: Config, sv: Service, p: Peer)
    requires Persisted(sv)
    ensures Persisted(Penalize(c, sv, p))
  {
    hide Dismiss;
    var marked := sv.(misbehaviour := sv.misbehaviour[p := Marks(sv, p) + 10]);
    DismissPersists(marked, p);
  }

  lemma HandlePersists(c: Config, sv: Service, p: Peer, content: Content, now: int)
    requires Persisted(sv) && p in sv.sessions
    ensures Persisted(Handle(c, sv, p, content, now))
  {
    hide Penalize, Expire, RequestAll, Pick, ProgressOf;
    match content
    case Rejected(learned) => PenalizePersists(c, Learn(sv, p, learned), p);
    case Headers(hashes, previous) =>
      var known := Learn(sv, p, set h | h in hashes);
      ExpirePersists(c, known, now);
      PenalizePersists(c, Expire(c, known, now), p);
      RequestsPersist(c, Expire(c, known, now), HeaderWishes(p, hashes), now);
    case BlockOf(h, outcome) => PenalizePersists(c, sv, p);
    case BadPayload => PenalizePersists(c, sv, p);
    case Harmless =>
  }

  /** After any run from a fresh service the stored counters are the counted ones. */
  lemma {:induction false} RunPersists(c: Config, sv: Service, es: seq<Event>)
    requires Persisted(sv)
    ensures Persisted(Run(c, sv, es))
  {
    hide Persisted, Step;
    if es != [] {
      RunPersists(c, sv, es[..|es| - 1]);
      StepPersists(c, Run(c, sv, es[..|es| - 1]), es[|es| - 1]);
    }
  }
}
