/**
 Block downloads: which peer is asked for which block, and the accounts kept about it.

 The state machine covers every event that touches a download. In every state it can reach,
 a download belongs to a peer with a session, no peer holds more than its cap, and for each
 peer the blocks requested are exactly those completed, timed out, failed or in flight.
 */
module Scheduler {
  import opened Bytes
  import opened Lists

  type Peer = seq<Byte>

  datatype RawConfig = Config(timeout: int, batch: int, cap: int, banThreshold: int)

  type Config = c: RawConfig | c.timeout >= 0 && c.batch > 0 && c.cap > 0 && c.banThreshold > 0
    witness Config(120, 16, 128, 100)

  datatype Download = Download(hash: Hash, peer: Peer, requestedAt: int)

  datatype Progress = Progress(requested: int, completed: int, timedOut: int, failed: int)
  {
    function Quality(): int
    {
      var score := failed * 100 + timedOut * 20 + requested - completed * 10;
      if score > 0 then score else 0
    }

    /** Requested blocks whose fate is not recorded yet. */
    function Open(): int
    {
      requested - completed - timedOut - failed
    }
  }

  const NO_PROGRESS := Progress(0, 0, 0, 0)

  /**
   `sessions` holds the block headers each connected peer announced, `inFlight` the
   downloads in the order they were requested, `blocks` and `chain` the blocks the service
   and the node's store have, `history` the persisted counters if a store is attached.
   */
  datatype Service = Service(
    sessions: map<Peer, set<Hash>>,
    inFlight: seq<Download>,
    blocks: set<Hash>,
    chain: set<Hash>,
    progress: map<Peer, Progress>,
    history: Option<map<Peer, Progress>>,
    misbehaviour: map<Peer, int>)

  // ---- accounts -------------------------------------------------------------------------------

  /** Counters in memory, else persisted ones, else zeros. */
  function ProgressOf(sv: Service, p: Peer): Progress
  {
    if p in sv.progress then sv.progress[p]
    else if sv.history.Some? && p in sv.history.value then sv.history.value[p]
    else NO_PROGRESS
  }

  function Record(sv: Service, p: Peer, now: Progress): Service
  {
    sv.(progress := sv.progress[p := now],
        history := if sv.history.Some? then Some(sv.history.value[p := now]) else None)
  }

  function CountFor(ds: seq<Download>, p: Peer): nat
  {
    if ds == [] then 0 else CountFor(ds[..|ds| - 1], p) + if ds[|ds| - 1].peer == p then 1 else 0
  }

  /** What the counters say is open, less what is in flight. */
  function Balance(sv: Service, p: Peer): int
  {
    ProgressOf(sv, p).Open() - CountFor(sv.inFlight, p)
  }

  lemma CountSnoc(ds: seq<Download>, d: Download, p: Peer)
    ensures CountFor(ds + [d], p) == CountFor(ds, p) + if d.peer == p then 1 else 0
  {
    assert (ds + [d])[..|ds|] == ds;
  }

  lemma CountNone(p: Peer)
    ensures CountFor([], p) == 0
  {
  }

  lemma {:induction false} CountSplit(ds: seq<Download>, m: seq<bool>, p: Peer)
    requires |m| == |ds|
    ensures CountFor(Pick(ds, m), p) + CountFor(Pick(ds, Flip(m)), p) == CountFor(ds, p)
  {
    hide CountFor, Pick;
    if ds == [] {
      PickNone(ds, m);
      PickNone(ds, Flip(m));
      CountNone(p);
    } else {
      var n := |ds| - 1;
      CountSplit(ds[..n], m[..n], p);
      assert ds == ds[..n] + [ds[n]] && m == m[..n] + [m[n]] && Flip(m) == Flip(m[..n]) + [!m[n]];
      PickSnoc(ds[..n], m[..n], ds[n], m[n]);
      PickSnoc(ds[..n], Flip(m[..n]), ds[n], !m[n]);
      CountSnoc(ds[..n], ds[n], p);
      CountSnoc(Pick(ds[..n], m[..n]), ds[n], p);
      CountSnoc(Pick(ds[..n], Flip(m[..n])), ds[n], p);
      assert Pick(ds[..n], m[..n]) + [] == Pick(ds[..n], m[..n]);
      assert Pick(ds[..n], Flip(m[..n])) + [] == Pick(ds[..n], Flip(m[..n]));
    }
  }

  // ---- choosing a peer ------------------------------------------------------------------------

  datatype Key = Key(load: int, quality: int, misbehaviour: int, other: bool, peer: Peer)

  function KeyOf(sv: Service, source: Peer, p: Peer): Key
  {
    Key(CountFor(sv.inFlight, p), ProgressOf(sv, p).Quality(),
        if p in sv.misbehaviour then sv.misbehaviour[p] else 0, p != source, p)
  }

  /** Tuple order: load, quality, misbehaviour, the source first, then the address. */
  predicate KeyLess(a: Key, b: Key)
  {
    a.load < b.load || (a.load == b.load && (
      a.quality < b.quality || (a.quality == b.quality && (
        a.misbehaviour < b.misbehaviour || (a.misbehaviour == b.misbehaviour && (
          (!a.other && b.other) || (a.other == b.other && Less(a.peer, b.peer))))))))
  }

  lemma KeyTotal(a: Key, b: Key)
    ensures KeyLess(a, b) || a == b || KeyLess(b, a)
    ensures !(KeyLess(a, b) && KeyLess(b, a))
  {
    LessTotal(a.peer, b.peer);
    LessIrreflexive(a.peer);
    if Less(a.peer, b.peer) && Less(b.peer, a.peer) {
      LessTransitive(a.peer, b.peer, a.peer);
    }
  }

  lemma KeyTransitive(a: Key, b: Key, c: Key)
    requires KeyLess(a, b) && KeyLess(b, c)
    ensures KeyLess(a, c)
  {
    if Less(a.peer, b.peer) && Less(b.peer, c.peer) {
      LessTransitive(a.peer, b.peer, c.peer);
    }
  }

  ghost predicate IsLeast(sv: Service, source: Peer, among: set<Peer>, p: Peer)
  {
    p in among && forall q | q in among && q != p :: KeyLess(KeyOf(sv, source, p), KeyOf(sv, source, q))
  }

  lemma {:induction false} LeastExists(sv: Service, source: Peer, among: set<Peer>) returns (p: Peer)
    requires among != {}
    ensures IsLeast(sv, source, among, p)
    decreases among
  {
    hide KeyOf, KeyLess;
    var x :| x in among;
    var rest := among - {x};
    assert among == rest + {x};
    if rest == {} {
      p := x;
    } else {
      p := LeastExists(sv, source, rest);
      p := Lesser(sv, source, rest, p, x);
    }
  }

  /** The lesser of the least so far and one more peer is the least of all. */
  lemma Lesser(sv: Service, source: Peer, rest: set<Peer>, best: Peer, x: Peer) returns (p: Peer)
    requires IsLeast(sv, source, rest, best) && x !in rest
    ensures IsLeast(sv, source, rest + {x}, p)
    ensures p == if KeyLess(KeyOf(sv, source, x), KeyOf(sv, source, best)) then x else best
  {
    KeysDiffer(sv, source, x, best);
    hide KeyOf, KeyLess;
    p := best;
    KeyTotal(KeyOf(sv, source, x), KeyOf(sv, source, best));
    if KeyLess(KeyOf(sv, source, x), KeyOf(sv, source, best)) {
      p := x;
      forall q | q in rest
        ensures KeyLess(KeyOf(sv, source, x), KeyOf(sv, source, q))
      {
        if q != best {
          KeyTransitive(KeyOf(sv, source, x), KeyOf(sv, source, best), KeyOf(sv, source, q));
        }
      }
    }
  }

  lemma KeysDiffer(sv: Service, source: Peer, a: Peer, b: Peer)
    requires a != b
    ensures KeyOf(sv, source, a) != KeyOf(sv, source, b)
  {
  }

  lemma LeastIsUnique(sv: Service, source: Peer, among: set<Peer>, a: Peer, b: Peer)
    requires IsLeast(sv, source, among, a) && IsLeast(sv, source, among, b)
    ensures a == b
  {
    KeyTotal(KeyOf(sv, source, a), KeyOf(sv, source, b));
  }

  ghost function Least(sv: Service, source: Peer, among: set<Peer>): (p: Peer)
    requires among != {}
    ensures IsLeast(sv, source, among, p)
  {
    assert exists p :: IsLeast(sv, source, among, p) by {
      var p := LeastExists(sv, source, among);
    }
    var p :| IsLeast(sv, source, among, p);
    p
  }

  /** Peers that announced the header, and the source itself if it is connected. */
  function Candidates(sv: Service, source: Peer, h: Hash, avoid: Option<Peer>): set<Peer>
  {
    var all := set a | a in sv.sessions && (a == source || h in sv.sessions[a]);
    var others := set a | a in all && avoid != Some(a);
    if others != {} then others else all
  }

  function BelowCap(c: Config, sv: Service, among: set<Peer>): set<Peer>
  {
    set a | a in among && CountFor(sv.inFlight, a) < c.cap
  }

  /** The peer to ask, or `None` where every candidate is at its cap. */
  ghost function Select(c: Config, sv: Service, source: Peer, h: Hash, avoid: Option<Peer>): Option<Peer>
  {
    var among := Candidates(sv, source, h, avoid);
    if among == {} then Some(source)
    else if BelowCap(c, sv, among) == {} then None
    else Some(Least(sv, source, BelowCap(c, sv, among)))
  }

  /** If the source is connected, the unchecked fallback is not reached. */
  lemma SelectIsSafe(c: Config, sv: Service, source: Peer, h: Hash, avoid: Option<Peer>)
    requires source in sv.sessions
    ensures Candidates(sv, source, h, avoid) != {}
    ensures var p := Select(c, sv, source, h, avoid);
            p.Some? ==> p.value in sv.sessions && CountFor(sv.inFlight, p.value) < c.cap
  {
    var all := set a | a in sv.sessions && (a == source || h in sv.sessions[a]);
    var among := Candidates(sv, source, h, avoid);
    assert source in all && among <= all;
  }

  /** Nobody who could have been asked instead has a smaller load. */
  lemma SelectBalancesLoad(c: Config, sv: Service, source: Peer, h: Hash, avoid: Option<Peer>, other: Peer)
    requires source in sv.sessions && Select(c, sv, source, h, avoid).Some?
    requires other in Candidates(sv, source, h, avoid) && CountFor(sv.inFlight, other) < c.cap
    ensures CountFor(sv.inFlight, Select(c, sv, source, h, avoid).value) <= CountFor(sv.inFlight, other)
  {
    hide CountFor;
    SelectIsSafe(c, sv, source, h, avoid);
    assert other in BelowCap(c, sv, Candidates(sv, source, h, avoid));
  }

  // ---- requesting -------------------------------------------------------------------------------

  datatype Wish = Wish(hash: Hash, source: Peer, avoid: Option<Peer>)

  predicate IsInFlight(ds: seq<Download>, h: Hash)
  {
    exists i | 0 <= i < |ds| :: ds[i].hash == h
  }

  predicate ShouldRequest(sv: Service, h: Hash)
  {
    h !in sv.blocks && !IsInFlight(sv.inFlight, h) && h !in sv.chain
  }

  function Began(sv: Service, h: Hash, p: Peer, now: int): Service
  {
    var was := ProgressOf(sv, p);
    Record(sv.(inFlight := sv.inFlight + [Download(h, p, now)]), p, was.(requested := was.requested + 1))
  }

  ghost function RequestOne(c: Config, sv: Service, w: Wish, now: int): Service
  {
    if !ShouldRequest(sv, w.hash) then sv else
    match Select(c, sv, w.source, w.hash, w.avoid)
    case None => sv
    case Some(p) => Began(sv, w.hash, p, now)
  }

  ghost function RequestAll(c: Config, sv: Service, ws: seq<Wish>, now: int): Service
  {
    if ws == [] then sv else RequestOne(c, RequestAll(c, sv, ws[..|ws| - 1], now), ws[|ws| - 1], now)
  }

  // ---- the other changes ---------------------------------------------------------------------------

  function ExpiredMask(c: Config, ds: seq<Download>, now: int): (m: seq<bool>)
    ensures |m| == |ds| && forall i | 0 <= i < |ds| :: m[i] == (now - ds[i].requestedAt >= c.timeout)
  {
    seq(|ds|, i requires 0 <= i < |ds| => now - ds[i].requestedAt >= c.timeout)
  }

  function Expired(c: Config, sv: Service, now: int): seq<Download>
  {
    Pick(sv.inFlight, ExpiredMask(c, sv.inFlight, now))
  }

  /** Counts a timeout for every download of the list. */
  function TimeOut(sv: Service, ds: seq<Download>): Service
  {
    if ds == [] then sv else
    var before := TimeOut(sv, ds[..|ds| - 1]);
    var p := ds[|ds| - 1].peer;
    var was := ProgressOf(before, p);
    Record(before, p, was.(timedOut := was.timedOut + 1))
  }

  function Expire(c: Config, sv: Service, now: int): Service
  {
    var m := ExpiredMask(c, sv.inFlight, now);
    TimeOut(sv.(inFlight := Pick(sv.inFlight, Flip(m))), Pick(sv.inFlight, m))
  }

  function PeerMask(ds: seq<Download>, p: Peer): (m: seq<bool>)
    ensures |m| == |ds| && forall i | 0 <= i < |ds| :: m[i] == (ds[i].peer == p)
  {
    seq(|ds|, i requires 0 <= i < |ds| => ds[i].peer == p)
  }

  /** Drops the downloads of a peer and counts them as failed. */
  function ClearPeer(sv: Service, p: Peer): Service
  {
    var m := PeerMask(sv.inFlight, p);
    var gone := |Pick(sv.inFlight, m)|;
    var left := sv.(inFlight := Pick(sv.inFlight, Flip(m)));
    if gone == 0 then left else
    var was := ProgressOf(left, p);
    Record(left, p, was.(failed := was.failed + gone))
  }

  function Dismiss(sv: Service, p: Peer): Service
  {
    ClearPeer(sv.(sessions := sv.sessions - {p}), p)
  }

  /** Ten points; at the threshold the peer is banned and dismissed. */
  function Penalize(c: Config, sv: Service, p: Peer): Service
  {
    var score := (if p in sv.misbehaviour then sv.misbehaviour[p] else 0) + 10;
    var marked := sv.(misbehaviour := sv.misbehaviour[p := score]);
    if score >= c.banThreshold then Dismiss(marked, p) else marked
  }

  function HashMask(ds: seq<Download>, h: Hash): (m: seq<bool>)
    ensures |m| == |ds| && forall i | 0 <= i < |ds| :: m[i] == (ds[i].hash == h)
  {
    seq(|ds|, i requires 0 <= i < |ds| => ds[i].hash == h)
  }

  /** A block was imported: its download, if any, is complete. */
  function Arrived(sv: Service, h: Hash): Service
  {
    var m := HashMask(sv.inFlight, h);
    var done := Pick(sv.inFlight, m);
    var left := sv.(inFlight := Pick(sv.inFlight, Flip(m)), blocks := sv.blocks + {h}, chain := sv.chain + {h});
    if done == [] then left else
    var was := ProgressOf(left, done[0].peer);
    Record(left, done[0].peer, was.(completed := was.completed + 1))
  }

  // ---- events ----------------------------------------------------------------------------------------

  datatype Outcome = Imported | Refused | Raised

  /** What a message turns out to be once the session has looked at it. */
  datatype Content =
    | Rejected(learned: set<Hash>)
    | Headers(hashes: seq<Hash>, previous: Hash)
    | BlockOf(hash: Hash, outcome: Outcome)
    | BadPayload
    | Harmless

  datatype Event =
    | Connect(peer: Peer, admitted: bool)
    | Disconnect(peer: Peer)
    | Receive(peer: Peer, admitted: bool, content: Content, now: int)
    | Expiry(now: int)
    | Retry(now: int)
    | Stored(hash: Hash, served: bool)

  function OpenSession(sv: Service, p: Peer): Service
  {
    sv.(sessions := sv.sessions[p := {}],
        misbehaviour := if p in sv.misbehaviour then sv.misbehaviour else sv.misbehaviour[p := 0])
  }

  /** The session of a sender that has none is opened first. */
  function WithSession(sv: Service, p: Peer): Service
  {
    if p in sv.sessions then sv else OpenSession(sv, p)
  }

  function Learn(sv: Service, p: Peer, hashes: set<Hash>): Service
    requires p in sv.sessions
  {
    sv.(sessions := sv.sessions[p := sv.sessions[p] + hashes])
  }

  function HeaderWishes(p: Peer, hashes: seq<Hash>): (ws: seq<Wish>)
    ensures |ws| == |hashes| && forall i | 0 <= i < |ws| :: ws[i] == Wish(hashes[i], p, None)
  {
    seq(|hashes|, i requires 0 <= i < |hashes| => Wish(hashes[i], p, None))
  }

  function RetryWishes(ds: seq<Download>): (ws: seq<Wish>)
    ensures |ws| == |ds| && forall i | 0 <= i < |ws| :: ws[i] == Wish(ds[i].hash, ds[i].peer, Some(ds[i].peer))
  {
    seq(|ds|, i requires 0 <= i < |ds| => Wish(ds[i].hash, ds[i].peer, Some(ds[i].peer)))
  }

  /** The block is stored; the tip of an empty store is the zero hash. */
  predicate Connects(sv: Service, previous: Hash)
  {
    previous in sv.chain || (sv.chain == {} && previous == ZERO_HASH)
  }

  /** Headers with these hashes, the first of which names `previous` as its parent. */
  ghost function HandleHeaders(c: Config, sv: Service, p: Peer, hashes: seq<Hash>, previous: Hash, now: int): Service
  {
    var current := Expire(c, sv, now);
    if hashes != [] && !Connects(sv, previous) then Penalize(c, current, p)
    else RequestAll(c, current, HeaderWishes(p, hashes), now)
  }

  ghost function HandleRetry(c: Config, sv: Service, now: int): Service
  {
    RequestAll(c, Expire(c, sv, now), RetryWishes(Expired(c, sv, now)), now)
  }

  ghost function Handle(c: Config, sv: Service, p: Peer, content: Content, now: int): Service
    requires p in sv.sessions
  {
    match content
    case Rejected(learned) => Penalize(c, Learn(sv, p, learned), p)
    case Headers(hashes, previous) =>
      HandleHeaders(c, Learn(sv, p, set h | h in hashes), p, hashes, previous, now)
    case BlockOf(h, outcome) =>
      if h in sv.blocks || outcome.Raised? then sv
      else if outcome.Refused? then Penalize(c, sv, p)
      else Arrived(sv, h)
    case BadPayload => Penalize(c, sv, p)
    case Harmless => sv
  }

  ghost function Step(c: Config, sv: Service, e: Event): Service
  {
    match e
    case Connect(p, admitted) => if admitted then OpenSession(sv, p) else sv
    case Disconnect(p) => if p in sv.misbehaviour then Dismiss(sv, p) else sv
    case Receive(p, admitted, content, now) =>
      if p !in sv.sessions && !admitted then sv else Handle(c, WithSession(sv, p), p, content, now)
    case Expiry(now) => Expire(c, sv, now)
    case Retry(now) => HandleRetry(c, sv, now)
    case Stored(h, served) => sv.(chain := sv.chain + {h}, blocks := if served then sv.blocks + {h} else sv.blocks)
  }

  // ---- the invariant -----------------------------------------------------------------------------------

  ghost predicate Orderly(c: Config, sv: Service)
  {
    (forall i, j | 0 <= i < j < |sv.inFlight| :: sv.inFlight[i].hash != sv.inFlight[j].hash) &&
    (forall i | 0 <= i < |sv.inFlight| :: sv.inFlight[i].peer in sv.sessions) &&
    (forall p :: CountFor(sv.inFlight, p) <= c.cap)
  }

  /** Same balance for every peer. */
  ghost predicate Balanced(a: Service, b: Service)
  {
    forall p :: Balance(a, p) == Balance(b, p)
  }

  lemma RecordIs(sv: Service, p: Peer, now: Progress, q: Peer)
    ensures ProgressOf(Record(sv, p, now), q) == if q == p then now else ProgressOf(sv, q)
  {
  }

  lemma OrderlyAppend(c: Config, sv: Service, d: Download)
    requires Orderly(c, sv) && d.peer in sv.sessions && CountFor(sv.inFlight, d.peer) < c.cap && !IsInFlight(sv.inFlight, d.hash)
    ensures Orderly(c, sv.(inFlight := sv.inFlight + [d]))
  {
    hide CountFor;
    forall q
      ensures CountFor(sv.inFlight + [d], q) <= c.cap
    {
      CountSnoc(sv.inFlight, d, q);
      assert CountFor(sv.inFlight, q) <= c.cap;
    }
  }

  lemma BeganOk(c: Config, sv: Service, h: Hash, p: Peer, now: int)
    requires Orderly(c, sv) && p in sv.sessions && CountFor(sv.inFlight, p) < c.cap && !IsInFlight(sv.inFlight, h)
    ensures Orderly(c, Began(sv, h, p, now)) && Balanced(sv, Began(sv, h, p, now))
    ensures Began(sv, h, p, now).sessions == sv.sessions
  {
    hide CountFor, IsInFlight, ProgressOf, Orderly;
    var d := Download(h, p, now);
    OrderlyAppend(c, sv, d);
    var was, mid := ProgressOf(sv, p), sv.(inFlight := sv.inFlight + [d]);
    SameOrder(c, mid, Began(sv, h, p, now));
    forall q
      ensures Balance(sv, q) == Balance(Began(sv, h, p, now), q)
    {
      CountSnoc(sv.inFlight, d, q);
      RecordIs(mid, p, was.(requested := was.requested + 1), q);
      SameProgress(sv, mid, q);
    }
  }

  lemma SameProgress(a: Service, b: Service, p: Peer)
    requires a.progress == b.progress && a.history == b.history
    ensures ProgressOf(a, p) == ProgressOf(b, p)
  {
  }

  lemma SameOrder(c: Config, a: Service, b: Service)
    requires Orderly(c, a) && a.inFlight == b.inFlight && a.sessions.Keys <= b.sessions.Keys
    ensures Orderly(c, b)
  {
    hide CountFor;
  }

  lemma RequestOneOk(c: Config, sv: Service, w: Wish, now: int)
    requires Orderly(c, sv) && w.source in sv.sessions
    ensures Orderly(c, RequestOne(c, sv, w, now)) && Balanced(sv, RequestOne(c, sv, w, now))
    ensures RequestOne(c, sv, w, now).sessions == sv.sessions
  {
    hide Orderly, Balance, Began, Select;
    SelectIsSafe(c, sv, w.source, w.hash, w.avoid);
    if ShouldRequest(sv, w.hash) {
      match Select(c, sv, w.source, w.hash, w.avoid)
      case None =>
      case Some(p) =>
        BeganOk(c, sv, w.hash, p, now);
    }
  }

  lemma {:induction false} RequestAllOk(c: Config, sv: Service, ws: seq<Wish>, now: int)
    requires Orderly(c, sv) && forall i | 0 <= i < |ws| :: ws[i].source in sv.sessions
    ensures Orderly(c, RequestAll(c, sv, ws, now)) && Balanced(sv, RequestAll(c, sv, ws, now))
    ensures RequestAll(c, sv, ws, now).sessions == sv.sessions
  {
    hide Orderly, Balance, RequestOne;
    if ws != [] {
      RequestAllOk(c, sv, ws[..|ws| - 1], now);
      RequestOneOk(c, RequestAll(c, sv, ws[..|ws| - 1], now), ws[|ws| - 1], now);
    }
  }

  /** Dropping downloads keeps the rest in order. */
  lemma PickOrderly(c: Config, sv: Service, keep: seq<bool>)
    requires Orderly(c, sv) && |keep| == |sv.inFlight|
    ensures Orderly(c, sv.(inFlight := Pick(sv.inFlight, keep)))
  {
    hide CountFor, Pick;
    var ds := sv.inFlight;
    PickAt(ds, keep);
    forall i, j | 0 <= i < j < Count(keep)
      ensures Place(keep, i) < Place(keep, j)
    {
      PlaceIncreases(keep, i, j);
    }
    forall p
      ensures CountFor(Pick(ds, keep), p) <= c.cap
    {
      CountSplit(ds, keep, p);
    }
  }

  lemma {:induction false} TimeOutOk(sv: Service, ds: seq<Download>)
    ensures TimeOut(sv, ds).sessions == sv.sessions && TimeOut(sv, ds).inFlight == sv.inFlight
    ensures TimeOut(sv, ds).blocks == sv.blocks && TimeOut(sv, ds).chain == sv.chain
    ensures forall p :: ProgressOf(TimeOut(sv, ds), p).Open() == ProgressOf(sv, p).Open() - CountFor(ds, p)
  {
    hide ProgressOf, CountFor;
    if ds == [] {
      forall p
        ensures CountFor(ds, p) == 0
      {
        CountSame(ds, p, p);
      }
    } else {
      var init, d := ds[..|ds| - 1], ds[|ds| - 1];
      TimeOutOk(sv, init);
      var before := TimeOut(sv, init);
      var was := ProgressOf(before, d.peer);
      assert ds == init + [d];
      forall p
        ensures ProgressOf(TimeOut(sv, ds), p).Open() == ProgressOf(sv, p).Open() - CountFor(ds, p)
      {
        RecordIs(before, d.peer, was.(timedOut := was.timedOut + 1), p);
        CountSnoc(init, d, p);
      }
    }
  }

  lemma ExpireOk(c: Config, sv: Service, now: int)
    requires Orderly(c, sv)
    ensures Orderly(c, Expire(c, sv, now)) && Balanced(sv, Expire(c, sv, now))
    ensures Expire(c, sv, now).sessions == sv.sessions
  {
    hide CountFor, Pick, TimeOut, ProgressOf, Orderly;
    var m := ExpiredMask(c, sv.inFlight, now);
    PickOrderly(c, sv, Flip(m));
    var left := sv.(inFlight := Pick(sv.inFlight, Flip(m)));
    TimeOutOk(left, Pick(sv.inFlight, m));
    SameOrder(c, left, Expire(c, sv, now));
    forall p
      ensures Balance(sv, p) == Balance(Expire(c, sv, now), p)
    {
      CountSplit(sv.inFlight, m, p);
      SameProgress(sv, left, p);
      assert ProgressOf(Expire(c, sv, now), p).Open() == ProgressOf(left, p).Open() - CountFor(Pick(sv.inFlight, m), p);
    }
  }

  lemma {:induction false} CountSame(ds: seq<Download>, p: Peer, q: Peer)
    requires forall i | 0 <= i < |ds| :: ds[i].peer == p
    ensures CountFor(ds, q) == if p == q then |ds| else 0
  {
    if ds != [] {
      CountSame(ds[..|ds| - 1], p, q);
    }
  }

  /** What holds of all marked downloads holds of the ones picked. */
  lemma PickSatisfies(ds: seq<Download>, m: seq<bool>, f: Download -> bool)
    requires |m| == |ds| && forall i | 0 <= i < |ds| :: m[i] ==> f(ds[i])
    ensures forall i | 0 <= i < |Pick(ds, m)| :: f(Pick(ds, m)[i])
  {
    hide Pick;
    PickAt(ds, m);
  }

  /** A peer that goes takes its downloads with it, and every one is accounted for. */
  lemma DismissOk(c: Config, sv: Service, p: Peer)
    requires Orderly(c, sv)
    ensures Orderly(c, Dismiss(sv, p)) && Balanced(sv, Dismiss(sv, p))
  {
    hide CountFor, Pick, ProgressOf;
    var ds, m := sv.inFlight, PeerMask(sv.inFlight, p);
    var gone, kept := Pick(ds, m), Pick(ds, Flip(m));
    PickOrderly(c, sv, Flip(m));
    PickSatisfies(ds, m, (d: Download) => d.peer == p);
    PickSatisfies(ds, Flip(m), (d: Download) => d.peer != p && d.peer in sv.sessions);
    var left := sv.(sessions := sv.sessions - {p}, inFlight := kept);
    assert Orderly(c, left);
    SameOrder(c, left, Dismiss(sv, p));
    forall q
      ensures Balance(sv, q) == Balance(Dismiss(sv, p), q)
    {
      CountSame(gone, p, q);
      CountSplit(ds, m, q);
      SameProgress(sv, left, q);
      var was := ProgressOf(left, p);
      RecordIs(left, p, was.(failed := was.failed + |gone|), q);
    }
  }

  lemma PenalizeOk(c: Config, sv: Service, p: Peer)
    requires Orderly(c, sv)
    ensures Orderly(c, Penalize(c, sv, p)) && Balanced(sv, Penalize(c, sv, p))
  {
    hide CountFor, Dismiss, ProgressOf;
    var score := (if p in sv.misbehaviour then sv.misbehaviour[p] else 0) + 10;
    var marked := sv.(misbehaviour := sv.misbehaviour[p := score]);
    SameAccounts(sv, marked);
    DismissOk(c, marked, p);
  }

  lemma SameAccounts(a: Service, b: Service)
    requires a.inFlight == b.inFlight && a.progress == b.progress && a.history == b.history
    ensures Balanced(a, b)
  {
    hide ProgressOf, CountFor;
    forall p
      ensures Balance(a, p) == Balance(b, p)
    {
      SameProgress(a, b, p);
    }
  }

  lemma ArrivedOk(c: Config, sv: Service, h: Hash)
    requires Orderly(c, sv)
    ensures Orderly(c, Arrived(sv, h)) && Balanced(sv, Arrived(sv, h))
  {
    hide CountFor, Pick, ProgressOf;
    var ds, m := sv.inFlight, HashMask(sv.inFlight, h);
    var done := Pick(ds, m);
    PickOrderly(c, sv, Flip(m));
    AtMostOne(ds, m, h);
    var left := sv.(inFlight := Pick(ds, Flip(m)), blocks := sv.blocks + {h}, chain := sv.chain + {h});
    SameOrder(c, sv.(inFlight := Pick(ds, Flip(m))), Arrived(sv, h));
    forall q
      ensures Balance(sv, q) == Balance(Arrived(sv, h), q)
    {
      CountSplit(ds, m, q);
      SameProgress(sv, left, q);
      if done == [] {
        CountNone(q);
      } else {
        var was := ProgressOf(left, done[0].peer);
        CountSame(done, done[0].peer, q);
        RecordIs(left, done[0].peer, was.(completed := was.completed + 1), q);
      }
    }
  }

  lemma AtMostOne(ds: seq<Download>, m: seq<bool>, h: Hash)
    requires |m| == |ds| && m == HashMask(ds, h)
    requires forall i, j | 0 <= i < j < |ds| :: ds[i].hash != ds[j].hash
    ensures |Pick(ds, m)| <= 1
  {
    hide Pick;
    PickAt(ds, m);
    if Count(m) > 1 {
      PlaceIncreases(m, 0, 1);
    }
  }

  lemma SessionOpens(c: Config, sv: Service, p: Peer)
    requires Orderly(c, sv)
    ensures Orderly(c, OpenSession(sv, p)) && Balanced(sv, OpenSession(sv, p))
  {
    hide CountFor;
    SameAccounts(sv, OpenSession(sv, p));
  }

  lemma BalancedTrans(a: Service, b: Service, d: Service)
    requires Balanced(a, b) && Balanced(b, d)
    ensures Balanced(a, d)
  {
    hide Balance;
    forall p
      ensures Balance(a, p) == Balance(d, p)
    {
      assert Balance(a, p) == Balance(b, p);
    }
  }

  lemma RetryOk(c: Config, sv: Service, now: int)
    requires Orderly(c, sv)
    ensures Orderly(c, HandleRetry(c, sv, now)) && Balanced(sv, HandleRetry(c, sv, now))
  {
    hide Balanced, Expire, CountFor, Pick, RequestAll;
    ExpireOk(c, sv, now);
    var ds := Expired(c, sv, now);
    PickSatisfies(sv.inFlight, ExpiredMask(c, sv.inFlight, now), (d: Download) => d.peer in sv.sessions);
    RequestAllOk(c, Expire(c, sv, now), RetryWishes(ds), now);
    BalancedTrans(sv, Expire(c, sv, now), HandleRetry(c, sv, now));
  }

  lemma HeadersOk(c: Config, sv: Service, p: Peer, hashes: seq<Hash>, previous: Hash, now: int)
    requires Orderly(c, sv) && p in sv.sessions
    ensures Orderly(c, HandleHeaders(c, sv, p, hashes, previous, now))
    ensures Balanced(sv, HandleHeaders(c, sv, p, hashes, previous, now))
  {
    hide Orderly, Balanced, Expire, Penalize, RequestAll;
    ExpireOk(c, sv, now);
    var current := Expire(c, sv, now);
    PenalizeOk(c, current, p);
    RequestAllOk(c, current, HeaderWishes(p, hashes), now);
    BalancedTrans(sv, current, HandleHeaders(c, sv, p, hashes, previous, now));
  }

  lemma LearnOk(c: Config, sv: Service, p: Peer, hashes: set<Hash>)
    requires Orderly(c, sv) && p in sv.sessions
    ensures Orderly(c, Learn(sv, p, hashes)) && Balanced(sv, Learn(sv, p, hashes))
  {
    hide CountFor;
    SameAccounts(sv, Learn(sv, p, hashes));
  }

  lemma HandleOk(c: Config, sv: Service, p: Peer, content: Content, now: int)
    requires Orderly(c, sv) && p in sv.sessions
    ensures Orderly(c, Handle(c, sv, p, content, now)) && Balanced(sv, Handle(c, sv, p, content, now))
  {
    hide Orderly, Balanced, Penalize, HandleHeaders, Arrived;
    Reflexive(sv);
    match content
    case Rejected(learned) =>
      LearnOk(c, sv, p, learned);
      PenalizeOk(c, Learn(sv, p, learned), p);
      BalancedTrans(sv, Learn(sv, p, learned), Handle(c, sv, p, content, now));
    case Headers(hashes, previous) =>
      var known := set h | h in hashes;
      LearnOk(c, sv, p, known);
      HeadersOk(c, Learn(sv, p, known), p, hashes, previous, now);
      BalancedTrans(sv, Learn(sv, p, known), Handle(c, sv, p, content, now));
    case BlockOf(h, outcome) =>
      PenalizeOk(c, sv, p);
      ArrivedOk(c, sv, h);
    case BadPayload =>
      PenalizeOk(c, sv, p);
    case Harmless =>
  }

  lemma Reflexive(sv: Service)
    ensures Balanced(sv, sv)
  {
  }

  /** Every event keeps the downloads in order and every peer's balance as it was. */
  lemma StepOk(c: Config, sv: Service, e: Event)
    requires Orderly(c, sv)
    ensures Orderly(c, Step(c, sv, e)) && Balanced(sv, Step(c, sv, e))
  {
    hide Balanced, Dismiss, Handle, Expire, HandleRetry, OpenSession, Balance, CountFor;
    Reflexive(sv);
    match e
    case Connect(p, _) =>
      SessionOpens(c, sv, p);
    case Disconnect(p) =>
      DismissOk(c, sv, p);
    case Receive(p, admitted, content, now) =>
      SessionOpens(c, sv, p);
      SessionIsOpen(sv, p);
      if p in sv.sessions || admitted {
        HandleOk(c, WithSession(sv, p), p, content, now);
        BalancedTrans(sv, WithSession(sv, p), Step(c, sv, e));
      }
    case Expiry(now) =>
      ExpireOk(c, sv, now);
    case Retry(now) =>
      RetryOk(c, sv, now);
    case Stored(h, served) =>
      SameAccounts(sv, Step(c, sv, e));
  }

  lemma SessionIsOpen(sv: Service, p: Peer)
    ensures p in OpenSession(sv, p).sessions
  {
  }

  ghost function Run(c: Config, sv: Service, es: seq<Event>): Service
  {
    if es == [] then sv else Step(c, Run(c, sv, es[..|es| - 1]), es[|es| - 1])
  }

  /**
   After any run of events every download belongs to a connected peer, no peer is over its
   cap, and requested - completed - timed out - failed - in flight is what it was at the
   start, for every peer.
   */
  lemma {:induction false} RunOk(c: Config, sv: Service, es: seq<Event>)
    requires Orderly(c, sv)
    ensures Orderly(c, Run(c, sv, es)) && Balanced(sv, Run(c, sv, es))
  {
    hide Orderly, Balanced, Step;
    Reflexive(sv);
    if es != [] {
      var before := Run(c, sv, es[..|es| - 1]);
      RunOk(c, sv, es[..|es| - 1]);
      StepOk(c, before, es[|es| - 1]);
      BalancedTrans(sv, before, Run(c, sv, es));
    }
  }

  function FreshService(history: Option<map<Peer, Progress>>): Service
  {
    Service(map[], [], {}, {}, map[], history, map[])
  }

  /** A peer without stored history never owes a block: its open requests are in flight. */
  lemma NewPeersBalanceToZero(c: Config, history: Option<map<Peer, Progress>>, es: seq<Event>, p: Peer)
    requires history.None? || p !in history.value
    ensures ProgressOf(Run(c, FreshService(history), es), p).Open() == CountFor(Run(c, FreshService(history), es).inFlight, p)
    ensures CountFor(Run(c, FreshService(history), es).inFlight, p) <= c.cap
  {
    hide Run;
    var sv := FreshService(history);
    RunOk(c, sv, es);
    assert Balance(sv, p) == Balance(Run(c, sv, es), p);
  }
}
