/** The subscription-churn detector (`churn.ts`): lazily pruned per-peer bookkeeping that
    must answer as the full history of events would. */
module Churn {
  import opened Protocol

  const WINDOW_MS: int := 30 * 60_000
  const DELETION_THRESHOLD: nat := 3
  const MIN_PILED_SESSIONS: nat := 2
  const SESSION_THRESHOLD: nat := 4

  datatype Peer = Peer(fabric: nat, node: string)

  /** `at` is the clock the detector read; a clean removal reads none. */
  datatype Event =
    | Opened(session: int, peer: Peer)
    | Closed(session: int)
    | Removed(peer: Peer, terminated: bool, at: int)
    | Asked(at: int, polled: bool)
    | Broke

  datatype Report = Report(liveSessions: nat, invalidDeletions: nat, since: int)

  datatype Verdict = Verdict(checked: bool, active: bool, peers: map<Peer, Report>)

  /** What makes one verdict a different situation from another: not the counts. */
  datatype Situation = Situation(checked: bool, active: bool, peers: set<Peer>)

  function SituationOf(v: Verdict): Situation { Situation(v.checked, v.active, v.peers.Keys) }

  // --- the full history ----------------------------------------------------

  function Init(h: seq<Event>): seq<Event>
    requires h != []
  {
    h[..|h| - 1]
  }

  function Final(h: seq<Event>): Event
    requires h != []
  {
    h[|h| - 1]
  }

  /** Every open session and whose it is. */
  function OpenMap(h: seq<Event>): map<int, Peer> {
    if h == [] then map[]
    else
      match Final(h)
      case Opened(s, p) => OpenMap(Init(h))[s := p]
      case Closed(s) => OpenMap(Init(h)) - {s}
      case _ => OpenMap(Init(h))
  }

  function OpenSet(h: seq<Event>, p: Peer): set<int> { set s | s in OpenMap(h) && OpenMap(h)[s] == p }

  /** When each terminated removal of this peer landed. */
  function Times(h: seq<Event>, p: Peer): seq<int> {
    if h == [] then []
    else if Final(h).Removed? && Final(h).terminated && Final(h).peer == p then Times(Init(h), p) + [Final(h).at]
    else Times(Init(h), p)
  }

  predicate Timed(e: Event) { (e.Removed? && e.terminated) || e.Asked? }

  /** The last clock reading. */
  function Last(h: seq<Event>): Option<int> {
    if h == [] then None else if Timed(Final(h)) then Some(Final(h).at) else Last(Init(h))
  }

  /** The clock never steps back and no session id is reused while it is open. */
  predicate Orderly(h: seq<Event>) {
    h != [] ==>
      && Orderly(Init(h))
      && (Final(h).Opened? ==> Final(h).session !in OpenMap(Init(h)))
      && (Timed(Final(h)) && Last(Init(h)).Some? ==> Last(Init(h)).value <= Final(h).at)
  }

  /** The times still inside a window that opens just after `cutoff`. */
  function Kept(ts: seq<int>, cutoff: int): seq<int> {
    if ts == [] then []
    else Kept(ts[..|ts| - 1], cutoff) + if ts[|ts| - 1] > cutoff then [ts[|ts| - 1]] else []
  }

  predicate OverThreshold(sessions: nat, deletions: nat) {
    sessions >= SESSION_THRESHOLD || (deletions >= DELETION_THRESHOLD && sessions >= MIN_PILED_SESSIONS)
  }

  /** Over threshold at `now`, by everything that ever happened. */
  predicate Over(h: seq<Event>, p: Peer, now: int) {
    OverThreshold(|OpenSet(h, p)|, |Kept(Times(h, p), now - WINDOW_MS)|)
  }

  /** When the current unbroken streak of over-threshold verdicts began. */
  function Since(h: seq<Event>, p: Peer): Option<int> {
    if h == [] then None
    else if Final(h).Asked? then
      if !Over(Init(h), p, Final(h).at) then None
      else if Since(Init(h), p).Some? then Since(Init(h), p) else Some(Final(h).at)
    else Since(Init(h), p)
  }

  function Named(h: seq<Event>): set<Peer> {
    if h == [] then {}
    else
      match Final(h)
      case Opened(_, p) => Named(Init(h)) + {p}
      case Removed(p, _, _) => Named(Init(h)) + {p}
      case _ => Named(Init(h))
  }

  predicate Broken(h: seq<Event>) { Broke in h }

  function ReportOf(h: seq<Event>, p: Peer, now: int): Report {
    Report(|OpenSet(h, p)|, |Kept(Times(h, p), now - WINDOW_MS)|, if Since(h, p).Some? then Since(h, p).value else now)
  }

  function VerdictOf(h: seq<Event>, now: int): Verdict {
    if Broken(h) then Verdict(false, false, map[])
    else
      var peers := map p | p in Named(h) && Over(h, p, now) :: ReportOf(h, p, now);
      Verdict(true, peers != map[], peers)
  }

  /** The situation at the last poll; a fresh detector is in the healthy one. */
  function Polled(h: seq<Event>): Situation {
    if h == [] then Situation(true, false, {})
    else if Final(h).Asked? && Final(h).polled then SituationOf(VerdictOf(Init(h), Final(h).at))
    else Polled(Init(h))
  }

  // --- about the history ---------------------------------------------------

  lemma {:induction false} NothingUnnamed(h: seq<Event>, p: Peer)
    requires p !in Named(h)
    ensures (forall s :: s in OpenMap(h) ==> OpenMap(h)[s] != p) && Times(h, p) == []
  {
    if h != [] { NothingUnnamed(Init(h), p); }
  }

  /** Without a break a verdict lists exactly the peers the full history puts over threshold. */
  lemma VerdictListsExactly(h: seq<Event>, now: int, p: Peer)
    requires !Broken(h)
    ensures p in VerdictOf(h, now).peers <==> Over(h, p, now)
  {
    if p !in Named(h) {
      NothingUnnamed(h, p);
      var open := OpenMap(h);
      assert forall s :: s in open ==> open[s] != p;
      assert (set s | s in open && open[s] == p) == {};
    }
  }

  // --- the verdict, event by event -----------------------------------------

  /** Event `i` opened a session of `p` that nothing has closed or opened again since. */
  predicate StillOpen(h: seq<Event>, i: nat, p: Peer)
    requires i < |h|
  {
    && h[i].Opened? && h[i].peer == p
    && forall j :: i < j < |h| ==> h[j] != Closed(h[i].session) && !(h[j].Opened? && h[j].session == h[i].session)
  }

  function OpenSessions(h: seq<Event>, p: Peer): set<int> {
    set i: nat | i < |h| && StillOpen(h, i, p) :: h[i].session
  }

  /** The terminated removals of `p` that landed less than thirty minutes before `now`. */
  function FreshRemovals(h: seq<Event>, p: Peer, now: int): set<nat> {
    set i: nat | i < |h| && h[i].Removed? && h[i].terminated && h[i].peer == p && now - 1_800_000 < h[i].at
  }

  lemma StillOpenLater(h: seq<Event>, i: nat, p: Peer)
    requires h != [] && i < |h| - 1
    ensures StillOpen(h, i, p) <==>
            StillOpen(Init(h), i, p) && Final(h) != Closed(h[i].session)
            && !(Final(h).Opened? && Final(h).session == h[i].session)
  {
    assert forall j :: 0 <= j < |h| - 1 ==> Init(h)[j] == h[j];
  }

  lemma {:induction false} OpenSessionsAre(h: seq<Event>, p: Peer)
    ensures OpenSessions(h, p) == OpenSet(h, p)
    decreases |h|
  {
    if h != [] {
      var init, e := Init(h), Final(h);
      OpenSessionsAre(init, p);
      forall s | s in OpenSessions(h, p) ensures s in OpenSet(h, p) {
        var i: nat :| i < |h| && StillOpen(h, i, p) && h[i].session == s;
        if i < |h| - 1 {
          StillOpenLater(h, i, p);
          assert s in OpenSessions(init, p) && s in OpenSet(init, p);
        }
      }
      forall s | s in OpenSet(h, p) ensures s in OpenSessions(h, p) {
        if e.Opened? && e.session == s {
          assert StillOpen(h, |h| - 1, p);
        } else {
          assert s in OpenSet(init, p) && s in OpenSessions(init, p);
          var i: nat :| i < |init| && StillOpen(init, i, p) && init[i].session == s;
          StillOpenLater(h, i, p);
          assert h[i].session == s;
        }
      }
    }
  }

  lemma {:induction false} FreshRemovalsCount(h: seq<Event>, p: Peer, now: int)
    ensures |FreshRemovals(h, p, now)| == |Kept(Times(h, p), now - WINDOW_MS)|
    decreases |h|
  {
    if h == [] {
      assert FreshRemovals(h, p, now) == {};
    } else {
      var init, last := Init(h), |h| - 1;
      FreshRemovalsCount(init, p, now);
      assert forall j :: 0 <= j < last ==> init[j] == h[j];
      if Final(h).Removed? && Final(h).terminated && Final(h).peer == p {
        KeptMore(Times(init, p), Final(h).at, now - WINDOW_MS);
        if now - 1_800_000 < Final(h).at {
          assert FreshRemovals(h, p, now) == FreshRemovals(init, p, now) + {last};
        } else {
          assert FreshRemovals(h, p, now) == FreshRemovals(init, p, now);
        }
      } else {
        assert FreshRemovals(h, p, now) == FreshRemovals(init, p, now);
      }
    }
  }

  /** A verdict lists a peer exactly if four of its sessions are open, or two are and three of its
      subscriptions were terminated within the last thirty minutes, and reports those two counts;
      broken, it lists nobody and says it did not check. */
  lemma ListedExactly(h: seq<Event>, now: int, p: Peer)
    ensures var v := VerdictOf(h, now);
            && (v.checked <==> Broke !in h) && (v.active <==> v.peers != map[])
            && (p in v.peers <==>
                  && Broke !in h
                  && (|OpenSessions(h, p)| >= 4
                      || (|OpenSessions(h, p)| >= 2 && |FreshRemovals(h, p, now)| >= 3)))
            && (p in v.peers ==>
                  && v.peers[p].liveSessions == |OpenSessions(h, p)|
                  && v.peers[p].invalidDeletions == |FreshRemovals(h, p, now)|)
  {
    if !Broken(h) { VerdictListsExactly(h, now, p); }
    OpenSessionsAre(h, p);
    FreshRemovalsCount(h, p, now);
  }

  /** The time reported of a listed peer is when the streak began that this very question belongs
      to. */
  lemma SinceIsReported(h: seq<Event>, now: int, polled: bool, p: Peer)
    requires p in VerdictOf(h, now).peers
    ensures exists i: nat ::
              StreakFrom(h + [Asked(now, polled)], i, p)
              && (h + [Asked(now, polled)])[i].at == VerdictOf(h, now).peers[p].since
  {
    var asked := h + [Asked(now, polled)];
    assert Init(asked) == h;
    assert Since(asked, p) == Some(VerdictOf(h, now).peers[p].since);
    SinceIsStreakStart(asked, p, VerdictOf(h, now).peers[p].since);
  }

  /** Poll `i` was the last so far. */
  predicate LastPoll(h: seq<Event>, i: nat) {
    && i < |h| && h[i].Asked? && h[i].polled
    && forall j :: i < j < |h| ==> !(h[j].Asked? && h[j].polled)
  }

  lemma {:induction false} PolledIsLast(h: seq<Event>, i: nat)
    requires LastPoll(h, i)
    ensures Polled(h) == SituationOf(VerdictOf(h[..i], h[i].at))
    decreases |h|
  {
    if i < |h| - 1 {
      assert LastPoll(Init(h), i);
      PolledIsLast(Init(h), i);
      assert Init(h)[..i] == h[..i];
    } else {
      assert h[..i] == Init(h);
    }
  }

  lemma {:induction false} NeverPolled(h: seq<Event>)
    requires forall e :: e in h ==> !(e.Asked? && e.polled)
    ensures Polled(h) == Situation(true, false, {})
    decreases |h|
  {
    if h != [] {
      assert Final(h) in h && forall e :: e in Init(h) ==> e in h;
      NeverPolled(Init(h));
    }
  }

  lemma SameSituation(a: Verdict, b: Verdict)
    requires a.checked && b.checked && (a.active <==> a.peers != map[]) && (b.active <==> b.peers != map[])
    ensures SituationOf(a) != SituationOf(b) <==> exists p :: (p in a.peers) != (p in b.peers)
  {
    if SituationOf(a) != SituationOf(b) {
      assert a.peers.Keys != b.peers.Keys;
      assert exists p :: (p in a.peers.Keys) != (p in b.peers.Keys);
    }
  }

  /** What is news: some peer entered or left the list since the last poll. A count that moved, or
      a clock, is not. */
  lemma NewsExactly(h: seq<Event>, i: nat, now: int)
    requires LastPoll(h, i) && !Broken(h)
    ensures SituationOf(VerdictOf(h, now)) != Polled(h) <==>
            exists p :: (p in VerdictOf(h, now).peers) != (p in VerdictOf(h[..i], h[i].at).peers)
  {
    PolledIsLast(h, i);
    SameSituation(VerdictOf(h, now), VerdictOf(h[..i], h[i].at));
  }

  /** A break is news once. */
  lemma BreakIsNewsOnce(h: seq<Event>, i: nat, now: int)
    requires LastPoll(h, i) && Broken(h)
    ensures SituationOf(VerdictOf(h, now)) != Polled(h) <==> !Broken(h[..i])
  {
    PolledIsLast(h, i);
  }

  /** The first poll is news exactly if somebody is listed, or the detector is broken. */
  lemma FirstNewsExactly(h: seq<Event>, now: int)
    requires forall e :: e in h ==> !(e.Asked? && e.polled)
    ensures SituationOf(VerdictOf(h, now)) != Polled(h) <==> VerdictOf(h, now).peers != map[] || Broken(h)
  {
    NeverPolled(h);
  }

  // --- streaks -------------------------------------------------------------

  /** Question `i` of the history found `p` over threshold. */
  predicate FoundOver(h: seq<Event>, i: nat, p: Peer)
    requires i < |h|
  {
    h[i].Asked? && Over(h[..i], p, h[i].at)
  }

  lemma PrefixFound(h: seq<Event>, i: nat, p: Peer)
    requires h != [] && i < |h| - 1
    ensures FoundOver(Init(h), i, p) == FoundOver(h, i, p)
  {
    assert Init(h)[..i] == h[..i] && Init(h)[i] == h[i];
  }

  /** `i` is the question that opened the streak still running at the end of `h`: it and every
      question after it found `p` over threshold, and the question before it, if any, did not. */
  ghost predicate StreakFrom(h: seq<Event>, i: nat, p: Peer) {
    && i < |h| && FoundOver(h, i, p)
    && (forall j :: i < j < |h| && h[j].Asked? ==> FoundOver(h, j, p))
    && (forall j :: 0 <= j < i && h[j].Asked? && (forall k :: j < k < i ==> !h[k].Asked?) ==> !FoundOver(h, j, p))
  }

  lemma StreakExtends(h: seq<Event>, i: nat, p: Peer)
    requires h != [] && i < |h| - 1
    ensures StreakFrom(h, i, p) <==> StreakFrom(Init(h), i, p) && (Final(h).Asked? ==> FoundOver(h, |h| - 1, p))
  {
    forall j | 0 <= j < |h| - 1 ensures FoundOver(Init(h), j, p) == FoundOver(h, j, p) && Init(h)[j] == h[j] {
      PrefixFound(h, j, p);
    }
  }

  /** The last question before the end, if there was one and it found `p` over threshold,
      belongs to a streak. */
  lemma {:induction false} SinceIsSome(h: seq<Event>, p: Peer, j: nat)
    requires j < |h| && h[j].Asked? && forall k :: j < k < |h| ==> !h[k].Asked?
    ensures Since(h, p).Some? <==> FoundOver(h, j, p)
    decreases |h|
  {
    if j < |h| - 1 {
      SinceIsSome(Init(h), p, j);
      PrefixFound(h, j, p);
    } else {
      assert h[..j] == Init(h);
    }
  }

  lemma {:induction false} NoQuestionNoSince(h: seq<Event>, p: Peer)
    requires forall k :: 0 <= k < |h| ==> !h[k].Asked?
    ensures Since(h, p).None?
  {
    if h != [] { NoQuestionNoSince(Init(h), p); }
  }

  lemma StreakStarts(h: seq<Event>, p: Peer)
    requires h != [] && FoundOver(h, |h| - 1, p) && Since(Init(h), p).None?
    ensures StreakFrom(h, |h| - 1, p)
  {
    forall j | 0 <= j < |h| - 1 && h[j].Asked? && (forall k :: j < k < |h| - 1 ==> !h[k].Asked?)
      ensures !FoundOver(h, j, p)
    {
      assert forall k :: j < k < |Init(h)| ==> !Init(h)[k].Asked?;
      SinceIsSome(Init(h), p, j);
      PrefixFound(h, j, p);
    }
  }

  /** `since` is the clock of the first verdict of the current unbroken streak. */
  lemma {:induction false} SinceIsStreakStart(h: seq<Event>, p: Peer, t: int)
    ensures Since(h, p) == Some(t) ==> exists i: nat :: StreakFrom(h, i, p) && h[i].at == t
    decreases |h|
  {
    if h != [] && Since(h, p) == Some(t) {
      if Since(Init(h), p).Some? {
        SinceIsStreakStart(Init(h), p, t);
        var i: nat :| StreakFrom(Init(h), i, p) && Init(h)[i].at == t;
        assert Final(h).Asked? ==> FoundOver(h, |h| - 1, p) by { assert h[..|h| - 1] == Init(h); }
        StreakExtends(h, i, p);
        assert h[i].at == t;
      } else {
        assert h[..|h| - 1] == Init(h);
        StreakStarts(h, p);
      }
    }
  }

  // --- windows -------------------------------------------------------------

  predicate Ascending(ts: seq<int>) { forall i, j :: 0 <= i < j < |ts| ==> ts[i] <= ts[j] }

  lemma {:induction false} KeptTwice(ts: seq<int>, early: int, late: int)
    requires early <= late
    ensures Kept(Kept(ts, early), late) == Kept(ts, late)
  {
    if ts != [] {
      var init, last := ts[..|ts| - 1], ts[|ts| - 1];
      KeptTwice(init, early, late);
      if last > early {
        assert (Kept(init, early) + [last])[..|Kept(init, early)|] == Kept(init, early);
      } else {
        assert Kept(ts, early) == Kept(init, early);
      }
    }
  }

  lemma KeptMore(ts: seq<int>, t: int, cutoff: int)
    ensures Kept(ts + [t], cutoff) == Kept(ts, cutoff) + if t > cutoff then [t] else []
  {
    assert (ts + [t])[..|ts|] == ts;
  }

  lemma {:induction false} KeptMembers(ts: seq<int>, cutoff: int)
    ensures forall t :: t in Kept(ts, cutoff) <==> t in ts && t > cutoff
    ensures Ascending(ts) ==> Ascending(Kept(ts, cutoff))
  {
    if ts != [] {
      var init, last := ts[..|ts| - 1], ts[|ts| - 1];
      assert ts == init + [last];
      KeptMembers(init, cutoff);
      var kept := Kept(init, cutoff);
      forall k | 0 <= k < |kept| ensures kept[k] in init {
        var t := kept[k];
        assert t in kept;
      }
    }
  }

  lemma {:induction false} KeptAll(ts: seq<int>, cutoff: int)
    requires forall k :: 0 <= k < |ts| ==> ts[k] > cutoff
    ensures Kept(ts, cutoff) == ts
  {
    if ts != [] { KeptAll(ts[..|ts| - 1], cutoff); }
  }

  lemma {:induction false} KeptSplit(a: seq<int>, b: seq<int>, cutoff: int)
    ensures Kept(a + b, cutoff) == Kept(a, cutoff) + Kept(b, cutoff)
  {
    if b == [] {
      assert a + b == a;
    } else {
      KeptSplit(a, b[..|b| - 1], cutoff);
      assert (a + b)[..|a + b| - 1] == a + b[..|b| - 1];
    }
  }

  lemma {:induction false} KeptNone(ts: seq<int>, cutoff: int)
    requires forall k :: 0 <= k < |ts| ==> ts[k] <= cutoff
    ensures Kept(ts, cutoff) == []
  {
    if ts != [] { KeptNone(ts[..|ts| - 1], cutoff); }
  }

  /** `prune`, as a function: whatever leads the list and has left the window goes. */
  function Pruned(ts: seq<int>, cutoff: int): seq<int> {
    if ts == [] || ts[0] > cutoff then ts else Pruned(ts[1..], cutoff)
  }

  /** On times kept oldest first that is exactly what has left the window. */
  lemma {:induction false} PrunedIsKept(ts: seq<int>, cutoff: int)
    requires Ascending(ts)
    ensures Pruned(ts, cutoff) == Kept(ts, cutoff)
  {
    if ts == [] {
    } else if ts[0] > cutoff {
      KeptAll(ts, cutoff);
    } else {
      PrunedIsKept(ts[1..], cutoff);
      assert ts == [ts[0]] + ts[1..];
      KeptSplit([ts[0]], ts[1..], cutoff);
      KeptNone([ts[0]], cutoff);
    }
  }

  method Prune(ts: seq<int>, cutoff: int) returns (kept: seq<int>)
    ensures kept == Pruned(ts, cutoff)
  {
    var keep := 0;
    while keep < |ts| && ts[keep] <= cutoff
      invariant keep <= |ts|
      invariant Pruned(ts, cutoff) == Pruned(ts[keep..], cutoff)
    {
      keep := keep + 1;
    }
    kept := if keep > 0 then ts[keep..] else ts;
  }

  // --- the detector's own state --------------------------------------------

  datatype PeerState = PeerState(sessions: set<int>, deletions: seq<int>, since: Option<int>)

  const BLANK: PeerState := PeerState({}, [], None)

  /** A peer with no entry is a peer with an empty one. */
  function StateOf(peers: map<Peer, PeerState>, p: Peer): PeerState { if p in peers then peers[p] else BLANK }

  /** No later verdict can tell these times from the full ones. */
  ghost predicate SameWindows(kept: seq<int>, full: seq<int>, last: Option<int>) {
    && Ascending(kept) && (forall t :: t in kept ==> last.Some? && t <= last.value)
    && (forall cutoff :: (last.Some? ==> last.value - WINDOW_MS <= cutoff) ==> Kept(kept, cutoff) == Kept(full, cutoff))
  }

  ghost predicate PeerAgrees(st: PeerState, h: seq<Event>, p: Peer) {
    st.sessions == OpenSet(h, p) && SameWindows(st.deletions, Times(h, p), Last(h)) && st.since == Since(h, p)
  }

  ghost predicate Agrees(peers: map<Peer, PeerState>, sessionPeers: map<int, Peer>, h: seq<Event>) {
    sessionPeers == OpenMap(h) && forall p :: PeerAgrees(StateOf(peers, p), h, p)
  }

  lemma OneMore(h: seq<Event>, e: Event)
    ensures Init(h + [e]) == h && Final(h + [e]) == e
    ensures e.Opened? ==> OpenMap(h + [e]) == OpenMap(h)[e.session := e.peer]
    ensures e.Closed? ==> OpenMap(h + [e]) == OpenMap(h) - {e.session}
    ensures !e.Opened? && !e.Closed? ==> OpenMap(h + [e]) == OpenMap(h)
  {
  }

  lemma SameOpenSet(h: seq<Event>, e: Event, p: Peer)
    requires !e.Opened? && !e.Closed?
    ensures OpenSet(h + [e], p) == OpenSet(h, p)
  {
    OneMore(h, e);
  }

  lemma OpenAgrees(h: seq<Event>, s: int, peer: Peer, p: Peer, st: PeerState)
    requires PeerAgrees(st, h, p) && Orderly(h + [Opened(s, peer)])
    ensures PeerAgrees(if p == peer then st.(sessions := st.sessions + {s}) else st, h + [Opened(s, peer)], p)
  {
    OneMore(h, Opened(s, peer));
    assert OpenSet(h + [Opened(s, peer)], p) == if p == peer then OpenSet(h, p) + {s} else OpenSet(h, p);
  }

  lemma CloseAgrees(h: seq<Event>, s: int, p: Peer, st: PeerState)
    requires PeerAgrees(st, h, p)
    ensures PeerAgrees(if s in OpenMap(h) && OpenMap(h)[s] == p then st.(sessions := st.sessions - {s}) else st,
                       h + [Closed(s)], p)
  {
    OneMore(h, Closed(s));
    assert OpenSet(h + [Closed(s)], p) == OpenSet(h, p) - {s};
    assert !(s in OpenMap(h) && OpenMap(h)[s] == p) ==> s !in OpenSet(h, p);
  }

  lemma LaterWindows(kept: seq<int>, full: seq<int>, last: Option<int>, now: int)
    requires SameWindows(kept, full, last) && (last.Some? ==> last.value <= now)
    ensures SameWindows(kept, full, Some(now))
  {
  }

  lemma PushedWindows(kept: seq<int>, full: seq<int>, last: Option<int>, now: int)
    requires SameWindows(kept, full, last) && (last.Some? ==> last.value <= now)
    ensures SameWindows(kept + [now], full + [now], Some(now))
  {
    forall k | 0 <= k < |kept| ensures kept[k] <= now { assert kept[k] in kept; }
    forall cutoff | now - WINDOW_MS <= cutoff ensures Kept(kept + [now], cutoff) == Kept(full + [now], cutoff) {
      KeptMore(kept, now, cutoff);
      KeptMore(full, now, cutoff);
    }
  }

  lemma PrunedWindows(kept: seq<int>, full: seq<int>, now: int)
    requires SameWindows(kept, full, Some(now))
    ensures SameWindows(Kept(kept, now - WINDOW_MS), full, Some(now))
  {
    KeptMembers(kept, now - WINDOW_MS);
    forall cutoff | now - WINDOW_MS <= cutoff ensures Kept(Kept(kept, now - WINDOW_MS), cutoff) == Kept(full, cutoff) {
      KeptTwice(kept, now - WINDOW_MS, cutoff);
    }
  }

  lemma RemovedAgrees(h: seq<Event>, peer: Peer, now: int, p: Peer, st: PeerState)
    requires PeerAgrees(st, h, p) && Orderly(h + [Removed(peer, true, now)])
    ensures PeerAgrees(if p == peer then st.(deletions := Pruned(st.deletions + [now], now - WINDOW_MS)) else st,
                       h + [Removed(peer, true, now)], p)
  {
    OneMore(h, Removed(peer, true, now));
    SameOpenSet(h, Removed(peer, true, now), p);
    if p == peer {
      PushedWindows(st.deletions, Times(h, p), Last(h), now);
      PrunedWindows(st.deletions + [now], Times(h, p) + [now], now);
      PrunedIsKept(st.deletions + [now], now - WINDOW_MS);
    } else {
      LaterWindows(st.deletions, Times(h, p), Last(h), now);
    }
  }

  /** What one verdict makes of one peer's entry. */
  function Visited(st: PeerState, now: int): PeerState {
    var kept := Pruned(st.deletions, now - WINDOW_MS);
    PeerState(st.sessions, kept,
              if !OverThreshold(|st.sessions|, |kept|) then None else if st.since.Some? then st.since else Some(now))
  }

  function VisitReport(st: PeerState): Option<Report> {
    if st.since.Some? then Some(Report(|st.sessions|, |st.deletions|, st.since.value)) else None
  }

  lemma AskedAgrees(h: seq<Event>, now: int, polled: bool, p: Peer, st: PeerState)
    requires PeerAgrees(st, h, p) && Orderly(h + [Asked(now, polled)])
    ensures PeerAgrees(Visited(st, now), h + [Asked(now, polled)], p)
    ensures VisitReport(Visited(st, now)) == if Over(h, p, now) then Some(ReportOf(h, p, now)) else None
  {
    OneMore(h, Asked(now, polled));
    LaterWindows(st.deletions, Times(h, p), Last(h), now);
    PrunedWindows(st.deletions, Times(h, p), now);
    PrunedIsKept(st.deletions, now - WINDOW_MS);
    SameOpenSet(h, Asked(now, polled), p);
    assert Kept(st.deletions, now - WINDOW_MS) == Kept(Times(h, p), now - WINDOW_MS);
  }

  /** A blank entry, visited, is still blank: an entry that can be dropped says nothing. */
  lemma BlankStaysBlank(now: int)
    ensures Visited(BLANK, now) == BLANK
  {
  }

  function Listed(reports: map<Peer, Report>, p: Peer): Option<Report> {
    if p in reports then Some(reports[p]) else None
  }

  /** Partway through a verdict's loop, one peer: still to come, or visited and reported. */
  ghost predicate Halfway(before: map<Peer, PeerState>, pending: bool, peers: map<Peer, PeerState>,
                          reports: map<Peer, Report>, p: Peer, now: int)
  {
    if pending || p !in before then StateOf(peers, p) == StateOf(before, p) && p !in reports
    else StateOf(peers, p) == Visited(StateOf(before, p), now) && Listed(reports, p) == VisitReport(StateOf(peers, p))
  }

  /** Every entry visited: the bookkeeping follows and the reports are the verdict. */
  lemma AnswerIsVerdict(h: seq<Event>, now: int, polled: bool, before: map<Peer, PeerState>,
                        after: map<Peer, PeerState>, sessionPeers: map<int, Peer>, reports: map<Peer, Report>)
    requires Agrees(before, sessionPeers, h) && Orderly(h + [Asked(now, polled)]) && !Broken(h)
    requires forall p :: StateOf(after, p) == Visited(StateOf(before, p), now)
    requires forall p :: Listed(reports, p) == VisitReport(StateOf(after, p))
    ensures Agrees(after, sessionPeers, h + [Asked(now, polled)])
    ensures reports == VerdictOf(h, now).peers
  {
    OneMore(h, Asked(now, polled));
    forall p: Peer
      ensures PeerAgrees(StateOf(after, p), h + [Asked(now, polled)], p)
      ensures Listed(reports, p) == Listed(VerdictOf(h, now).peers, p)
    {
      AskedAgrees(h, now, polled, p, StateOf(before, p));
      VerdictListsExactly(h, now, p);
    }
    SameListing(reports, VerdictOf(h, now).peers);
  }

  lemma SameListing(a: map<Peer, Report>, b: map<Peer, Report>)
    requires forall p :: Listed(a, p) == Listed(b, p)
    ensures a == b
  {
    forall p: Peer ensures p in a <==> p in b { assert Listed(a, p) == Listed(b, p); }
    forall p | p in a ensures a[p] == b[p] { assert Listed(a, p) == Listed(b, p); }
  }

  lemma BrokenMore(h: seq<Event>, e: Event)
    ensures Broken(h + [e]) <==> Broken(h) || e == Broke
    ensures Orderly(h + [e]) ==> Orderly(h)
    ensures !(e.Asked? && e.polled) ==> Polled(h + [e]) == Polled(h)
  {
    OneMore(h, e);
  }

  // --- the detector --------------------------------------------------------

  class ChurnDetector {
    var peers: map<Peer, PeerState>
    var sessionPeers: map<int, Peer>
    var broken: bool
    var signature: Situation
    ghost var history: seq<Event>

    ghost predicate Bookkeeping()
      reads this
    {
      broken == Broken(history) && (Orderly(history) && !broken ==> Agrees(peers, sessionPeers, history))
    }

    /** The bookkeeping stands for the whole history, as long as that was orderly. */
    ghost predicate Valid()
      reads this
    {
      Bookkeeping() && (Orderly(history) ==> signature == Polled(history))
    }

    constructor ()
      ensures Valid() && history == []
    {
      peers, sessionPeers, broken, signature := map[], map[], false, Situation(true, false, {});
      history := [];
    }

    method MarkBroken()
      requires Valid()
      modifies this
      ensures Valid() && history == old(history) + [Broke]
    {
      broken, peers, sessionPeers := true, map[], map[];
      BrokenMore(history, Broke);
      history := history + [Broke];
    }

    method SessionOpened(session: int, peer: Peer)
      requires Valid()
      modifies this
      ensures Valid() && history == old(history) + [Opened(session, peer)]
    {
      BrokenMore(history, Opened(session, peer));
      history := history + [Opened(session, peer)];
      if broken { return; }
      var st := StateOf(peers, peer);
      sessionPeers := sessionPeers[session := peer];
      peers := peers[peer := st.(sessions := st.sessions + {session})];
      if Orderly(history) {
        OneMore(old(history), Opened(session, peer));
        forall p: Peer ensures PeerAgrees(StateOf(peers, p), history, p) {
          OpenAgrees(old(history), session, peer, p, StateOf(old(peers), p));
        }
      }
    }

    method SessionClosed(session: int)
      requires Valid()
      modifies this
      ensures Valid() && history == old(history) + [Closed(session)]
    {
      BrokenMore(history, Closed(session));
      history := history + [Closed(session)];
      if broken { return; }
      if session in sessionPeers {
        var key := sessionPeers[session];
        sessionPeers := sessionPeers - {session};
        if key in peers { peers := peers[key := peers[key].(sessions := peers[key].sessions - {session})]; }
      }
      if Orderly(history) {
        OneMore(old(history), Closed(session));
        forall p: Peer ensures PeerAgrees(StateOf(peers, p), history, p) {
          CloseAgrees(old(history), session, p, StateOf(old(peers), p));
        }
      }
    }

    method SubscriptionRemoved(peer: Peer, wasTerminated: bool, now: int)
      requires Valid()
      modifies this
      ensures Valid() && history == old(history) + [Removed(peer, wasTerminated, now)]
    {
      BrokenMore(history, Removed(peer, wasTerminated, now));
      history := history + [Removed(peer, wasTerminated, now)];
      if broken || !wasTerminated {
        if !broken && Orderly(history) { CleanRemovalAgrees(old(history), peer, now, peers, sessionPeers); }
        return;
      }
      var st := StateOf(peers, peer);
      var deletions := Prune(st.deletions + [now], now - WINDOW_MS);
      peers := peers[peer := st.(deletions := deletions)];
      if Orderly(history) {
        OneMore(old(history), Removed(peer, true, now));
        forall p: Peer ensures PeerAgrees(StateOf(peers, p), history, p) {
          RemovedAgrees(old(history), peer, now, p, StateOf(old(peers), p));
        }
      }
    }

    /** The verdict's loop: every entry pruned, its streak kept up, and dropped if it says nothing. */
    method VisitEvery(now: int) returns (reports: map<Peer, Report>)
      modifies this`peers
      ensures forall p :: StateOf(peers, p) == Visited(StateOf(old(peers), p), now)
      ensures forall p :: Listed(reports, p) == VisitReport(StateOf(peers, p))
    {
      reports := map[];
      ghost var before := peers;
      var left := peers.Keys;
      while left != {}
        invariant left <= before.Keys && left <= peers.Keys
        invariant forall p :: Halfway(before, p in left, peers, reports, p, now)
        decreases |left|
      {
        var p :| p in left;
        assert Halfway(before, true, peers, reports, p, now);
        ghost var leftBefore, was, said := left, peers, reports;
        left := left - {p};
        var st := peers[p];
        var kept := Prune(st.deletions, now - WINDOW_MS);
        if OverThreshold(|st.sessions|, |kept|) {
          var since := if st.since.Some? then st.since.value else now;
          peers := peers[p := PeerState(st.sessions, kept, Some(since))];
          reports := reports[p := Report(|st.sessions|, |kept|, since)];
        } else if |st.sessions| == 0 && |kept| == 0 {
          peers := peers - {p};
        } else {
          peers := peers[p := PeerState(st.sessions, kept, None)];
        }
        forall q: Peer ensures Halfway(before, q in left, peers, reports, q, now) {
          assert Halfway(before, q in leftBefore, was, said, q, now);
        }
      }
      forall p: Peer
        ensures StateOf(peers, p) == Visited(StateOf(before, p), now)
                && Listed(reports, p) == VisitReport(StateOf(peers, p))
      {
        assert Halfway(before, p in left, peers, reports, p, now);
        BlankStaysBlank(now);
      }
    }

    /** Both ways of asking. */
    method Answer(now: int, ghost polled: bool) returns (v: Verdict)
      requires Bookkeeping()
      modifies this`peers, this`history
      ensures Bookkeeping() && history == old(history) + [Asked(now, polled)]
      ensures Orderly(history) ==> v == VerdictOf(old(history), now)
      ensures broken ==> v == Verdict(false, false, map[])
    {
      BrokenMore(history, Asked(now, polled));
      history := history + [Asked(now, polled)];
      if broken { return Verdict(false, false, map[]); }
      ghost var before := peers;
      var reports := VisitEvery(now);
      v := Verdict(true, |reports| > 0, reports);
      if Orderly(history) {
        AnswerIsVerdict(old(history), now, polled, before, peers, sessionPeers, reports);
      }
    }

    /** `verdict`: exactly what the full, unpruned history says. */
    method VerdictNow(now: int) returns (v: Verdict)
      requires Valid()
      modifies this
      ensures Valid() && history == old(history) + [Asked(now, false)]
      ensures Orderly(history) ==> v == VerdictOf(old(history), now)
    {
      v := Answer(now, false);
      BrokenMore(old(history), Asked(now, false));
    }

    /** `poll`: news exactly when the situation differs from the last poll's. */
    method Poll(now: int) returns (v: Verdict, changed: bool)
      requires Valid()
      modifies this
      ensures Valid() && history == old(history) + [Asked(now, true)]
      ensures Orderly(history) ==>
                v == VerdictOf(old(history), now) && (changed <==> SituationOf(v) != Polled(old(history)))
    {
      v := Answer(now, true);
      changed := SituationOf(v) != signature;
      signature := SituationOf(v);
      BrokenMore(old(history), Asked(now, true));
      OneMore(old(history), Asked(now, true));
    }
  }

  lemma CleanRemovalAgrees(h: seq<Event>, peer: Peer, now: int, peers: map<Peer, PeerState>,
                           sessionPeers: map<int, Peer>)
    requires Agrees(peers, sessionPeers, h)
    ensures Agrees(peers, sessionPeers, h + [Removed(peer, false, now)])
  {
    OneMore(h, Removed(peer, false, now));
    forall p: Peer ensures PeerAgrees(StateOf(peers, p), h + [Removed(peer, false, now)], p) {
      SameOpenSet(h, Removed(peer, false, now), p);
      assert PeerAgrees(StateOf(peers, p), h, p);
    }
  }
}
