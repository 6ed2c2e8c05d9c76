/** Pending WebRTC offers: they wait for their receiver, who gets those that are at
    most 30 seconds old, and a timer drops the others. */
module Offers {
  import opened Sequences

  const OFFER_TIMEOUT := 30_000

  datatype Offer = Offer(fromUserId: string, signal: string, timestamp: int)

  /** What a process call sends for one offer. */
  datatype Message = Message(receiver: string, fromUserId: string, signal: string)

  type Pending = map<string, seq<Offer>>

  function Live(now: int): Offer -> bool {
    (o: Offer) => now - o.timestamp <= OFFER_TIMEOUT
  }

  function Waiting(p: Pending, userId: string): seq<Offer> {
    if userId in p then p[userId] else []
  }

  function Sent(userId: string): Offer -> Message {
    (o: Offer) => Message(userId, o.fromUserId, o.signal)
  }

  // ---------------------------------------------------------------------
  // The three operations
  // ---------------------------------------------------------------------

  function Add(p: Pending, toUserId: string, fromUserId: string, signal: string, now: int): Pending {
    p[toUserId := Waiting(p, toUserId) + [Offer(fromUserId, signal, now)]]
  }

  function Process(p: Pending, userId: string, now: int): (Pending, seq<Message>) {
    (p - {userId}, Map(Filter(Waiting(p, userId), Live(now)), Sent(userId)))
  }

  function Cleanup(p: Pending, now: int): Pending {
    map u | u in p && Filter(p[u], Live(now)) != [] :: Filter(p[u], Live(now))
  }

  // ---------------------------------------------------------------------
  // Runs
  // ---------------------------------------------------------------------

  datatype Event =
    | AddOffer(toUserId: string, fromUserId: string, signal: string, at: int)
    | ProcessOffers(userId: string, at: int)
    | CleanUp(at: int)

  function Step(p: Pending, e: Event): (Pending, seq<Message>) {
    match e
    case AddOffer(to, from, signal, at) => (Add(p, to, from, signal, at), [])
    case ProcessOffers(u, at) => Process(p, u, at)
    case CleanUp(at) => (Cleanup(p, at), [])
  }

  function Messages(p: Pending, events: seq<Event>): seq<Message>
    decreases |events|
  {
    if events == [] then []
    else
      var (q, sent) := Step(p, events[0]);
      sent + Messages(q, events[1..])
  }

  function WithoutCleanup(events: seq<Event>): seq<Event>
    decreases |events|
  {
    if events == [] then []
    else (if events[0].CleanUp? then [] else [events[0]]) + WithoutCleanup(events[1..])
  }

  /** Times do not decrease, from `now` on. */
  ghost predicate Forward(now: int, events: seq<Event>) {
    (forall i | 0 <= i < |events| :: now <= events[i].at) &&
    (forall i, j | 0 <= i < j < |events| :: events[i].at <= events[j].at)
  }

  /** From `now` on, both states hold the same offers that are still live. */
  ghost predicate SameFrom(now: int, p: Pending, q: Pending) {
    forall t, u | now <= t :: Filter(Waiting(p, u), Live(t)) == Filter(Waiting(q, u), Live(t))
  }

  /** An offer that is dropped now would not be live later either. */
  lemma {:induction false} LiveLater(offers: seq<Offer>, now: int, t: int)
    requires now <= t
    ensures Filter(Filter(offers, Live(now)), Live(t)) == Filter(offers, Live(t))
  {
    if offers != [] {
      var n := |offers| - 1;
      LiveLater(offers[..n], now, t);
      if Live(now)(offers[n]) {
        FilterPush(Filter(offers[..n], Live(now)), offers[n], Live(t));
      }
    }
  }

  /** What adding and processing do to one user's queue. */
  function Moved(queue: seq<Offer>, e: Event, u: string): seq<Offer> {
    match e
    case AddOffer(to, from, signal, at) => if to == u then queue + [Offer(from, signal, at)] else queue
    case ProcessOffers(v, _) => if v == u then [] else queue
    case CleanUp(_) => queue
  }

  lemma WaitingAfter(p: Pending, e: Event, u: string)
    ensures Waiting(Step(p, e).0, u) ==
      if e.CleanUp? then Filter(Waiting(p, u), Live(e.at)) else Moved(Waiting(p, u), e, u)
  {
  }

  /** What is live in a queue afterwards depends on what was live before. */
  lemma MovedLive(a: seq<Offer>, b: seq<Offer>, e: Event, u: string, t: int)
    requires Filter(a, Live(t)) == Filter(b, Live(t))
    ensures Filter(Moved(a, e, u), Live(t)) == Filter(Moved(b, e, u), Live(t))
  {
    if e.AddOffer? {
      FilterPush(a, Offer(e.fromUserId, e.signal, e.at), Live(t));
      FilterPush(b, Offer(e.fromUserId, e.signal, e.at), Live(t));
    }
  }

  lemma CleanupIsSame(now: int, p: Pending, q: Pending, at: int)
    requires SameFrom(now, p, q) && now <= at
    ensures SameFrom(at, Cleanup(p, at), q)
  {
    forall t, u | at <= t ensures Filter(Waiting(Cleanup(p, at), u), Live(t)) == Filter(Waiting(q, u), Live(t)) {
      WaitingAfter(p, CleanUp(at), u);
      LiveLater(Waiting(p, u), at, t);
    }
  }

  lemma StepIsSame(now: int, p: Pending, q: Pending, e: Event)
    requires SameFrom(now, p, q) && now <= e.at && !e.CleanUp?
    ensures SameFrom(e.at, Step(p, e).0, Step(q, e).0) && Step(p, e).1 == Step(q, e).1
  {
    forall t, u | e.at <= t
      ensures Filter(Waiting(Step(p, e).0, u), Live(t)) == Filter(Waiting(Step(q, e).0, u), Live(t))
    {
      WaitingAfter(p, e, u);
      WaitingAfter(q, e, u);
      MovedLive(Waiting(p, u), Waiting(q, u), e, u, t);
    }
    SameSent(now, p, q, e);
  }

  lemma SameSent(now: int, p: Pending, q: Pending, e: Event)
    requires SameFrom(now, p, q) && now <= e.at
    ensures Step(p, e).1 == Step(q, e).1
  {
    if e.ProcessOffers? {
      assert Filter(Waiting(p, e.userId), Live(e.at)) == Filter(Waiting(q, e.userId), Live(e.at));
    }
  }

  /** Cleanup is unobservable: on a clock that does not go back, a run sends the
      same messages in the same order as the run without its cleanups. */
  lemma {:induction false} CleanupUnobservable(now: int, p: Pending, q: Pending, events: seq<Event>)
    requires SameFrom(now, p, q) && Forward(now, events)
    ensures Messages(p, events) == Messages(q, WithoutCleanup(events))
    decreases |events|
  {
    if events != [] {
      var e := events[0];
      if e.CleanUp? {
        CleanupIsSame(now, p, q, e.at);
        CleanupUnobservable(e.at, Cleanup(p, e.at), q, events[1..]);
        assert [] + WithoutCleanup(events[1..]) == WithoutCleanup(events[1..]);
        assert [] + Messages(Cleanup(p, e.at), events[1..]) == Messages(Cleanup(p, e.at), events[1..]);
      } else {
        StepIsSame(now, p, q, e);
        CleanupUnobservable(e.at, Step(p, e).0, Step(q, e).0, events[1..]);
        assert ([e] + WithoutCleanup(events[1..]))[1..] == WithoutCleanup(events[1..]);
      }
    }
  }

  lemma FirstEvent(p: Pending, e: Event, rest: seq<Event>, q: Pending, sent: seq<Message>)
    requires Step(p, e) == (q, sent)
    ensures Messages(p, [e] + rest) == sent + Messages(q, rest)
  {
    assert ([e] + rest)[1..] == rest;
  }

  function Effective(e: Event): seq<Event> {
    if e.CleanUp? then [] else [e]
  }

  lemma WithoutCleanupCons(e: Event, rest: seq<Event>)
    ensures WithoutCleanup([e] + rest) == Effective(e) + WithoutCleanup(rest)
  {
    assert ([e] + rest)[1..] == rest;
  }

  lemma FilterSingle<T>(x: T, keep: T -> bool)
    ensures Filter([x], keep) == if keep(x) then [x] else []
  {
    assert [x][..0] == [];
  }

  lemma SentFrom(p: Pending, u: string, o: Offer, now: int)
    ensures Waiting(p, u) == [] ==> Process(p, u, now).1 == []
    ensures Waiting(p, u) == [o] && Live(now)(o) ==> Process(p, u, now).1 == [Sent(u)(o)]
  {
    FilterSingle(o, Live(now));
    assert Map([o], Sent(u)) == [Sent(u)(o)];
  }

  /** What the run sends with a cleanup and without, step by step. */
  lemma DroppedOrSent(u: string, o: Offer, a: Event, c: Event, e: Event)
    requires a == AddOffer(u, o.fromUserId, o.signal, o.timestamp) && c.CleanUp? && e == ProcessOffers(u, e.at)
    requires !Live(c.at)(o) && Live(e.at)(o)
    ensures Messages(map[], [a] + ([c] + ([e] + []))) == []
    ensures Messages(map[], [a] + ([e] + [])) == [Sent(u)(o)]
  {
    var p := Add(map[], u, o.fromUserId, o.signal, o.timestamp);
    var q := Cleanup(p, c.at);
    assert Waiting(p, u) == [] + [o] == [o];
    WaitingAfter(p, c, u);
    FilterSingle(o, Live(c.at));
    SentFrom(q, u, o, e.at);
    SentFrom(p, u, o, e.at);
    FirstEvent(map[], a, [c] + ([e] + []), p, []);
    FirstEvent(p, c, [e] + [], q, []);
    FirstEvent(q, e, [], q - {u}, []);
    FirstEvent(map[], a, [e] + [], p, []);
    FirstEvent(p, e, [], p - {u}, [Sent(u)(o)]);
  }

  /** On a clock that is set back a cleanup can be seen: an offer that it dropped
      would be live again. */
  lemma ClockSetBackShows(to: string, from: string, signal: string, at: int)
    ensures var late := at + OFFER_TIMEOUT + 1;
      var events := [AddOffer(to, from, signal, at), CleanUp(late), ProcessOffers(to, at)];
      Messages(map[], events) == [] && Messages(map[], WithoutCleanup(events)) == [Message(to, from, signal)]
  {
    var a, c, e := AddOffer(to, from, signal, at), CleanUp(at + OFFER_TIMEOUT + 1), ProcessOffers(to, at);
    DroppedOrSent(to, Offer(from, signal, at), a, c, e);
    WithoutCleanupCons(a, [c] + ([e] + []));
    WithoutCleanupCons(c, [e] + []);
    WithoutCleanupCons(e, []);
    assert [a, c, e] == [a] + ([c] + ([e] + []));
    assert [] + ([e] + []) == [e] + [];
  }

  // ---------------------------------------------------------------------
  // What a process call sends
  // ---------------------------------------------------------------------

  /** The offers for a user since the user's last process call in a history. */
  function Since(events: seq<Event>, u: string): seq<Offer> {
    if events == [] then [] else Moved(Since(events[..|events| - 1], u), events[|events| - 1], u)
  }

  /** The state after a history that starts empty. */
  function StateAfter(events: seq<Event>): Pending {
    if events == [] then map[] else Step(StateAfter(events[..|events| - 1]), events[|events| - 1]).0
  }

  lemma {:induction false} StateIsSince(events: seq<Event>, now: int, t: int, u: string)
    requires forall i | 0 <= i < |events| :: events[i].at <= now
    requires now <= t
    ensures Filter(Waiting(StateAfter(events), u), Live(t)) == Filter(Since(events, u), Live(t))
  {
    if events != [] {
      var front, e := events[..|events| - 1], events[|events| - 1];
      StateIsSince(front, now, t, u);
      WaitingAfter(StateAfter(front), e, u);
      if e.CleanUp? {
        LiveLater(Waiting(StateAfter(front), u), e.at, t);
      } else {
        MovedLive(Waiting(StateAfter(front), u), Since(front, u), e, u, t);
      }
    }
  }

  /** A process call sends, in order, exactly the offers made to the user since his
      last process call that are at most 30 seconds old. */
  lemma ProcessSendsLive(events: seq<Event>, u: string, at: int)
    requires forall i | 0 <= i < |events| :: events[i].at <= at
    ensures Process(StateAfter(events), u, at).1 == Map(Filter(Since(events, u), Live(at)), Sent(u))
  {
    StateIsSince(events, at, at, u);
  }

  // ---------------------------------------------------------------------
  // When a cleanup can be seen, on any clock
  // ---------------------------------------------------------------------

  /** An offer made to a user since his last process call, and whether all
      cleanups have kept it. */
  datatype Tracked = Tracked(offer: Offer, kept: bool)

  function Kept(): Tracked -> bool {
    (x: Tracked) => x.kept
  }

  function OfferOf(): Tracked -> Offer {
    (x: Tracked) => x.offer
  }

  function Mark(at: int): Tracked -> Tracked {
    (x: Tracked) => Tracked(x.offer, x.kept && Live(at)(x.offer))
  }

  function Followed(track: seq<Tracked>, e: Event, u: string): seq<Tracked> {
    match e
    case AddOffer(to, from, signal, at) => if to == u then track + [Tracked(Offer(from, signal, at), true)] else track
    case ProcessOffers(v, _) => if v == u then [] else track
    case CleanUp(at) => Map(track, Mark(at))
  }

  function Track(events: seq<Event>, u: string): seq<Tracked> {
    if events == [] then [] else Followed(Track(events[..|events| - 1], u), events[|events| - 1], u)
  }

  function KeptOffers(track: seq<Tracked>): seq<Offer> {
    Map(Filter(track, Kept()), OfferOf())
  }

  lemma {:induction false} MarkedOffers(track: seq<Tracked>, at: int)
    ensures KeptOffers(Map(track, Mark(at))) == Filter(KeptOffers(track), Live(at))
    ensures Map(Map(track, Mark(at)), OfferOf()) == Map(track, OfferOf())
  {
    if track != [] {
      var n := |track| - 1;
      var x := track[n];
      MarkedOffers(track[..n], at);
      MapPush(Map(track[..n], Mark(at)), Mark(at)(x), OfferOf());
      FilterPush(Map(track[..n], Mark(at)), Mark(at)(x), Kept());
      MapPush(Filter(Map(track[..n], Mark(at)), Kept()), Mark(at)(x), OfferOf());
      MapPush(Filter(track[..n], Kept()), x, OfferOf());
      FilterPush(KeptOffers(track[..n]), x.offer, Live(at));
    }
  }

  lemma FollowedOffers(track: seq<Tracked>, e: Event, u: string)
    ensures Map(Followed(track, e, u), OfferOf()) == Moved(Map(track, OfferOf()), e, u)
    ensures KeptOffers(Followed(track, e, u)) ==
      if e.CleanUp? then Filter(KeptOffers(track), Live(e.at)) else Moved(KeptOffers(track), e, u)
  {
    match e
    case AddOffer(to, from, signal, at) =>
      var x := Tracked(Offer(from, signal, at), true);
      FilterPush(track, x, Kept());
      MapPush(track, x, OfferOf());
      MapPush(Filter(track, Kept()), x, OfferOf());
    case ProcessOffers(_, _) =>
    case CleanUp(at) => MarkedOffers(track, at);
  }

  /** What waits for a user is what has been kept of the offers to him. */
  lemma {:induction false} TrackHolds(events: seq<Event>, u: string)
    ensures KeptOffers(Track(events, u)) == Waiting(StateAfter(events), u)
    ensures Map(Track(events, u), OfferOf()) == Since(events, u)
  {
    if events != [] {
      var front, e := events[..|events| - 1], events[|events| - 1];
      TrackHolds(front, u);
      FollowedOffers(Track(front, u), e, u);
      WaitingAfter(StateAfter(front), e, u);
    }
  }

  /** A process call at `at` misses nothing that is live. */
  ghost predicate AllLiveKept(track: seq<Tracked>, at: int) {
    forall x | x in track && Live(at)(x.offer) :: x.kept
  }

  lemma {:induction false} LossShortens(track: seq<Tracked>, at: int)
    ensures var a, b := Filter(KeptOffers(track), Live(at)), Filter(Map(track, OfferOf()), Live(at));
      |a| <= |b| && (|a| == |b| <==> AllLiveKept(track, at)) && (AllLiveKept(track, at) ==> a == b)
  {
    if track != [] {
      var n := |track| - 1;
      var x := track[n];
      assert track == track[..n] + [x];
      LossShortens(track[..n], at);
      assert AllLiveKept(track, at) <==> AllLiveKept(track[..n], at) && (Live(at)(x.offer) ==> x.kept);
      FilterPush(Map(track[..n], OfferOf()), x.offer, Live(at));
      if x.kept {
        MapPush(Filter(track[..n], Kept()), x, OfferOf());
        FilterPush(KeptOffers(track[..n]), x.offer, Live(at));
      }
    }
  }

  /** What the last event of a history sends, with its cleanups and without. */
  function SentLast(events: seq<Event>): seq<Message>
    requires events != []
  {
    Step(StateAfter(events[..|events| - 1]), events[|events| - 1]).1
  }

  function OfferedLast(events: seq<Event>): seq<Message>
    requires events != []
  {
    var e := events[|events| - 1];
    if e.ProcessOffers? then Map(Filter(Since(events[..|events| - 1], e.userId), Live(e.at)), Sent(e.userId)) else []
  }

  function SentBy(events: seq<Event>): seq<Message> {
    if events == [] then [] else SentBy(events[..|events| - 1]) + SentLast(events)
  }

  function OfferedBy(events: seq<Event>): seq<Message> {
    if events == [] then [] else OfferedBy(events[..|events| - 1]) + OfferedLast(events)
  }

  lemma SentByPush(past: seq<Event>, e: Event)
    ensures SentBy(past + [e]) == SentBy(past) + Step(StateAfter(past), e).1
    ensures StateAfter(past + [e]) == Step(StateAfter(past), e).0
  {
    assert (past + [e])[..|past|] == past;
  }

  lemma Regroup<T>(a: seq<T>, b: seq<T>)
    requires b != []
    ensures a + [b[0]] + b[1..] == a + b
  {
  }

  lemma {:induction false} MessagesAfter(past: seq<Event>, events: seq<Event>, p: Pending, sent: seq<Message>)
    requires p == StateAfter(past) && sent == SentBy(past)
    ensures sent + Messages(p, events) == SentBy(past + events)
    decreases |events|
  {
    if events == [] {
      assert past + events == past;
      assert sent + [] == sent;
    } else {
      var (q, more) := Step(p, events[0]);
      SentByPush(past, events[0]);
      MessagesAfter(past + [events[0]], events[1..], q, sent + more);
      Regroup(past, events);
      assert events == [events[0]] + events[1..];
      FirstEvent(p, events[0], events[1..], q, more);
      Assoc(sent, more, Messages(q, events[1..]));
    }
  }

  lemma MessagesAreSent(events: seq<Event>)
    ensures Messages(map[], events) == SentBy(events)
  {
    MessagesAfter([], events, map[], []);
    assert [] + events == events && [] + Messages(map[], events) == Messages(map[], events);
  }

  lemma {:induction false} WithoutCleanupPush(events: seq<Event>, e: Event)
    ensures WithoutCleanup(events + [e]) == WithoutCleanup(events) + Effective(e)
    decreases |events|
  {
    if events == [] {
      WithoutCleanupCons(e, []);
      assert [] + [e] == [e] + [];
    } else {
      var first, rest := events[0], events[1..];
      WithoutCleanupPush(rest, e);
      WithoutCleanupCons(first, rest);
      WithoutCleanupCons(first, rest + [e]);
      assert events == [first] + rest && events + [e] == [first] + (rest + [e]);
      Assoc(Effective(first), WithoutCleanup(rest), Effective(e));
    }
  }

  /** Without its cleanups a history keeps every offer ... */
  lemma {:induction false} OffersWithout(events: seq<Event>, u: string)
    ensures Waiting(StateAfter(WithoutCleanup(events)), u) == Since(events, u)
  {
    if events != [] {
      var front, e := events[..|events| - 1], events[|events| - 1];
      assert events == front + [e];
      WithoutCleanupPush(front, e);
      OffersWithout(front, u);
      if e.CleanUp? {
        assert WithoutCleanup(front) + [] == WithoutCleanup(front);
      } else {
        SentByPush(WithoutCleanup(front), e);
        WaitingAfter(StateAfter(WithoutCleanup(front)), e, u);
      }
    }
  }

  /** ... and sends whatever is live of the offers made. */
  lemma {:induction false} OfferedIsSentWithout(events: seq<Event>)
    ensures SentBy(WithoutCleanup(events)) == OfferedBy(events)
  {
    if events != [] {
      var front, e := events[..|events| - 1], events[|events| - 1];
      assert events == front + [e];
      WithoutCleanupPush(front, e);
      OfferedIsSentWithout(front);
      if e.CleanUp? {
        assert WithoutCleanup(front) + [] == WithoutCleanup(front) && OfferedBy(front) + [] == OfferedBy(front);
      } else {
        SentByPush(WithoutCleanup(front), e);
        if e.ProcessOffers? {
          OffersWithout(front, e.userId);
        }
      }
    }
  }

  ghost predicate Lossless(events: seq<Event>) {
    forall j | 0 <= j < |events| && events[j].ProcessOffers? ::
      AllLiveKept(Track(events[..j], events[j].userId), events[j].at)
  }

  ghost predicate LastLossless(events: seq<Event>)
    requires events != []
  {
    var front, e := events[..|events| - 1], events[|events| - 1];
    e.ProcessOffers? ==> AllLiveKept(Track(front, e.userId), e.at)
  }

  lemma LosslessPush(events: seq<Event>)
    requires events != []
    ensures Lossless(events) <==> (Lossless(events[..|events| - 1]) && LastLossless(events))
  {
    var n := |events| - 1;
    assert forall j | 0 <= j < n :: events[..n][..j] == events[..j];
    if Lossless(events) {
      forall j | 0 <= j < n && events[..n][j].ProcessOffers?
        ensures AllLiveKept(Track(events[..n][..j], events[..n][j].userId), events[..n][j].at)
      {
        assert events[j].ProcessOffers?;
      }
    }
  }

  lemma LastLoss(events: seq<Event>)
    requires events != []
    ensures |SentLast(events)| <= |OfferedLast(events)|
    ensures |SentLast(events)| == |OfferedLast(events)| <==> LastLossless(events)
    ensures LastLossless(events) ==> SentLast(events) == OfferedLast(events)
  {
    var front, e := events[..|events| - 1], events[|events| - 1];
    if e.ProcessOffers? {
      TrackHolds(front, e.userId);
      LossShortens(Track(front, e.userId), e.at);
    }
  }

  lemma LossAdds<T>(a: seq<T>, b: seq<T>, x: seq<T>, y: seq<T>, front: bool, last: bool)
    requires |a| <= |b| && (|a| == |b| <==> front) && (front ==> a == b)
    requires |x| <= |y| && (|x| == |y| <==> last) && (last ==> x == y)
    ensures |a + x| <= |b + y| && (|a + x| == |b + y| <==> front && last) && (front && last ==> a + x == b + y)
  {
  }

  /** A lost offer cannot be made up for: the number of messages shows it. */
  lemma {:induction false} SentIffLossless(events: seq<Event>)
    ensures |SentBy(events)| <= |OfferedBy(events)|
    ensures |SentBy(events)| == |OfferedBy(events)| <==> Lossless(events)
    ensures Lossless(events) ==> SentBy(events) == OfferedBy(events)
  {
    if events != [] {
      var front := events[..|events| - 1];
      SentIffLossless(front);
      LastLoss(events);
      LosslessPush(events);
      LossAdds(SentBy(front), OfferedBy(front), SentLast(events), OfferedLast(events), Lossless(front),
               LastLossless(events));
    }
  }

  // What is lost, in terms of the events themselves.

  function OfferAt(events: seq<Event>, i: nat): Offer
    requires i < |events| && events[i].AddOffer?
  {
    Offer(events[i].fromUserId, events[i].signal, events[i].at)
  }

  /** Event i offers something to u, who has not processed his offers since. */
  ghost predicate PendingAt(events: seq<Event>, u: string, i: nat) {
    i < |events| && events[i].AddOffer? && events[i].toUserId == u &&
    forall k | i < k < |events| :: !(events[k].ProcessOffers? && events[k].userId == u)
  }

  /** The cleanup of event c drops that offer. */
  ghost predicate DroppedAt(events: seq<Event>, u: string, i: nat, c: nat) {
    PendingAt(events, u, i) && i < c < |events| && events[c].CleanUp? && !Live(events[c].at)(OfferAt(events, i))
  }

  /** The process call of event j would find that offer live. */
  ghost predicate Lost(events: seq<Event>, i: nat, c: nat, j: nat) {
    j < |events| && events[j].ProcessOffers? && DroppedAt(events[..j], events[j].userId, i, c) &&
    Live(events[j].at)(OfferAt(events[..j], i))
  }

  ghost predicate IsPending(events: seq<Event>, u: string, o: Offer) {
    exists i :: PendingAt(events, u, i) && OfferAt(events, i) == o
  }

  ghost predicate IsDropped(events: seq<Event>, u: string, o: Offer) {
    exists i, c :: DroppedAt(events, u, i, c) && OfferAt(events, i) == o
  }

  lemma PendingPush(front: seq<Event>, e: Event, u: string, i: nat)
    ensures PendingAt(front + [e], u, i) <==>
      if i == |front| then e.AddOffer? && e.toUserId == u
      else PendingAt(front, u, i) && !(e.ProcessOffers? && e.userId == u)
  {
    var events := front + [e];
    if i < |front| && PendingAt(events, u, i) {
      forall k | i < k < |front| ensures !(front[k].ProcessOffers? && front[k].userId == u) {
        assert events[k] == front[k];
      }
      assert events[|front|] == e;
    }
  }

  lemma IsPendingPush(front: seq<Event>, e: Event, u: string, o: Offer)
    ensures IsPending(front + [e], u, o) <==>
      (IsPending(front, u, o) && !(e.ProcessOffers? && e.userId == u)) ||
      (e.AddOffer? && e.toUserId == u && o == Offer(e.fromUserId, e.signal, e.at))
  {
    var events := front + [e];
    forall i: nat
      ensures PendingAt(events, u, i) <==>
        if i == |front| then e.AddOffer? && e.toUserId == u
        else PendingAt(front, u, i) && !(e.ProcessOffers? && e.userId == u)
    {
      PendingPush(front, e, u, i);
    }
    if IsPending(front, u, o) && !(e.ProcessOffers? && e.userId == u) {
      var i: nat :| PendingAt(front, u, i) && OfferAt(front, i) == o;
      assert PendingAt(events, u, i) && OfferAt(events, i) == o;
    }
    if e.AddOffer? && e.toUserId == u && o == Offer(e.fromUserId, e.signal, e.at) {
      assert PendingAt(events, u, |front|) && OfferAt(events, |front|) == o;
    }
  }

  lemma IsDroppedPush(front: seq<Event>, e: Event, u: string, o: Offer)
    ensures IsDropped(front + [e], u, o) <==>
      (IsDropped(front, u, o) && !(e.ProcessOffers? && e.userId == u)) ||
      (e.CleanUp? && IsPending(front, u, o) && !Live(e.at)(o))
  {
    var events, n := front + [e], |front|;
    forall i: nat
      ensures PendingAt(events, u, i) <==>
        if i == n then e.AddOffer? && e.toUserId == u
        else PendingAt(front, u, i) && !(e.ProcessOffers? && e.userId == u)
    {
      PendingPush(front, e, u, i);
    }
    if IsDropped(front, u, o) && !(e.ProcessOffers? && e.userId == u) {
      var i: nat, c: nat :| DroppedAt(front, u, i, c) && OfferAt(front, i) == o;
      assert DroppedAt(events, u, i, c) && OfferAt(events, i) == o;
    }
    if e.CleanUp? && IsPending(front, u, o) && !Live(e.at)(o) {
      var i: nat :| PendingAt(front, u, i) && OfferAt(front, i) == o;
      assert DroppedAt(events, u, i, n) && OfferAt(events, i) == o;
    }
    if IsDropped(events, u, o) {
      var i: nat, c: nat :| DroppedAt(events, u, i, c) && OfferAt(events, i) == o;
      assert i < n && PendingAt(front, u, i) && OfferAt(front, i) == o;
      assert c < n ==> DroppedAt(front, u, i, c);
    }
  }

  ghost predicate TracksOffer(track: seq<Tracked>, o: Offer) {
    exists x :: x in track && x.offer == o
  }

  ghost predicate TracksDrop(track: seq<Tracked>, o: Offer) {
    exists x :: x in track && x.offer == o && !x.kept
  }

  lemma MapMembers<S, T>(s: seq<S>, f: S -> T)
    ensures forall y | y in Map(s, f) :: exists x | x in s :: f(x) == y
    ensures forall x | x in s :: f(x) in Map(s, f)
  {
    var r := Map(s, f);
    forall y | y in r ensures exists x | x in s :: f(x) == y {
      var i :| 0 <= i < |r| && r[i] == y;
      assert s[i] in s && f(s[i]) == y;
    }
    forall x | x in s ensures f(x) in r {
      var i :| 0 <= i < |s| && s[i] == x;
      assert r[i] == f(x);
    }
  }

  lemma MarkedTrack(track: seq<Tracked>, at: int, o: Offer)
    ensures TracksOffer(Map(track, Mark(at)), o) <==> TracksOffer(track, o)
    ensures TracksDrop(Map(track, Mark(at)), o) <==> TracksDrop(track, o) || (TracksOffer(track, o) && !Live(at)(o))
  {
    var marked := Map(track, Mark(at));
    MapMembers(track, Mark(at));
    if TracksOffer(track, o) {
      var x :| x in track && x.offer == o;
      assert Mark(at)(x) in marked;
    }
    if TracksDrop(track, o) {
      var x :| x in track && x.offer == o && !x.kept;
      assert Mark(at)(x) in marked;
    }
    if TracksOffer(marked, o) {
      var y :| y in marked && y.offer == o;
      var x :| x in track && Mark(at)(x) == y;
    }
    if TracksDrop(marked, o) {
      var y :| y in marked && y.offer == o && !y.kept;
      var x :| x in track && Mark(at)(x) == y;
    }
  }

  lemma PushedTrack(track: seq<Tracked>, x: Tracked, o: Offer)
    ensures TracksOffer(track + [x], o) <==> TracksOffer(track, o) || x.offer == o
    ensures TracksDrop(track + [x], o) <==> TracksDrop(track, o) || (x.offer == o && !x.kept)
  {
    assert x in track + [x] && forall y | y in track :: y in track + [x];
  }

  lemma {:induction false} TrackIsPending(events: seq<Event>, u: string, o: Offer)
    ensures TracksOffer(Track(events, u), o) <==> IsPending(events, u, o)
    ensures TracksDrop(Track(events, u), o) <==> IsDropped(events, u, o)
  {
    if events != [] {
      var front, e := events[..|events| - 1], events[|events| - 1];
      assert events == front + [e];
      TrackIsPending(front, u, o);
      IsPendingPush(front, e, u, o);
      IsDroppedPush(front, e, u, o);
      match e
      case AddOffer(to, from, signal, at) =>
        PushedTrack(Track(front, u), Tracked(Offer(from, signal, at), true), o);
      case ProcessOffers(_, _) =>
      case CleanUp(at) => MarkedTrack(Track(front, u), at, o);
    }
  }

  lemma LosslessIff(events: seq<Event>)
    ensures Lossless(events) <==> forall i, c, j :: !Lost(events, i, c, j)
  {
    forall j: nat, i: nat, c: nat | Lossless(events) && Lost(events, i, c, j) ensures false {
      var o := OfferAt(events[..j], i);
      assert IsDropped(events[..j], events[j].userId, o);
      TrackIsPending(events[..j], events[j].userId, o);
    }
    if !Lossless(events) {
      var j :| 0 <= j < |events| && events[j].ProcessOffers? &&
        !AllLiveKept(Track(events[..j], events[j].userId), events[j].at);
      var x :| x in Track(events[..j], events[j].userId) && Live(events[j].at)(x.offer) && !x.kept;
      TrackIsPending(events[..j], events[j].userId, x.offer);
      var i: nat, c: nat :| DroppedAt(events[..j], events[j].userId, i, c) && OfferAt(events[..j], i) == x.offer;
      assert Lost(events, i, c, j);
    }
  }

  /** On any clock the cleanups of a run cannot be seen if and only if no process
      call would find an offer live that a cleanup has dropped since it was made. */
  lemma CleanupUnobservableIff(events: seq<Event>)
    ensures Messages(map[], events) == Messages(map[], WithoutCleanup(events))
       <==> forall i, c, j :: !Lost(events, i, c, j)
  {
    MessagesAreSent(events);
    MessagesAreSent(WithoutCleanup(events));
    OfferedIsSentWithout(events);
    SentIffLossless(events);
    LosslessIff(events);
  }
}
