/** The signalling service's pending offers, updated in place. */
module WebRTCSignalingService {
  import opened Sequences
  import opened Offers

  class WebRTCSignalingService {
    var pendingOffers: Pending
    var emitted: seq<Message>

    constructor ()
      ensures pendingOffers == map[] && emitted == []
    {
      pendingOffers, emitted := map[], [];
    }

    method AddPendingOffer(toUserId: string, fromUserId: string, signal: string, now: int)
      modifies this`pendingOffers
      ensures pendingOffers == Add(old(pendingOffers), toUserId, fromUserId, signal, now)
      ensures Waiting(pendingOffers, toUserId)
           == old(Waiting(pendingOffers, toUserId)) + [Offer(fromUserId, signal, now)]
      ensures forall u | u != toUserId :: Waiting(pendingOffers, u) == old(Waiting(pendingOffers, u))
    {
      if toUserId !in pendingOffers {
        pendingOffers := pendingOffers[toUserId := []];
      }
      pendingOffers := pendingOffers[toUserId := pendingOffers[toUserId] + [Offer(fromUserId, signal, now)]];
    }

    method ProcessPendingOffers(userId: string, now: int)
      modifies this
      ensures pendingOffers == Process(old(pendingOffers), userId, now).0
      ensures emitted == old(emitted) + Process(old(pendingOffers), userId, now).1
      ensures Waiting(pendingOffers, userId) == []
      ensures forall u | u != userId :: Waiting(pendingOffers, u) == old(Waiting(pendingOffers, u))
      ensures exists sent: seq<Offer> ::
        ListsAll(old(Waiting(pendingOffers, userId)), YoungerThan(now, 30_000), sent) &&
        Emits(old(emitted), emitted, userId, sent)
    {
      var offers := if userId in pendingOffers then pendingOffers[userId] else [];
      pendingOffers := pendingOffers - {userId};
      emitted := EmitLive(emitted, offers, userId, now);
      SentAreLive(old(emitted), offers, now, userId);
    }

    /** One tick of the timer; the users are visited in any order. */
    method CleanUpOffers(now: int)
      modifies this`pendingOffers
      ensures pendingOffers == Cleanup(old(pendingOffers), now)
      ensures forall u ::
        ListsAll(old(Waiting(pendingOffers, u)), YoungerThan(now, 30_000), Waiting(pendingOffers, u))
      ensures forall u | u in pendingOffers :: pendingOffers[u] != []
    {
      var left := pendingOffers.Keys;
      while left != {}
        invariant left <= old(pendingOffers).Keys
        invariant Swept(old(pendingOffers), pendingOffers, left, now)
        decreases |left|
      {
        var userId :| userId in left;
        var offers := pendingOffers[userId];
        var validOffers := Filter(offers, Live(now));
        SweepStep(old(pendingOffers), pendingOffers, left, now, userId);
        if |validOffers| == 0 {
          pendingOffers := pendingOffers - {userId};
        } else if |validOffers| != |offers| {
          pendingOffers := pendingOffers[userId := validOffers];
        }
        left := left - {userId};
      }
      CleanedUp(old(pendingOffers), now);
    }
  }

  lemma SentPush(offers: seq<Offer>, i: nat, userId: string, now: int)
    requires i < |offers|
    ensures Map(Filter(offers[..i + 1], Live(now)), Sent(userId)) == Map(Filter(offers[..i], Live(now)), Sent(userId))
      + (if Live(now)(offers[i]) then [Sent(userId)(offers[i])] else [])
  {
    assert offers[..i + 1] == offers[..i] + [offers[i]];
    FilterPush(offers[..i], offers[i], Live(now));
    MapPush(Filter(offers[..i], Live(now)), offers[i], Sent(userId));
  }

  /** The loop over the offers of a process call. */
  method EmitLive(before: seq<Message>, offers: seq<Offer>, userId: string, now: int) returns (emitted: seq<Message>)
    ensures emitted == before + Map(Filter(offers, Live(now)), Sent(userId))
  {
    emitted := before;
    ghost var sent: seq<Message> := [];
    for i := 0 to |offers|
      invariant sent == Map(Filter(offers[..i], Live(now)), Sent(userId)) && emitted == before + sent
    {
      SentPush(offers, i, userId, now);
      if now - offers[i].timestamp <= OFFER_TIMEOUT {
        var message := Message(userId, offers[i].fromUserId, offers[i].signal);
        Assoc(before, sent, [message]);
        emitted, sent := emitted + [message], sent + [message];
      }
    }
    assert offers[..|offers|] == offers;
  }

  /** One message to the user for each offer, in their order. */
  ghost predicate Emits(before: seq<Message>, after: seq<Message>, userId: string, sent: seq<Offer>) {
    |after| == |before| + |sent| && after[..|before|] == before &&
    forall i | 0 <= i < |sent| :: after[|before| + i] == Message(userId, sent[i].fromUserId, sent[i].signal)
  }

  /** At most `age` milliseconds old. */
  function YoungerThan(now: int, age: int): Offer -> bool {
    (o: Offer) => now - o.timestamp <= age
  }

  lemma LiveAreYoung(offers: seq<Offer>, now: int)
    ensures ListsAll(offers, YoungerThan(now, 30_000), Filter(offers, Live(now)))
  {
    FilterSame(offers, Live(now), YoungerThan(now, 30_000));
    FilterLists(offers, YoungerThan(now, 30_000));
  }

  lemma SentAreLive(emitted: seq<Message>, offers: seq<Offer>, now: int, userId: string)
    ensures ListsAll(offers, YoungerThan(now, 30_000), Filter(offers, Live(now)))
    ensures Emits(emitted, emitted + Map(Filter(offers, Live(now)), Sent(userId)), userId, Filter(offers, Live(now)))
  {
    LiveAreYoung(offers, now);
  }

  lemma CleanedUp(p: Pending, now: int)
    ensures forall u :: ListsAll(Waiting(p, u), YoungerThan(now, 30_000), Waiting(Cleanup(p, now), u))
    ensures forall u | u in Cleanup(p, now) :: Cleanup(p, now)[u] != []
  {
    forall u ensures ListsAll(Waiting(p, u), YoungerThan(now, 30_000), Waiting(Cleanup(p, now), u)) {
      KeptAreLive(p, now, u);
    }
  }

  lemma KeptAreLive(p: Pending, now: int, u: string)
    ensures ListsAll(Waiting(p, u), YoungerThan(now, 30_000), Waiting(Cleanup(p, now), u))
  {
    WaitingAfter(p, CleanUp(now), u);
    LiveAreYoung(Waiting(p, u), now);
  }

  /** Users still to be visited have what they had, the others what is live. */
  ghost predicate Swept(before: Pending, p: Pending, left: set<string>, now: int) {
    (forall u | u in left :: u in before && u in p && p[u] == before[u]) &&
    (forall u | u in before && u !in left ::
       Waiting(p, u) == Filter(before[u], Live(now)) && (u in p ==> p[u] != [])) &&
    (forall u | u in p :: u in before)
  }

  lemma {:induction false} FilterShrinks<T>(s: seq<T>, keep: T -> bool)
    ensures |Filter(s, keep)| <= |s|
    ensures |Filter(s, keep)| == |s| ==> Filter(s, keep) == s
  {
    if s != [] {
      FilterShrinks(s[..|s| - 1], keep);
    }
  }

  lemma SweepStep(before: Pending, p: Pending, left: set<string>, now: int, u: string)
    requires Swept(before, p, left, now) && u in left
    ensures var live := Filter(p[u], Live(now));
      Swept(before, if live == [] then p - {u} else if |live| != |p[u]| then p[u := live] else p, left - {u}, now)
  {
    FilterShrinks(p[u], Live(now));
  }
}
