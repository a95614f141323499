/** Which unsubscribes of the public feed are still answered, and which are forgotten. */
module FeedChannels {
  import opened Rounding
  import opened BookFeed

  // ---------------------------------------------------------------- one step

  ghost predicate Closes(f: Feed, e: Event, matches: Checksum) {
    e.Failed? || (e.Received? && Consume(f, e.frame, matches) == None)
  }

  /** A command gives up the bound channel of a subscription that nobody uses any more. */
  predicate GivesUp(f: Feed, kind: Channel, e: Event) {
    && e.Commanded? && SubOf(f, kind).bound.Some?
    && match e.command
       case UnsubscribeQuotes => kind.BookChannel? && !f.deltas
       case UnsubscribeDepth => kind.BookChannel? && !f.quotes
       case UnsubscribeRates => kind.FundingChannel?
       case _ => false
  }

  /** A subscription left before its ACK is given up by the ACK. */
  predicate GivenUpByAck(f: Feed, kind: Channel, e: Event) {
    e.Received? && e.frame.Subscribed? && e.frame.kind == kind && SubOf(f, kind).unsubOnAck
  }

  /** The channel an event sends an unsubscribe for. */
  function Sends(f: Feed, kind: Channel, e: Event): Option<int> {
    if GivesUp(f, kind, e) then SubOf(f, kind).bound
    else if GivenUpByAck(f, kind, e) then Some(e.frame.id)
    else None
  }

  predicate Answers(e: Event, id: int) {
    e == Received(Unsubscribed(true, id))
  }

  /** The outstanding channel that sending another unsubscribe overwrites. */
  predicate Forgets(f: Feed, kind: Channel, e: Event, id: int) {
    Sends(f, kind, e).Some? && SubOf(f, kind).pending == Some(id)
  }

  lemma FrameChannels(f: Feed, frame: Frame, matches: Checksum, kind: Channel)
    requires FeedKept(f) && Consume(f, frame, matches).Some?
    ensures
      var e, s := Received(frame), SubOf(f, kind);
      SubOf(Consume(f, frame, matches).value.feed, kind).pending ==
        if Sends(f, kind, e).Some? then Sends(f, kind, e)
        else if s.pending.Some? && Answers(e, s.pending.value) then None
        else s.pending
  {
    match frame
    case Data(channel, p, precise) => DataLeavesChannels(f, channel, p, precise, matches);
    case Subscribed(_, agrees, id) => AckChannels(f, frame.kind, agrees, id, kind);
    case Unsubscribed(ok, id) =>
      UnsubscribedKeeps(f, ok, id);
      Apart(f, BookChannel, id);
      Apart(f, FundingChannel, id);
    case OtherControl(_) =>
  }

  lemma DataLeavesChannels(f: Feed, channel: int, p: Payload, precise: bool, matches: Checksum)
    requires ConsumeData(f, channel, p, precise, matches).Some?
    ensures
      var g := ConsumeData(f, channel, p, precise, matches).value.feed;
      g.booking == f.booking && g.funding == f.funding
  {
  }

  lemma AckChannels(f: Feed, acked: Channel, agrees: bool, id: int, kind: Channel)
    requires ConsumeSubscribed(f, acked, agrees, id).Some?
    ensures
      var g := ConsumeSubscribed(f, acked, agrees, id).value;
      && (acked != kind ==> SubOf(g, kind) == SubOf(f, kind))
      && (acked == kind ==> SubOf(g, kind) == Acknowledged(SubOf(f, kind), id))
  {
  }

  function Other(kind: Channel): Channel {
    if kind.BookChannel? then FundingChannel else BookChannel
  }

  // No channel belongs to both subscriptions, nor to one of them twice.
  lemma Apart(f: Feed, kind: Channel, id: int)
    requires FeedKept(f)
    ensures Has(SubOf(f, kind), id) ==> !Has(SubOf(f, Other(kind)), id)
    ensures SubOf(f, kind).bound == Some(id) ==> SubOf(f, kind).pending != Some(id)
  {
  }

  // What is sent was nobody's outstanding channel.
  lemma SentIsNew(f: Feed, e: Event, matches: Checksum, kind: Channel, id: int)
    requires FeedKept(f) && !Closes(f, e, matches) && Sends(f, kind, e) == Some(id)
    ensures SubOf(f, BookChannel).pending != Some(id) && SubOf(f, FundingChannel).pending != Some(id)
    ensures Sends(f, Other(kind), e) == None && forall k :: !Answers(e, k)
  {
    Apart(f, kind, id);
  }

  /** Without a close, an outstanding unsubscribe goes exactly when its ACK comes or the same
      subscription sends another: at once, or because its ACK gives it up. */
  lemma OutstandingGoesIff(f: Feed, e: Event, matches: Checksum, kind: Channel, id: int)
    requires FeedKept(f) && !Closes(f, e, matches) && SubOf(f, kind).pending == Some(id)
    ensures SubOf(Step(f, e, matches).feed, kind).pending != Some(id)
      <==> Answers(e, id) || Forgets(f, kind, e, id)
    ensures Sends(f, kind, e) != Some(id)
  {
    PendingFollows(f, e, matches, kind);
  }

  lemma PendingFollows(f: Feed, e: Event, matches: Checksum, kind: Channel)
    requires FeedKept(f) && !Closes(f, e, matches)
    ensures
      var s := SubOf(f, kind);
      SubOf(Step(f, e, matches).feed, kind).pending ==
        if Sends(f, kind, e).Some? then Sends(f, kind, e)
        else if s.pending.Some? && Answers(e, s.pending.value) then None
        else s.pending
  {
    match e
    case Received(frame) => FrameChannels(f, frame, matches, kind);
    case Commanded(c) => CommandChannels(f, c, kind);
    case Failed =>
  }

  lemma CommandChannels(f: Feed, c: Command, kind: Channel)
    requires FeedKept(f)
    ensures SubOf(Obey(f, c), kind).pending
      == if GivesUp(f, kind, Commanded(c)) then SubOf(f, kind).bound else SubOf(f, kind).pending
  {
  }

  // ---------------------------------------------------------------- runs

  predicate SendsAny(f: Feed, e: Event, id: int) {
    Sends(f, BookChannel, e) == Some(id) || Sends(f, FundingChannel, e) == Some(id)
  }

  predicate ForgetsAny(f: Feed, e: Event, id: int) {
    Forgets(f, BookChannel, e, id) || Forgets(f, FundingChannel, e, id)
  }

  /** The unsubscribes sent on this connection and not yet acknowledged. */
  ghost predicate Outstanding(events: seq<Event>, matches: Checksum, id: int) {
    if events == [] then false
    else
      var front, last := events[..|events| - 1], events[|events| - 1];
      var f := Run(front, matches);
      && !Closes(f, last, matches)
      && (SendsAny(f, last, id) || (Outstanding(front, matches, id) && !Answers(last, id)))
  }

  /** Since the last close an event forgot the unsubscribe, and none has sent it again. */
  ghost predicate Forgotten(events: seq<Event>, matches: Checksum, id: int) {
    exists n :: ForgottenAt(events, matches, id, n)
  }

  ghost predicate ForgottenAt(events: seq<Event>, matches: Checksum, id: int, n: int) {
    && 0 <= n < |events| && ForgetsAny(Run(events[..n], matches), events[n], id)
    && (forall m :: n <= m < |events| ==> Untouched(Run(events[..m], matches), events[m], matches, id))
  }

  ghost predicate Untouched(f: Feed, e: Event, matches: Checksum, id: int) {
    !Closes(f, e, matches) && !SendsAny(f, e, id)
  }

  lemma ForgottenStep(front: seq<Event>, last: Event, matches: Checksum, id: int)
    ensures
      var f := Run(front, matches);
      Forgotten(front + [last], matches, id)
      <==> Untouched(f, last, matches, id) && (ForgetsAny(f, last, id) || Forgotten(front, matches, id))
  {
    var all, f, k := front + [last], Run(front, matches), |front|;
    assert all[..k] == front && all[k] == last;
    assert forall m :: 0 <= m < k ==> all[..m] == front[..m] && all[m] == front[m];
    if n :| ForgottenAt(all, matches, id, n) {
      assert Untouched(Run(all[..k], matches), all[k], matches, id);
      if n < k {
        assert ForgottenAt(front, matches, id, n) by {
          assert forall m :: n <= m < k ==> Untouched(Run(all[..m], matches), all[m], matches, id);
        }
      }
    }
    if Untouched(f, last, matches, id) {
      if ForgetsAny(f, last, id) {
        assert ForgottenAt(all, matches, id, k);
      }
      if n :| ForgottenAt(front, matches, id, n) {
        assert ForgottenAt(all, matches, id, n) by {
          assert forall m :: n <= m < k ==> Untouched(Run(front[..m], matches), front[m], matches, id);
        }
      }
    }
  }

  predicate Pending(f: Feed, id: int) {
    f.booking.pending == Some(id) || f.funding.pending == Some(id)
  }

  lemma PendingStep(f: Feed, e: Event, matches: Checksum, id: int)
    requires FeedKept(f) && !Closes(f, e, matches)
    ensures Pending(Step(f, e, matches).feed, id)
      <==> SendsAny(f, e, id) || (Pending(f, id) && !Answers(e, id) && !ForgetsAny(f, e, id))
    ensures ForgetsAny(f, e, id) ==> Pending(f, id) && !SendsAny(f, e, id) && !Answers(e, id)
  {
    PendingFollows(f, e, matches, BookChannel);
    PendingFollows(f, e, matches, FundingChannel);
    SendsOnce(f, e, matches, BookChannel);
    SendsOnce(f, e, matches, FundingChannel);
    Apart(f, BookChannel, id);
  }

  lemma SendsOnce(f: Feed, e: Event, matches: Checksum, kind: Channel)
    requires FeedKept(f) && !Closes(f, e, matches)
    ensures Sends(f, kind, e).Some? ==>
      !Pending(f, Sends(f, kind, e).value) && Sends(f, Other(kind), e) == None && forall k :: !Answers(e, k)
  {
    if Sends(f, kind, e).Some? {
      SentIsNew(f, e, matches, kind, Sends(f, kind, e).value);
    }
  }

  /** The client remembers exactly the outstanding unsubscribes that were not forgotten. */
  lemma {:induction false} PendingIsRemembered(events: seq<Event>, matches: Checksum, id: int)
    ensures Pending(Run(events, matches), id)
      <==> Outstanding(events, matches, id) && !Forgotten(events, matches, id)
  {
    if events != [] {
      var front, last := events[..|events| - 1], events[|events| - 1];
      var f := Run(front, matches);
      assert events == front + [last];
      EveryRunKeeps(front, matches);
      PendingIsRemembered(front, matches, id);
      ForgottenStep(front, last, matches, id);
      if !Closes(f, last, matches) {
        PendingStep(f, last, matches, id);
      }
    }
  }

  /** Over every run, the ACK of an outstanding unsubscribe is accepted exactly when no event has
      forgotten it since: neither leaving again with it outstanding, nor an ACK of a subscription
      already left. */
  lemma OutstandingAckIff(events: seq<Event>, matches: Checksum, id: int)
    requires Outstanding(events, matches, id)
    ensures Consume(Run(events, matches), Unsubscribed(true, id), matches).Some? <==> !Forgotten(events, matches, id)
  {
    EveryRunKeeps(events, matches);
    UnsubscribeAckIff(Run(events, matches), true, id);
    PendingIsRemembered(events, matches, id);
  }

  // ---------------------------------------------------------------- a venue that numbers channels anew

  /** No subscription ACK names a channel whose unsubscribe is still outstanding. */
  ghost predicate NumbersAnew(events: seq<Event>, matches: Checksum) {
    forall n :: 0 <= n < |events| ==> NewChannel(events[..n], events[n], matches)
  }

  ghost predicate NewChannel(front: seq<Event>, e: Event, matches: Checksum) {
    e.Received? && e.frame.Subscribed? ==> !Outstanding(front, matches, e.frame.id)
  }

  predicate ForgetsSome(f: Feed, e: Event) {
    || (Sends(f, BookChannel, e).Some? && f.booking.pending.Some?)
    || (Sends(f, FundingChannel, e).Some? && f.funding.pending.Some?)
  }

  /** Since the last close, a subscription sent an unsubscribe while one of its own was outstanding. */
  ghost predicate SentTwice(events: seq<Event>, matches: Checksum) {
    if events == [] then false
    else
      var front, last := events[..|events| - 1], events[|events| - 1];
      var f := Run(front, matches);
      !Closes(f, last, matches) && (ForgetsSome(f, last) || SentTwice(front, matches))
  }

  predicate Bound(f: Feed, id: int) {
    f.booking.bound == Some(id) || f.funding.bound == Some(id)
  }

  lemma FrameBinds(f: Feed, frame: Frame, matches: Checksum, kind: Channel, id: int)
    requires FeedKept(f) && Consume(f, frame, matches).Some? && (frame.Subscribed? ==> frame.id != id)
    ensures SubOf(Consume(f, frame, matches).value.feed, kind).bound == Some(id) ==> SubOf(f, kind).bound == Some(id)
    ensures Sends(f, kind, Received(frame)) != Some(id)
  {
    match frame
    case Data(channel, p, precise) => DataLeavesChannels(f, channel, p, precise, matches);
    case Subscribed(acked, agrees, k) => AckChannels(f, acked, agrees, k, kind);
    case Unsubscribed(ok, k) => UnsubscribedKeeps(f, ok, k);
    case OtherControl(_) =>
  }

  lemma CommandBinds(f: Feed, c: Command, kind: Channel, id: int)
    requires FeedKept(f)
    ensures SubOf(Obey(f, c), kind).bound == Some(id)
      <==> SubOf(f, kind).bound == Some(id) && !GivesUp(f, kind, Commanded(c))
  {
  }

  lemma OneBoundStep(f: Feed, e: Event, matches: Checksum, kind: Channel, id: int)
    requires FeedKept(f) && !Closes(f, e, matches)
    requires e.Received? && e.frame.Subscribed? ==> e.frame.id != id
    ensures SubOf(Step(f, e, matches).feed, kind).bound == Some(id) ==>
      SubOf(f, kind).bound == Some(id) && Sends(f, kind, e) != Some(id)
    ensures Sends(f, kind, e) == Some(id) ==> SubOf(f, kind).bound == Some(id)
  {
    match e
    case Received(frame) => FrameBinds(f, frame, matches, kind, id);
    case Commanded(c) => CommandBinds(f, c, kind, id);
    case Failed =>
  }

  lemma BoundStep(f: Feed, e: Event, matches: Checksum, id: int)
    requires FeedKept(f) && !Closes(f, e, matches)
    requires e.Received? && e.frame.Subscribed? ==> e.frame.id != id
    ensures Bound(Step(f, e, matches).feed, id) ==> Bound(f, id) && !SendsAny(f, e, id)
    ensures SendsAny(f, e, id) ==> Bound(f, id)
  {
    Apart(f, BookChannel, id);
    OneBoundStep(f, e, matches, BookChannel, id);
    OneBoundStep(f, e, matches, FundingChannel, id);
  }

  // An acknowledged channel is at once bound or given up.
  lemma AckBinds(f: Feed, kind: Channel, agrees: bool, id: int, matches: Checksum)
    requires FeedKept(f) && ConsumeSubscribed(f, kind, agrees, id).Some?
    ensures
      var e := Received(Subscribed(kind, agrees, id));
      Bound(Step(f, e, matches).feed, id) ==> !SendsAny(f, e, id)
  {
    AckChannels(f, kind, agrees, id, BookChannel);
    AckChannels(f, kind, agrees, id, FundingChannel);
  }

  lemma AnewPrefix(events: seq<Event>, matches: Checksum)
    requires events != [] && NumbersAnew(events, matches)
    ensures
      var front, last := events[..|events| - 1], events[|events| - 1];
      NumbersAnew(front, matches) && NewChannel(front, last, matches)
  {
    var front, k := events[..|events| - 1], |events| - 1;
    forall n | 0 <= n < k ensures NewChannel(front[..n], front[n], matches) {
      assert front[..n] == events[..n] && front[n] == events[n];
      assert NewChannel(events[..n], events[n], matches);
    }
    assert NewChannel(events[..k], events[k], matches);
  }

  lemma {:induction false} OutstandingIsNotBound(events: seq<Event>, matches: Checksum, id: int)
    requires NumbersAnew(events, matches) && Outstanding(events, matches, id)
    ensures !Bound(Run(events, matches), id)
  {
    var front, last := events[..|events| - 1], events[|events| - 1];
    var f := Run(front, matches);
    AnewPrefix(events, matches);
    EveryRunKeeps(front, matches);
    if Outstanding(front, matches, id) {
      OutstandingIsNotBound(front, matches, id);
    }
    if last.Received? && last.frame.Subscribed? && last.frame.id == id {
      AckBinds(f, last.frame.kind, last.frame.agrees, id, matches);
    } else {
      BoundStep(f, last, matches, id);
    }
  }

  // Once forgotten, an unsubscribe stays outstanding until the feed closes.
  lemma {:induction false} SomeForgotten(events: seq<Event>, matches: Checksum) returns (id: int)
    requires NumbersAnew(events, matches) && SentTwice(events, matches)
    ensures Outstanding(events, matches, id) && Forgotten(events, matches, id)
  {
    var front, last := events[..|events| - 1], events[|events| - 1];
    var f := Run(front, matches);
    assert events == front + [last];
    AnewPrefix(events, matches);
    EveryRunKeeps(front, matches);
    if ForgetsSome(f, last) {
      id := if Sends(f, BookChannel, last).Some? && f.booking.pending.Some?
            then f.booking.pending.value else f.funding.pending.value;
      PendingIsRemembered(front, matches, id);
      PendingStep(f, last, matches, id);
    } else {
      id := SomeForgotten(front, matches);
      OutstandingAckIff(front, matches, id);
      OutstandingIsNotBound(front, matches, id);
      BoundStep(f, last, matches, id);
    }
    ForgottenStep(front, last, matches, id);
  }

  lemma ForgottenLast(front: seq<Event>, last: Event, f: Feed, matches: Checksum, id: int)
    requires f == Run(front, matches) && Forgotten(front + [last], matches, id)
    ensures !Closes(f, last, matches) && (ForgetsSome(f, last) || Forgotten(front, matches, id))
  {
    ForgottenStep(front, last, matches, id);
  }

  lemma NothingForgotten(matches: Checksum, id: int)
    ensures !Forgotten([], matches, id)
  {
  }

  lemma {:induction false} ForgottenWasSentTwice(events: seq<Event>, matches: Checksum, id: int)
    ensures Forgotten(events, matches, id) ==> SentTwice(events, matches)
  {
    if events == [] {
      NothingForgotten(matches, id);
    } else if Forgotten(events, matches, id) {
      var front, last := events[..|events| - 1], events[|events| - 1];
      assert events == front + [last];
      ForgottenLast(front, last, Run(front, matches), matches, id);
      ForgottenWasSentTwice(front, matches, id);
    }
  }

  /** With a venue that numbers channels anew, over every run the ACKs of all unsubscribes sent and
      unanswered are accepted exactly when no subscription has sent one while another of its own
      was outstanding. */
  lemma EveryAckAcceptedIff(events: seq<Event>, matches: Checksum)
    requires NumbersAnew(events, matches)
    ensures (forall id :: Outstanding(events, matches, id) ==>
               Consume(Run(events, matches), Unsubscribed(true, id), matches).Some?)
      <==> !SentTwice(events, matches)
  {
    if SentTwice(events, matches) {
      var id := SomeForgotten(events, matches);
      OutstandingAckIff(events, matches, id);
    }
    forall id | Outstanding(events, matches, id) && !Consume(Run(events, matches), Unsubscribed(true, id), matches).Some?
      ensures SentTwice(events, matches)
    {
      OutstandingAckIff(events, matches, id);
      ForgottenWasSentTwice(events, matches, id);
    }
  }

  // ---------------------------------------------------------------- the two ways to forget

  lemma RunExtends(events: seq<Event>, f: Feed, e: Event, g: Feed, matches: Checksum)
    requires Run(events, matches) == f && Step(f, e, matches).feed == g && !Closes(f, e, matches)
    ensures Run(events + [e], matches) == g
    ensures forall id :: Outstanding(events + [e], matches, id) <==>
              (SendsAny(f, e, id) || (Outstanding(events, matches, id) && !Answers(e, id)))
    ensures SentTwice(events + [e], matches) <==> ForgetsSome(f, e) || SentTwice(events, matches)
  {
    assert (events + [e])[..|events|] == events;
  }

  // The book is left on channel 1 and subscribed again before the unsubscribe is acknowledged.
  lemma LeavesAndReturns(matches: Checksum) returns (events: seq<Event>)
    ensures Run(events, matches) == CLOSED.(quotes := true, booking := Sub(true, None, Some(1), false))
    ensures Outstanding(events, matches, 1)
  {
    var on, off, first := Commanded(SubscribeQuotes), Commanded(UnsubscribeQuotes), Received(Subscribed(BookChannel, true, 1));
    var one := CLOSED.(quotes := true, booking := Sub(true, None, None, false));
    RunExtends([], CLOSED, on, one, matches);
    var two := one.(booking := Sub(true, Some(1), None, false));
    RunExtends([] + [on], one, first, two, matches);
    var three := CLOSED.(booking := Sub(false, None, Some(1), false));
    RunExtends([] + [on] + [first], two, off, three, matches);
    var four := three.(quotes := true, booking := Sub(true, None, Some(1), false));
    RunExtends([] + [on] + [first] + [off], three, on, four, matches);
    events := [] + [on] + [first] + [off] + [on];
  }

  /** Leaving again with the first unsubscribe outstanding forgets it: its ACK then closes the feed. */
  lemma SecondLeaveForgetsFirst(matches: Checksum) returns (events: seq<Event>)
    ensures Outstanding(events, matches, 1) && Run(events, matches).booking.pending == Some(2)
    ensures Consume(Run(events, matches), Unsubscribed(true, 1), matches) == None
  {
    var off, second := Commanded(UnsubscribeQuotes), Received(Subscribed(BookChannel, true, 2));
    var start := LeavesAndReturns(matches);
    var four := Run(start, matches);
    var five := four.(booking := Sub(true, Some(2), Some(1), false));
    RunExtends(start, four, second, five, matches);
    var six := CLOSED.(booking := Sub(false, None, Some(2), false));
    RunExtends(start + [second], five, off, six, matches);
    events := start + [second] + [off];
  }

  /** So does the ACK of a subscription that was left before it came. */
  lemma LateAckForgetsFirst(matches: Checksum) returns (events: seq<Event>)
    ensures Outstanding(events, matches, 1) && Run(events, matches).booking.pending == Some(2)
    ensures Consume(Run(events, matches), Unsubscribed(true, 1), matches) == None
  {
    var off, second := Commanded(UnsubscribeQuotes), Received(Subscribed(BookChannel, true, 2));
    var start := LeavesAndReturns(matches);
    var four := Run(start, matches);
    var five := CLOSED.(booking := Sub(true, None, Some(1), true));
    RunExtends(start, four, off, five, matches);
    var six := CLOSED.(booking := Sub(false, None, Some(2), false));
    RunExtends(start + [off], five, second, six, matches);
    events := start + [off] + [second];
  }
}
