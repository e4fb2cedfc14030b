// The chat handlers: reading and sending messages, and the two-step
// identity reveal. Each handler looks the match up (not found), checks the
// caller is one of its two users (unauthorized), then runs its own guards
// before writing.

module Chat {
  import opened Wrappers
  import opened Sorting
  import opened Text
  import opened Store

  const MessageContentRequired := "Message content required"
  const MatchInactive := "Match is no longer active"
  const AlreadyRevealed := "Identities already revealed"
  const NoRevealPending := "No reveal request pending"
  const RevealRequestSent := "Reveal request sent"
  const IdentitiesRevealedText := "Identities revealed"

  /** The participant check every handler applies to the match it found. */
  function CheckParticipant(m: MatchRow, caller: UserId): (r: Result<MatchRow, HttpError>)
    ensures r.Success? <==> IsParticipant(m, caller)
    ensures r.Success? ==> r.value == m
    ensures r.Failure? ==> r.error == ForbiddenError
  {
    if m.user1 != caller && m.user2 != caller then Failure(ForbiddenError) else Success(m)
  }

  // ---------------------------------------------------------------------
  // Reveal, on one match row
  // ---------------------------------------------------------------------

  /** requestReveal on a found match: participants only, and only before
      the reveal; the caller becomes the requester, replacing any earlier
      one. Nothing else in the row changes. */
  function RequestOnRow(m: MatchRow, caller: UserId, now: Timestamp): (r: Result<MatchRow, HttpError>)
    ensures r.Success? <==> IsParticipant(m, caller) && !m.identitiesRevealed
    ensures !IsParticipant(m, caller) ==> r == Failure(ForbiddenError)
    ensures IsParticipant(m, caller) && m.identitiesRevealed ==> r == Failure(HttpError(400, AlreadyRevealed))
    ensures r.Success? ==> r.value.revealRequestedBy == Some(caller) && r.value.revealRequestedAt == Some(now)
    ensures r.Success? ==> r.value.(revealRequestedBy := m.revealRequestedBy, revealRequestedAt := m.revealRequestedAt) == m
  {
    match CheckParticipant(m, caller)
    case Failure(e) => Failure(e)
    case Success(row) =>
      if row.identitiesRevealed then Failure(HttpError(400, AlreadyRevealed))
      else Success(row.(revealRequestedBy := Some(caller), revealRequestedAt := Some(now)))
  }

  /** acceptReveal on a found match: participants only, before the reveal,
      and only when the other participant has a request pending (no
      self-accept). All three reveal flags become true; nothing else
      changes. */
  function AcceptOnRow(m: MatchRow, caller: UserId): (r: Result<MatchRow, HttpError>)
    ensures r.Success? <==>
      IsParticipant(m, caller) && !m.identitiesRevealed
      && m.revealRequestedBy.Some? && m.revealRequestedBy.value != caller
    ensures !IsParticipant(m, caller) ==> r == Failure(ForbiddenError)
    ensures IsParticipant(m, caller) && m.identitiesRevealed ==> r == Failure(HttpError(400, AlreadyRevealed))
    ensures IsParticipant(m, caller) && !m.identitiesRevealed && m.revealRequestedBy in {None, Some(caller)} ==>
      r == Failure(HttpError(400, NoRevealPending))
    ensures r.Success? ==> r.value == m.(identitiesRevealed := true, user1Revealed := true, user2Revealed := true)
  {
    match CheckParticipant(m, caller)
    case Failure(e) => Failure(e)
    case Success(row) =>
      if row.identitiesRevealed then Failure(HttpError(400, AlreadyRevealed))
      else if row.revealRequestedBy.None? || row.revealRequestedBy.value == caller then
        Failure(HttpError(400, NoRevealPending))
      else Success(row.(identitiesRevealed := true, user1Revealed := true, user2Revealed := true))
  }

  /** The reveal handlers do not look at is_active: activating or
      deactivating a match changes neither outcome beyond that flag. */
  lemma RevealIgnoresActive(m: MatchRow, caller: UserId, now: Timestamp, active: bool)
    ensures RequestOnRow(m.(isActive := active), caller, now).Success? == RequestOnRow(m, caller, now).Success?
    ensures RequestOnRow(m, caller, now).Success? ==>
      RequestOnRow(m.(isActive := active), caller, now).value == RequestOnRow(m, caller, now).value.(isActive := active)
    ensures AcceptOnRow(m.(isActive := active), caller).Success? == AcceptOnRow(m, caller).Success?
    ensures AcceptOnRow(m, caller).Success? ==>
      AcceptOnRow(m.(isActive := active), caller).value == AcceptOnRow(m, caller).value.(isActive := active)
  {
  }

  /** Both transitions keep the reveal invariant of a row. */
  lemma TransitionsKeepRevealFields(m: MatchRow, caller: UserId, now: Timestamp)
    requires RevealFieldsValid(m)
    ensures RequestOnRow(m, caller, now).Success? ==> RevealFieldsValid(RequestOnRow(m, caller, now).value)
    ensures AcceptOnRow(m, caller).Success? ==> RevealFieldsValid(AcceptOnRow(m, caller).value)
  {
  }

  // ---------------------------------------------------------------------
  // Reveal histories
  // ---------------------------------------------------------------------

  /** A reveal call made on one match. */
  datatype RevealCall = RequestCall(actor: UserId, at: Timestamp) | AcceptCall(actor: UserId)

  function ApplyCall(m: MatchRow, c: RevealCall): (r: MatchRow)
    ensures r.user1 == m.user1 && r.user2 == m.user2
  {
    var out := match c
      case RequestCall(actor, at) => RequestOnRow(m, actor, at)
      case AcceptCall(actor) => AcceptOnRow(m, actor);
    if out.Success? then out.value else m
  }

  /** The row after a sequence of reveal calls; rejected calls change
      nothing. */
  function Replay(m: MatchRow, calls: seq<RevealCall>): (r: MatchRow)
    ensures r.user1 == m.user1 && r.user2 == m.user2
  {
    if calls == [] then m else ApplyCall(Replay(m, calls[..|calls| - 1]), calls[|calls| - 1])
  }

  /** Once revealed, always revealed: no call sets the flags back. */
  lemma {:induction false} RevealIsPermanent(m: MatchRow, calls: seq<RevealCall>)
    requires m.identitiesRevealed && m.user1Revealed && m.user2Revealed
    ensures Replay(m, calls).identitiesRevealed && Replay(m, calls).user1Revealed && Replay(m, calls).user2Revealed
  {
    if calls != [] {
      RevealIsPermanent(m, calls[..|calls| - 1]);
    }
  }

  /** A pending requester was set by an earlier request call of theirs. */
  lemma {:induction false} RequesterWasRequested(m: MatchRow, calls: seq<RevealCall>, p: UserId)
    requires m.revealRequestedBy.None?
    requires Replay(m, calls).revealRequestedBy == Some(p)
    ensures exists i :: 0 <= i < |calls| && calls[i].RequestCall? && calls[i].actor == p && IsParticipant(m, p)
  {
    var n := |calls|;
    var prev := Replay(m, calls[..n - 1]);
    var last := calls[n - 1];
    if last.RequestCall? && RequestOnRow(prev, last.actor, last.at).Success? {
      assert last.actor == p;
    } else {
      assert prev.revealRequestedBy == Some(p);
      RequesterWasRequested(m, calls[..n - 1], p);
      var i :| 0 <= i < n - 1 && calls[..n - 1][i].RequestCall? && calls[..n - 1][i].actor == p && IsParticipant(m, p);
      assert calls[i] == calls[..n - 1][i];
    }
  }

  /** Consent: starting from a fresh match, identities are revealed only if
      one participant requested and the other participant accepted later. */
  lemma {:induction false} RevealNeedsBothParticipants(m: MatchRow, calls: seq<RevealCall>)
    requires m.revealRequestedBy.None? && !m.identitiesRevealed
    requires Replay(m, calls).identitiesRevealed
    ensures exists i, j ::
      && 0 <= i < j < |calls| && calls[i].RequestCall? && calls[j].AcceptCall?
      && calls[i].actor != calls[j].actor && IsParticipant(m, calls[i].actor) && IsParticipant(m, calls[j].actor)
  {
    var n := |calls|;
    var prefix := calls[..n - 1];
    var prev := Replay(m, prefix);
    if prev.identitiesRevealed {
      RevealNeedsBothParticipants(m, prefix);
      var i, j :| 0 <= i < j < |prefix| && prefix[i].RequestCall? && prefix[j].AcceptCall?
        && prefix[i].actor != prefix[j].actor && IsParticipant(m, prefix[i].actor) && IsParticipant(m, prefix[j].actor);
      assert calls[i] == prefix[i] && calls[j] == prefix[j];
    } else {
      var last := calls[n - 1];
      assert last.AcceptCall? && AcceptOnRow(prev, last.actor).Success?;
      var p := prev.revealRequestedBy.value;
      RequesterWasRequested(m, prefix, p);
      var i :| 0 <= i < |prefix| && prefix[i].RequestCall? && prefix[i].actor == p && IsParticipant(m, p);
      assert calls[i] == prefix[i];
      assert IsParticipant(m, last.actor);
    }
  }

  /** The self-accept scenario: A requests, A's own accept is refused, and
      B's accept reveals both identities. */
  lemma SelfAcceptRejected(today: Date, now: Timestamp)
    ensures var m := NewMatchRow("a", "b", today, 0.9, 0.8, 1.0);
      var requested := RequestOnRow(m, "a", now);
      && requested.Success?
      && AcceptOnRow(requested.value, "a") == Failure(HttpError(400, NoRevealPending))
      && AcceptOnRow(requested.value, "b").Success?
      && AcceptOnRow(requested.value, "b").value.identitiesRevealed
  {
  }

  // ---------------------------------------------------------------------
  // Messages
  // ---------------------------------------------------------------------

  /** The messages of one match, in table order. */
  function MessagesOf(msgs: seq<Message>, id: MatchId): (r: seq<Message>)
    ensures forall x :: x in r <==> x in msgs && x.matchId == id
  {
    if msgs == [] then []
    else MessagesOf(msgs[..|msgs| - 1], id) + (if msgs[|msgs| - 1].matchId == id then [msgs[|msgs| - 1]] else [])
  }

  function NegatedTime(msg: Message): real
  {
    -(msg.createdAt as real)
  }

  /** The messages of a match in ascending creation order; a stable sort,
      so messages created at the same time stay in table order. */
  function Conversation(msgs: seq<Message>, id: MatchId): (r: seq<Message>)
    ensures multiset(r) == multiset(MessagesOf(msgs, id))
    ensures forall i, j :: 0 <= i < j < |r| ==> r[i].createdAt <= r[j].createdAt
  {
    var mine := MessagesOf(msgs, id);
    SortDescOrdered(mine, NegatedTime);
    var r := SortDesc(mine, NegatedTime);
    assert forall i, j :: 0 <= i < j < |r| ==> NegatedTime(r[i]) >= NegatedTime(r[j]);
    r
  }

  /** getMessages: not found, then unauthorized, then the conversation; a
      failed read is reported as the store's error. Nothing changes. */
  method GetMessages(db: Database, matchId: MatchId, caller: UserId, readFails: bool)
    returns (r: Result<seq<Message>, HttpError>)
    ensures matchId >= |db.matches| ==> r == Failure(NotFoundError)
    ensures matchId < |db.matches| && !IsParticipant(db.matches[matchId], caller) ==> r == Failure(ForbiddenError)
    ensures r.Success? <==> matchId < |db.matches| && IsParticipant(db.matches[matchId], caller) && !readFails
    ensures r.Success? ==> r.value == Conversation(db.messages, matchId)
  {
    if matchId >= |db.matches| {
      return Failure(NotFoundError);
    }
    var m := db.matches[matchId];
    if m.user1 != caller && m.user2 != caller {
      return Failure(ForbiddenError);
    }
    if readFails {
      return Failure(StoreError);
    }
    return Success(Conversation(db.messages, matchId));
  }

  /** sendMessage's decision: blank content is refused before the lookup;
      then not found, unauthorized, and an inactive match; otherwise the
      trimmed content is what gets stored. */
  function SendDecision(matches: seq<MatchRow>, id: MatchId, caller: UserId, content: Option<string>): (r: Result<string, HttpError>)
    ensures content.None? || AllWhitespace(content.value) ==> r == Failure(HttpError(400, MessageContentRequired))
    ensures content.Some? && !AllWhitespace(content.value) && id >= |matches| ==> r == Failure(NotFoundError)
    ensures r.Success? <==>
      content.Some? && !AllWhitespace(content.value)
      && id < |matches| && IsParticipant(matches[id], caller) && matches[id].isActive
    ensures r.Success? ==> r.value == Trim(content.value) && r.value != []
  {
    if content.None? then Failure(HttpError(400, MessageContentRequired))
    else
      TrimEmptyIffBlank(content.value);
      if Trim(content.value) == [] then Failure(HttpError(400, MessageContentRequired))
      else if id >= |matches| then Failure(NotFoundError)
      else match CheckParticipant(matches[id], caller)
        case Failure(e) => Failure(e)
        case Success(m) =>
          if !m.isActive then Failure(HttpError(400, MatchInactive)) else Success(Trim(content.value))
  }

  /** sendMessage: on success one message, from the caller and with the
      trimmed content, is appended; otherwise nothing changes. */
  method SendMessage(db: Database, matchId: MatchId, caller: UserId, content: Option<string>,
                     now: Timestamp, writeFails: bool) returns (r: Result<Message, HttpError>)
    requires db.Valid()
    modifies db`messages
    ensures db.Valid()
    ensures var d := SendDecision(db.matches, matchId, caller, content);
      && (d.Failure? ==> r == Failure(d.error) && db.messages == old(db.messages))
      && (d.Success? && writeFails ==> r == Failure(StoreError) && db.messages == old(db.messages))
      && (d.Success? && !writeFails ==>
            r == Success(Message(matchId, caller, d.value, now))
            && db.messages == old(db.messages) + [Message(matchId, caller, d.value, now)])
  {
    if content.None? || Trim(content.value) == [] {
      TrimEmptyIffBlank(content.GetOr(""));
      return Failure(HttpError(400, MessageContentRequired));
    }
    TrimEmptyIffBlank(content.value);
    if matchId >= |db.matches| {
      return Failure(NotFoundError);
    }
    var m := db.matches[matchId];
    if m.user1 != caller && m.user2 != caller {
      return Failure(ForbiddenError);
    }
    if !m.isActive {
      return Failure(HttpError(400, MatchInactive));
    }
    if writeFails {
      return Failure(StoreError);
    }
    var message := Message(matchId, caller, Trim(content.value), now);
    db.messages := db.messages + [message];
    return Success(message);
  }

  // ---------------------------------------------------------------------
  // Reveal handlers
  // ---------------------------------------------------------------------

  /** requestReveal on the table: not found, then the row-level decision. */
  function RequestDecision(matches: seq<MatchRow>, id: MatchId, caller: UserId, now: Timestamp): (r: Result<MatchRow, HttpError>)
    ensures id >= |matches| ==> r == Failure(NotFoundError)
    ensures id < |matches| ==> r == RequestOnRow(matches[id], caller, now)
  {
    if id >= |matches| then Failure(NotFoundError) else RequestOnRow(matches[id], caller, now)
  }

  function AcceptDecision(matches: seq<MatchRow>, id: MatchId, caller: UserId): (r: Result<MatchRow, HttpError>)
    ensures id >= |matches| ==> r == Failure(NotFoundError)
    ensures id < |matches| ==> r == AcceptOnRow(matches[id], caller)
  {
    if id >= |matches| then Failure(NotFoundError) else AcceptOnRow(matches[id], caller)
  }

  /** requestReveal: on success the match's requester is the caller and
      every other row is unchanged. */
  method RequestReveal(db: Database, matchId: MatchId, caller: UserId, now: Timestamp, writeFails: bool)
    returns (r: Result<string, HttpError>)
    requires db.Valid()
    modifies db`matches
    ensures db.Valid()
    ensures var d := RequestDecision(old(db.matches), matchId, caller, now);
      && (d.Failure? ==> r == Failure(d.error) && db.matches == old(db.matches))
      && (d.Success? && writeFails ==> r == Failure(StoreError) && db.matches == old(db.matches))
      && (d.Success? && !writeFails ==>
            r == Success(RevealRequestSent) && db.matches == old(db.matches)[matchId := d.value])
  {
    if matchId >= |db.matches| {
      return Failure(NotFoundError);
    }
    var m := db.matches[matchId];
    if m.user1 != caller && m.user2 != caller {
      return Failure(ForbiddenError);
    }
    if m.identitiesRevealed {
      return Failure(HttpError(400, AlreadyRevealed));
    }
    if writeFails {
      return Failure(StoreError);
    }
    var updated := m.(revealRequestedBy := Some(caller), revealRequestedAt := Some(now));
    TransitionsKeepRevealFields(m, caller, now);
    db.matches := db.matches[matchId := updated];
    assert forall k :: 0 <= k < |db.messages| ==>
      (IsParticipant(db.matches[db.messages[k].matchId], db.messages[k].senderId)
       == IsParticipant(old(db.matches)[db.messages[k].matchId], db.messages[k].senderId));
    return Success(RevealRequestSent);
  }

  /** acceptReveal: on success the match is revealed for both users and
      every other row is unchanged. */
  method AcceptReveal(db: Database, matchId: MatchId, caller: UserId, writeFails: bool)
    returns (r: Result<string, HttpError>)
    requires db.Valid()
    modifies db`matches
    ensures db.Valid()
    ensures var d := AcceptDecision(old(db.matches), matchId, caller);
      && (d.Failure? ==> r == Failure(d.error) && db.matches == old(db.matches))
      && (d.Success? && writeFails ==> r == Failure(StoreError) && db.matches == old(db.matches))
      && (d.Success? && !writeFails ==>
            r == Success(IdentitiesRevealedText) && db.matches == old(db.matches)[matchId := d.value])
  {
    if matchId >= |db.matches| {
      return Failure(NotFoundError);
    }
    var m := db.matches[matchId];
    if m.user1 != caller && m.user2 != caller {
      return Failure(ForbiddenError);
    }
    if m.identitiesRevealed {
      return Failure(HttpError(400, AlreadyRevealed));
    }
    if m.revealRequestedBy.None? || m.revealRequestedBy.value == caller {
      return Failure(HttpError(400, NoRevealPending));
    }
    if writeFails {
      return Failure(StoreError);
    }
    var updated := m.(identitiesRevealed := true, user1Revealed := true, user2Revealed := true);
    TransitionsKeepRevealFields(m, caller, 0);
    db.matches := db.matches[matchId := updated];
    assert forall k :: 0 <= k < |db.messages| ==>
      (IsParticipant(db.matches[db.messages[k].matchId], db.messages[k].senderId)
       == IsParticipant(old(db.matches)[db.messages[k].matchId], db.messages[k].senderId));
    return Success(IdentitiesRevealedText);
  }
}
