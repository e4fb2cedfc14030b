// The match controller: today's match and the match history as the caller
// sees them (the other user pseudonymised until the reveal, shared artists
// and genres), and the block and report actions.

module MatchViews {
  import opened Wrappers
  import opened Seqs
  import opened Sorting
  import opened Text
  import opened Embedding
  import opened Store
  import Chat

  const NoMatchToday := "No match found for today"
  const PseudonymPrefix := "music_lover_"
  const PseudonymIdChars: nat := 8
  const SharedShown: nat := 3
  const DefaultHistoryLimit: int := 30
  const DefaultReportReason := "other"
  /** Reading a field of a missing joined user throws; the handler answers
      500 with the exception's text. */
  const InternalError := HttpError(500, "internal error")

  // ---------------------------------------------------------------------
  // Shared items
  // ---------------------------------------------------------------------

  /** The ids of ids1 that also occur in ids2, in ids1's order and with
      ids1's repetitions. */
  function SharedIds(ids1: seq<string>, ids2: seq<string>): (r: seq<string>)
    ensures |r| <= |ids1|
    ensures |ids1| == 1 ==> r == if ids1[0] in ids2 then ids1 else []
  {
    if ids1 == [] then []
    else
      var init := ids1[..|ids1| - 1];
      var last := ids1[|ids1| - 1];
      assert ids1 == init + [last];
      SharedIds(init, ids2) + (if last in ids2 then [last] else [])
  }

  /** The shared ids are exactly the ids of both lists, each as often as
      in the first list. */
  lemma {:induction false} SharedIdsContents(ids1: seq<string>, ids2: seq<string>)
    ensures forall x :: x in SharedIds(ids1, ids2) <==> x in ids1 && x in ids2
    ensures forall x :: multiset(SharedIds(ids1, ids2))[x] == if x in ids2 then multiset(ids1)[x] else 0
  {
    if ids1 != [] {
      var init := ids1[..|ids1| - 1];
      var last := ids1[|ids1| - 1];
      assert ids1 == init + [last];
      SharedIdsContents(init, ids2);
    }
  }

  /** Filtering distributes over concatenation: the shared ids keep the
      first list's order. */
  lemma {:induction false} SharedIdsAppend(a: seq<string>, b: seq<string>, ids2: seq<string>)
    ensures SharedIds(a + b, ids2) == SharedIds(a, ids2) + SharedIds(b, ids2)
  {
    if b == [] {
      assert a + b == a;
    } else {
      var init := b[..|b| - 1];
      var last := b[|b| - 1];
      assert b == init + [last];
      assert a + b == (a + init) + [last];
      var tail := if last in ids2 then [last] else [];
      SharedIdsSnoc(a + init, last, ids2);
      SharedIdsSnoc(init, last, ids2);
      SharedIdsAppend(a, init, ids2);
      var sa, si := SharedIds(a, ids2), SharedIds(init, ids2);
      assert SharedIds(a + b, ids2) == (sa + si) + tail;
      assert (sa + si) + tail == sa + (si + tail);
    }
  }

  lemma SharedIdsSnoc(a: seq<string>, x: string, ids2: seq<string>)
    ensures SharedIds(a + [x], ids2) == SharedIds(a, ids2) + (if x in ids2 then [x] else [])
  {
    assert (a + [x])[..|a|] == a;
  }

  /** Everything in a list is shared with the list itself, in order. */
  lemma SharedWithSelf(ids: seq<string>)
    ensures SharedIds(ids, ids) == ids
  {
    SharedIdsOfSuperset(ids, ids);
  }

  /** Against a list that holds all of them, every id is shared. */
  lemma {:induction false} SharedIdsOfSuperset(ids1: seq<string>, ids2: seq<string>)
    requires forall x :: x in ids1 ==> x in ids2
    ensures SharedIds(ids1, ids2) == ids1
  {
    if ids1 != [] {
      var init := ids1[..|ids1| - 1];
      assert ids1 == init + [ids1[|ids1| - 1]];
      SharedIdsOfSuperset(init, ids2);
    }
  }

  /** Position of the first item whose key is id, or |items| if none. */
  function FindIndex<T>(items: seq<T>, key: T -> string, id: string): (i: nat)
    ensures i <= |items|
    ensures i < |items| ==> key(items[i]) == id
    ensures forall j :: 0 <= j < i ==> key(items[j]) != id
  {
    if items == [] then 0
    else if key(items[0]) == id then 0
    else 1 + FindIndex(items[1..], key, id)
  }

  /** Array.prototype.find with the given key. */
  function FindItem<T>(items: seq<T>, key: T -> string, id: string): (r: Option<T>)
    ensures r.Some? <==> exists i :: 0 <= i < |items| && key(items[i]) == id
    ensures r.Some? ==> key(r.value) == id && r.value in items
  {
    var i := FindIndex(items, key, id);
    if i < |items| then Some(items[i]) else None
  }

  /** findSharedItems: for each shared id, the first item of items1 with that
      key, else the first of items2, else nothing. */
  function FindSharedItems<T>(ids1: seq<string>, ids2: seq<string>, items1: seq<T>, items2: seq<T>,
                              key: T -> string): (r: seq<Option<T>>)
    ensures |r| == |SharedIds(ids1, ids2)|
    ensures forall k :: 0 <= k < |r| ==>
      (r[k].Some? ==> key(r[k].value) == SharedIds(ids1, ids2)[k] && (r[k].value in items1 || r[k].value in items2))
    ensures forall k :: 0 <= k < |r| ==>
      (r[k].None? <==>
         (forall i :: 0 <= i < |items1| ==> key(items1[i]) != SharedIds(ids1, ids2)[k])
         && (forall i :: 0 <= i < |items2| ==> key(items2[i]) != SharedIds(ids1, ids2)[k]))
    ensures forall k :: 0 <= k < |r| ==>
      (FindItem(items1, key, SharedIds(ids1, ids2)[k]).Some? ==> r[k].Some? && r[k].value in items1)
  {
    var shared := SharedIds(ids1, ids2);
    var r := seq(|shared|, k requires 0 <= k < |shared| =>
      var first := FindItem(items1, key, shared[k]);
      if first.Some? then first else FindItem(items2, key, shared[k]));
    r
  }

  /** An artist is looked up by its Spotify id, or by name when it has
      none. */
  function ArtistKey(a: ArtistSummary): string
  {
    if a.spotifyId != "" then a.spotifyId else a.name
  }

  /** A genre entry has no Spotify id, so it is looked up by name. */
  function GenreKey(g: GenreWeight): string
  {
    g.name
  }

  function ArtistIds(artists: seq<ArtistSummary>): (r: seq<string>)
    ensures |r| == |artists| && forall i :: 0 <= i < |artists| ==> r[i] == artists[i].spotifyId
  {
    seq(|artists|, i requires 0 <= i < |artists| => artists[i].spotifyId)
  }

  function GenreNames(genres: seq<GenreWeight>): (r: seq<string>)
    ensures |r| == |genres| && forall i :: 0 <= i < |genres| ==> r[i] == genres[i].name
  {
    seq(|genres|, i requires 0 <= i < |genres| => genres[i].name)
  }

  // ---------------------------------------------------------------------
  // The other user
  // ---------------------------------------------------------------------

  /** The other user of a match: user2 for user1, and user1 for anyone
      else, participant or not. */
  function OtherUserId(m: MatchRow, caller: UserId): (o: UserId)
    ensures IsParticipant(m, caller) ==> IsParticipant(m, o)
    ensures IsParticipant(m, caller) && m.user1 != m.user2 ==> o != caller
    ensures !IsParticipant(m, caller) ==> o == m.user1
  {
    if m.user1 == caller then m.user2 else m.user1
  }

  /** The stable pseudonym shown before the reveal. */
  function Pseudonym(id: UserId): (p: string)
    ensures |p| == |PseudonymPrefix| + Min(PseudonymIdChars, |id|)
    ensures p[..|PseudonymPrefix|] == PseudonymPrefix
  {
    PseudonymPrefix + Take(id, PseudonymIdChars)
  }

  /** Two ids get the same pseudonym exactly when their first eight
      characters agree. */
  lemma PseudonymIffSamePrefix(a: UserId, b: UserId)
    ensures Pseudonym(a) == Pseudonym(b) <==> Take(a, PseudonymIdChars) == Take(b, PseudonymIdChars)
  {
    if Pseudonym(a) == Pseudonym(b) {
      assert Take(a, PseudonymIdChars) == Pseudonym(a)[|PseudonymPrefix|..];
      assert Take(b, PseudonymIdChars) == Pseudonym(b)[|PseudonymPrefix|..];
    }
  }

  /** The other user as shown to the caller. */
  datatype OtherUserView = OtherUserView(id: string, displayName: Option<string>, profilePhotoUrl: Option<string>)

  function ShowOtherUser(u: UserRow, revealed: bool): (v: OtherUserView)
  {
    if revealed then OtherUserView(u.id, u.displayName, u.profilePhotoUrl)
    else OtherUserView(Pseudonym(u.id), None, None)
  }

  /** Before the reveal the view carries no name or photo and depends on the
      other user's id only through its first eight characters; after it,
      the view is the real profile. */
  lemma HiddenViewRevealsOnlyPrefix(u: UserRow, w: UserRow)
    ensures ShowOtherUser(u, false).displayName.None? && ShowOtherUser(u, false).profilePhotoUrl.None?
    ensures ShowOtherUser(u, false) == ShowOtherUser(w, false) <==>
      Take(u.id, PseudonymIdChars) == Take(w.id, PseudonymIdChars)
    ensures ShowOtherUser(u, true) == OtherUserView(u.id, u.displayName, u.profilePhotoUrl)
  {
    PseudonymIffSamePrefix(u.id, w.id);
  }

  // ---------------------------------------------------------------------
  // Today's match
  // ---------------------------------------------------------------------

  predicate IsTodaysMatchOf(m: MatchRow, caller: UserId, today: Date)
  {
    IsParticipant(m, caller) && m.createdDate == today && m.isActive
  }

  /** Ids of the active rows of today involving the caller, ascending. */
  function TodayIds(matches: seq<MatchRow>, caller: UserId, today: Date): (r: seq<MatchId>)
    ensures forall i: nat :: i in r <==> (i < |matches| && IsTodaysMatchOf(matches[i], caller, today))
  {
    if matches == [] then []
    else
      var n := |matches| - 1;
      TodayIds(matches[..n], caller, today) + (if IsTodaysMatchOf(matches[n], caller, today) then [n] else [])
  }

  datatype TodayMatchView = TodayMatchView(
    id: MatchId,
    matchScore: real,
    musicSimilarity: real,
    distanceKm: real,
    identitiesRevealed: bool,
    revealRequested: bool,
    otherUser: OtherUserView,
    sharedArtists: seq<Option<ArtistSummary>>,
    sharedGenres: seq<Option<GenreWeight>>)

  function ArtistsOf(users: map<UserId, UserRow>, u: UserId): seq<ArtistSummary>
  {
    if u in users then users[u].topArtists else []
  }

  function GenresOf(users: map<UserId, UserRow>, u: UserId): seq<GenreWeight>
  {
    if u in users then users[u].topGenres else []
  }

  /** findSharedItems over the two users' top artists, keyed by Spotify
      id. */
  function SharedArtists(users: map<UserId, UserRow>, m: MatchRow): seq<Option<ArtistSummary>>
  {
    var artists1, artists2 := ArtistsOf(users, m.user1), ArtistsOf(users, m.user2);
    FindSharedItems(ArtistIds(artists1), ArtistIds(artists2), artists1, artists2, ArtistKey)
  }

  /** findSharedItems over the two users' top genres, keyed by name. */
  function SharedGenres(users: map<UserId, UserRow>, m: MatchRow): seq<Option<GenreWeight>>
  {
    var genres1, genres2 := GenresOf(users, m.user1), GenresOf(users, m.user2);
    FindSharedItems(GenreNames(genres1), GenreNames(genres2), genres1, genres2, GenreKey)
  }

  /** The shaping of one found match for the caller. */
  function TodayView(id: MatchId, m: MatchRow, users: map<UserId, UserRow>, caller: UserId): (r: Result<TodayMatchView, HttpError>)
    ensures r.Failure? <==> OtherUserId(m, caller) !in users
    ensures r.Success? ==>
      var v := r.value;
      && v.id == id && v.identitiesRevealed == m.identitiesRevealed
      && (v.revealRequested <==> m.revealRequestedBy == Some(caller))
      && |v.sharedArtists| <= SharedShown && |v.sharedGenres| <= SharedShown
      && v.otherUser == ShowOtherUser(users[OtherUserId(m, caller)], m.identitiesRevealed)
    ensures r.Success? ==>
      var v := r.value;
      && v.matchScore == m.matchScore && v.musicSimilarity == m.musicSimilarity && v.distanceKm == m.distanceKm
      && v.sharedArtists == Take(SharedArtists(users, m), SharedShown)
      && v.sharedGenres == Take(SharedGenres(users, m), SharedShown)
  {
    var other := OtherUserId(m, caller);
    if other !in users then Failure(InternalError)
    else
      Success(TodayMatchView(id, m.matchScore, m.musicSimilarity, m.distanceKm, m.identitiesRevealed,
                             m.revealRequestedBy == Some(caller),
                             ShowOtherUser(users[other], m.identitiesRevealed),
                             Take(SharedArtists(users, m), SharedShown), Take(SharedGenres(users, m), SharedShown)))
  }

  /** Every artist shown as shared is keyed by a Spotify id that both users'
      top artists carry, and it is one of those users' artists. */
  lemma TodayViewArtistsAreCommon(id: MatchId, m: MatchRow, users: map<UserId, UserRow>, caller: UserId, k: nat)
    requires TodayView(id, m, users, caller).Success?
    requires k < |TodayView(id, m, users, caller).value.sharedArtists|
    requires TodayView(id, m, users, caller).value.sharedArtists[k].Some?
    ensures var a := TodayView(id, m, users, caller).value.sharedArtists[k].value;
      && ArtistKey(a) in ArtistIds(ArtistsOf(users, m.user1))
      && ArtistKey(a) in ArtistIds(ArtistsOf(users, m.user2))
      && (a in ArtistsOf(users, m.user1) || a in ArtistsOf(users, m.user2))
  {
    var shared := SharedIds(ArtistIds(ArtistsOf(users, m.user1)), ArtistIds(ArtistsOf(users, m.user2)));
    SharedIdsContents(ArtistIds(ArtistsOf(users, m.user1)), ArtistIds(ArtistsOf(users, m.user2)));
    assert shared[k] in shared;
  }

  /** getTodayMatch: the caller's one active match dated today, or 404 when
      there is none or more than one (or the query fails). */
  function TodayMatch(matches: seq<MatchRow>, users: map<UserId, UserRow>, caller: UserId, today: Date,
                      queryFails: bool): (r: Result<TodayMatchView, HttpError>)
    ensures queryFails || |TodayIds(matches, caller, today)| != 1 ==> r == Failure(HttpError(404, NoMatchToday))
    ensures !queryFails && |TodayIds(matches, caller, today)| == 1 ==>
      var id := TodayIds(matches, caller, today)[0];
      id < |matches| && r == TodayView(id, matches[id], users, caller)
    ensures r.Success? <==>
      && !queryFails && |TodayIds(matches, caller, today)| == 1
      && OtherUserId(matches[TodayIds(matches, caller, today)[0]], caller) in users
    ensures r.Success? ==>
      && r.value.id < |matches| && IsTodaysMatchOf(matches[r.value.id], caller, today)
      && (forall i :: 0 <= i < |matches| && IsTodaysMatchOf(matches[i], caller, today) ==> i == r.value.id)
    ensures r.Success? ==>
      var m := matches[r.value.id];
      var other := OtherUserId(m, caller);
      && other in users
      && (r.value.revealRequested <==> m.revealRequestedBy == Some(caller))
      && r.value.identitiesRevealed == m.identitiesRevealed
      && |r.value.sharedArtists| <= SharedShown && |r.value.sharedGenres| <= SharedShown
      && (!m.identitiesRevealed ==> r.value.otherUser == OtherUserView(Pseudonym(users[other].id), None, None))
      && (m.identitiesRevealed ==> r.value.otherUser.id == users[other].id)
  {
    var ids := TodayIds(matches, caller, today);
    if queryFails || |ids| != 1 then Failure(HttpError(404, NoMatchToday))
    else
      var id := ids[0];
      assert id in ids;
      assert forall i :: 0 <= i < |matches| && IsTodaysMatchOf(matches[i], caller, today) ==> i == id by {
        forall i | 0 <= i < |matches| && IsTodaysMatchOf(matches[i], caller, today) ensures i == id {
          assert i in ids;
        }
      }
      TodayView(id, matches[id], users, caller)
  }

  // ---------------------------------------------------------------------
  // History
  // ---------------------------------------------------------------------

  /** parseInt(limit) || 30: an absent, non-numeric or zero limit is 30. */
  function HistoryLimit(limit: Option<string>): (n: int)
    ensures n != 0
    ensures limit.None? ==> n == DefaultHistoryLimit
    ensures limit.Some? && ParseInt(limit.value).None? ==> n == DefaultHistoryLimit
    ensures limit.Some? && ParseInt(limit.value) == Some(0) ==> n == DefaultHistoryLimit
    ensures limit.Some? && ParseInt(limit.value).Some? && ParseInt(limit.value).value != 0 ==>
      n == ParseInt(limit.value).value
  {
    var parsed := if limit.None? then None else ParseInt(limit.value);
    if parsed.None? || parsed.value == 0 then DefaultHistoryLimit else parsed.value
  }

  /** A limit written as a positive decimal number is taken as given. */
  lemma HistoryLimitOfNumber(n: nat)
    requires n > 0
    ensures HistoryLimit(Some(NatToString(n))) == n
  {
    ParseIntOfNatToString(n);
  }

  /** A match row together with its id. */
  datatype Row = Row(id: MatchId, m: MatchRow)

  function RowDate(r: Row): real
  {
    r.m.createdDate as real
  }

  /** The caller's active rows, in table order. */
  function ActiveRows(matches: seq<MatchRow>, caller: UserId): (r: seq<Row>)
    ensures forall x :: x in r <==> x.id < |matches| && x.m == matches[x.id] && IsParticipant(x.m, caller) && x.m.isActive
  {
    if matches == [] then []
    else
      var n := |matches| - 1;
      var rest := ActiveRows(matches[..n], caller);
      assert forall x :: x in rest ==> x.id < n && matches[x.id] == matches[..n][x.id];
      rest + (if IsParticipant(matches[n], caller) && matches[n].isActive then [Row(n, matches[n])] else [])
  }

  datatype HistoryEntry = HistoryEntry(id: MatchId, createdDate: Date, identitiesRevealed: bool, otherUser: OtherUserView)

  function HistoryEntries(rows: seq<Row>, users: map<UserId, UserRow>, caller: UserId): (r: Result<seq<HistoryEntry>, HttpError>)
    ensures r.Success? <==> forall k :: 0 <= k < |rows| ==> OtherUserId(rows[k].m, caller) in users
    ensures r.Failure? ==> r.error == InternalError
    ensures r.Success? ==> |r.value| == |rows|
    ensures r.Success? ==> forall k :: 0 <= k < |rows| ==>
      && r.value[k].id == rows[k].id && r.value[k].createdDate == rows[k].m.createdDate
      && r.value[k].identitiesRevealed == rows[k].m.identitiesRevealed
      && OtherUserId(rows[k].m, caller) in users
      && r.value[k].otherUser == ShowOtherUser(users[OtherUserId(rows[k].m, caller)], rows[k].m.identitiesRevealed)
  {
    if rows == [] then Success([])
    else
      match HistoryEntries(rows[..|rows| - 1], users, caller)
      case Failure(e) => Failure(e)
      case Success(init) =>
        var row := rows[|rows| - 1];
        var other := OtherUserId(row.m, caller);
        if other !in users then Failure(InternalError)
        else Success(init + [HistoryEntry(row.id, row.m.createdDate, row.m.identitiesRevealed,
                                          ShowOtherUser(users[other], row.m.identitiesRevealed))])
  }

  lemma OrderedRows(rows: seq<Row>)
    ensures |SortDesc(rows, RowDate)| == |rows|
    ensures multiset(SortDesc(rows, RowDate)) == multiset(rows)
    ensures NonIncreasing(SortDesc(rows, RowDate), RowDate)
    ensures forall x :: x in SortDesc(rows, RowDate) <==> x in rows
  {
    SortDescOrdered(rows, RowDate);
    forall x ensures x in SortDesc(rows, RowDate) <==> x in rows {
      assert x in SortDesc(rows, RowDate) <==> x in multiset(SortDesc(rows, RowDate));
      assert x in rows <==> x in multiset(rows);
    }
  }

  /** Cutting a newest-first list keeps rows at least as new as every row
      it drops. */
  lemma {:induction false} TakeKeepsNewest(ordered: seq<Row>, n: nat)
    requires NonIncreasing(ordered, RowDate)
    ensures forall x, k :: x in ordered && x !in Take(ordered, n) && 0 <= k < |Take(ordered, n)| ==>
      Take(ordered, n)[k].m.createdDate >= x.m.createdDate
    ensures forall i, j :: 0 <= i < j < |Take(ordered, n)| ==>
      Take(ordered, n)[i].m.createdDate >= Take(ordered, n)[j].m.createdDate
  {
    var shown := Take(ordered, n);
    forall i, j | 0 <= i < j < |shown| ensures shown[i].m.createdDate >= shown[j].m.createdDate {
      assert RowDate(ordered[i]) >= RowDate(ordered[j]);
    }
    forall x, k | x in ordered && x !in shown && 0 <= k < |shown|
      ensures shown[k].m.createdDate >= x.m.createdDate
    {
      var j :| 0 <= j < |ordered| && ordered[j] == x;
      assert j >= |shown|;
      assert RowDate(ordered[k]) >= RowDate(ordered[j]);
    }
  }

  lemma TakeIsSubMultiset<T>(s: seq<T>, n: nat)
    ensures multiset(Take(s, n)) <= multiset(s)
  {
    if n <= |s| {
      assert s == s[..n] + s[n..];
    }
  }

  /** Rows newest first (ties in their given order), cut to the first n:
      a sub-multiset of the rows, as new as any row it leaves out. */
  function NewestFirst(rows: seq<Row>, n: nat): (shown: seq<Row>)
    ensures |shown| == Min(n, |rows|)
    ensures forall i, j :: 0 <= i < j < |shown| ==> shown[i].m.createdDate >= shown[j].m.createdDate
    ensures multiset(shown) <= multiset(rows)
    ensures n >= |rows| ==> multiset(shown) == multiset(rows)
    ensures forall x, k :: x in rows && x !in shown && 0 <= k < |shown| ==>
      shown[k].m.createdDate >= x.m.createdDate
  {
    var ordered := SortDesc(rows, RowDate);
    OrderedRows(rows);
    TakeIsSubMultiset(ordered, n);
    TakeKeepsNewest(ordered, n);
    assert n >= |ordered| ==> Take(ordered, n) == ordered;
    Take(ordered, n)
  }

  /** The caller's active rows, newest first (ties in table order), cut to
      the first n. */
  function ShownRows(matches: seq<MatchRow>, caller: UserId, n: nat): (rows: seq<Row>)
    ensures |rows| == Min(n, |ActiveRows(matches, caller)|)
    ensures forall i, j :: 0 <= i < j < |rows| ==> rows[i].m.createdDate >= rows[j].m.createdDate
    ensures forall k :: 0 <= k < |rows| ==> rows[k] in ActiveRows(matches, caller)
    ensures n >= |ActiveRows(matches, caller)| ==> multiset(rows) == multiset(ActiveRows(matches, caller))
    ensures multiset(rows) <= multiset(ActiveRows(matches, caller))
    ensures forall x, k :: x in ActiveRows(matches, caller) && x !in rows && 0 <= k < |rows| ==>
      rows[k].m.createdDate >= x.m.createdDate
  {
    var active := ActiveRows(matches, caller);
    var shown := NewestFirst(active, n);
    assert forall k :: 0 <= k < |shown| ==> shown[k] in multiset(active);
    shown
  }

  /** getMatchHistory: the caller's active matches, newest first, at most
      limit of them. A negative limit is rejected by the store. */
  function MatchHistory(matches: seq<MatchRow>, users: map<UserId, UserRow>, caller: UserId,
                        limit: Option<string>, queryFails: bool): (r: Result<seq<HistoryEntry>, HttpError>)
    ensures queryFails || HistoryLimit(limit) < 0 ==> r == Failure(StoreError)
    ensures !queryFails && HistoryLimit(limit) > 0 ==>
      r == HistoryEntries(ShownRows(matches, caller, HistoryLimit(limit)), users, caller)
    ensures r.Success? <==>
      && !queryFails && HistoryLimit(limit) > 0
      && forall x :: x in ShownRows(matches, caller, HistoryLimit(limit)) ==> OtherUserId(x.m, caller) in users
    ensures r.Success? ==> forall k :: 0 <= k < |r.value| ==>
      var m := matches[r.value[k].id];
      && r.value[k].identitiesRevealed == m.identitiesRevealed
      && OtherUserId(m, caller) in users
      && (!m.identitiesRevealed ==>
            r.value[k].otherUser == OtherUserView(Pseudonym(users[OtherUserId(m, caller)].id), None, None))
    ensures r.Success? ==> HistoryLimit(limit) > 0
    ensures r.Success? ==> |r.value| == Min(HistoryLimit(limit), |ActiveRows(matches, caller)|)
    ensures r.Success? ==> forall i, j :: 0 <= i < j < |r.value| ==> r.value[i].createdDate >= r.value[j].createdDate
    ensures r.Success? ==> forall k :: 0 <= k < |r.value| ==>
      var id := r.value[k].id;
      id < |matches| && IsParticipant(matches[id], caller) && matches[id].isActive
  {
    var n := HistoryLimit(limit);
    if queryFails || n < 0 then Failure(StoreError)
    else
      var shown := ShownRows(matches, caller, n);
      assert forall k :: 0 <= k < |shown| ==> shown[k] in shown && shown[k].m == matches[shown[k].id];
      HistoryEntries(shown, users, caller)
  }

  // ---------------------------------------------------------------------
  // Block
  // ---------------------------------------------------------------------

  /** Upsert of a block pair keyed by (blocker, blocked). */
  function UpsertBlock(blocks: seq<Block>, b: Block): (r: seq<Block>)
    ensures forall x :: x in r <==> x in blocks || x == b
    ensures b in blocks ==> r == blocks
    ensures b !in blocks ==> r == blocks + [b]
  {
    if b in blocks then blocks else blocks + [b]
  }

  lemma UpsertBlockIdempotent(blocks: seq<Block>, b: Block)
    ensures UpsertBlock(UpsertBlock(blocks, b), b) == UpsertBlock(blocks, b)
  {
  }

  /** Upserting never duplicates a pair. */
  lemma UpsertBlockKeepsDistinct(blocks: seq<Block>, b: Block)
    requires Distinct(blocks)
    ensures Distinct(UpsertBlock(blocks, b))
  {
  }

  datatype BlockResult = BlockResult(reply: Result<bool, HttpError>, matches: seq<MatchRow>, blocks: seq<Block>)

  /** blockUser as a value: not found; else the pair (caller, other user) is
      upserted, and unless that fails the match is deactivated. The
      deactivation's own outcome is not checked, and the caller is never
      checked to be in the match. */
  function BlockOutcome(matches: seq<MatchRow>, blocks: seq<Block>, id: MatchId, caller: UserId,
                        blockFails: bool, deactivateFails: bool): (r: BlockResult)
    ensures id >= |matches| ==> r == BlockResult(Failure(NotFoundError), matches, blocks)
    ensures id < |matches| && blockFails ==> r == BlockResult(Failure(StoreError), matches, blocks)
    ensures id < |matches| && !blockFails ==>
      && r.reply == Success(true)
      && r.blocks == UpsertBlock(blocks, Block(caller, OtherUserId(matches[id], caller)))
      && |r.matches| == |matches|
      && (forall i :: 0 <= i < |matches| && i != id ==> r.matches[i] == matches[i])
      && r.matches[id].isActive == (deactivateFails && matches[id].isActive)
      && r.matches[id].(isActive := matches[id].isActive) == matches[id]
  {
    if id >= |matches| then BlockResult(Failure(NotFoundError), matches, blocks)
    else
      var blocked := OtherUserId(matches[id], caller);
      if blockFails then BlockResult(Failure(StoreError), matches, blocks)
      else
        var blocks' := UpsertBlock(blocks, Block(caller, blocked));
        var matches' := if deactivateFails then matches else matches[id := matches[id].(isActive := false)];
        BlockResult(Success(true), matches', blocks')
  }

  /** Blocking twice leaves the tables as blocking once. */
  lemma BlockTwiceIsBlockOnce(matches: seq<MatchRow>, blocks: seq<Block>, id: MatchId, caller: UserId)
    requires id < |matches|
    ensures var once := BlockOutcome(matches, blocks, id, caller, false, false);
      var twice := BlockOutcome(once.matches, once.blocks, id, caller, false, false);
      twice.matches == once.matches && twice.blocks == once.blocks
  {
    var once := BlockOutcome(matches, blocks, id, caller, false, false);
    assert once.matches[id].user1 == matches[id].user1 && once.matches[id].user2 == matches[id].user2;
    assert OtherUserId(once.matches[id], caller) == OtherUserId(matches[id], caller);
    UpsertBlockIdempotent(blocks, Block(caller, OtherUserId(matches[id], caller)));
  }

  /** After a block, neither user can send a message on that match. */
  lemma BlockedMatchRefusesMessages(matches: seq<MatchRow>, blocks: seq<Block>, id: MatchId, caller: UserId,
                                    sender: UserId, content: Option<string>)
    requires id < |matches|
    ensures Chat.SendDecision(BlockOutcome(matches, blocks, id, caller, false, false).matches, id, sender, content).Failure?
  {
  }

  /** The controller does not check that the caller is in the match: an
      outsider's block still records a pair and deactivates the match. */
  lemma OutsiderCanBlock(matches: seq<MatchRow>, blocks: seq<Block>, id: MatchId, caller: UserId)
    requires id < |matches| && !IsParticipant(matches[id], caller)
    ensures var o := BlockOutcome(matches, blocks, id, caller, false, false);
      o.reply.Success? && !o.matches[id].isActive && Block(caller, matches[id].user1) in o.blocks
  {
  }

  /** blockUser on the store. */
  method BlockUser(db: Database, matchId: MatchId, caller: UserId, blockFails: bool, deactivateFails: bool)
    returns (r: Result<bool, HttpError>)
    requires db.Valid()
    modifies db`blocks, db`matches
    ensures db.Valid()
    ensures var o := BlockOutcome(old(db.matches), old(db.blocks), matchId, caller, blockFails, deactivateFails);
      r == o.reply && db.matches == o.matches && db.blocks == o.blocks
  {
    if matchId >= |db.matches| {
      return Failure(NotFoundError);
    }
    var m := db.matches[matchId];
    var blockedUserId := if m.user1 == caller then m.user2 else m.user1;
    if blockFails {
      return Failure(StoreError);
    }
    db.blocks := UpsertBlock(db.blocks, Block(caller, blockedUserId));
    if !deactivateFails {
      db.matches := db.matches[matchId := m.(isActive := false)];
      assert forall k :: 0 <= k < |db.messages| ==>
        (IsParticipant(db.matches[db.messages[k].matchId], db.messages[k].senderId)
         == IsParticipant(old(db.matches)[db.messages[k].matchId], db.messages[k].senderId));
    }
    return Success(true);
  }

  // ---------------------------------------------------------------------
  // Report
  // ---------------------------------------------------------------------

  /** reason || 'other'. */
  function ReportReason(reason: Option<string>): (s: string)
    ensures s != []
    ensures reason.Some? && reason.value != [] ==> s == reason.value
  {
    if reason.None? || reason.value == [] then DefaultReportReason else reason.value
  }

  /** reportMatch as a value: not found, else one report naming the other
      user (user1 for an outsider), or the store's error. */
  function ReportOutcome(matches: seq<MatchRow>, id: MatchId, caller: UserId, reason: Option<string>,
                         insertFails: bool): (r: Result<Report, HttpError>)
    ensures id >= |matches| ==> r == Failure(NotFoundError)
    ensures r.Success? <==> id < |matches| && !insertFails
    ensures r.Success? ==>
      r.value.reporter == caller && r.value.matchId == id
      && r.value.reported == OtherUserId(matches[id], caller) && r.value.reason == ReportReason(reason)
  {
    if id >= |matches| then Failure(NotFoundError)
    else
      var reported := OtherUserId(matches[id], caller);
      if insertFails then Failure(StoreError)
      else Success(Report(caller, reported, id, ReportReason(reason)))
  }

  /** reportMatch on the store: appends at most one report and changes no
      match. */
  method ReportMatch(db: Database, matchId: MatchId, caller: UserId, reason: Option<string>, insertFails: bool)
    returns (r: Result<bool, HttpError>)
    modifies db`reports
    ensures var o := ReportOutcome(db.matches, matchId, caller, reason, insertFails);
      && (o.Failure? ==> r == Failure(o.error) && db.reports == old(db.reports))
      && (o.Success? ==> r == Success(true) && db.reports == old(db.reports) + [o.value])
  {
    if matchId >= |db.matches| {
      return Failure(NotFoundError);
    }
    var m := db.matches[matchId];
    var reportedUserId := if m.user1 == caller then m.user2 else m.user1;
    if insertFails {
      return Failure(StoreError);
    }
    db.reports := db.reports + [Report(caller, reportedUserId, matchId, ReportReason(reason))];
    return Success(true);
  }
}
