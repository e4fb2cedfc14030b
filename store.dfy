// The rows of the server's tables and the store that holds them. Each table
// is an in-memory sequence (or, for users, a map keyed by id); a match is
// identified by its position in the matches table.

module Store {
  import opened Wrappers
  import opened Embedding

  type UserId = string
  /** A calendar day (the `created_at` date of a match), as a day number. */
  type Date = int
  /** An instant, for message creation and reveal-request times. */
  type Timestamp = int
  type MatchId = nat

  /** A row of the matches table. */
  datatype MatchRow = MatchRow(
    user1: UserId,
    user2: UserId,
    createdDate: Date,
    matchScore: real,
    musicSimilarity: real,
    distanceKm: real,
    isActive: bool,
    revealRequestedBy: Option<UserId>,
    revealRequestedAt: Option<Timestamp>,
    identitiesRevealed: bool,
    user1Revealed: bool,
    user2Revealed: bool)

  /** A freshly inserted match: the table's defaults leave it active and
      with nothing requested or revealed. */
  function NewMatchRow(user1: UserId, user2: UserId, today: Date, matchScore: real,
                       musicSimilarity: real, distanceKm: real): (m: MatchRow)
    ensures m.user1 == user1 && m.user2 == user2 && m.createdDate == today
    ensures m.isActive && m.revealRequestedBy.None? && !m.identitiesRevealed
  {
    MatchRow(user1, user2, today, matchScore, musicSimilarity, distanceKm,
             true, None, None, false, false, false)
  }

  predicate IsParticipant(m: MatchRow, u: UserId)
  {
    m.user1 == u || m.user2 == u
  }

  datatype Message = Message(matchId: MatchId, senderId: UserId, content: string, createdAt: Timestamp)

  datatype Block = Block(blocker: UserId, blocked: UserId)

  datatype Report = Report(reporter: UserId, reported: UserId, matchId: MatchId, reason: string)

  /** A row of the users table (the columns the core reads or writes). */
  datatype UserRow = UserRow(
    id: UserId,
    displayName: Option<string>,
    bio: Option<string>,
    profilePhotoUrl: Option<string>,
    isActive: bool,
    musicEmbedding: Option<seq<real>>,
    location: Option<string>,
    lastLocationUpdate: Option<Timestamp>,
    topArtists: seq<ArtistSummary>,
    topGenres: seq<GenreWeight>,
    topTracks: seq<TrackSummary>)

  /** An error reply: HTTP status and the `error` text of the JSON body. */
  datatype HttpError = HttpError(status: nat, message: string)

  const MatchNotFound := "Match not found"
  const Unauthorized := "Unauthorized"
  /** The text of an error the store itself reports; the handlers pass it
      through unchanged. */
  const StoreErrorText := "store error"

  const NotFoundError := HttpError(404, MatchNotFound)
  const ForbiddenError := HttpError(403, Unauthorized)
  const StoreError := HttpError(400, StoreErrorText)

  /** What a match row keeps true under the reveal protocol: a request is
      made by a participant, a reveal needs a request, and the two per-user
      flags follow the shared one. */
  ghost predicate RevealFieldsValid(m: MatchRow)
  {
    && (m.revealRequestedBy.Some? ==> IsParticipant(m, m.revealRequestedBy.value))
    && (m.identitiesRevealed ==> m.revealRequestedBy.Some?)
    && m.user1Revealed == m.identitiesRevealed
    && m.user2Revealed == m.identitiesRevealed
  }

  /** A message belongs to an existing match and was sent by one of its
      two users. */
  ghost predicate MessageValid(matches: seq<MatchRow>, msg: Message)
  {
    msg.matchId < |matches| && IsParticipant(matches[msg.matchId], msg.senderId)
  }

  class Database {
    var matches: seq<MatchRow>
    var messages: seq<Message>
    var blocks: seq<Block>
    var reports: seq<Report>
    var users: map<UserId, UserRow>

    ghost predicate Valid()
      reads this
    {
      && (forall i :: 0 <= i < |matches| ==> RevealFieldsValid(matches[i]))
      && (forall k :: 0 <= k < |messages| ==> MessageValid(matches, messages[k]))
    }

    constructor ()
      ensures Valid()
      ensures matches == [] && messages == [] && blocks == [] && reports == [] && users == map[]
    {
      matches := [];
      messages := [];
      blocks := [];
      reports := [];
      users := map[];
    }
  }
}
