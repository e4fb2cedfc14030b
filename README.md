# Chord matching engine — a Dafny model

Chord is a music-based dating service. A user's Spotify taste becomes a
17-slot vector: 7 averaged audio features and 10 genre-frequency slots.
Once a day a job runs through the active users. For each user who has no
match dated today, it asks the store for nearby candidates, scores them and
inserts one match for the best.

Inside a match the two users are anonymous. They chat under pseudonyms until
one of them asks for a reveal and the other accepts. A user can block or
report a match. A user can edit a short profile and share a location, which
is rounded to about a kilometre.

This project models the server core that does all of this:

| file | models |
|---|---|
| `embedding.dfy` | the taste vector: audio averages, genre tally and ranking, cosine similarity, match score |
| `daily_matching.dfy` | `findBestMatch` and the `runDailyMatching` loop |
| `chat.dfy` | the reveal state machine and the message handlers |
| `match_views.dfy` | today's match, match history, shared items, pseudonyms, block, report |
| `users.dfy` | current-user view, profile update, location rounding and storage |

Four support files hold the shared pieces:

- `store.dfy`: the table rows and the `Database` class.
- `text.dfy`: JavaScript's `trim`, `length` and `parseInt`.
- `sorting.dfy`: a stable sort, which models `Array.prototype.sort`.
- `seqs.dfy` and `wrappers.dfy`: small helpers, and the `Option` and `Result` types.

## How the model is built

**Numbers.** Numbers are exact reals. `Math.sqrt` is a parameter, and the
lemmas that need it require it to return the non-negative square root.

**Store.** The tables are fields of one `Database` object:

- matches, messages, blocks and reports are sequences;
- users are a map keyed by user id;
- a match id is the row's position in the matches table.

`Database.Valid` is the invariant every handler keeps:

- a reveal requester is a participant of the match;
- a reveal needs a request;
- the two per-user reveal flags follow the shared flag;
- every message belongs to an existing match and was sent by one of its users.

**Handlers.** A handler that writes is a method on `Database`. Its
`modifies` clause names only the tables it writes. It is proved equal to a
pure decision function, and the properties are proved about that function.
A failing store call is a boolean parameter, for example `writeFails`.

**Time and candidates.**

- The calendar day and the current instant are the parameters `today` and `now`.
- The candidate query of the daily job is a function parameter.
- Failures of the daily job's lookups and inserts are per-iteration predicates.

**Where the code and its documentation differ.** The model follows the code:

- Ties between best candidates go to the earliest candidate the query
  returned, because the sort is stable. They are not broken by candidate
  id.
- Two users can be given the same partner on the same day, because only
  the acting user is checked against today's matches.
  `DailyMatching.DoubleBookingWithoutExclusion` shows this.
  At most one match per user per day holds only if the candidate query
  leaves out users already matched today; `DailyMatching.RunKeepsAtMostOne`
  proves it under that assumption.
- `blockUser` and `reportMatch` do not check that the caller is in the
  match.

## Model

| member | source | states |
|---|---|---|
| Embedding.AudioVector | server/src/services/embeddingService.ts:84-123 | the audio part has 7 slots and is all zeros for an empty feature list |
| Embedding.AudioVectorInUnit | server/src/services/embeddingService.ts:101-122 | with features in their typical ranges (tempo scaled by 200, loudness shifted by 60), every audio slot lies in [0, 1] |
| Embedding.FeatureSumAppend | server/src/services/embeddingService.ts:118-119 | a feature's sum over concatenated lists is the sum of the two sums |
| Embedding.AudioVectorOfDoubled | server/src/services/embeddingService.ts:101-122 | each slot is a mean: listing every track twice leaves the audio vector unchanged |
| Embedding.CountGenres | server/src/services/embeddingService.ts:135-141 | the counting loop yields the tally of all genres of all artists |
| Embedding.TallyCounts | server/src/services/embeddingService.ts:135-141 | each tallied genre's count is its number of occurrences |
| Embedding.TallyKeys | server/src/services/embeddingService.ts:135-141 | the tally's keys are exactly the genres that occur, each once |
| Embedding.TallyFirstSeen | server/src/services/embeddingService.ts:135-141 | the tally keeps genres in first-seen order |
| Embedding.RankLength | server/src/services/embeddingService.ts:143-145 | the ranking has one entry per distinct genre |
| Embedding.RankAt | server/src/services/embeddingService.ts:143-145 | each ranked entry is a present genre with its true, positive count |
| Embedding.RankCovers | server/src/services/embeddingService.ts:143-145 | every genre that occurs is ranked |
| Embedding.RankOrdered | server/src/services/embeddingService.ts:143-145 | the ranking is sorted by count, highest first |
| Embedding.RankTiesFirstSeen | server/src/services/embeddingService.ts:143-145 | genres with equal counts keep first-seen order |
| Embedding.TopGenreIsMostFrequent | server/src/services/embeddingService.ts:143-148 | no genre occurs more often than the first-ranked one |
| Embedding.ComputeGenreVector | server/src/services/embeddingService.ts:129-156 | the genre loop fills the vector given by GenreVectorOf |
| Embedding.GenreVectorAt | server/src/services/embeddingService.ts:148-154 | slot i is the i-th ranked count over the top count; slots past the distinct genres are 0 |
| Embedding.GenreVectorNormalised | server/src/services/embeddingService.ts:129-156 | no genres give ten zeros; otherwise slot 0 is 1 and every slot lies in [0, 1] |
| Embedding.GenreVectorDescending | server/src/services/embeddingService.ts:143-154 | the genre slots never increase, and a slot is positive exactly when it is within the distinct-genre count |
| Embedding.GenerateMusicEmbedding | server/src/services/embeddingService.ts:27-78 | the vector is the 7 audio slots then the 10 genre slots; top artists are the first 10, top genres the first 5 ranked, top tracks the first 5 |
| Embedding.TopGenresOf | server/src/services/embeddingService.ts:57-65 | at most 5 top genres, in ranking order |
| Embedding.TopGenreAt | server/src/services/embeddingService.ts:57-65 | a top genre's weight is its count over the number of artists |
| Embedding.TopGenreWeightIsArtistShare | server/src/services/embeddingService.ts:50-65 | when no artist repeats a genre, the weight is the share of artists listing it, in (0, 1] |
| Embedding.GenreSlotsAreWeightRatios | server/src/services/embeddingService.ts:57-65 | each of the first genre slots is that genre's weight over the top weight |
| Embedding.Cosine | server/src/services/embeddingService.ts:162-183 | vectors of different lengths fail with the dimension-mismatch error, and only they fail |
| Embedding.Ratio | server/src/services/embeddingService.ts:177-181 | a zero denominator gives 0; otherwise the result times the denominator is the dot product |
| Embedding.CosineSimilarity | server/src/services/embeddingService.ts:162-183 | the accumulation loop computes Cosine |
| Embedding.DotSymmetric | server/src/services/embeddingService.ts:170-175 | the dot product is symmetric |
| Embedding.NormZeroIffZeroVector | server/src/services/embeddingService.ts:170-175 | a squared norm is non-negative, and 0 exactly for the zero vector |
| Embedding.CosineSymmetric | server/src/services/embeddingService.ts:162-183 | similarity is symmetric in its two arguments |
| Embedding.CosineOfZeroVector | server/src/services/embeddingService.ts:177-180 | the denominator is 0 exactly when one vector is all zeros, and then the similarity is 0 |
| Embedding.CosineOrthogonal | server/src/services/embeddingService.ts:177-182 | orthogonal vectors have similarity 0 |
| Embedding.CosineSelf | server/src/services/embeddingService.ts:177-182 | a non-zero vector has similarity 1 with itself |
| Embedding.CauchySchwarz | server/src/services/embeddingService.ts:170-175 | the squared dot product is at most the product of the squared norms |
| Embedding.CosineBounded | server/src/services/embeddingService.ts:162-183 | similarity lies in [-1, 1] |
| Embedding.CosineNonNegative | server/src/services/embeddingService.ts:162-183 | vectors with no negative entry have similarity at least 0; a taste vector has none when its audio features lie in the typical ranges of Embedding.AudioVectorInUnit (a loudness below -60 dB gives a negative slot) |
| Embedding.DistanceCredit | server/src/services/embeddingService.ts:194 | the distance credit is never negative, is 0 from the maximum distance on, and is at most 1 |
| Embedding.MatchScore | server/src/services/embeddingService.ts:188-198 | beyond the maximum distance only similarity and activity count; inputs in range give a score in [0, 1] |
| Embedding.MatchScoreMonotone | server/src/services/embeddingService.ts:188-198 | the score grows with similarity and activity and shrinks with distance |
| Embedding.IdenticalNeighboursScoreOne | server/src/services/embeddingService.ts:162-198 | identical non-zero tastes at distance 0 with full activity score exactly 1 |
| DailyMatching.ScoreAll | server/src/jobs/dailyMatching.ts:128-143 | every candidate is scored, with the maximum distance fixed at 50 |
| DailyMatching.BestIndex | server/src/jobs/dailyMatching.ts:146-148 | the chosen candidate's score is at least every other's, and strictly above every earlier one's |
| DailyMatching.FindBestMatch | server/src/jobs/dailyMatching.ts:103-153 | nothing on a query error or an empty list; otherwise the first candidate with the highest score |
| DailyMatching.CountTodayAppend | server/src/jobs/dailyMatching.ts:51-56 | appending a row adds one to a user's count for today exactly when the row is dated today and involves them |
| DailyMatching.Step | server/src/jobs/dailyMatching.ts:48-91 | an iteration adds at most one row (acting user, best candidate, today); it adds none when the user is already matched today, when there is no candidate, or when the insert fails, and it adds one whenever none of these holds |
| DailyMatching.EligibleUsers | server/src/jobs/dailyMatching.ts:26-31 | exactly the active users that have a taste vector and a location are processed |
| DailyMatching.RunPrefix | server/src/jobs/dailyMatching.ts:45-92 | the table only grows, by exactly the number of matches counted, which never exceeds the users processed |
| DailyMatching.DailyRun | server/src/jobs/dailyMatching.ts:23-101 | a failed user query changes nothing; created matches never exceed eligible users |
| DailyMatching.RunDailyMatching | server/src/jobs/dailyMatching.ts:23-101 | the loop computes DailyRun |
| DailyMatching.StepKeepsAtMostOne | server/src/jobs/dailyMatching.ts:49-87 | if the candidate query leaves out users matched today, an iteration keeps every user at one match today at most |
| DailyMatching.RunKeepsAtMostOne | server/src/jobs/dailyMatching.ts:47-92 | under the same assumption, with the lookups answering, the whole pass keeps that bound |
| DailyMatching.RunTwiceKeepsAtMostOne | server/src/jobs/dailyMatching.ts:23-101 | running the job twice on one day still gives nobody a second match |
| DailyMatching.DoubleBookingWithoutExclusion | server/src/jobs/dailyMatching.ts:49-76 | without that assumption, two distinct eligible users who are both offered only the same candidate each get a row with that candidate on the same day |
| DailyMatching.InsertedRowsAreToday | server/src/jobs/dailyMatching.ts:68-76 | every inserted row is dated today, is active, and has a processed user as user1 |
| DailyMatching.NoCandidatesNoRow | server/src/jobs/dailyMatching.ts:64-66 | a user for whom no candidate comes back gets no row as user1 |
| Chat.CheckParticipant | server/src/controllers/chatController.ts:25-27 | only user1 and user2 pass; anyone else gets 403 Unauthorized |
| Chat.RequestOnRow | server/src/controllers/chatController.ts:116-130 | a participant may request until identities are revealed; a request overwrites the requester and time and changes nothing else |
| Chat.AcceptOnRow | server/src/controllers/chatController.ts:161-181 | accepting needs a pending request by the other participant; it fails once revealed, with no request, or on self-accept; success sets all three reveal flags |
| Chat.RevealIgnoresActive | server/src/controllers/chatController.ts:100-191 | the reveal handlers behave the same whether or not the match is active |
| Chat.TransitionsKeepRevealFields | server/src/controllers/chatController.ts:120-181 | both reveal transitions keep a row's reveal fields consistent |
| Chat.Replay | server/src/controllers/chatController.ts:100-191 | no sequence of reveal calls changes a match's users |
| Chat.RevealIsPermanent | server/src/controllers/chatController.ts:165-181 | once revealed, no sequence of reveal calls hides identities again |
| Chat.RequesterWasRequested | server/src/controllers/chatController.ts:120-130 | a recorded requester is a participant who made a request |
| Chat.RevealNeedsBothParticipants | server/src/controllers/chatController.ts:120-181 | a reveal needs a request by one participant followed by an accept by the other |
| Chat.SelfAcceptRejected | server/src/controllers/chatController.ts:169-171 | the requester's own accept is refused, and the other user's succeeds |
| Chat.MessagesOf | server/src/controllers/chatController.ts:29-32 | exactly the messages of the match are selected |
| Chat.Conversation | server/src/controllers/chatController.ts:29-33 | the messages of the match, oldest first |
| Chat.GetMessages | server/src/controllers/chatController.ts:9-43 | 404 before 403; succeeds exactly for a participant of an existing match, with the conversation in time order |
| Chat.SendDecision | server/src/controllers/chatController.ts:48-83 | blank content is refused before the lookup, then 404, 403 and an inactive match are refused in that order; the stored text is the trimmed, non-empty content |
| Chat.SendMessage | server/src/controllers/chatController.ts:48-95 | appends exactly one message (match, caller, trimmed text, now) when the decision succeeds, and keeps the store valid |
| Chat.RequestDecision | server/src/controllers/chatController.ts:100-130 | an unknown match is 404 before any other check |
| Chat.AcceptDecision | server/src/controllers/chatController.ts:145-181 | an unknown match is 404 before any other check |
| Chat.RequestReveal | server/src/controllers/chatController.ts:100-140 | writes the decided row in place of the match and nothing else, and keeps the store valid |
| Chat.AcceptReveal | server/src/controllers/chatController.ts:145-191 | writes the decided row in place of the match and nothing else, and keeps the store valid |
| MatchViews.SharedIds | server/src/controllers/matchController.ts:225 | no longer than the first list; a one-id list is kept exactly when the id is in the second list |
| MatchViews.SharedIdsContents | server/src/controllers/matchController.ts:225 | the shared ids are exactly those in both lists, each as often as in the first list |
| MatchViews.SharedIdsAppend | server/src/controllers/matchController.ts:225 | the filter distributes over concatenation, so the shared ids keep the first list's order |
| MatchViews.SharedWithSelf | server/src/controllers/matchController.ts:226 | every id is shared with its own list |
| MatchViews.SharedIdsOfSuperset | server/src/controllers/matchController.ts:225 | against a list that contains all of them, every id is shared |
| MatchViews.FindIndex | server/src/controllers/matchController.ts:228-233 | the first position whose key matches, or the end |
| MatchViews.FindItem | server/src/controllers/matchController.ts:228-233 | an item is found exactly when some item has the key, and it has that key |
| MatchViews.FindSharedItems | server/src/controllers/matchController.ts:220-237 | one entry per shared id: an item from the first list when it has one, else from the second, else nothing |
| MatchViews.OtherUserId | server/src/controllers/matchController.ts:31 | a participant gets the other participant; anyone else gets user1 |
| MatchViews.Pseudonym | server/src/controllers/matchController.ts:67 | "music_lover_" followed by at most 8 characters of the id |
| MatchViews.PseudonymIffSamePrefix | server/src/controllers/matchController.ts:67 | two ids get the same pseudonym exactly when their first 8 characters agree |
| MatchViews.HiddenViewRevealsOnlyPrefix | server/src/controllers/matchController.ts:60-70 | before the reveal there is no name or photo and only the id's first 8 characters show; after it the real profile shows |
| MatchViews.TodayIds | server/src/controllers/matchController.ts:14-24 | exactly the caller's active rows dated today |
| MatchViews.TodayView | server/src/controllers/matchController.ts:30-73 | the score fields are the row's, reveal_requested holds exactly when the caller is the requester, the shared artists and genres are the first 3 of findSharedItems over user1's and user2's lists, the other user is hidden until the reveal; a missing joined user is an internal error |
| MatchViews.TodayViewArtistsAreCommon | server/src/controllers/matchController.ts:34-42 | every shown shared artist is keyed by an id in both users' top artists and is one of their artists |
| MatchViews.TodayMatch | server/src/controllers/matchController.ts:9-77 | 404 unless exactly one active row of today involves the caller; otherwise the result is that row's view, and it succeeds exactly when the other user's row exists |
| MatchViews.HistoryLimit | server/src/controllers/matchController.ts:85 | a missing, non-numeric or zero limit is 30; any other parsed value is used as given |
| MatchViews.HistoryLimitOfNumber | server/src/controllers/matchController.ts:85 | a positive decimal limit is used as given |
| MatchViews.ActiveRows | server/src/controllers/matchController.ts:87-95 | exactly the caller's active rows |
| MatchViews.NewestFirst | server/src/controllers/matchController.ts:96-97 | newest first, as many as the limit allows, a sub-multiset of the rows, and at least as new as every row left out |
| MatchViews.ShownRows | server/src/controllers/matchController.ts:87-97 | the caller's active rows newest first, as many as the limit allows, without repeats beyond the table's, at least as new as every active row left out, and all of them when the limit is large enough |
| MatchViews.HistoryEntries | server/src/controllers/matchController.ts:103-120 | one entry per row with its id, date and reveal flag, and the other user shown as for today's match; it fails, with an internal error, exactly when some row's other user is missing |
| MatchViews.MatchHistory | server/src/controllers/matchController.ts:82-126 | a failed query or negative limit is the store's error; otherwise the entries of ShownRows, which succeed exactly when every shown row's other user exists: at most limit entries, newest first, each an active match of the caller, the other user pseudonymised until the reveal |
| MatchViews.UpsertBlock | server/src/controllers/matchController.ts:191-199 | the pair is present afterwards and is added only if it was missing |
| MatchViews.UpsertBlockIdempotent | server/src/controllers/matchController.ts:191-199 | upserting the same pair twice is upserting it once |
| MatchViews.UpsertBlockKeepsDistinct | server/src/controllers/matchController.ts:191-199 | the block table never holds a pair twice |
| MatchViews.BlockOutcome | server/src/controllers/matchController.ts:171-215 | 404 for an unknown match; a block error returns before deactivation; otherwise the pair is recorded and only that match's active flag is cleared |
| MatchViews.BlockTwiceIsBlockOnce | server/src/controllers/matchController.ts:171-215 | blocking twice leaves the tables as blocking once |
| MatchViews.BlockedMatchRefusesMessages | server/src/controllers/matchController.ts:205-209 | after a block nobody can send a message on that match |
| MatchViews.OutsiderCanBlock | server/src/controllers/matchController.ts:183-209 | a caller outside the match still blocks user1 and deactivates the match |
| MatchViews.BlockUser | server/src/controllers/matchController.ts:171-215 | the store changes exactly as BlockOutcome says, and stays valid |
| MatchViews.ReportReason | server/src/controllers/matchController.ts:155 | a missing or empty reason becomes "other"; any other reason is kept |
| MatchViews.ReportOutcome | server/src/controllers/matchController.ts:131-166 | 404 for an unknown match; otherwise one report by the caller against the other user |
| MatchViews.ReportMatch | server/src/controllers/matchController.ts:131-166 | appends at most one report and changes no match |
| Users.ViewDropsOnlyEmbedding | server/src/controllers/userController.ts:26-28 | the reply is the row minus the taste vector, and nothing else is lost |
| Users.CurrentUser | server/src/controllers/userController.ts:11-32 | 404 for a missing user; otherwise the row without its taste vector |
| Users.BuildProfileUpdates | server/src/controllers/userController.ts:40-50 | the update holds exactly the supplied fields; a bio over 50 UTF-16 units is refused and a null bio fails |
| Users.Update | server/src/controllers/userController.ts:42-50 | an unsupplied column keeps its value |
| Users.ApplyUpdates | server/src/controllers/userController.ts:52-57 | only the three profile columns can change |
| Users.ApplyUpdatesIdempotent | server/src/controllers/userController.ts:42-57 | repeating an update changes nothing more, and an empty update changes nothing |
| Users.BioOnlyRequest | server/src/controllers/userController.ts:44-49 | a request with only a bio changes only the bio |
| Users.UpdateProfile | server/src/controllers/userController.ts:37-67 | succeeds exactly when the bio is not null and within 50 code units, the caller's row exists and the write works; a refused request writes nothing, otherwise only the caller's row changes |
| Users.Round | server/src/controllers/userController.ts:82-83 | Math.round: within one half, halves go up |
| Users.RoundCoordinate | server/src/controllers/userController.ts:82-83 | a rounded coordinate is within 0.005 of the input |
| Users.RoundCoordinateIdempotent | server/src/controllers/userController.ts:82-83 | rounding an already rounded coordinate keeps it |
| Users.RoundCoordinateMonotone | server/src/controllers/userController.ts:82-83 | rounding keeps the order of coordinates |
| Users.FormatCentis | server/src/controllers/userController.ts:86 | a coordinate prints as sign, digits and point only |
| Users.CentisRoundTrip | server/src/controllers/userController.ts:86 | the printed coordinate reads back to the same hundredths |
| Users.PointRoundTrip | server/src/controllers/userController.ts:86 | the stored point reads back as longitude first, then latitude |
| Users.UpdateLocation | server/src/controllers/userController.ts:72-106 | a non-number coordinate is refused; otherwise only the caller's location and update time change, and the reply holds the rounded coordinates |
| Users.ReplyMatchesStoredPoint | server/src/controllers/userController.ts:82-102 | the reply and the stored point carry the same rounded coordinates |
| Text.TrimStart | server/src/controllers/chatController.ts:54 | only leading JavaScript whitespace is removed |
| Text.TrimEnd | server/src/controllers/chatController.ts:54 | only trailing JavaScript whitespace is removed |
| Text.TrimIsInnerSlice | server/src/controllers/chatController.ts:54 | trim returns a contiguous part of the input with only whitespace cut off either end |
| Text.TrimEmptyIffBlank | server/src/controllers/chatController.ts:54-56 | content trims to nothing exactly when it is all whitespace |
| Text.TrimIdempotent | server/src/controllers/chatController.ts:80 | stored content is already trimmed |
| Text.Utf16Length | server/src/controllers/userController.ts:45 | a string's length lies between its character count and twice that |
| Text.Utf16LengthAppend | server/src/controllers/userController.ts:45 | one more character adds one code unit, or two above U+FFFF |
| Text.Utf16LengthConcat | server/src/controllers/userController.ts:45 | the length of a concatenation is the sum of the lengths |
| Text.ParseIntOfNatToString | server/src/controllers/matchController.ts:85 | parseInt reads back any decimal natural number |
| Text.ParseIntNoDigits | server/src/controllers/matchController.ts:85 | text with no digit parses to NaN |
| Sorting.SortDescOrdered | server/src/jobs/dailyMatching.ts:146 | the sort gives a non-increasing permutation of its input |
| Sorting.SortDescStable | server/src/jobs/dailyMatching.ts:146 | equal keys keep their input order |
| Sorting.SortDescHead | server/src/jobs/dailyMatching.ts:146-148 | the first sorted element is the first maximum |
| Sorting.FirstMax | server/src/jobs/dailyMatching.ts:146-148 | the first position holding the maximum key |

## Left out

**Not in the model**

- Persistence. The Supabase query builder, SQL, row-level security and the
  `find_match_candidates` function are not modelled. Their results and
  failures are parameters.
- Errors from the store. A failed call is a boolean flag. Its text is the
  fixed `StoreErrorText`, because the store's own messages are not visible.
- A failing match lookup in the chat handlers and in `blockUser` and
  `reportMatch`. Each answers 404, the same reply as a missing row, so the
  model has no flag for it: an existing match is always found.
- The clock and scheduling. `today` and `now` are parameters. The cron
  registration in `server/src/jobs/dailyMatching.ts` is not modelled.
- Dates. A day is a day number, not an ISO `YYYY-MM-DD` string.
- The other server and client code, because it is network plumbing or not
  part of the matching core:
  - `server/src/services/spotifyService.ts`;
  - `server/src/controllers/authController.ts`;
  - the middleware and routes;
  - the mobile client.
- Other user handlers. `getMusicTaste` and `syncSpotify` in
  `server/src/controllers/userController.ts` only read rows or call
  Spotify, so they are not modelled.
- Logging. Nothing is logged in the model.
- Request bodies. Only absent, null and string fields are modelled.
  Numbers, booleans, arrays and objects sent in place of strings are not.

**Numbers and text**

- Floating point. Numbers are exact reals, so rounding error, NaN and
  infinities are not modelled.
- Embedding.Cosine: `Math.sqrt` is the parameter `sqrt`. The lemmas that
  need it require it to return the non-negative square root.
- Users.FormatCentis: `Number.prototype.toString` switches to exponent
  notation beyond about 1e21 and near zero. The model always prints plain
  decimals.
- Users.RoundCoordinate: the division by 100 is exact here but inexact in
  binary floating point.
- Text.ParseInt: digit runs that exceed the 53-bit precision of a JavaScript
  number are exact here.

**Behaviour that may differ from the source**

- Embedding.MatchScore: requires a positive maximum distance. With 0 the
  source divides by zero, and its only caller passes 50.
- Genre ranking. Entries with equal counts are ordered by first occurrence.
  `Object.entries` would list genres named like array indices ("1", "2")
  before the others.
- MatchViews.MatchHistory: a negative limit is taken to be refused by the
  store with 400. Ties on the creation date are listed in table order; the
  store's order for such ties is unspecified.
- MatchViews.HistoryEntry has no `music_similarity` field. The source reads
  `match.match_similarity`, which does not exist, so the field is absent
  from the JSON. An unrevealed history entry has no name or photo keys;
  the model shows them as None, which is also how it shows today's null
  values.
- MatchViews.Pseudonym: `slice(0, 8)` counts UTF-16 code units. The model
  counts characters, which agree for ASCII ids such as UUIDs.
- MatchViews.ArtistKey: an artist with no Spotify id has the empty string
  as its id, so it is looked up by name. The source's `undefined` id never
  finds an item.
- MatchViews.TodayView and MatchViews.HistoryEntries: a missing joined
  user is an internal error (500) with a fixed text instead of the
  exception's message.
- DailyMatching.FindBestMatch: a `JSON.parse` failure of the stored vector
  ends in the same null as a failed query. The query parameter can return
  `RpcError` for that case.
- Users.UpdateProfile: an update with no supplied field is treated as
  changing nothing.
- Users.UpdateProfile and Users.UpdateLocation: the row is taken to be
  present; a missing row is the store's 400.
