// The nightly matching pass: for each eligible user in turn, skip them if
// they already have today's match, otherwise ask the candidate source for
// candidates, score them, take the best, and insert one match row.

module DailyMatching {
  import opened Wrappers
  import opened Sorting
  import opened Embedding
  import opened Store

  /** The maximum distance the job passes to the candidate source and to
      the match score. */
  const MaxDistanceKm: real := 50.0

  /** One row of the candidate source's reply. */
  datatype Candidate = Candidate(id: UserId, musicSimilarity: real, distanceKm: real, activityScore: real)

  /** The candidate source either fails or returns a list of candidates. */
  datatype CandidateReply = RpcError | Candidates(rows: seq<Candidate>)

  datatype ScoredCandidate = ScoredCandidate(
    userId: UserId, musicSimilarity: real, distanceKm: real, activityScore: real, matchScore: real)

  /** The candidate source is opaque: it sees the acting user and the
      matches table as it stands when it is asked. */
  type CandidateSource = (UserRow, seq<MatchRow>) -> CandidateReply

  function ScoreCandidate(c: Candidate): ScoredCandidate
  {
    ScoredCandidate(c.id, c.musicSimilarity, c.distanceKm, c.activityScore,
                    MatchScore(c.musicSimilarity, c.distanceKm, c.activityScore, MaxDistanceKm))
  }

  function ScoreOf(s: ScoredCandidate): real
  {
    s.matchScore
  }

  function ScoreAll(cs: seq<Candidate>): (r: seq<ScoredCandidate>)
    ensures |r| == |cs| && forall j :: 0 <= j < |cs| ==> r[j] == ScoreCandidate(cs[j])
  {
    seq(|cs|, j requires 0 <= j < |cs| => ScoreCandidate(cs[j]))
  }

  /** Position of the winning candidate: its score is the highest, and every
      candidate listed before it scores strictly less. */
  function BestIndex(cs: seq<Candidate>): (k: nat)
    requires |cs| > 0
    ensures k < |cs|
    ensures forall j :: 0 <= j < |cs| ==> ScoreCandidate(cs[j]).matchScore <= ScoreCandidate(cs[k]).matchScore
    ensures forall j :: 0 <= j < k ==> ScoreCandidate(cs[j]).matchScore < ScoreCandidate(cs[k]).matchScore
  {
    var scored := ScoreAll(cs);
    var k := FirstMax(scored, ScoreOf);
    assert forall j :: 0 <= j < |cs| ==> ScoreOf(scored[j]) == ScoreCandidate(cs[j]).matchScore;
    k
  }

  /** findBestMatch: nothing when the source fails or offers no one;
      otherwise the first element after a stable sort by descending score,
      which is the earliest candidate with the highest score. */
  function FindBestMatch(reply: CandidateReply): (r: Option<ScoredCandidate>)
    ensures r.None? <==> reply.RpcError? || reply.rows == []
    ensures r.Some? ==> r.value == ScoreCandidate(reply.rows[BestIndex(reply.rows)])
  {
    match reply
    case RpcError => None
    case Candidates(rows) =>
      if rows == [] then None
      else
        var scored := ScoreAll(rows);
        SortDescHead(scored, ScoreOf);
        Some(SortDesc(scored, ScoreOf)[0])
  }

  // ---------------------------------------------------------------------
  // One iteration
  // ---------------------------------------------------------------------

  /** How many rows of today involve u. */
  function CountToday(ms: seq<MatchRow>, u: UserId, today: Date): nat
  {
    if ms == [] then 0
    else
      var last := ms[|ms| - 1];
      CountToday(ms[..|ms| - 1], u, today) + (if IsParticipant(last, u) && last.createdDate == today then 1 else 0)
  }

  lemma CountTodayAppend(ms: seq<MatchRow>, row: MatchRow, u: UserId, today: Date)
    ensures CountToday(ms + [row], u, today) ==
      CountToday(ms, u, today) + (if IsParticipant(row, u) && row.createdDate == today then 1 else 0)
  {
    assert (ms + [row])[..|ms|] == ms;
  }

  /** The existing-match lookup returns a row only when exactly one row of
      today involves the user (a lookup that fails or finds several returns
      nothing), and only then is the user skipped. */
  predicate AlreadyMatchedToday(ms: seq<MatchRow>, u: UserId, today: Date, lookupFails: bool)
  {
    !lookupFails && CountToday(ms, u, today) == 1
  }

  datatype StepOutcome = StepOutcome(matches: seq<MatchRow>, created: bool)

  /** The row inserted for an acting user and the chosen candidate. */
  function MatchFor(user: UserRow, best: ScoredCandidate, today: Date): MatchRow
  {
    NewMatchRow(user.id, best.userId, today, best.matchScore, best.musicSimilarity, best.distanceKm)
  }

  /** One iteration of the loop over users. */
  function Step(user: UserRow, ms: seq<MatchRow>, today: Date, source: CandidateSource,
                lookupFails: bool, insertFails: bool): (o: StepOutcome)
    ensures !o.created ==> o.matches == ms
    ensures o.created ==>
      (FindBestMatch(source(user, ms)).Some?
       && o.matches == ms + [MatchFor(user, FindBestMatch(source(user, ms)).value, today)])
    ensures AlreadyMatchedToday(ms, user.id, today, lookupFails) ==> !o.created
    ensures FindBestMatch(source(user, ms)).None? ==> !o.created
    ensures insertFails ==> !o.created
    ensures (!AlreadyMatchedToday(ms, user.id, today, lookupFails) && FindBestMatch(source(user, ms)).Some?
             && !insertFails) ==> o.created
  {
    if AlreadyMatchedToday(ms, user.id, today, lookupFails) then StepOutcome(ms, false)
    else
      match FindBestMatch(source(user, ms))
      case None => StepOutcome(ms, false)
      case Some(best) =>
        if insertFails then StepOutcome(ms, false)
        else StepOutcome(ms + [MatchFor(user, best, today)], true)
  }

  // ---------------------------------------------------------------------
  // The whole pass
  // ---------------------------------------------------------------------

  /** The users query: active, with an embedding and with a location. */
  predicate Eligible(u: UserRow)
  {
    u.isActive && u.musicEmbedding.Some? && u.location.Some?
  }

  function EligibleUsers(users: seq<UserRow>): (r: seq<UserRow>)
    ensures |r| <= |users|
    ensures forall u :: u in r <==> u in users && Eligible(u)
  {
    if users == [] then []
    else EligibleUsers(users[..|users| - 1]) + (if Eligible(users[|users| - 1]) then [users[|users| - 1]] else [])
  }

  /** Store failures, by iteration: the existing-match lookup failing, and
      the insert failing. */
  datatype Faults = Faults(lookupFails: nat -> bool, insertFails: nat -> bool)

  datatype RunOutcome = RunOutcome(matches: seq<MatchRow>, matchesCreated: nat)

  /** The first n iterations of the loop, starting from the table ms0. The
      table only grows, one row per successful insert, and the counter
      never exceeds the number of users processed. */
  function RunPrefix(users: seq<UserRow>, n: nat, ms0: seq<MatchRow>, today: Date,
                     source: CandidateSource, faults: Faults): (o: RunOutcome)
    requires n <= |users|
    ensures |ms0| <= |o.matches| && o.matches[..|ms0|] == ms0
    ensures |o.matches| == |ms0| + o.matchesCreated
    ensures o.matchesCreated <= n
  {
    if n == 0 then RunOutcome(ms0, 0)
    else
      var prev := RunPrefix(users, n - 1, ms0, today, source, faults);
      var s := Step(users[n - 1], prev.matches, today, source, faults.lookupFails(n - 1), faults.insertFails(n - 1));
      assert s.created ==> s.matches[..|prev.matches|] == prev.matches;
      RunOutcome(s.matches, prev.matchesCreated + (if s.created then 1 else 0))
  }

  /** runDailyMatching as a value: a failed users query changes nothing;
      otherwise every eligible user is processed in order. */
  function DailyRun(users: seq<UserRow>, usersQueryFails: bool, ms0: seq<MatchRow>, today: Date,
                    source: CandidateSource, faults: Faults): (o: RunOutcome)
    ensures usersQueryFails ==> o == RunOutcome(ms0, 0)
    ensures o.matchesCreated <= |EligibleUsers(users)|
  {
    if usersQueryFails then RunOutcome(ms0, 0)
    else
      var active := EligibleUsers(users);
      RunPrefix(active, |active|, ms0, today, source, faults)
  }

  /** runDailyMatching: the loop over eligible users, with the matches table
      and the counter as loop state. */
  method RunDailyMatching(users: seq<UserRow>, usersQueryFails: bool, matches: seq<MatchRow>, today: Date,
                          source: CandidateSource, faults: Faults) returns (o: RunOutcome)
    ensures o == DailyRun(users, usersQueryFails, matches, today, source, faults)
  {
    if usersQueryFails {
      return RunOutcome(matches, 0);
    }
    var activeUsers := EligibleUsers(users);
    if |activeUsers| == 0 {
      return RunOutcome(matches, 0);
    }
    var current := matches;
    var matchesCreated := 0;
    for k := 0 to |activeUsers|
      invariant RunOutcome(current, matchesCreated) == RunPrefix(activeUsers, k, matches, today, source, faults)
    {
      var user := activeUsers[k];
      ghost var step := Step(user, current, today, source, faults.lookupFails(k), faults.insertFails(k));
      ghost var created := matchesCreated + (if step.created then 1 else 0);
      assert RunPrefix(activeUsers, k + 1, matches, today, source, faults) == RunOutcome(step.matches, created);
      if !AlreadyMatchedToday(current, user.id, today, faults.lookupFails(k)) {
        var best := FindBestMatch(source(user, current));
        if best.Some? && !faults.insertFails(k) {
          current := current + [MatchFor(user, best.value, today)];
          matchesCreated := matchesCreated + 1;
        }
      }
      assert current == step.matches && matchesCreated == created;
    }
    return RunOutcome(current, matchesCreated);
  }

  // ---------------------------------------------------------------------
  // At most one match per user per day
  // ---------------------------------------------------------------------

  ghost predicate AtMostOneMatchPerDay(ms: seq<MatchRow>, today: Date)
  {
    forall u :: CountToday(ms, u, today) <= 1
  }

  /** The assumption the code relies on but does not check: the candidate
      source never offers the acting user, nor anyone who already has a
      match today. */
  ghost predicate ExcludesMatchedToday(source: CandidateSource, today: Date)
  {
    forall u: UserRow, ms: seq<MatchRow>, j: nat ::
      source(u, ms).Candidates? && j < |source(u, ms).rows| ==>
        source(u, ms).rows[j].id != u.id && CountToday(ms, source(u, ms).rows[j].id, today) == 0
  }

  lemma StepKeepsAtMostOne(user: UserRow, ms: seq<MatchRow>, today: Date, source: CandidateSource, insertFails: bool)
    requires AtMostOneMatchPerDay(ms, today)
    requires ExcludesMatchedToday(source, today)
    ensures AtMostOneMatchPerDay(Step(user, ms, today, source, false, insertFails).matches, today)
  {
    var o := Step(user, ms, today, source, false, insertFails);
    if o.created {
      var reply := source(user, ms);
      var k := BestIndex(reply.rows);
      var best := FindBestMatch(reply).value;
      assert best.userId == reply.rows[k].id;
      var row := MatchFor(user, best, today);
      assert CountToday(ms, user.id, today) == 0;
      assert CountToday(ms, best.userId, today) == 0 && best.userId != user.id;
      forall v
        ensures CountToday(o.matches, v, today) <= 1
      {
        CountTodayAppend(ms, row, v, today);
      }
    }
  }

  /** Under the assumption, and with every existing-match lookup
      succeeding, the pass keeps at most one match per user for today. */
  lemma {:induction false} RunKeepsAtMostOne(users: seq<UserRow>, n: nat, ms0: seq<MatchRow>, today: Date,
                                             source: CandidateSource, faults: Faults)
    requires n <= |users|
    requires AtMostOneMatchPerDay(ms0, today)
    requires ExcludesMatchedToday(source, today)
    requires forall k :: 0 <= k < n ==> !faults.lookupFails(k)
    ensures AtMostOneMatchPerDay(RunPrefix(users, n, ms0, today, source, faults).matches, today)
  {
    if n > 0 {
      RunKeepsAtMostOne(users, n - 1, ms0, today, source, faults);
      var prev := RunPrefix(users, n - 1, ms0, today, source, faults);
      StepKeepsAtMostOne(users[n - 1], prev.matches, today, source, faults.insertFails(n - 1));
    }
  }

  /** Running the pass twice on the same day still leaves nobody with two
      matches that day, under the same assumption. */
  lemma RunTwiceKeepsAtMostOne(users: seq<UserRow>, ms0: seq<MatchRow>, today: Date,
                               source: CandidateSource, faults1: Faults, faults2: Faults)
    requires AtMostOneMatchPerDay(ms0, today)
    requires ExcludesMatchedToday(source, today)
    requires forall k :: !faults1.lookupFails(k) && !faults2.lookupFails(k)
    ensures var first := DailyRun(users, false, ms0, today, source, faults1);
      AtMostOneMatchPerDay(DailyRun(users, false, first.matches, today, source, faults2).matches, today)
  {
    var active := EligibleUsers(users);
    RunKeepsAtMostOne(active, |active|, ms0, today, source, faults1);
    var first := DailyRun(users, false, ms0, today, source, faults1);
    RunKeepsAtMostOne(active, |active|, first.matches, today, source, faults2);
  }

  const NoFaults := Faults(k => false, k => false)

  /** Without the assumption the pass can double-book: two eligible users
      who are both offered only the same candidate each get a row with that
      candidate on the same day. */
  lemma DoubleBookingWithoutExclusion(a: UserRow, c: UserRow, cand: Candidate, today: Date, source: CandidateSource)
    requires Eligible(a) && Eligible(c) && a.id != c.id && c.id != cand.id
    requires forall u, ms :: source(u, ms) == Candidates([cand])
    ensures var o := DailyRun([a, c], false, [], today, source, NoFaults);
      o.matchesCreated == 2 && CountToday(o.matches, cand.id, today) == 2
  {
    var best := ScoreCandidate(cand);
    SoleCandidateIsChosen(cand);
    assert EligibleUsers([a, c]) == [a, c] by {
      assert [a, c][..1] == [a];
      assert [a][..0] == [];
    }
    var r1 := MatchFor(a, best, today);
    var r2 := MatchFor(c, best, today);
    assert Step(a, [], today, source, false, false) == StepOutcome([r1], true);
    assert RunPrefix([a, c], 1, [], today, source, NoFaults) == RunOutcome([r1], 1);
    assert CountToday([r1], c.id, today) == 0 by {
      CountTodayAppend([], r1, c.id, today);
      assert [] + [r1] == [r1];
    }
    assert Step(c, [r1], today, source, false, false) == StepOutcome([r1] + [r2], true);
    assert RunPrefix([a, c], 2, [], today, source, NoFaults) == RunOutcome([r1] + [r2], 2);
    assert CountToday([r1] + [r2], cand.id, today) == 2 by {
      CountTodayAppend([], r1, cand.id, today);
      assert [] + [r1] == [r1];
      CountTodayAppend([r1], r2, cand.id, today);
    }
  }

  /** A reply with one candidate selects that candidate. */
  lemma SoleCandidateIsChosen(cand: Candidate)
    ensures FindBestMatch(Candidates([cand])) == Some(ScoreCandidate(cand))
  {
    assert BestIndex([cand]) == 0;
  }

  // ---------------------------------------------------------------------
  // Per-user outcomes
  // ---------------------------------------------------------------------

  /** Every row a pass inserts has an acting user as user1 and today's
      date. */
  lemma {:induction false} InsertedRowsAreToday(users: seq<UserRow>, n: nat, ms0: seq<MatchRow>, today: Date,
                                                source: CandidateSource, faults: Faults, i: nat)
    requires n <= |users|
    requires |ms0| <= i < |RunPrefix(users, n, ms0, today, source, faults).matches|
    ensures var row := RunPrefix(users, n, ms0, today, source, faults).matches[i];
      row.createdDate == today && row.isActive && exists k :: 0 <= k < n && users[k].id == row.user1
  {
    var prev := RunPrefix(users, n - 1, ms0, today, source, faults);
    if i < |prev.matches| {
      InsertedRowsAreToday(users, n - 1, ms0, today, source, faults, i);
      var o := RunPrefix(users, n, ms0, today, source, faults);
      assert o.matches[i] == prev.matches[i];
    }
  }

  /** A user for whom the source never offers anyone (an error or an empty
      list) gets no row as user1, while the pass goes on for the others. */
  lemma {:induction false} NoCandidatesNoRow(users: seq<UserRow>, n: nat, ms0: seq<MatchRow>, today: Date,
                                             source: CandidateSource, faults: Faults, uid: UserId, i: nat)
    requires n <= |users|
    requires forall k, ms :: 0 <= k < n && users[k].id == uid ==> FindBestMatch(source(users[k], ms)).None?
    requires |ms0| <= i < |RunPrefix(users, n, ms0, today, source, faults).matches|
    ensures RunPrefix(users, n, ms0, today, source, faults).matches[i].user1 != uid
  {
    var prev := RunPrefix(users, n - 1, ms0, today, source, faults);
    var o := RunPrefix(users, n, ms0, today, source, faults);
    if i < |prev.matches| {
      NoCandidatesNoRow(users, n - 1, ms0, today, source, faults, uid, i);
      assert o.matches[i] == prev.matches[i];
    } else {
      assert o.matches[i].user1 == users[n - 1].id;
    }
  }
}
