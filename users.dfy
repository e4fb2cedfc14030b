// The user controller: the current-user view without the taste vector, the
// partial profile update with its bio limit, and the location update that
// rounds coordinates to hundredths and stores them as a WKT point.

module Users {
  import opened Wrappers
  import opened Text
  import opened Store

  const UserNotFound := HttpError(404, "User not found")
  const BioTooLong := HttpError(400, "Bio must be 50 characters or less")
  const LocationRequired := HttpError(400, "Valid latitude and longitude required")
  /** Reading `length` of a null bio throws; the handler answers 500 with the
      exception's text. */
  const NullBioError := HttpError(500, "Cannot read properties of null (reading 'length')")
  const MaxBioLength: nat := 50

  // ---------------------------------------------------------------------
  // Current user
  // ---------------------------------------------------------------------

  /** A user row as returned to its owner: every column but the taste
      vector. */
  datatype UserView = UserView(
    id: UserId,
    displayName: Option<string>,
    bio: Option<string>,
    profilePhotoUrl: Option<string>,
    isActive: bool,
    location: Option<string>,
    lastLocationUpdate: Option<Timestamp>,
    topArtists: seq<Embedding.ArtistSummary>,
    topGenres: seq<Embedding.GenreWeight>,
    topTracks: seq<Embedding.TrackSummary>)

  function ViewOf(u: UserRow): UserView
  {
    UserView(u.id, u.displayName, u.bio, u.profilePhotoUrl, u.isActive, u.location,
             u.lastLocationUpdate, u.topArtists, u.topGenres, u.topTracks)
  }

  /** Puts a taste vector back next to a view. */
  function WithEmbedding(v: UserView, e: Option<seq<real>>): UserRow
  {
    UserRow(v.id, v.displayName, v.bio, v.profilePhotoUrl, v.isActive, e, v.location,
            v.lastLocationUpdate, v.topArtists, v.topGenres, v.topTracks)
  }

  /** The view drops exactly the taste vector: the row is the view plus the
      vector, and rows that differ only in the vector look the same. */
  lemma ViewDropsOnlyEmbedding(u: UserRow, w: UserRow)
    ensures WithEmbedding(ViewOf(u), u.musicEmbedding) == u
    ensures ViewOf(u) == ViewOf(w) <==> u.(musicEmbedding := w.musicEmbedding) == w
  {
    if ViewOf(u) == ViewOf(w) {
      assert WithEmbedding(ViewOf(w), w.musicEmbedding) == w;
    }
  }

  /** getCurrentUser. */
  function CurrentUser(users: map<UserId, UserRow>, caller: UserId, queryFails: bool): (r: Result<UserView, HttpError>)
    ensures r.Failure? <==> queryFails || caller !in users
    ensures r.Failure? ==> r.error == UserNotFound
    ensures r.Success? ==> WithEmbedding(r.value, users[caller].musicEmbedding) == users[caller]
  {
    if queryFails || caller !in users then Failure(UserNotFound)
    else Success(ViewOf(users[caller]))
  }

  // ---------------------------------------------------------------------
  // Profile update
  // ---------------------------------------------------------------------

  /** A field of a JSON request body: absent, null, or a string. */
  datatype Field = Absent | Null | Text(s: string)

  datatype ProfileRequest = ProfileRequest(displayName: Field, bio: Field, profilePhotoUrl: Field)

  /** The columns to update: None leaves a column alone, Some(v) sets it to v
      (v None for SQL null). */
  datatype ProfileUpdates = ProfileUpdates(
    displayName: Option<Option<string>>,
    bio: Option<Option<string>>,
    profilePhotoUrl: Option<Option<string>>)

  function ColumnValue(f: Field): Option<string>
  {
    if f.Text? then Some(f.s) else None
  }

  /** Builds the update object field by field; a bio over 50 UTF-16 code
      units is refused, and a null bio throws. */
  method BuildProfileUpdates(req: ProfileRequest) returns (r: Result<ProfileUpdates, HttpError>)
    ensures req.bio.Null? ==> r == Failure(NullBioError)
    ensures req.bio.Text? && Utf16Length(req.bio.s) > MaxBioLength ==> r == Failure(BioTooLong)
    ensures r.Success? <==> !req.bio.Null? && !(req.bio.Text? && Utf16Length(req.bio.s) > MaxBioLength)
    ensures r.Success? ==>
      && (r.value.displayName.Some? <==> !req.displayName.Absent?)
      && (r.value.bio.Some? <==> !req.bio.Absent?)
      && (r.value.profilePhotoUrl.Some? <==> !req.profilePhotoUrl.Absent?)
      && (r.value.displayName.Some? ==> r.value.displayName.value == ColumnValue(req.displayName))
      && (r.value.bio.Some? ==> r.value.bio.value == ColumnValue(req.bio))
      && (r.value.profilePhotoUrl.Some? ==> r.value.profilePhotoUrl.value == ColumnValue(req.profilePhotoUrl))
  {
    var updates := ProfileUpdates(None, None, None);
    if !req.displayName.Absent? {
      updates := updates.(displayName := Some(ColumnValue(req.displayName)));
    }
    if !req.bio.Absent? {
      if req.bio.Null? {
        return Failure(NullBioError);
      }
      if Utf16Length(req.bio.s) > MaxBioLength {
        return Failure(BioTooLong);
      }
      updates := updates.(bio := Some(ColumnValue(req.bio)));
    }
    if !req.profilePhotoUrl.Absent? {
      updates := updates.(profilePhotoUrl := Some(ColumnValue(req.profilePhotoUrl)));
    }
    return Success(updates);
  }

  function Update(current: Option<string>, update: Option<Option<string>>): (r: Option<string>)
    ensures update.None? ==> r == current
    ensures update.Some? ==> r == update.value
  {
    if update.Some? then update.value else current
  }

  /** The row after the update: supplied columns take their new values and
      every other column is kept. */
  function ApplyUpdates(u: UserRow, upd: ProfileUpdates): (r: UserRow)
    ensures r.(displayName := u.displayName, bio := u.bio, profilePhotoUrl := u.profilePhotoUrl) == u
  {
    u.(displayName := Update(u.displayName, upd.displayName),
       bio := Update(u.bio, upd.bio),
       profilePhotoUrl := Update(u.profilePhotoUrl, upd.profilePhotoUrl))
  }

  /** Repeating an update changes nothing more, and an empty update changes
      nothing. */
  lemma ApplyUpdatesIdempotent(u: UserRow, upd: ProfileUpdates)
    ensures ApplyUpdates(ApplyUpdates(u, upd), upd) == ApplyUpdates(u, upd)
    ensures ApplyUpdates(u, ProfileUpdates(None, None, None)) == u
  {
  }

  /** A request with only a bio touches only the bio. */
  lemma BioOnlyRequest(u: UserRow, bio: string, upd: ProfileUpdates)
    requires upd.displayName.None? && upd.profilePhotoUrl.None? && upd.bio == Some(Some(bio))
    ensures ApplyUpdates(u, upd) == u.(bio := Some(bio))
  {
  }

  /** updateProfile on the store: an invalid request issues no update; a
      missing row or a failed write is the store's 400. */
  method UpdateProfile(db: Database, caller: UserId, req: ProfileRequest, writeFails: bool)
    returns (r: Result<UserRow, HttpError>)
    modifies db`users
    ensures r.Failure? ==> db.users == old(db.users)
    ensures r.Success? <==>
      && !req.bio.Null? && !(req.bio.Text? && Utf16Length(req.bio.s) > MaxBioLength)
      && caller in old(db.users) && !writeFails
    ensures r.Success? ==> caller in old(db.users) && !writeFails && Utf16Length(ColumnValue(req.bio).GetOr([])) <= MaxBioLength
    ensures req.bio.Text? && Utf16Length(req.bio.s) > MaxBioLength ==> r == Failure(BioTooLong)
    ensures r.Success? ==>
      && r.value == ApplyUpdates(old(db.users)[caller], ProfileUpdates(
           if req.displayName.Absent? then None else Some(ColumnValue(req.displayName)),
           if req.bio.Absent? then None else Some(ColumnValue(req.bio)),
           if req.profilePhotoUrl.Absent? then None else Some(ColumnValue(req.profilePhotoUrl))))
      && db.users == old(db.users)[caller := r.value]
  {
    var updates := BuildProfileUpdates(req);
    if updates.Failure? {
      return Failure(updates.error);
    }
    if writeFails || caller !in db.users {
      return Failure(StoreError);
    }
    var row := ApplyUpdates(db.users[caller], updates.value);
    db.users := db.users[caller := row];
    return Success(row);
  }

  // ---------------------------------------------------------------------
  // Location
  // ---------------------------------------------------------------------

  /** Math.round: the nearest integer, halves rounded up. */
  function Round(x: real): (n: int)
    ensures x - 0.5 < n as real <= x + 0.5
  {
    (x + 0.5).Floor
  }

  /** A coordinate rounded to hundredths, as a whole number of hundredths. */
  function Centis(x: real): int
  {
    Round(x * 100.0)
  }

  function RoundCoordinate(x: real): (y: real)
    ensures -0.005 < y - x <= 0.005
  {
    Centis(x) as real / 100.0
  }

  /** Rounding an already rounded coordinate keeps it. */
  lemma RoundCoordinateIdempotent(c: int)
    ensures Centis(c as real / 100.0) == c
    ensures RoundCoordinate(RoundCoordinate(c as real / 100.0)) == c as real / 100.0
  {
    assert c as real / 100.0 * 100.0 == c as real;
  }

  /** Rounding keeps the order of coordinates. */
  lemma RoundCoordinateMonotone(x: real, y: real)
    requires x <= y
    ensures Centis(x) <= Centis(y) && RoundCoordinate(x) <= RoundCoordinate(y)
  {
    assert x * 100.0 + 0.5 <= y * 100.0 + 0.5;
  }

  function DigitChar(d: nat): (c: char)
    requires d < 10
    ensures IsDigit(c, 10) && DigitValue(c, 10) == Some(d)
  {
    ('0' as int + d) as char
  }

  /** Number.prototype.toString of c/100: a sign, the whole part, and the
      fraction without trailing zeros. */
  function FormatCentis(c: int): (s: string)
    ensures s != []
    ensures forall i :: 0 <= i < |s| ==> s[i] == '-' || s[i] == '.' || IsDigit(s[i], 10)
  {
    var sign := if c < 0 then "-" else "";
    sign + MagnitudeText(if c < 0 then -c else c)
  }

  /** The unsigned text of a/100. */
  function MagnitudeText(a: nat): (s: string)
    ensures s != [] && IsDigit(s[0], 10)
    ensures forall i :: 0 <= i < |s| ==> s[i] == '.' || IsDigit(s[i], 10)
  {
    NatToString(a / 100) + FractionText(a % 100)
  }

  /** The hundredths part: nothing, one digit or two after a point. */
  function FractionText(f: nat): (s: string)
    requires f < 100
    ensures forall i :: 0 <= i < |s| ==> s[i] == '.' || IsDigit(s[i], 10)
    ensures s == [] || s[0] == '.'
  {
    if f == 0 then ""
    else if f % 10 == 0 then ['.', DigitChar(f / 10)]
    else ['.', DigitChar(f / 10), DigitChar(f % 10)]
  }

  function ParseFraction(s: string): (f: Option<nat>)
  {
    if s == [] then Some(0)
    else if |s| == 2 && s[0] == '.' && IsDigit(s[1], 10) then
      Some(10 * DigitValue(s[1], 10).value)
    else if |s| == 3 && s[0] == '.' && IsDigit(s[1], 10) && IsDigit(s[2], 10) then
      Some(10 * DigitValue(s[1], 10).value + DigitValue(s[2], 10).value)
    else None
  }

  /** Reads a decimal with at most two fraction digits as hundredths. */
  function ParseCentis(s: string): (c: Option<int>)
  {
    var negative := s != [] && s[0] == '-';
    var body := if negative then s[1..] else s;
    match ParseMagnitudeText(body)
    case None => None
    case Some(m) => Some(if negative then -(m as int) else m as int)
  }

  /** Reads digits, then an optional fraction, as hundredths. */
  function ParseMagnitudeText(body: string): Option<nat>
  {
    var n := DigitRun(body, 10);
    if n == 0 then None
    else
      match ParseFraction(body[n..])
      case None => None
      case Some(f) => Some(100 * DigitsValue(body[..n], 10) + f)
  }

  lemma {:induction false} DigitRunOfDigitsThen(a: string, b: string)
    requires forall i :: 0 <= i < |a| ==> IsDigit(a[i], 10)
    requires b == [] || !IsDigit(b[0], 10)
    ensures DigitRun(a + b, 10) == |a|
  {
    if a != [] {
      assert (a + b)[1..] == a[1..] + b;
      DigitRunOfDigitsThen(a[1..], b);
    }
  }

  lemma FractionRoundTrip(f: nat)
    requires f < 100
    ensures ParseFraction(FractionText(f)) == Some(f)
  {
  }

  lemma MagnitudeRoundTrip(a: nat)
    ensures ParseMagnitudeText(MagnitudeText(a)) == Some(a)
  {
    var w := NatToString(a / 100);
    var t := FractionText(a % 100);
    var body := w + t;
    DigitsValueOfNatToString(a / 100);
    DigitRunOfDigitsThen(w, t);
    assert body[..|w|] == w && body[|w|..] == t;
    FractionRoundTrip(a % 100);
  }

  /** ParseCentis reads back what FormatCentis writes. */
  lemma CentisRoundTrip(c: int)
    ensures ParseCentis(FormatCentis(c)) == Some(c)
  {
    var a := if c < 0 then -c else c;
    MagnitudeRoundTrip(a);
    if c < 0 {
      assert FormatCentis(c)[1..] == MagnitudeText(a);
    } else {
      assert FormatCentis(c) == MagnitudeText(a);
    }
  }

  /** Position of the first space, or |s| if none. */
  function FirstSpace(s: string): (k: nat)
    ensures k <= |s| && (k < |s| ==> s[k] == ' ')
    ensures forall j :: 0 <= j < k ==> s[j] != ' '
  {
    if s == [] || s[0] == ' ' then 0 else 1 + FirstSpace(s[1..])
  }

  lemma SplitAtSpace(x: string, y: string)
    requires forall j :: 0 <= j < |x| ==> x[j] != ' '
    ensures FirstSpace(x + " " + y) == |x|
    ensures (x + " " + y)[..|x|] == x && (x + " " + y)[|x| + 1..] == y
  {
    var inner := x + " " + y;
    assert inner[|x|] == ' ';
    assert forall j :: 0 <= j < |x| ==> inner[j] == x[j];
  }

  /** A location as the store keeps it: a WKT point, longitude first. */
  function PointText(latCentis: int, lngCentis: int): string
  {
    "POINT(" + FormatCentis(lngCentis) + " " + FormatCentis(latCentis) + ")"
  }

  datatype Coordinates = Coordinates(longitude: int, latitude: int)

  /** Reads a WKT point back as (longitude, latitude) in hundredths. */
  function ParsePoint(s: string): Option<Coordinates>
  {
    if |s| >= 7 && s[..6] == "POINT(" && s[|s| - 1] == ')' then
      ParseCoordinatePair(s[6..|s| - 1])
    else None
  }

  /** Reads "x y" as (x, y), split at the first space. */
  function ParseCoordinatePair(inner: string): Option<Coordinates>
  {
    var k := FirstSpace(inner);
    if k == |inner| then None
    else
      match (ParseCentis(inner[..k]), ParseCentis(inner[k + 1..]))
      case (Some(lng), Some(lat)) => Some(Coordinates(lng, lat))
      case _ => None
  }

  lemma PairRoundTrip(latCentis: int, lngCentis: int)
    ensures ParseCoordinatePair(FormatCentis(lngCentis) + " " + FormatCentis(latCentis))
      == Some(Coordinates(lngCentis, latCentis))
  {
    SplitAtSpace(FormatCentis(lngCentis), FormatCentis(latCentis));
    CentisRoundTrip(lngCentis);
    CentisRoundTrip(latCentis);
  }

  /** The stored point holds the rounded longitude first and the rounded
      latitude second. */
  lemma PointRoundTrip(latCentis: int, lngCentis: int)
    ensures ParsePoint(PointText(latCentis, lngCentis)) == Some(Coordinates(lngCentis, latCentis))
  {
    var inner := FormatCentis(lngCentis) + " " + FormatCentis(latCentis);
    var s := PointText(latCentis, lngCentis);
    assert s == "POINT(" + inner + ")";
    assert s[..6] == "POINT(" && s[6..|s| - 1] == inner;
    PairRoundTrip(latCentis, lngCentis);
  }

  /** The reply of a location update: the rounded coordinates. */
  datatype LocationReply = LocationReply(latitude: real, longitude: real)

  /** updateLocation on the store. A coordinate that is not a JSON number is
      None. */
  method UpdateLocation(db: Database, caller: UserId, latitude: Option<real>, longitude: Option<real>,
                        now: Timestamp, writeFails: bool)
    returns (r: Result<LocationReply, HttpError>)
    modifies db`users
    ensures latitude.None? || longitude.None? ==> r == Failure(LocationRequired)
    ensures r.Failure? ==> db.users == old(db.users)
    ensures r.Success? <==> latitude.Some? && longitude.Some? && caller in old(db.users) && !writeFails
    ensures r.Success? ==>
      && r.value == LocationReply(RoundCoordinate(latitude.value), RoundCoordinate(longitude.value))
      && db.users == old(db.users)[caller := old(db.users)[caller].(
           location := Some(PointText(Centis(latitude.value), Centis(longitude.value))),
           lastLocationUpdate := Some(now))]
  {
    if latitude.None? || longitude.None? {
      return Failure(LocationRequired);
    }
    var roundedLat := Centis(latitude.value);
    var roundedLng := Centis(longitude.value);
    var location := PointText(roundedLat, roundedLng);
    if writeFails || caller !in db.users {
      return Failure(StoreError);
    }
    db.users := db.users[caller := db.users[caller].(location := Some(location), lastLocationUpdate := Some(now))];
    return Success(LocationReply(roundedLat as real / 100.0, roundedLng as real / 100.0));
  }

  /** The reply and the stored point agree on the same rounded coordinates. */
  lemma ReplyMatchesStoredPoint(latitude: real, longitude: real)
    ensures var p := ParsePoint(PointText(Centis(latitude), Centis(longitude)));
      && p.Some?
      && p.value.latitude as real / 100.0 == RoundCoordinate(latitude)
      && p.value.longitude as real / 100.0 == RoundCoordinate(longitude)
  {
    PointRoundTrip(Centis(latitude), Centis(longitude));
  }
}
