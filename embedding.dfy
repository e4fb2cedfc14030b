/** The taste-profile builder and the scoring functions of the matching
    engine (server/src/services/embeddingService.ts). Numbers are exact reals;
    the square root used by cosine similarity is a parameter. */
module Embedding {
  import opened Wrappers
  import opened Seqs
  import opened Sorting

  // ---------------------------------------------------------------------
  // Listening data as the music provider returns it
  // ---------------------------------------------------------------------

  /** Per-track audio descriptors. Tracks without descriptors are dropped
      before they get here. */
  datatype AudioFeatures = AudioFeatures(
    id: string,
    valence: real,
    energy: real,
    danceability: real,
    acousticness: real,
    instrumentalness: real,
    tempo: real,
    loudness: real)

  /** A top artist: its id, name, genre list and the urls of its images. */
  datatype Artist = Artist(id: string, name: string, genres: seq<string>, imageUrls: seq<string>)

  /** A top track with the names of its artists, first artist first. */
  datatype Track = Track(id: string, name: string, artistNames: seq<string>)

  const AudioDims: nat := 7
  const GenreDims: nat := 10
  const EmbeddingDims: nat := 17
  const TopArtistsShown: nat := 10
  const TopGenresShown: nat := 5
  const TopTracksShown: nat := 5

  // ---------------------------------------------------------------------
  // Audio sub-vector
  // ---------------------------------------------------------------------

  /** Descriptor k, in the order valence, energy, danceability, acousticness,
      instrumentalness, tempo, loudness, on the scale used for averaging:
      tempo is divided by 200 and loudness becomes (loudness + 60) / 60. */
  function ScaledFeature(af: AudioFeatures, k: nat): real
    requires k < AudioDims
  {
    if k == 0 then af.valence
    else if k == 1 then af.energy
    else if k == 2 then af.danceability
    else if k == 3 then af.acousticness
    else if k == 4 then af.instrumentalness
    else if k == 5 then af.tempo / 200.0
    else (af.loudness + 60.0) / 60.0
  }

  /** The running sum `values.reduce((a, b) => a + b, 0)` of descriptor k. */
  function FeatureSum(afs: seq<AudioFeatures>, k: nat): real
    requires k < AudioDims
  {
    if afs == [] then 0.0
    else FeatureSum(afs[..|afs| - 1], k) + ScaledFeature(afs[|afs| - 1], k)
  }

  /** Seven zeros for no tracks; otherwise slot k is the mean of scaled
      descriptor k over all tracks. */
  function AudioVector(afs: seq<AudioFeatures>): (v: seq<real>)
    ensures |v| == AudioDims
    ensures afs == [] ==> forall k :: 0 <= k < AudioDims ==> v[k] == 0.0
  {
    if afs == [] then seq(AudioDims, _ => 0.0)
    else seq(AudioDims, k requires 0 <= k < AudioDims => FeatureSum(afs, k) / |afs| as real)
  }

  /** The ranges the provider documents for each descriptor: the five
      unit-scaled ones in [0, 1], tempo up to 200 BPM, loudness in [-60, 0] dB. */
  ghost predicate InTypicalRange(af: AudioFeatures)
  {
    && 0.0 <= af.valence <= 1.0
    && 0.0 <= af.energy <= 1.0
    && 0.0 <= af.danceability <= 1.0
    && 0.0 <= af.acousticness <= 1.0
    && 0.0 <= af.instrumentalness <= 1.0
    && 0.0 <= af.tempo <= 200.0
    && -60.0 <= af.loudness <= 0.0
  }

  lemma ScaledFeatureInUnit(af: AudioFeatures, k: nat)
    requires k < AudioDims && InTypicalRange(af)
    ensures 0.0 <= ScaledFeature(af, k) <= 1.0
  {
  }

  lemma {:induction false} FeatureSumInRange(afs: seq<AudioFeatures>, k: nat)
    requires k < AudioDims
    requires forall i :: 0 <= i < |afs| ==> InTypicalRange(afs[i])
    ensures 0.0 <= FeatureSum(afs, k) <= |afs| as real
  {
    if afs != [] {
      FeatureSumInRange(afs[..|afs| - 1], k);
      ScaledFeatureInUnit(afs[|afs| - 1], k);
    }
  }

  /** For descriptors in their documented ranges every audio slot lies in
      [0, 1]. */
  lemma AudioVectorInUnit(afs: seq<AudioFeatures>)
    requires forall i :: 0 <= i < |afs| ==> InTypicalRange(afs[i])
    ensures forall k :: 0 <= k < AudioDims ==> 0.0 <= AudioVector(afs)[k] <= 1.0
  {
    if afs != [] {
      forall k | 0 <= k < AudioDims
        ensures 0.0 <= AudioVector(afs)[k] <= 1.0
      {
        FeatureSumInRange(afs, k);
        var n := |afs| as real;
        var s := FeatureSum(afs, k);
        assert AudioVector(afs)[k] == s / n;
        RatioInUnit(s, n);
      }
    }
  }

  lemma {:induction false} FeatureSumAppend(a: seq<AudioFeatures>, b: seq<AudioFeatures>, k: nat)
    requires k < AudioDims
    ensures FeatureSum(a + b, k) == FeatureSum(a, k) + FeatureSum(b, k)
  {
    if b != [] {
      var b' := b[..|b| - 1];
      assert (a + b)[..|a + b| - 1] == a + b';
      FeatureSumAppend(a, b', k);
    } else {
      assert a + b == a;
    }
  }

  /** The audio vector is an average: listing every track twice leaves it
      unchanged. */
  lemma AudioVectorOfDoubled(afs: seq<AudioFeatures>)
    ensures AudioVector(afs + afs) == AudioVector(afs)
  {
    if afs != [] {
      forall k | 0 <= k < AudioDims
        ensures AudioVector(afs + afs)[k] == AudioVector(afs)[k]
      {
        FeatureSumAppend(afs, afs, k);
        var n := |afs| as real;
        var s := FeatureSum(afs, k);
        assert AudioVector(afs + afs)[k] == (s + s) / (n + n);
        DoubledRatio(s, n);
      }
    }
  }

  lemma DoubledRatio(s: real, n: real)
    requires n > 0.0
    ensures (s + s) / (n + n) == s / n
  {
    var q := s / n;
    assert q * n == s;
    assert q * (n + n) == s + s;
  }

  // ---------------------------------------------------------------------
  // Genre tally and ranking
  // ---------------------------------------------------------------------

  /** The `genreCounts` object: a count per genre, and its keys in the order
      they were first inserted (the order `Object.entries` lists them in). */
  datatype Tally = Tally(counts: map<string, nat>, order: seq<string>)

  const EmptyTally := Tally(map[], [])

  /** `genreCounts[g] = (genreCounts[g] || 0) + 1` */
  function Bump(t: Tally, g: string): Tally
  {
    if g in t.counts then Tally(t.counts[g := t.counts[g] + 1], t.order)
    else Tally(t.counts[g := 1], t.order + [g])
  }

  /** The tally after bumping every genre of gs in turn. */
  function TallyOf(gs: seq<string>): Tally
  {
    if gs == [] then EmptyTally else Bump(TallyOf(gs[..|gs| - 1]), gs[|gs| - 1])
  }

  /** Every genre of every artist, artist by artist, in listed order. */
  function AllGenres(artists: seq<Artist>): seq<string>
  {
    if artists == [] then []
    else AllGenres(artists[..|artists| - 1]) + artists[|artists| - 1].genres
  }

  function Occurrences(gs: seq<string>, g: string): nat
  {
    if gs == [] then 0
    else Occurrences(gs[..|gs| - 1], g) + (if gs[|gs| - 1] == g then 1 else 0)
  }

  /** Position of the first occurrence of g in gs. */
  function FirstIndex(gs: seq<string>, g: string): (i: nat)
    requires g in gs
    ensures i < |gs| && gs[i] == g && g !in gs[..i]
  {
    if gs[0] == g then 0 else 1 + FirstIndex(gs[1..], g)
  }

  lemma {:induction false} FirstIndexAppend(gs: seq<string>, x: string, g: string)
    requires g in gs + [x]
    ensures g in gs ==> FirstIndex(gs + [x], g) == FirstIndex(gs, g)
    ensures g !in gs ==> FirstIndex(gs + [x], g) == |gs|
  {
    if gs != [] && gs[0] != g {
      assert (gs + [x])[1..] == gs[1..] + [x];
      FirstIndexAppend(gs[1..], x, g);
    }
  }

  lemma {:induction false} OccurrencesPositive(gs: seq<string>, g: string)
    ensures Occurrences(gs, g) > 0 <==> g in gs
  {
    if gs != [] {
      OccurrencesPositive(gs[..|gs| - 1], g);
      assert gs == gs[..|gs| - 1] + [gs[|gs| - 1]];
    }
  }

  /** The tally's keys are the genres of gs, each listed once. */
  lemma {:induction false} TallyKeys(gs: seq<string>)
    ensures Distinct(TallyOf(gs).order)
    ensures forall g :: g in TallyOf(gs).counts <==> g in gs
    ensures forall g :: g in TallyOf(gs).order <==> g in gs
  {
    if gs != [] {
      var init, x := gs[..|gs| - 1], gs[|gs| - 1];
      assert gs == init + [x];
      TallyKeys(init);
    }
  }

  /** Each tallied genre carries its number of occurrences in gs. */
  lemma {:induction false} TallyCounts(gs: seq<string>)
    ensures forall g :: g in TallyOf(gs).counts ==> TallyOf(gs).counts[g] == Occurrences(gs, g)
  {
    if gs != [] {
      var init, x := gs[..|gs| - 1], gs[|gs| - 1];
      assert gs == init + [x];
      TallyCounts(init);
      TallyKeys(init);
      forall g | g in TallyOf(gs).counts
        ensures TallyOf(gs).counts[g] == Occurrences(gs, g)
      {
        assert Occurrences(gs, g) == Occurrences(init, g) + (if x == g then 1 else 0);
        if g != x {
          assert g in TallyOf(init).counts;
        } else {
          OccurrencesPositive(init, x);
        }
      }
    }
  }

  /** The keys are listed in the order their genres first occur in gs. */
  lemma {:induction false} TallyFirstSeen(gs: seq<string>)
    ensures forall g :: g in TallyOf(gs).order ==> g in gs
    ensures forall i, j :: 0 <= i < j < |TallyOf(gs).order| ==>
      FirstIndex(gs, TallyOf(gs).order[i]) < FirstIndex(gs, TallyOf(gs).order[j])
  {
    TallyKeys(gs);
    if gs != [] {
      var init, x := gs[..|gs| - 1], gs[|gs| - 1];
      assert gs == init + [x];
      TallyFirstSeen(init);
      TallyKeys(init);
      var t := TallyOf(init);
      var t' := TallyOf(gs);
      forall i, j | 0 <= i < j < |t'.order|
        ensures FirstIndex(gs, t'.order[i]) < FirstIndex(gs, t'.order[j])
      {
        assert t'.order[i] == t.order[i];
        FirstIndexAppend(init, x, t.order[i]);
        if j < |t.order| {
          assert t'.order[j] == t.order[j];
          FirstIndexAppend(init, x, t.order[j]);
        } else {
          assert x !in init && t'.order[j] == x;
          FirstIndexAppend(init, x, x);
        }
      }
    }
  }

  lemma {:induction false} DistinctCardinality(s: seq<string>)
    requires Distinct(s)
    ensures |set x | x in s| == |s|
  {
    if s != [] {
      var init := s[..|s| - 1];
      DistinctCardinality(init);
      assert s == init + [s[|s| - 1]];
      assert (set x | x in s) == (set x | x in init) + {s[|s| - 1]};
    }
  }

  /** A tallied genre and its count, as `Object.entries` yields them. */
  datatype GenreCount = GenreCount(genre: string, count: nat)

  function Entries(t: Tally): (e: seq<GenreCount>)
    ensures |e| == |t.order|
  {
    seq(|t.order|, i requires 0 <= i < |t.order| =>
      GenreCount(t.order[i], if t.order[i] in t.counts then t.counts[t.order[i]] else 0))
  }

  function CountKey(c: GenreCount): real
  {
    c.count as real
  }

  /** The genres of the artists, most frequent first, ties in first-seen order:
      `Object.entries(genreCounts).sort((a, b) => b[1] - a[1])`. */
  function RankGenres(artists: seq<Artist>): seq<GenreCount>
  {
    SortDesc(Entries(TallyOf(AllGenres(artists))), CountKey)
  }

  /** The set of genres the artists list. */
  ghost function GenreSet(artists: seq<Artist>): set<string>
  {
    set g | g in AllGenres(artists)
  }

  /** The ranking has one entry per distinct genre. */
  lemma RankLength(artists: seq<Artist>)
    ensures |RankGenres(artists)| == |GenreSet(artists)|
  {
    var gs := AllGenres(artists);
    var t := TallyOf(gs);
    TallyKeys(gs);
    DistinctCardinality(t.order);
    assert (set x | x in t.order) == GenreSet(artists);
    SortDescOrdered(Entries(t), CountKey);
  }

  /** Ranked entry i is a genre of the artists with its number of
      occurrences, which is positive. */
  lemma RankAt(artists: seq<Artist>, i: nat)
    requires i < |RankGenres(artists)|
    ensures RankGenres(artists)[i].genre in AllGenres(artists)
    ensures RankGenres(artists)[i].count == Occurrences(AllGenres(artists), RankGenres(artists)[i].genre)
    ensures RankGenres(artists)[i].count > 0
    ensures artists != []
  {
    var gs := AllGenres(artists);
    var t := TallyOf(gs);
    var e := Entries(t);
    var r := RankGenres(artists);
    TallyKeys(gs);
    TallyCounts(gs);
    SortDescOrdered(e, CountKey);
    assert r[i] in multiset(e);
    var p :| 0 <= p < |e| && e[p] == r[i];
    assert t.order[p] in t.order;
    OccurrencesPositive(gs, r[i].genre);
    assert AllGenres([]) == [];
  }

  /** Every genre of the artists is ranked. */
  lemma RankCovers(artists: seq<Artist>, g: string)
    requires g in AllGenres(artists)
    ensures exists i :: 0 <= i < |RankGenres(artists)| && RankGenres(artists)[i].genre == g
  {
    var gs := AllGenres(artists);
    var t := TallyOf(gs);
    var e := Entries(t);
    var r := RankGenres(artists);
    TallyKeys(gs);
    SortDescOrdered(e, CountKey);
    var p :| 0 <= p < |t.order| && t.order[p] == g;
    assert e[p] in multiset(r);
    var i :| 0 <= i < |r| && r[i] == e[p];
  }

  /** Genres of equal count keep the order in which they were first seen. */
  lemma RankTiesFirstSeen(artists: seq<Artist>, i: nat, j: nat)
    requires i < j < |RankGenres(artists)|
    requires RankGenres(artists)[i].count == RankGenres(artists)[j].count
    ensures RankGenres(artists)[i].genre in AllGenres(artists)
    ensures RankGenres(artists)[j].genre in AllGenres(artists)
    ensures FirstIndex(AllGenres(artists), RankGenres(artists)[i].genre)
          < FirstIndex(AllGenres(artists), RankGenres(artists)[j].genre)
  {
    var gs := AllGenres(artists);
    var t := TallyOf(gs);
    var e := Entries(t);
    var r := RankGenres(artists);
    TallyFirstSeen(gs);
    SortDescTies(e, CountKey, i, j);
    var p, q :| 0 <= p < q < |e| && e[p] == r[i] && e[q] == r[j];
    assert t.order[p] in t.order && t.order[q] in t.order;
  }

  // ---------------------------------------------------------------------
  // Genre sub-vector
  // ---------------------------------------------------------------------

  /** Ten slots: slot i is the count of the i-th ranked genre divided by the
      count of the top genre, and 0 past the last ranked genre or when there
      are no artists. */
  function GenreVectorOf(artists: seq<Artist>): (v: seq<real>)
    ensures |v| == GenreDims
  {
    if artists == [] then seq(GenreDims, _ => 0.0)
    else
      var top := Take(RankGenres(artists), GenreDims);
      var maxCount := if |top| > 0 && top[0].count != 0 then top[0].count else 1;
      seq(GenreDims, i => if 0 <= i < |top| then top[i].count as real / maxCount as real else 0.0)
  }

  lemma RankOrdered(artists: seq<Artist>)
    ensures NonIncreasing(RankGenres(artists), CountKey)
  {
    SortDescOrdered(Entries(TallyOf(AllGenres(artists))), CountKey);
  }

  /** Slot i of the genre sub-vector, for one index. */
  lemma GenreVectorAt(artists: seq<Artist>, i: nat)
    requires i < GenreDims
    ensures |RankGenres(artists)| == |GenreSet(artists)|
    ensures |GenreSet(artists)| > 0 ==> RankGenres(artists)[0].count > 0
    ensures i < Min(GenreDims, |GenreSet(artists)|) ==>
      GenreVectorOf(artists)[i] == RankGenres(artists)[i].count as real / RankGenres(artists)[0].count as real
    ensures i >= Min(GenreDims, |GenreSet(artists)|) ==> GenreVectorOf(artists)[i] == 0.0
  {
    RankLength(artists);
    if |GenreSet(artists)| > 0 {
      RankAt(artists, 0);
    } else if artists != [] {
      assert |RankGenres(artists)| == 0;
    }
  }

  /** Without genres the genre sub-vector is all zeros; otherwise the top
      genre's slot is 1 and every slot lies in [0, 1]. */
  lemma GenreVectorNormalised(artists: seq<Artist>)
    ensures AllGenres(artists) == [] ==> forall i :: 0 <= i < GenreDims ==> GenreVectorOf(artists)[i] == 0.0
    ensures AllGenres(artists) != [] ==> GenreVectorOf(artists)[0] == 1.0
    ensures forall i :: 0 <= i < GenreDims ==> 0.0 <= GenreVectorOf(artists)[i] <= 1.0
  {
    var gs := AllGenres(artists);
    var r := RankGenres(artists);
    var v := GenreVectorOf(artists);
    RankOrdered(artists);
    if gs != [] {
      assert gs[0] in GenreSet(artists);
    } else {
      assert GenreSet(artists) == {};
    }
    forall i | 0 <= i < GenreDims
      ensures 0.0 <= v[i] <= 1.0
      ensures gs == [] ==> v[i] == 0.0
    {
      GenreVectorAt(artists, i);
      if i < Min(GenreDims, |r|) {
        var m := r[0].count as real;
        assert r[i].count as real <= m by {
          if i > 0 { assert CountKey(r[0]) >= CountKey(r[i]); }
        }
        RatioInUnit(r[i].count as real, m);
      }
    }
    if gs != [] {
      GenreVectorAt(artists, 0);
      var m := r[0].count as real;
      assert v[0] == m / m;
      DivideSelf(m);
    }
  }

  lemma DivideSelf(m: real)
    requires m > 0.0
    ensures m / m == 1.0
  {
  }

  /** The genre slots never increase, and slot i is positive exactly when i
      is below the number of distinct genres. */
  lemma GenreVectorDescending(artists: seq<Artist>)
    ensures forall i, j :: 0 <= i < j < GenreDims ==> GenreVectorOf(artists)[i] >= GenreVectorOf(artists)[j]
    ensures forall i :: 0 <= i < GenreDims ==> (GenreVectorOf(artists)[i] > 0.0 <==> i < |GenreSet(artists)|)
  {
    forall i, j | 0 <= i < j < GenreDims
      ensures GenreVectorOf(artists)[i] >= GenreVectorOf(artists)[j]
    {
      GenreSlotsOrdered(artists, i, j);
    }
    forall i | 0 <= i < GenreDims
      ensures GenreVectorOf(artists)[i] > 0.0 <==> i < |GenreSet(artists)|
    {
      GenreSlotPositive(artists, i);
    }
  }

  lemma GenreSlotPositive(artists: seq<Artist>, i: nat)
    requires i < GenreDims
    ensures GenreVectorOf(artists)[i] > 0.0 <==> i < |GenreSet(artists)|
  {
    GenreVectorAt(artists, i);
    var r := RankGenres(artists);
    if i < Min(GenreDims, |GenreSet(artists)|) {
      RankAt(artists, i);
      PositiveRatio(r[i].count as real, r[0].count as real);
    }
  }

  lemma PositiveRatio(a: real, m: real)
    requires a > 0.0 && m > 0.0
    ensures a / m > 0.0
  {
    assert (a / m) * m == a;
  }

  lemma GenreSlotsOrdered(artists: seq<Artist>, i: nat, j: nat)
    requires i < j < GenreDims
    ensures GenreVectorOf(artists)[i] >= GenreVectorOf(artists)[j]
  {
    var r := RankGenres(artists);
    var v := GenreVectorOf(artists);
    GenreVectorAt(artists, i);
    GenreVectorAt(artists, j);
    var n := Min(GenreDims, |r|);
    if j < n {
      RankOrdered(artists);
      assert CountKey(r[i]) >= CountKey(r[j]);
      DivideMonotone(r[i].count as real, r[j].count as real, r[0].count as real);
    } else if i < n {
      DivideMonotone(r[i].count as real, 0.0, r[0].count as real);
    }
  }


  lemma DivideMonotone(a: real, b: real, m: real)
    requires m > 0.0 && a >= b
    ensures a / m >= b / m
    ensures a > b ==> a / m > b / m
  {
    assert (a / m) * m == a && (b / m) * m == b;
  }

  /** Slot 0 belongs to a most frequent genre: no genre occurs more often. */
  lemma TopGenreIsMostFrequent(artists: seq<Artist>, g: string)
    requires g in AllGenres(artists)
    ensures |RankGenres(artists)| > 0
    ensures Occurrences(AllGenres(artists), g) <= RankGenres(artists)[0].count
  {
    RankCovers(artists, g);
    RankOrdered(artists);
    var r := RankGenres(artists);
    var i :| 0 <= i < |r| && r[i].genre == g;
    RankAt(artists, i);
    if i > 0 {
      assert CountKey(r[0]) >= CountKey(r[i]);
    }
  }

  lemma TallyOfSnoc(gs: seq<string>, g: string)
    ensures TallyOf(gs + [g]) == Bump(TallyOf(gs), g)
  {
    assert (gs + [g])[..|gs + [g]| - 1] == gs;
  }

  lemma AllGenresSnoc(artists: seq<Artist>, i: nat)
    requires i < |artists|
    ensures AllGenres(artists[..i + 1]) == AllGenres(artists[..i]) + artists[i].genres
  {
    assert artists[..i + 1][..i] == artists[..i];
  }

  /** Tallies the genres of every artist into a fresh counts object, artist
      by artist and genre by genre. */
  method CountGenres(artists: seq<Artist>) returns (t: Tally)
    ensures t == TallyOf(AllGenres(artists))
  {
    var counts: map<string, nat> := map[];
    var order: seq<string> := [];
    for i := 0 to |artists|
      invariant Tally(counts, order) == TallyOf(AllGenres(artists[..i]))
    {
      var genres := artists[i].genres;
      ghost var before := AllGenres(artists[..i]);
      assert before + genres[..0] == before;
      for j := 0 to |genres|
        invariant Tally(counts, order) == TallyOf(before + genres[..j])
      {
        var g := genres[j];
        if g in counts {
          counts := counts[g := counts[g] + 1];
        } else {
          counts := counts[g := 1];
          order := order + [g];
        }
        assert before + genres[..j + 1] == (before + genres[..j]) + [g];
        TallyOfSnoc(before + genres[..j], g);
      }
      AllGenresSnoc(artists, i);
      assert genres[..|genres|] == genres;
    }
    assert artists[..|artists|] == artists;
    t := Tally(counts, order);
  }

  /** computeGenreVector: tally, rank, keep the first ten, and fill a vector
      of ten zeros by index with count / top count. */
  method ComputeGenreVector(artists: seq<Artist>) returns (v: seq<real>)
    ensures v == GenreVectorOf(artists)
  {
    if |artists| == 0 {
      return seq(GenreDims, _ => 0.0);
    }
    var t := CountGenres(artists);
    var sorted := SortDesc(Entries(t), CountKey);
    var top := Take(sorted, GenreDims);
    var maxCount := if |top| > 0 && top[0].count != 0 then top[0].count else 1;
    var vec := new real[GenreDims](_ => 0.0);
    for idx := 0 to |top|
      invariant forall i :: 0 <= i < idx ==> vec[i] == top[i].count as real / maxCount as real
      invariant forall i :: idx <= i < GenreDims ==> vec[i] == 0.0
    {
      vec[idx] := top[idx].count as real / maxCount as real;
    }
    v := vec[..];
  }

  // ---------------------------------------------------------------------
  // Display summaries and the whole profile
  // ---------------------------------------------------------------------

  /** A top artist as stored for display; its image is the first image's url
      when there is one and it is not empty (`images[0]?.url || null`). */
  datatype ArtistSummary = ArtistSummary(name: string, spotifyId: string, image: Option<string>, genres: seq<string>)

  datatype GenreWeight = GenreWeight(name: string, weight: real)

  /** A top track as stored for display, with the name of its first artist or
      'Unknown'. */
  datatype TrackSummary = TrackSummary(name: string, artist: string, spotifyId: string)

  /** The profile a sync stores on the user: the 17-slot embedding and the
      three display summaries. */
  datatype MusicEmbedding = MusicEmbedding(
    embedding: seq<real>,
    topArtists: seq<ArtistSummary>,
    topGenres: seq<GenreWeight>,
    topTracks: seq<TrackSummary>)

  function SummarizeArtist(a: Artist): ArtistSummary
  {
    ArtistSummary(a.name, a.id, if |a.imageUrls| > 0 && a.imageUrls[0] != "" then Some(a.imageUrls[0]) else None, a.genres)
  }

  function SummarizeTrack(t: Track): TrackSummary
  {
    TrackSummary(t.name, if |t.artistNames| > 0 && t.artistNames[0] != "" then t.artistNames[0] else "Unknown", t.id)
  }

  /** The five most frequent genres, each weighted by its count over the
      number of artists (not over the top count, unlike the embedding). */
  function TopGenresOf(artists: seq<Artist>): (r: seq<GenreWeight>)
    ensures |r| == Min(TopGenresShown, |RankGenres(artists)|)
    ensures forall i :: 0 <= i < |r| ==> r[i].name == RankGenres(artists)[i].genre
  {
    var top := Take(RankGenres(artists), TopGenresShown);
    if top == [] then []
    else
      RankAt(artists, 0);
      seq(|top|, i requires 0 <= i < |top| => GenreWeight(top[i].genre, top[i].count as real / |artists| as real))
  }

  /** Top genre i, with its weight spelled out. */
  lemma TopGenreAt(artists: seq<Artist>, i: nat)
    requires i < |TopGenresOf(artists)|
    ensures artists != []
    ensures RankGenres(artists)[i].count > 0
    ensures TopGenresOf(artists)[i] ==
      GenreWeight(RankGenres(artists)[i].genre, RankGenres(artists)[i].count as real / |artists| as real)
  {
    RankAt(artists, i);
  }

  /** Number of artists whose genre list contains g. */
  function ArtistsListing(artists: seq<Artist>, g: string): nat
  {
    if artists == [] then 0
    else ArtistsListing(artists[..|artists| - 1], g) + (if g in artists[|artists| - 1].genres then 1 else 0)
  }

  lemma {:induction false} OccurrencesAppend(a: seq<string>, b: seq<string>, g: string)
    ensures Occurrences(a + b, g) == Occurrences(a, g) + Occurrences(b, g)
  {
    if b == [] {
      assert a + b == a;
    } else {
      assert (a + b)[..|a + b| - 1] == a + b[..|b| - 1];
      OccurrencesAppend(a, b[..|b| - 1], g);
    }
  }

  lemma {:induction false} OccurrencesInDistinct(b: seq<string>, g: string)
    requires Distinct(b)
    ensures Occurrences(b, g) == if g in b then 1 else 0
  {
    if b != [] {
      var init := b[..|b| - 1];
      assert b == init + [b[|b| - 1]];
      OccurrencesInDistinct(init, g);
    }
  }

  /** When no artist lists a genre twice, a genre's count is the number of
      artists that list it. */
  lemma {:induction false} OccurrencesCountArtists(artists: seq<Artist>, g: string)
    requires forall a :: a in artists ==> Distinct(a.genres)
    ensures Occurrences(AllGenres(artists), g) == ArtistsListing(artists, g)
  {
    if artists != [] {
      var init := artists[..|artists| - 1];
      var last := artists[|artists| - 1];
      OccurrencesCountArtists(init, g);
      OccurrencesAppend(AllGenres(init), last.genres, g);
      OccurrencesInDistinct(last.genres, g);
    }
  }

  lemma ArtistsListingAtMost(artists: seq<Artist>, g: string)
    ensures ArtistsListing(artists, g) <= |artists|
  {
  }

  /** When no artist lists a genre twice, each top-genre weight is the
      fraction of artists that list the genre, so it lies in (0, 1]. */
  lemma TopGenreWeightIsArtistShare(artists: seq<Artist>, i: nat)
    requires forall a :: a in artists ==> Distinct(a.genres)
    requires i < |TopGenresOf(artists)|
    ensures |artists| > 0
    ensures TopGenresOf(artists)[i].weight == ArtistsListing(artists, TopGenresOf(artists)[i].name) as real / |artists| as real
    ensures 0.0 < TopGenresOf(artists)[i].weight <= 1.0
  {
    TopGenreAt(artists, i);
    RankAt(artists, i);
    var r := RankGenres(artists);
    var g := r[i].genre;
    var n := |artists| as real;
    var c := r[i].count;
    OccurrencesCountArtists(artists, g);
    ArtistsListingAtMost(artists, g);
    assert c == ArtistsListing(artists, g) && 0 < c <= |artists|;
    ShareInUnit(c as real, n);
  }

  lemma RatioInUnit(c: real, n: real)
    requires 0.0 <= c <= n && n > 0.0
    ensures 0.0 <= c / n <= 1.0
  {
    DivideMonotone(c, 0.0, n);
    DivideMonotone(n, c, n);
  }

  lemma ShareInUnit(c: real, n: real)
    requires 0.0 < c <= n
    ensures 0.0 < c / n <= 1.0
  {
    DivideMonotone(c, 0.0, n);
    DivideMonotone(n, c, n);
  }

  /** The two normalisations agree up to scale: among the first five genres,
      embedding slot i is top-genre weight i over top-genre weight 0. */
  lemma GenreSlotsAreWeightRatios(artists: seq<Artist>, i: nat)
    requires i < |TopGenresOf(artists)|
    ensures TopGenresOf(artists)[0].weight > 0.0
    ensures GenreVectorOf(artists)[i] == TopGenresOf(artists)[i].weight / TopGenresOf(artists)[0].weight
  {
    TopGenreAt(artists, i);
    TopGenreAt(artists, 0);
    GenreVectorAt(artists, i);
    RankLength(artists);
    var r := RankGenres(artists);
    var n := |artists| as real;
    var a, m := r[i].count as real, r[0].count as real;
    assert i < Min(GenreDims, |GenreSet(artists)|);
    assert GenreVectorOf(artists)[i] == a / m;
    assert TopGenresOf(artists)[i].weight == a / n && TopGenresOf(artists)[0].weight == m / n;
    PositiveShare(m, n);
    RatioOfShares(a, m, n);
  }

  lemma PositiveShare(m: real, n: real)
    requires m > 0.0 && n > 0.0
    ensures m / n > 0.0
  {
  }

  lemma RatioOfShares(a: real, m: real, n: real)
    requires m > 0.0 && n > 0.0
    ensures (a / n) / (m / n) == a / m
  {
    var q := a / m;
    assert q * m == a;
    assert (q * m) / n == q * (m / n);
  }

  /** generateMusicEmbedding: the embedding is the audio sub-vector followed
      by the genre sub-vector (17 slots); the summaries keep the first ten
      artists, the five most frequent genres and the first five tracks. */
  method GenerateMusicEmbedding(tracks: seq<Track>, artists: seq<Artist>, audioFeatures: seq<AudioFeatures>)
    returns (p: MusicEmbedding)
    ensures |p.embedding| == EmbeddingDims
    ensures p.embedding[..AudioDims] == AudioVector(audioFeatures)
    ensures p.embedding[AudioDims..] == GenreVectorOf(artists)
    ensures |p.topArtists| == Min(TopArtistsShown, |artists|)
    ensures forall i :: 0 <= i < |p.topArtists| ==> p.topArtists[i] == SummarizeArtist(artists[i])
    ensures p.topGenres == TopGenresOf(artists)
    ensures |p.topTracks| == Min(TopTracksShown, |tracks|)
    ensures forall i :: 0 <= i < |p.topTracks| ==> p.topTracks[i] == SummarizeTrack(tracks[i])
  {
    var audioVector := AudioVector(audioFeatures);
    var genreVector := ComputeGenreVector(artists);
    var embedding := audioVector + genreVector;

    var shownArtists := Take(artists, TopArtistsShown);
    var topArtists := seq(|shownArtists|, i requires 0 <= i < |shownArtists| => SummarizeArtist(shownArtists[i]));

    var counts := CountGenres(artists);
    var ranked := SortDesc(Entries(counts), CountKey);
    var shownGenres := Take(ranked, TopGenresShown);
    var topGenres := [];
    if shownGenres != [] {
      RankAt(artists, 0);
      topGenres := seq(|shownGenres|, i requires 0 <= i < |shownGenres| =>
        GenreWeight(shownGenres[i].genre, shownGenres[i].count as real / |artists| as real));
    }

    var shownTracks := Take(tracks, TopTracksShown);
    var topTracks := seq(|shownTracks|, i requires 0 <= i < |shownTracks| => SummarizeTrack(shownTracks[i]));

    p := MusicEmbedding(embedding, topArtists, topGenres, topTracks);
  }

  // ---------------------------------------------------------------------
  // Cosine similarity
  // ---------------------------------------------------------------------

  const DimensionMismatch := "Embeddings must have the same dimension"

  /** Sum of a[i] * b[i], accumulated from the first index up. */
  function Dot(a: seq<real>, b: seq<real>): real
    requires |a| == |b|
  {
    if a == [] then 0.0 else Dot(a[..|a| - 1], b[..|b| - 1]) + Mul(a[|a| - 1], b[|b| - 1])
  }

  /** x * y as a named term: the proofs about Dot and the Cauchy-Schwarz
      inequality treat each product as one value and expand it only where
      the algebra is done. */
  function Mul(x: real, y: real): real
  {
    x * y
  }

  /** sqrt is a square root on the non-negative reals. The model leaves the
      floating-point square root abstract and relies only on this of it. */
  ghost predicate IsSqrt(sqrt: real -> real)
  {
    forall x :: 0.0 <= x ==> 0.0 <= sqrt(x) && sqrt(x) * sqrt(x) == x
  }

  /** The product of the two norms, as cosineSimilarity computes it. */
  function NormProduct(a: seq<real>, b: seq<real>, sqrt: real -> real): real
    requires |a| == |b|
  {
    Mul(sqrt(Dot(a, a)), sqrt(Dot(b, b)))
  }

  /** cosineSimilarity as a value: a dimension error for vectors of different
      lengths, 0 when the product of the norms is 0, and dot / (|a| * |b|)
      otherwise. */
  function Cosine(a: seq<real>, b: seq<real>, sqrt: real -> real): (r: Result<real, string>)
    ensures r.Failure? <==> |a| != |b|
    ensures r.Failure? ==> r.error == DimensionMismatch
  {
    if |a| != |b| then Failure(DimensionMismatch)
    else Success(Ratio(Dot(a, b), NormProduct(a, b, sqrt)))
  }

  /** The quotient cosineSimilarity returns: 0 when the divisor is 0. */
  function Ratio(c: real, d: real): (r: real)
    ensures d == 0.0 ==> r == 0.0
    ensures d != 0.0 ==> r * d == c
  {
    if d == 0.0 then 0.0 else c / d
  }

  /** cosineSimilarity: one pass accumulating the dot product and both
      squared norms. */
  method CosineSimilarity(a: seq<real>, b: seq<real>, sqrt: real -> real) returns (r: Result<real, string>)
    ensures r == Cosine(a, b, sqrt)
  {
    if |a| != |b| {
      return Failure(DimensionMismatch);
    }
    var dotProduct, norm1, norm2 := 0.0, 0.0, 0.0;
    for i := 0 to |a|
      invariant dotProduct == Dot(a[..i], b[..i])
      invariant norm1 == Dot(a[..i], a[..i])
      invariant norm2 == Dot(b[..i], b[..i])
    {
      assert a[..i + 1][..i] == a[..i] && b[..i + 1][..i] == b[..i];
      dotProduct := dotProduct + a[i] * b[i];
      norm1 := norm1 + a[i] * a[i];
      norm2 := norm2 + b[i] * b[i];
    }
    assert a[..|a|] == a && b[..|b|] == b;
    var denominator := sqrt(norm1) * sqrt(norm2);
    assert denominator == NormProduct(a, b, sqrt);
    if denominator == 0.0 {
      return Success(0.0);
    }
    return Success(dotProduct / denominator);
  }

  lemma {:induction false} DotSymmetric(a: seq<real>, b: seq<real>)
    requires |a| == |b|
    ensures Dot(a, b) == Dot(b, a)
  {
    if a != [] {
      DotSymmetric(a[..|a| - 1], b[..|b| - 1]);
    }
  }

  lemma ProductZero(x: real, y: real)
    ensures x * y == 0.0 <==> x == 0.0 || y == 0.0
  {
    if x != 0.0 && y != 0.0 {
      assert (x * y) / y == x;
    }
  }

  lemma SquareSign(x: real)
    ensures x * x >= 0.0
    ensures x * x == 0.0 <==> x == 0.0
  {
    ProductZero(x, x);
    if x < 0.0 {
      assert x * x == (-x) * (-x);
    }
  }

  /** A squared norm is never negative, and it is 0 exactly for the zero
      vector. */
  lemma {:induction false} NormZeroIffZeroVector(a: seq<real>)
    ensures Dot(a, a) >= 0.0
    ensures Dot(a, a) == 0.0 <==> forall i :: 0 <= i < |a| ==> a[i] == 0.0
  {
    if a != [] {
      var init := a[..|a| - 1];
      var x := a[|a| - 1];
      NormZeroIffZeroVector(init);
      SquareSign(x);
      assert Dot(a, a) == Dot(init, init) + x * x;
      if Dot(a, a) == 0.0 {
        assert x == 0.0;
        forall i | 0 <= i < |a| ensures a[i] == 0.0 {
          if i < |a| - 1 {
            assert a[i] == init[i];
          }
        }
      }
    }
  }

  /** Similarity is symmetric in its two arguments. */
  lemma CosineSymmetric(a: seq<real>, b: seq<real>, sqrt: real -> real)
    ensures Cosine(a, b, sqrt) == Cosine(b, a, sqrt)
  {
    if |a| == |b| {
      DotSymmetric(a, b);
    }
  }

  /** What the model uses of a square root at one point. */
  lemma SqrtAt(sqrt: real -> real, x: real)
    requires IsSqrt(sqrt) && x >= 0.0
    ensures sqrt(x) >= 0.0 && sqrt(x) * sqrt(x) == x
    ensures sqrt(x) == 0.0 <==> x == 0.0
  {
    assert sqrt(x) * sqrt(x) == x;
    ProductZero(sqrt(x), sqrt(x));
  }

  /** The product of the norms is 0 exactly when one vector is all zeros;
      then the similarity is 0, not an error. */
  lemma CosineOfZeroVector(a: seq<real>, b: seq<real>, sqrt: real -> real)
    requires IsSqrt(sqrt) && |a| == |b|
    ensures NormProduct(a, b, sqrt) == 0.0 <==>
      (forall i :: 0 <= i < |a| ==> a[i] == 0.0) || (forall i :: 0 <= i < |b| ==> b[i] == 0.0)
    ensures (forall i :: 0 <= i < |a| ==> a[i] == 0.0) ==> Cosine(a, b, sqrt) == Success(0.0)
    ensures (forall i :: 0 <= i < |b| ==> b[i] == 0.0) ==> Cosine(a, b, sqrt) == Success(0.0)
  {
    NormZeroIffZeroVector(a);
    NormZeroIffZeroVector(b);
    SqrtAt(sqrt, Dot(a, a));
    SqrtAt(sqrt, Dot(b, b));
    ProductZero(sqrt(Dot(a, a)), sqrt(Dot(b, b)));
  }

  /** Orthogonal vectors have similarity 0. */
  lemma CosineOrthogonal(a: seq<real>, b: seq<real>, sqrt: real -> real)
    requires |a| == |b| && Dot(a, b) == 0.0
    ensures Cosine(a, b, sqrt) == Success(0.0)
  {
  }

  /** A vector that is not all zeros has similarity 1 with itself. */
  lemma CosineSelf(a: seq<real>, sqrt: real -> real)
    requires IsSqrt(sqrt)
    requires exists i :: 0 <= i < |a| && a[i] != 0.0
    ensures Cosine(a, a, sqrt) == Success(1.0)
  {
    NormZeroIffZeroVector(a);
    var n := Dot(a, a);
    assert n != 0.0;
    SqrtAt(sqrt, n);
    assert NormProduct(a, a, sqrt) == n;
    assert Dot(a, a) / NormProduct(a, a, sqrt) == 1.0;
  }

  /** Two prefix sums extended by one more coordinate: the cross term of
      the Cauchy-Schwarz step. */
  lemma CrossTermBound(A: real, B: real, C: real, x: real, y: real)
    requires A >= 0.0 && B >= 0.0 && C * C <= A * B
    ensures 2.0 * C * x * y <= A * y * y + B * x * x
  {
    SquareSign(x);
    if A == 0.0 {
      SquareSign(C);
      assert B * (x * x) >= 0.0;
    } else {
      SlackIdentity(A, B, C, x, y);
      SquareSign(A * y - C * x);
      assert (A * B - C * C) * (x * x) >= 0.0;
      FactorSign(A, A * y * y + B * x * x - 2.0 * C * x * y);
    }
  }

  lemma FactorSign(a: real, s: real)
    requires a > 0.0
    ensures a * s >= 0.0 ==> s >= 0.0
  {
    if s < 0.0 {
      assert a * s < 0.0;
    }
  }

  lemma SlackIdentity(A: real, B: real, C: real, x: real, y: real)
    ensures A * (A * y * y + B * x * x - 2.0 * C * x * y) ==
      (A * y - C * x) * (A * y - C * x) + (A * B - C * C) * (x * x)
  {
    var ay, cx := A * y, C * x;
    assert (ay - cx) * (ay - cx) == ay * ay - 2.0 * ay * cx + cx * cx;
    assert ay * ay == A * A * y * y;
    assert cx * cx == C * C * x * x;
    assert ay * cx == A * C * x * y;
    assert (A * B - C * C) * (x * x) == A * B * x * x - C * C * x * x;
    assert A * (A * y * y + B * x * x - 2.0 * C * x * y) == A * A * y * y + A * B * x * x - 2.0 * A * C * x * y;
  }

  /** One coordinate more keeps C^2 <= A * B, where A2, B2 and C2 are the
      extended sums. */
  lemma SquareStep(A: real, B: real, C: real, x: real, y: real, A2: real, B2: real, C2: real)
    requires A >= 0.0 && B >= 0.0 && Mul(C, C) <= Mul(A, B)
    requires A2 == A + Mul(x, x) && B2 == B + Mul(y, y) && C2 == C + Mul(x, y)
    ensures Mul(C2, C2) <= Mul(A2, B2)
  {
    CrossTermBound(A, B, C, x, y);
    assert (C + x * y) * (C + x * y) == C * C + 2.0 * C * x * y + (x * x) * (y * y);
    assert (A + x * x) * (B + y * y) == A * B + A * y * y + B * x * x + (x * x) * (y * y);
  }

  /** The Cauchy-Schwarz inequality: dot(a, b)^2 <= |a|^2 |b|^2. */
  lemma {:induction false} CauchySchwarz(a: seq<real>, b: seq<real>)
    requires |a| == |b|
    ensures Mul(Dot(a, b), Dot(a, b)) <= Mul(Dot(a, a), Dot(b, b))
  {
    if a != [] {
      CauchySchwarz(a[..|a| - 1], b[..|b| - 1]);
      CauchySchwarzStep(a, b);
    }
  }

  /** The inductive step of Cauchy-Schwarz: one more coordinate. */
  lemma CauchySchwarzStep(a: seq<real>, b: seq<real>)
    requires |a| == |b| > 0
    requires Mul(Dot(a[..|a| - 1], b[..|b| - 1]), Dot(a[..|a| - 1], b[..|b| - 1])) <=
      Mul(Dot(a[..|a| - 1], a[..|a| - 1]), Dot(b[..|b| - 1], b[..|b| - 1]))
    ensures Mul(Dot(a, b), Dot(a, b)) <= Mul(Dot(a, a), Dot(b, b))
  {
    NormZeroIffZeroVector(a[..|a| - 1]);
    NormZeroIffZeroVector(b[..|b| - 1]);
    SquareStep(Dot(a[..|a| - 1], a[..|a| - 1]), Dot(b[..|b| - 1], b[..|b| - 1]), Dot(a[..|a| - 1], b[..|b| - 1]),
      a[|a| - 1], b[|b| - 1], Dot(a, a), Dot(b, b), Dot(a, b));
  }

  /** A ratio whose square is at most 1 lies in [-1, 1]. */
  lemma RatioBound(c: real, s1: real, s2: real, A: real, B: real)
    requires s1 >= 0.0 && s2 >= 0.0 && s1 * s2 != 0.0
    requires s1 * s1 == A && s2 * s2 == B && c * c <= A * B
    ensures -1.0 <= c / (s1 * s2) <= 1.0
  {
    var d := s1 * s2;
    assert d > 0.0 by {
      ProductZero(s1, s2);
    }
    assert d * d == A * B;
    SquareBound(c, d);
    DivideMonotone(c, -d, d);
    DivideMonotone(d, c, d);
  }

  lemma SquareGrows(c: real, d: real)
    requires d > 0.0
    ensures c > d ==> c * c > d * d
  {
    if c > d {
      var e := c - d;
      assert c * c == d * d + 2.0 * d * e + e * e;
      assert d * e > 0.0;
      assert e * e > 0.0;
    }
  }

  lemma SquareBound(c: real, d: real)
    requires d > 0.0 && c * c <= d * d
    ensures -d <= c <= d
  {
    SquareGrows(c, d);
    SquareGrows(-c, d);
    assert (-c) * (-c) == c * c;
  }

  /** Similarity always lies in [-1, 1]. */
  lemma CosineBounded(a: seq<real>, b: seq<real>, sqrt: real -> real)
    requires IsSqrt(sqrt) && |a| == |b|
    ensures -1.0 <= Cosine(a, b, sqrt).value <= 1.0
  {
    NormZeroIffZeroVector(a);
    NormZeroIffZeroVector(b);
    CauchySchwarz(a, b);
    RatioOfRootsBounded(Dot(a, b), Dot(a, a), Dot(b, b), sqrt);
  }

  /** The quotient of c by the product of the roots of A and B lies in
      [-1, 1] when c^2 <= A * B. */
  lemma RatioOfRootsBounded(c: real, A: real, B: real, sqrt: real -> real)
    requires IsSqrt(sqrt) && A >= 0.0 && B >= 0.0 && Mul(c, c) <= Mul(A, B)
    ensures -1.0 <= Ratio(c, Mul(sqrt(A), sqrt(B))) <= 1.0
  {
    var s1, s2 := sqrt(A), sqrt(B);
    SqrtAt(sqrt, A);
    SqrtAt(sqrt, B);
    if s1 * s2 != 0.0 {
      assert c * c <= A * B;
      RatioBound(c, s1, s2, A, B);
      assert Ratio(c, Mul(s1, s2)) == c / (s1 * s2);
    }
  }

  /** Vectors with no negative entry have non-negative similarity. */
  lemma {:induction false} DotNonNegative(a: seq<real>, b: seq<real>)
    requires |a| == |b|
    requires forall i :: 0 <= i < |a| ==> a[i] >= 0.0 && b[i] >= 0.0
    ensures Dot(a, b) >= 0.0
  {
    if a != [] {
      DotNonNegative(a[..|a| - 1], b[..|b| - 1]);
      assert a[|a| - 1] * b[|b| - 1] >= 0.0;
    }
  }

  lemma CosineNonNegative(a: seq<real>, b: seq<real>, sqrt: real -> real)
    requires IsSqrt(sqrt) && |a| == |b|
    requires forall i :: 0 <= i < |a| ==> a[i] >= 0.0 && b[i] >= 0.0
    ensures Cosine(a, b, sqrt).value >= 0.0
  {
    DotNonNegative(a, b);
    NormZeroIffZeroVector(a);
    NormZeroIffZeroVector(b);
    SqrtAt(sqrt, Dot(a, a));
    SqrtAt(sqrt, Dot(b, b));
    var d := NormProduct(a, b, sqrt);
    if d != 0.0 {
      assert d > 0.0;
      DivideMonotone(Dot(a, b), 0.0, d);
    }
  }

  // ---------------------------------------------------------------------
  // Match score
  // ---------------------------------------------------------------------

  const DefaultMaxDistanceKm: real := 50.0

  function RealMin(x: real, y: real): real
  {
    if x <= y then x else y
  }

  lemma CreditBounds(distanceKm: real, maxDistanceKm: real)
    requires maxDistanceKm > 0.0
    ensures distanceKm >= 0.0 ==> distanceKm / maxDistanceKm >= 0.0
    ensures distanceKm >= maxDistanceKm ==> distanceKm / maxDistanceKm >= 1.0
  {
    if distanceKm >= 0.0 {
      DivideMonotone(distanceKm, 0.0, maxDistanceKm);
    }
    if distanceKm >= maxDistanceKm {
      DivideMonotone(distanceKm, maxDistanceKm, maxDistanceKm);
    }
  }

  /** 1 - min(d / max, 1): full credit at distance 0, none from max on. */
  function DistanceCredit(distanceKm: real, maxDistanceKm: real): (c: real)
    requires maxDistanceKm > 0.0
    ensures c >= 0.0
    ensures distanceKm >= maxDistanceKm ==> c == 0.0
    ensures distanceKm >= 0.0 ==> c <= 1.0
  {
    CreditBounds(distanceKm, maxDistanceKm);
    1.0 - RealMin(distanceKm / maxDistanceKm, 1.0)
  }

  /** calculateMatchScore: 0.6 similarity + 0.3 distance credit + 0.1
      activity. With inputs in their ranges the score lies in [0, 1]; at or
      beyond the maximum distance only similarity and activity count. */
  function MatchScore(musicSimilarity: real, distanceKm: real, activityScore: real, maxDistanceKm: real): (score: real)
    requires maxDistanceKm > 0.0
    ensures distanceKm >= maxDistanceKm ==> score == 0.6 * musicSimilarity + 0.1 * activityScore
    ensures 0.0 <= musicSimilarity <= 1.0 && 0.0 <= activityScore <= 1.0 && distanceKm >= 0.0 ==>
      0.0 <= score <= 1.0
  {
    0.6 * musicSimilarity + 0.3 * DistanceCredit(distanceKm, maxDistanceKm) + 0.1 * activityScore
  }

  /** The score never decreases with similarity or activity and never
      increases with distance. */
  lemma MatchScoreMonotone(s1: real, s2: real, d1: real, d2: real, a1: real, a2: real, maxDistanceKm: real)
    requires maxDistanceKm > 0.0
    requires s1 <= s2 && d1 >= d2 && a1 <= a2
    ensures MatchScore(s1, d1, a1, maxDistanceKm) <= MatchScore(s2, d2, a2, maxDistanceKm)
  {
    DivideMonotone(d1, d2, maxDistanceKm);
  }

  /** Identical non-zero profiles, no distance and full activity score 1. */
  lemma IdenticalNeighboursScoreOne(v: seq<real>, sqrt: real -> real)
    requires IsSqrt(sqrt)
    requires exists i :: 0 <= i < |v| && v[i] != 0.0
    ensures Cosine(v, v, sqrt) == Success(1.0)
    ensures MatchScore(Cosine(v, v, sqrt).value, 0.0, 1.0, DefaultMaxDistanceKm) == 1.0
  {
    CosineSelf(v, sqrt);
  }
}
