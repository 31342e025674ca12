/**
 * The browser-side track query of `MusicLibraryAPI` (frontend/js/api.js): `getTracks`
 * filters the loaded catalog, and `getTrack` / `getStreamUrl` look a track up by id.
 * The catalog (`this.tracks`) is a parameter: the only code that replaces it is the
 * loader, which fetches a file.
 */
module Catalog {
  import opened Base
  import opened Text
  import opened JsNumber

  /** A catalog entry as the browser holds it. */
  datatype Track = Track(
    id: string,
    title: string,
    artist: string,
    genre: seq<string>,
    mood: seq<string>,
    bpm: JsNumeric,
    key: Option<string>,
    filePath: string,
    duration: Option<real>)

  /**
   * The `filters` argument of `getTracks`. `None` stands for a property that is
   * `undefined` or `null` (both falsy); the BPM bounds keep the two apart, since the
   * code tests them with `!== undefined`.
   */
  datatype Query = Query(
    genre: Option<seq<string>>,
    mood: Option<seq<string>>,
    bpmMin: JsNumeric,
    bpmMax: JsNumeric,
    key: Option<string>,
    search: Option<string>)

  /** The default argument `filters = {}`. */
  const NoFilters := Query(None, None, Undefined, Undefined, None, None)

  /** What `getTracks` resolves to. */
  datatype QueryResult = QueryResult(tracks: seq<Track>, total: nat, filtered: nat)

  /** One `result.filter(...)` step of the pipeline. */
  datatype Stage =
    | AnyGenre(tags: seq<string>)
    | AnyMood(tags: seq<string>)
    | BpmAtLeast(bound: JsNumeric)
    | BpmAtMost(bound: JsNumeric)
    | KeyIs(key: string)
    | TitleOrArtist(needle: string)

  /** `have.some(g => wanted.includes(g))`. */
  predicate SharesTag(have: seq<string>, wanted: seq<string>) {
    exists i :: 0 <= i < |have| && have[i] in wanted
  }

  /** The callback a stage passes to `filter`. */
  predicate Passes(st: Stage, t: Track) {
    match st
    case AnyGenre(tags) => SharesTag(t.genre, tags)
    case AnyMood(tags) => SharesTag(t.mood, tags)
    case BpmAtLeast(b) => GreaterEq(t.bpm, b)
    case BpmAtMost(b) => LessEq(t.bpm, b)
    case KeyIs(k) => t.key == Some(k)
    case TitleOrArtist(needle) => Contains(Lower(t.title), needle) || Contains(Lower(t.artist), needle)
  }

  /** `s.filter(t => Passes(st, t))`. */
  function Keep(s: seq<Track>, st: Stage): (r: seq<Track>)
    ensures |r| <= |s|
    decreases |s|
  {
    if s == [] then [] else (if Passes(st, s[0]) then [s[0]] else []) + Keep(s[1..], st)
  }

  /** `if (active) { s = s.filter(...) }`. */
  function KeepIf(active: bool, s: seq<Track>, st: Stage): seq<Track> {
    if active then Keep(s, st) else s
  }

  /** A list-valued filter property, with `undefined`/`null` read as no list. */
  function Tags(o: Option<seq<string>>): seq<string> {
    match o
    case None => []
    case Some(tags) => tags
  }

  /** A string-valued filter property that is truthy, i.e. present and non-empty. */
  predicate Truthy(o: Option<string>) {
    o.Some? && o.value != ""
  }

  /** `getTracks`: the filter chain, in the order the code applies it, and the counts. */
  function GetTracks(catalog: seq<Track>, q: Query): (r: QueryResult)
    ensures r.total == |catalog| && r.filtered == |r.tracks| <= r.total
  {
    var byGenre := KeepIf(|Tags(q.genre)| > 0, catalog, AnyGenre(Tags(q.genre)));
    var byMood := KeepIf(|Tags(q.mood)| > 0, byGenre, AnyMood(Tags(q.mood)));
    var byMin := KeepIf(q.bpmMin != Undefined, byMood, BpmAtLeast(q.bpmMin));
    var byMax := KeepIf(q.bpmMax != Undefined, byMin, BpmAtMost(q.bpmMax));
    var byKey := KeepIf(Truthy(q.key), byMax, KeyIs(KeyText(q.key)));
    var result := KeepIf(Truthy(q.search), byKey, TitleOrArtist(Lower(KeyText(q.search))));
    QueryResult(result, |catalog|, |result|)
  }

  // ----- the reference definition: one predicate per dimension, ANDed -----

  predicate GenreOk(q: Query, t: Track) {
    |Tags(q.genre)| > 0 ==> SharesTag(t.genre, Tags(q.genre))
  }

  predicate MoodOk(q: Query, t: Track) {
    |Tags(q.mood)| > 0 ==> SharesTag(t.mood, Tags(q.mood))
  }

  predicate MinOk(q: Query, t: Track) {
    q.bpmMin != Undefined ==> GreaterEq(t.bpm, q.bpmMin)
  }

  predicate MaxOk(q: Query, t: Track) {
    q.bpmMax != Undefined ==> LessEq(t.bpm, q.bpmMax)
  }

  predicate KeyOk(q: Query, t: Track) {
    Truthy(q.key) ==> t.key == q.key
  }

  predicate SearchOk(q: Query, t: Track) {
    Truthy(q.search) ==>
      Contains(Lower(t.title), Lower(q.search.value)) || Contains(Lower(t.artist), Lower(q.search.value))
  }

  /**
   * A track satisfies the query: each dimension is checked only when it is active,
   * and the dimensions are combined with AND.
   */
  predicate Matches(q: Query, t: Track) {
    GenreOk(q, t) && MoodOk(q, t) && MinOk(q, t) && MaxOk(q, t) && KeyOk(q, t) && SearchOk(q, t)
  }

  /** A stage that runs only when its dimension is active. */
  function Optional(active: bool, st: Stage): seq<Stage> {
    if active then [st] else []
  }

  /** The stages a query switches on, in pipeline order. */
  function ActiveStages(q: Query): seq<Stage> {
    Optional(|Tags(q.genre)| > 0, AnyGenre(Tags(q.genre)))
    + Optional(|Tags(q.mood)| > 0, AnyMood(Tags(q.mood)))
    + Optional(q.bpmMin != Undefined, BpmAtLeast(q.bpmMin))
    + Optional(q.bpmMax != Undefined, BpmAtMost(q.bpmMax))
    + Optional(Truthy(q.key), KeyIs(KeyText(q.key)))
    + Optional(Truthy(q.search), TitleOrArtist(Lower(KeyText(q.search))))
  }

  /** The text of a string-valued property, or "" when it is absent. */
  function KeyText(o: Option<string>): string {
    match o
    case None => ""
    case Some(v) => v
  }

  predicate AllPass(stages: seq<Stage>, t: Track) {
    forall i :: 0 <= i < |stages| ==> Passes(stages[i], t)
  }

  /** One pass over `s` keeping the elements that pass every stage. */
  function SelectAll(s: seq<Track>, stages: seq<Stage>): seq<Track>
    decreases |s|
  {
    if s == [] then [] else (if AllPass(stages, s[0]) then [s[0]] else []) + SelectAll(s[1..], stages)
  }

  lemma OptionalPass(active: bool, st: Stage, t: Track)
    ensures AllPass(Optional(active, st), t) <==> (active ==> Passes(st, t))
  {
    if active {
      assert Optional(active, st)[0] == st;
    }
  }

  /** Passing the active stages is the same as matching the query. */
  lemma ActiveStagesMatch(q: Query, t: Track)
    ensures AllPass(ActiveStages(q), t) <==> Matches(q, t)
  {
    var g := Optional(|Tags(q.genre)| > 0, AnyGenre(Tags(q.genre)));
    var m := Optional(|Tags(q.mood)| > 0, AnyMood(Tags(q.mood)));
    var lo := Optional(q.bpmMin != Undefined, BpmAtLeast(q.bpmMin));
    var hi := Optional(q.bpmMax != Undefined, BpmAtMost(q.bpmMax));
    var k := Optional(Truthy(q.key), KeyIs(KeyText(q.key)));
    var s := Optional(Truthy(q.search), TitleOrArtist(Lower(KeyText(q.search))));
    OptionalPass(|Tags(q.genre)| > 0, AnyGenre(Tags(q.genre)), t);
    OptionalPass(|Tags(q.mood)| > 0, AnyMood(Tags(q.mood)), t);
    OptionalPass(q.bpmMin != Undefined, BpmAtLeast(q.bpmMin), t);
    OptionalPass(q.bpmMax != Undefined, BpmAtMost(q.bpmMax), t);
    OptionalPass(Truthy(q.key), KeyIs(KeyText(q.key)), t);
    OptionalPass(Truthy(q.search), TitleOrArtist(Lower(KeyText(q.search))), t);
    AllPassConcat(g, m, t);
    AllPassConcat(g + m, lo, t);
    AllPassConcat(g + m + lo, hi, t);
    AllPassConcat(g + m + lo + hi, k, t);
    AllPassConcat(g + m + lo + hi + k, s, t);
    assert GenreOk(q, t) <==> AllPass(g, t);
    assert MoodOk(q, t) <==> AllPass(m, t);
    assert MinOk(q, t) <==> AllPass(lo, t);
    assert MaxOk(q, t) <==> AllPass(hi, t);
    assert KeyOk(q, t) <==> AllPass(k, t);
    assert SearchOk(q, t) <==> AllPass(s, t);
  }

  lemma AllPassConcat(a: seq<Stage>, b: seq<Stage>, t: Track)
    ensures AllPass(a + b, t) <==> AllPass(a, t) && AllPass(b, t)
  {
    if AllPass(a, t) && AllPass(b, t) {
      forall i | 0 <= i < |a + b| ensures Passes((a + b)[i], t) {
        if i >= |a| { assert (a + b)[i] == b[i - |a|]; }
      }
    }
    if AllPass(a + b, t) {
      forall i | 0 <= i < |a| ensures Passes(a[i], t) {
        assert (a + b)[i] == a[i];
      }
      forall i | 0 <= i < |b| ensures Passes(b[i], t) {
        assert (a + b)[|a| + i] == b[i];
      }
    }
  }

  /** Filtering a selection by one more stage selects by the longer list of stages. */
  lemma {:induction false} KeepAfterSelect(s: seq<Track>, stages: seq<Stage>, st: Stage)
    ensures Keep(SelectAll(s, stages), st) == SelectAll(s, stages + [st])
    decreases |s|
  {
    if s != [] {
      KeepAfterSelect(s[1..], stages, st);
      AllPassConcat(stages, [st], s[0]);
      assert AllPass([st], s[0]) <==> Passes(st, s[0]) by { assert [st][0] == st; }
      var head := if AllPass(stages, s[0]) then [s[0]] else [];
      var sel := SelectAll(s, stages);
      assert sel == head + SelectAll(s[1..], stages);
      KeepConcat(head, SelectAll(s[1..], stages), st);
      assert Keep(head, st) == if AllPass(stages + [st], s[0]) then [s[0]] else [] by {
        if head != [] {
          assert head[1..] == [];
        }
      }
    }
  }

  lemma {:induction false} KeepConcat(a: seq<Track>, b: seq<Track>, st: Stage)
    ensures Keep(a + b, st) == Keep(a, st) + Keep(b, st)
    decreases |a|
  {
    if a != [] {
      KeepConcat(a[1..], b, st);
      assert (a + b)[0] == a[0];
      assert (a + b)[1..] == a[1..] + b;
      var head := if Passes(st, a[0]) then [a[0]] else [];
      assert Keep(a + b, st) == head + (Keep(a[1..], st) + Keep(b, st));
      assert Keep(a, st) == head + Keep(a[1..], st);
    } else {
      assert a + b == b;
    }
  }

  /** Selecting by no stage at all keeps everything. */
  lemma {:induction false} SelectNone(s: seq<Track>)
    ensures SelectAll(s, []) == s
    decreases |s|
  {
    if s != [] {
      SelectNone(s[1..]);
    }
  }

  /** One optional step of the chain, stated against the single-pass selection. */
  lemma OptionalStep(s: seq<Track>, stages: seq<Stage>, active: bool, st: Stage)
    ensures KeepIf(active, SelectAll(s, stages), st) == SelectAll(s, stages + Optional(active, st))
  {
    if active {
      KeepAfterSelect(s, stages, st);
    } else {
      assert stages + [] == stages;
    }
  }

  /** The chain of `filter` calls is the single-pass selection by the active stages. */
  lemma GetTracksSelects(catalog: seq<Track>, q: Query)
    ensures GetTracks(catalog, q).tracks == SelectAll(catalog, ActiveStages(q))
  {
    var g := Optional(|Tags(q.genre)| > 0, AnyGenre(Tags(q.genre)));
    var m := Optional(|Tags(q.mood)| > 0, AnyMood(Tags(q.mood)));
    var lo := Optional(q.bpmMin != Undefined, BpmAtLeast(q.bpmMin));
    var hi := Optional(q.bpmMax != Undefined, BpmAtMost(q.bpmMax));
    var k := Optional(Truthy(q.key), KeyIs(KeyText(q.key)));
    var s := Optional(Truthy(q.search), TitleOrArtist(Lower(KeyText(q.search))));
    SelectNone(catalog);
    assert [] + g == g;
    OptionalStep(catalog, [], |Tags(q.genre)| > 0, AnyGenre(Tags(q.genre)));
    OptionalStep(catalog, g, |Tags(q.mood)| > 0, AnyMood(Tags(q.mood)));
    OptionalStep(catalog, g + m, q.bpmMin != Undefined, BpmAtLeast(q.bpmMin));
    OptionalStep(catalog, g + m + lo, q.bpmMax != Undefined, BpmAtMost(q.bpmMax));
    OptionalStep(catalog, g + m + lo + hi, Truthy(q.key), KeyIs(KeyText(q.key)));
    OptionalStep(catalog, g + m + lo + hi + k, Truthy(q.search), TitleOrArtist(Lower(KeyText(q.search))));
  }

  /** Selection keeps order and keeps exactly the elements that pass every stage. */
  lemma {:induction false} SelectAllSpec(s: seq<Track>, stages: seq<Stage>)
    ensures IsSubseq(SelectAll(s, stages), s)
    ensures forall t :: t in SelectAll(s, stages) <==> t in s && AllPass(stages, t)
    decreases |s|
  {
    if s != [] {
      SelectAllSpec(s[1..], stages);
      var rest := SelectAll(s[1..], stages);
      if AllPass(stages, s[0]) {
        var sel := SelectAll(s, stages);
        assert sel == [s[0]] + rest;
        assert sel[0] == s[0] && sel[1..] == rest;
        assert IsSubseq(sel, s);
      } else {
        assert SelectAll(s, stages) == rest;
        SubseqOfTail(rest, s);
      }
      assert s == [s[0]] + s[1..];
    }
  }

  /**
   * What `getTracks` promises: the result is the catalog, in catalog order, minus the
   * tracks that fail some active dimension; `total` is the catalog size and `filtered`
   * the result size.
   */
  lemma GetTracksSpec(catalog: seq<Track>, q: Query)
    ensures var r := GetTracks(catalog, q);
      && r.total == |catalog|
      && r.filtered == |r.tracks| <= r.total
      && IsSubseq(r.tracks, catalog)
      && (forall t :: t in r.tracks <==> t in catalog && Matches(q, t))
  {
    var r := GetTracks(catalog, q);
    GetTracksSelects(catalog, q);
    SelectAllSpec(catalog, ActiveStages(q));
    SubseqLength(r.tracks, catalog);
    forall t ensures AllPass(ActiveStages(q), t) <==> Matches(q, t) {
      ActiveStagesMatch(q, t);
    }
  }

  /** With `filters = {}` (or any query with every dimension inactive) the whole catalog comes back. */
  lemma GetTracksUnfiltered(catalog: seq<Track>, q: Query)
    requires |Tags(q.genre)| == 0 && |Tags(q.mood)| == 0
    requires q.bpmMin == Undefined && q.bpmMax == Undefined
    requires !Truthy(q.key) && !Truthy(q.search)
    ensures GetTracks(catalog, q) == QueryResult(catalog, |catalog|, |catalog|)
  {
    GetTracksSelects(catalog, q);
    assert ActiveStages(q) == [];
    SelectNone(catalog);
  }

  // ----- lookup by id -----

  /** Index `i` holds the first track whose id is `id`. */
  predicate FirstWithId(catalog: seq<Track>, id: string, i: int) {
    0 <= i < |catalog| && catalog[i].id == id && forall j :: 0 <= j < i ==> catalog[j].id != id
  }

  /** `this.tracks.find(track => track.id === id)`: `getTrack`. */
  function GetTrack(catalog: seq<Track>, id: string): (r: Option<Track>)
    ensures r.None? <==> forall i :: 0 <= i < |catalog| ==> catalog[i].id != id
    ensures r.Some? ==> exists i :: FirstWithId(catalog, id, i) && catalog[i] == r.value
    decreases |catalog|
  {
    if catalog == [] then None
    else if catalog[0].id == id then Some(catalog[0])
    else
      var r := GetTrack(catalog[1..], id);
      assert r.Some? ==> exists i :: FirstWithId(catalog, id, i) && catalog[i] == r.value by {
        if r.Some? {
          var i :| FirstWithId(catalog[1..], id, i) && catalog[1..][i] == r.value;
          assert FirstWithId(catalog, id, i + 1);
        }
      }
      assert (forall i :: 0 <= i < |catalog[1..]| ==> catalog[1..][i].id != id) ==>
             (forall i :: 0 <= i < |catalog| ==> catalog[i].id != id) by {
        forall i | 0 <= i < |catalog| && i > 0 ensures catalog[i].id == catalog[1..][i - 1].id { }
      }
      r
  }

  /** `getStreamUrl`: the file path of the first track with this id, or `null`. */
  function GetStreamUrl(catalog: seq<Track>, id: string): (r: Option<string>)
    ensures forall i :: FirstWithId(catalog, id, i) ==> r == Some(catalog[i].filePath)
    ensures (forall i :: 0 <= i < |catalog| ==> catalog[i].id != id) ==> r == None
  {
    var found := GetTrack(catalog, id);
    assert forall i, j :: FirstWithId(catalog, id, i) && FirstWithId(catalog, id, j) ==> i == j;
    match found
    case None => None
    case Some(t) => Some(t.filePath)
  }

  // ----- the `null` bound -----

  /**
   * A `null` BPM bound is not `undefined`, so its stage runs and compares against 0:
   * with a `null` maximum, every track with a positive BPM is filtered out.
   */
  lemma NullMaximumExcludesAll(catalog: seq<Track>, q: Query)
    requires q.bpmMax == Null
    requires forall i :: 0 <= i < |catalog| ==> catalog[i].bpm.Num? && catalog[i].bpm.n > 0
    ensures GetTracks(catalog, q).tracks == []
  {
    GetTracksSelects(catalog, q);
    forall i | 0 <= i < |catalog| ensures !AllPass(ActiveStages(q), catalog[i]) {
      ActiveStagesMatch(q, catalog[i]);
      assert !MaxOk(q, catalog[i]);
    }
    SelectNoneMatching(catalog, ActiveStages(q));
  }

  /** When no element passes, the selection is empty. */
  lemma {:induction false} SelectNoneMatching(s: seq<Track>, stages: seq<Stage>)
    requires forall i :: 0 <= i < |s| ==> !AllPass(stages, s[i])
    ensures SelectAll(s, stages) == []
    decreases |s|
  {
    if s != [] {
      assert !AllPass(stages, s[0]);
      SelectNoneMatching(s[1..], stages);
    }
  }

  /** The query with `null` bounds read as absent, which is what a `null` bound stands for. */
  function NullBoundsUnset(q: Query): (r: Query)
    ensures r.bpmMin != Null && r.bpmMax != Null
    ensures q.bpmMin != Null && q.bpmMax != Null ==> r == q
    ensures r.bpmMin == (if q.bpmMin == Null then Undefined else q.bpmMin)
    ensures r.bpmMax == (if q.bpmMax == Null then Undefined else q.bpmMax)
    ensures r.genre == q.genre && r.mood == q.mood && r.key == q.key && r.search == q.search
  {
    q.(bpmMin := if q.bpmMin == Null then Undefined else q.bpmMin,
       bpmMax := if q.bpmMax == Null then Undefined else q.bpmMax)
  }

  /** `getTracks` with a `null` bound imposing no constraint. */
  function GetTracksFixed(catalog: seq<Track>, q: Query): (r: QueryResult)
    ensures r.total == |catalog| && r.filtered == |r.tracks| <= r.total
  {
    GetTracks(catalog, NullBoundsUnset(q))
  }

  /**
   * Criteria with nothing selected (empty lists, `null` bounds and key, empty search)
   * keep the whole catalog under the corrected reading; it agrees with `getTracks`
   * whenever no bound is `null`.
   */
  lemma GetTracksFixedSpec(catalog: seq<Track>, q: Query)
    ensures q.bpmMin != Null && q.bpmMax != Null ==> GetTracksFixed(catalog, q) == GetTracks(catalog, q)
    ensures |Tags(q.genre)| == 0 && |Tags(q.mood)| == 0
         && (q.bpmMin == Null || q.bpmMin == Undefined) && (q.bpmMax == Null || q.bpmMax == Undefined)
         && !Truthy(q.key) && !Truthy(q.search)
         ==> GetTracksFixed(catalog, q).tracks == catalog
  {
    var u := NullBoundsUnset(q);
    if |Tags(q.genre)| == 0 && |Tags(q.mood)| == 0
       && (q.bpmMin == Null || q.bpmMin == Undefined) && (q.bpmMax == Null || q.bpmMax == Undefined)
       && !Truthy(q.key) && !Truthy(q.search) {
      GetTracksUnfiltered(catalog, u);
    }
  }

  /**
   * The corrected query for any criteria: a `null` bound imposes nothing, every other
   * dimension is applied as in `getTracks`, and the result is still an order-preserving
   * subsequence of the catalog with the same counts.
   */
  lemma GetTracksFixedMatches(catalog: seq<Track>, q: Query)
    ensures var r := GetTracksFixed(catalog, q);
      && r.total == |catalog|
      && r.filtered == |r.tracks| <= r.total
      && IsSubseq(r.tracks, catalog)
      && (forall t :: t in r.tracks <==>
            t in catalog && GenreOk(q, t) && MoodOk(q, t)
            && (q.bpmMin != Null ==> MinOk(q, t)) && (q.bpmMax != Null ==> MaxOk(q, t))
            && KeyOk(q, t) && SearchOk(q, t))
  {
    GetTracksSpec(catalog, NullBoundsUnset(q));
  }
}
