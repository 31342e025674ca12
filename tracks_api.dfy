/**
 * The server's track routes (backend/api/tracks.py): query-parameter normalisation,
 * the list-comprehension filter pipeline of `GET /tracks` under Python's typing rules
 * (a comparison or membership test on a value of the wrong type raises, and the route
 * turns any exception into a SERVER_ERROR response), the required-field check of
 * `POST /tracks`, and the not-found outcomes of the single-track routes.
 */
module TracksApi {
  import opened Base
  import opened Text
  import opened TrackStore

  // ----- responses -----

  datatype ErrorCode = InvalidData | TrackNotFound | ServerError

  /** The HTTP status sent with each error. */
  function ErrorStatus(e: ErrorCode): (status: int)
    ensures 400 <= status < 600
    ensures status == 404 <==> e == TrackNotFound
  {
    match e
    case InvalidData => 400
    case TrackNotFound => 404
    case ServerError => 500
  }

  /** The `data` member of a successful response. */
  datatype Body = One(track: Record) | Listing(tracks: seq<Record>, total: nat, filtered: nat) | NoData

  datatype Response = Success(status: int, body: Body) | Failure(status: int, code: ErrorCode)

  function Fail(e: ErrorCode): Response {
    Failure(ErrorStatus(e), e)
  }

  // ----- query parameters -----

  /** `request.args`, one value per name. */
  type Args = map<string, string>

  /** `args.get(name, '').split(',') if args.get(name) else []`. */
  function TagParam(args: Args, name: string): (r: seq<string>)
    ensures r == [] <==> name !in args || args[name] == ""
    ensures r != [] ==> Join(r, ',') == args[name]
  {
    if name in args && args[name] != "" then
      JoinSplit(args[name], ',');
      Split(args[name], ',')
    else []
  }

  /** Python's `str.strip()` white space. */
  predicate IsPySpace(c: char) {
    c == ' ' || ('\t' <= c <= '\r') || ('\U{1C}' <= c <= '\U{1F}') || c == '\U{85}'
    || c == '\U{A0}' || c == '\U{1680}' || ('\U{2000}' <= c <= '\U{200A}')
    || c == '\U{2028}' || c == '\U{2029}' || c == '\U{202F}' || c == '\U{205F}'
    || c == '\U{3000}'
  }

  function StripStart(s: string): (r: string)
    ensures r == [] || !IsPySpace(r[0])
    ensures |r| <= |s|
    decreases |s|
  {
    if s != [] && IsPySpace(s[0]) then StripStart(s[1..]) else s
  }

  function StripEnd(s: string): (r: string)
    ensures r == [] || !IsPySpace(r[|r| - 1])
    ensures |r| <= |s| && r == s[..|r|]
    decreases |s|
  {
    if s != [] && IsPySpace(s[|s| - 1]) then StripEnd(s[..|s| - 1]) else s
  }

  /** `s.strip()`. */
  function Strip(s: string): string {
    StripEnd(StripStart(s))
  }

  /** Decimal digits where single underscores may separate two digits, as `int()` accepts them. */
  predicate DigitGroups(d: string) {
    && d != [] && IsDigit(d[0]) && IsDigit(d[|d| - 1])
    && (forall i :: 0 <= i < |d| ==> IsDigit(d[i]) || d[i] == '_')
    && (forall i :: 0 <= i < |d| - 1 && d[i] == '_' ==> IsDigit(d[i + 1]))
  }

  function DropUnderscores(d: string): (r: string)
    requires forall i :: 0 <= i < |d| ==> IsDigit(d[i]) || d[i] == '_'
    ensures AllDigits(r)
    decreases |d|
  {
    if d == [] then [] else (if d[0] == '_' then [] else [d[0]]) + DropUnderscores(d[1..])
  }

  /** Python `int(s)` for text: None where it would raise ValueError. */
  function PyInt(s: string): (r: Option<int>)
    ensures Strip(s) == [] ==> r == None
  {
    var t := Strip(s);
    if t == [] then None
    else
      var body := if t[0] == '-' || t[0] == '+' then t[1..] else t;
      if !DigitGroups(body) then None
      else
        var m: int := DigitsValue(DropUnderscores(body));
        Some(if t[0] == '-' then -m else m)
  }

  lemma {:induction false} DropNoUnderscores(d: string)
    requires AllDigits(d)
    ensures DropUnderscores(d) == d
    decreases |d|
  {
    if d != [] {
      DropNoUnderscores(d[1..]);
      assert [d[0]] + d[1..] == d;
    }
  }

  /** A printed integer has no white space to strip. */
  lemma StripPrinted(i: int)
    ensures Strip(IntToString(i)) == IntToString(i)
  {
    var s := IntToString(i);
    var d := NatToString(if i < 0 then -i else i);
    assert IsDigit(d[0]) && IsDigit(d[|d| - 1]);
    assert s[|s| - 1] == d[|d| - 1];
    assert !IsPySpace(s[0]) && !IsPySpace(s[|s| - 1]);
    assert StripStart(s) == s;
  }

  /** `int()` reads back what `str()` prints for an integer. */
  lemma PyIntOfPrinted(i: int)
    ensures PyInt(IntToString(i)) == Some(i)
  {
    var s := IntToString(i);
    var m: nat := if i < 0 then -i else i;
    var d := NatToString(m);
    StripPrinted(i);
    var body := if s[0] == '-' || s[0] == '+' then s[1..] else s;
    assert body == d;
    assert DigitGroups(d);
    DropNoUnderscores(d);
    NatToStringValue(m);
  }

  /** `args.get(name, type=int)`: None when absent or not an integer. */
  function IntParam(args: Args, name: string): Option<int> {
    if name in args then PyInt(args[name]) else None
  }

  // ----- one filter stage, evaluated on one record -----

  /** One comprehension of the pipeline. */
  datatype Check =
    | AnyTag(field: string, wanted: seq<string>)
    | MinBpm(bound: int)
    | MaxBpm(bound: int)
    | KeyEquals(key: string)
    | Search(needle: string)

  /**
   * How a stored bpm of None is read. `AsWritten` is `t.get('bpm', default)`, which
   * hands None on to the comparison; `NullAsMissing` treats None like an absent key.
   */
  datatype BpmReading = AsWritten | NullAsMissing

  /** `g in v`: list membership, substring for a string, TypeError (None) otherwise. */
  function PyIn(g: string, v: Json): (r: Option<bool>)
    ensures r.Some? <==> v.JList? || v.JStr?
  {
    match v
    case JList(items) => Some(JStr(g) in items)
    case JStr(s) => Some(Contains(s, g))
    case _ => None
  }

  /** `any(g in v for g in wanted)`, stopping at the first True or the first exception. */
  function AnyIn(wanted: seq<string>, v: Json): (r: Option<bool>)
    decreases |wanted|
  {
    if wanted == [] then Some(false)
    else
      match PyIn(wanted[0], v)
      case None => None
      case Some(true) => Some(true)
      case Some(false) => AnyIn(wanted[1..], v)
  }

  /** `any` raises exactly when the field is not a container, and is true when some wanted tag is in it. */
  lemma {:induction false} AnyInSpec(wanted: seq<string>, v: Json)
    ensures AnyIn(wanted, v) == None <==> wanted != [] && !(v.JList? || v.JStr?)
    ensures AnyIn(wanted, v) == Some(true) <==> exists i :: 0 <= i < |wanted| && PyIn(wanted[i], v) == Some(true)
    decreases |wanted|
  {
    if wanted != [] {
      AnyInSpec(wanted[1..], v);
      if exists i :: 0 <= i < |wanted[1..]| && PyIn(wanted[1..][i], v) == Some(true) {
        var i :| 0 <= i < |wanted[1..]| && PyIn(wanted[1..][i], v) == Some(true);
        assert PyIn(wanted[i + 1], v) == Some(true);
      }
      if exists i :: 0 <= i < |wanted| && PyIn(wanted[i], v) == Some(true) {
        var i :| 0 <= i < |wanted| && PyIn(wanted[i], v) == Some(true);
        if i > 0 {
          assert PyIn(wanted[1..][i - 1], v) == Some(true);
        }
      }
    }
  }

  /** `v >= bound` / `v <= bound` with an int on the right: only an int compares. */
  function Compare(v: Json, bound: int, atLeast: bool): (r: Option<bool>)
    ensures r.Some? <==> v.JInt?
    ensures r == Some(true) <==> v.JInt? && (if atLeast then v.i >= bound else v.i <= bound)
  {
    match v
    case JInt(i) => Some(if atLeast then i >= bound else i <= bound)
    case _ => None
  }

  /** The stored bpm as the comparison sees it, with the default the source passes to `get`. */
  function BpmSeen(t: Record, default: int, reading: BpmReading): Json {
    if "bpm" !in t || (reading == NullAsMissing && t["bpm"] == JNull) then JInt(default) else t["bpm"]
  }

  /** `needle in t.get(f, '').lower()`; a non-string field raises (AttributeError). */
  function FieldContains(t: Record, f: string, needle: string): (r: Option<bool>)
    ensures r.Some? <==> Get(t, f, JStr("")).JStr?
  {
    match Get(t, f, JStr(""))
    case JStr(s) => Some(Contains(Lower(s), needle))
    case _ => None
  }

  /** One comprehension's condition on one record; None when evaluating it raises. */
  function Eval(c: Check, t: Record, reading: BpmReading): Option<bool> {
    match c
    case AnyTag(f, wanted) => AnyIn(wanted, Get(t, f, JList([])))
    case MinBpm(b) => Compare(BpmSeen(t, 0, reading), b, true)
    case MaxBpm(b) => Compare(BpmSeen(t, 999, reading), b, false)
    case KeyEquals(k) => Some(Get(t, "key", JNull) == JStr(k))
    case Search(needle) =>
      // `or` evaluates the artist only when the title does not match
      match FieldContains(t, "title", needle)
      case None => None
      case Some(true) => Some(true)
      case Some(false) => FieldContains(t, "artist", needle)
  }

  /** `[t for t in s if cond]`: the kept records in order, or None if a condition raises. */
  function KeepPy(s: seq<Record>, c: Check, reading: BpmReading): (r: Option<seq<Record>>)
    ensures r.Some? ==> |r.value| <= |s| && forall t :: t in r.value ==> t in s
    decreases |s|
  {
    if s == [] then Some([])
    else
      match Eval(c, s[0], reading)
      case None => None
      case Some(keep) =>
        match KeepPy(s[1..], c, reading)
        case None => None
        case Some(rest) => Some(if keep then [s[0]] + rest else rest)
  }

  /** The next comprehension, run only when no earlier one raised. */
  function Then(r: Option<seq<Record>>, c: Check, reading: BpmReading): (r': Option<seq<Record>>)
    ensures r'.Some? ==> r.Some? && |r'.value| <= |r.value|
  {
    match r
    case None => None
    case Some(s) => KeepPy(s, c, reading)
  }

  /** `if <parameter>: tracks = [...]`. */
  function ThenIf(r: Option<seq<Record>>, active: bool, c: Check, reading: BpmReading): (r': Option<seq<Record>>)
    ensures r'.Some? ==> r.Some? && |r'.value| <= |r.value|
  {
    if active then Then(r, c, reading) else r
  }

  /** A bound constrains only when it parsed to a non-zero int (`if bpm_min:`). */
  predicate BoundActive(b: Option<int>) {
    b.Some? && b.value != 0
  }

  function BoundValue(b: Option<int>): int {
    if b.Some? then b.value else 0
  }

  function KeyParam(args: Args): string {
    if "key" in args then args["key"] else ""
  }

  function SearchParam(args: Args): string {
    if "search" in args then args["search"] else ""
  }

  /** The body of `get_tracks`: each active parameter filters the previous result in turn. */
  function Filtered(args: Args, all: seq<Record>, reading: BpmReading): (r: Option<seq<Record>>)
    ensures r.Some? ==> |r.value| <= |all|
  {
    var genre := TagParam(args, "genre");
    var mood := TagParam(args, "mood");
    var bpmMin := IntParam(args, "bpm_min");
    var bpmMax := IntParam(args, "bpm_max");
    var key := KeyParam(args);
    var search := SearchParam(args);
    var r1 := ThenIf(Some(all), genre != [], AnyTag("genre", genre), reading);
    var r2 := ThenIf(r1, mood != [], AnyTag("mood", mood), reading);
    var r3 := ThenIf(r2, BoundActive(bpmMin), MinBpm(BoundValue(bpmMin)), reading);
    var r4 := ThenIf(r3, BoundActive(bpmMax), MaxBpm(BoundValue(bpmMax)), reading);
    var r5 := ThenIf(r4, key != "", KeyEquals(key), reading);
    ThenIf(r5, search != "", Search(Lower(search)), reading)
  }

  /** `GET /tracks`: the filtered list with both counts, or SERVER_ERROR when a comprehension raised. */
  function ListTracks(args: Args, all: seq<Record>, reading: BpmReading): (r: Response)
    ensures r.Failure? <==> Filtered(args, all, reading).None?
    ensures r.Failure? ==> r == Failure(500, ServerError)
    ensures r.Success? ==>
      r.status == 200 && r.body.Listing? && r.body.total == |all| && r.body.filtered == |r.body.tracks| <= r.body.total
  {
    match Filtered(args, all, reading)
    case None => Fail(ServerError)
    case Some(ts) => Success(200, Listing(ts, |all|, |ts|))
  }

  // ----- the reference definition: the active checks, applied record by record -----

  function Optional(active: bool, c: Check): seq<Check> {
    if active then [c] else []
  }

  /** The checks a request switches on, in pipeline order. */
  function ActiveChecks(args: Args): seq<Check> {
    var genre := TagParam(args, "genre");
    var mood := TagParam(args, "mood");
    var bpmMin := IntParam(args, "bpm_min");
    var bpmMax := IntParam(args, "bpm_max");
    Optional(genre != [], AnyTag("genre", genre))
    + (Optional(mood != [], AnyTag("mood", mood))
    + (Optional(BoundActive(bpmMin), MinBpm(BoundValue(bpmMin)))
    + (Optional(BoundActive(bpmMax), MaxBpm(BoundValue(bpmMax)))
    + (Optional(KeyParam(args) != "", KeyEquals(KeyParam(args)))
    + Optional(SearchParam(args) != "", Search(Lower(SearchParam(args))))))))
  }

  /**
   * Parameter normalisation: a genre or mood list applies when the parameter is present
   * and non-empty, a bpm bound when it parses to a non-zero int, key when non-empty, and
   * search, lower-cased, when non-empty.
   */
  lemma ActiveChecksSpec(args: Args, c: Check)
    ensures c in ActiveChecks(args) <==>
      || (c.AnyTag? && c.field in {"genre", "mood"} && c.field in args && args[c.field] != ""
            && c.wanted == Split(args[c.field], ','))
      || (c.MinBpm? && IntParam(args, "bpm_min") == Some(c.bound) && c.bound != 0)
      || (c.MaxBpm? && IntParam(args, "bpm_max") == Some(c.bound) && c.bound != 0)
      || (c.KeyEquals? && "key" in args && c.key == args["key"] && c.key != "")
      || (c.Search? && "search" in args && args["search"] != "" && c.needle == Lower(args["search"]))
  {
    var genre := TagParam(args, "genre");
    var mood := TagParam(args, "mood");
    var bpmMin := IntParam(args, "bpm_min");
    var bpmMax := IntParam(args, "bpm_max");
    var o1 := Optional(genre != [], AnyTag("genre", genre));
    var o2 := Optional(mood != [], AnyTag("mood", mood));
    var o3 := Optional(BoundActive(bpmMin), MinBpm(BoundValue(bpmMin)));
    var o4 := Optional(BoundActive(bpmMax), MaxBpm(BoundValue(bpmMax)));
    var o5 := Optional(KeyParam(args) != "", KeyEquals(KeyParam(args)));
    var o6 := Optional(SearchParam(args) != "", Search(Lower(SearchParam(args))));
    assert ActiveChecks(args) == o1 + (o2 + (o3 + (o4 + (o5 + o6))));
    assert c in ActiveChecks(args) <==> c in o1 || c in o2 || c in o3 || c in o4 || c in o5 || c in o6;
  }

  datatype Outcome = Kept | Dropped | Raised

  /** What the pipeline does with one record: the first check that raises or fails decides. */
  function Walk(checks: seq<Check>, t: Record, reading: BpmReading): Outcome
    decreases |checks|
  {
    if checks == [] then Kept
    else
      match Eval(checks[0], t, reading)
      case None => Raised
      case Some(false) => Dropped
      case Some(true) => Walk(checks[1..], t, reading)
  }

  /** A record is kept exactly when every check evaluates, without raising, to true. */
  lemma {:induction false} WalkKept(checks: seq<Check>, t: Record, reading: BpmReading)
    ensures Walk(checks, t, reading) == Kept <==>
      forall i :: 0 <= i < |checks| ==> Eval(checks[i], t, reading) == Some(true)
    decreases |checks|
  {
    if checks != [] {
      WalkKept(checks[1..], t, reading);
      if Eval(checks[0], t, reading) == Some(true) {
        assert forall i :: 1 <= i < |checks| ==> checks[i] == checks[1..][i - 1];
      }
    }
  }

  /** The records the checks keep, in order, or None when any record's walk raises. */
  function SelectPy(s: seq<Record>, checks: seq<Check>, reading: BpmReading): Option<seq<Record>>
    decreases |s|
  {
    if s == [] then Some([])
    else
      match Walk(checks, s[0], reading)
      case Raised => None
      case Dropped => SelectPy(s[1..], checks, reading)
      case Kept =>
        match SelectPy(s[1..], checks, reading)
        case None => None
        case Some(rest) => Some([s[0]] + rest)
  }

  /** The comprehensions applied in turn. */
  function Pipeline(r: Option<seq<Record>>, checks: seq<Check>, reading: BpmReading): Option<seq<Record>>
    decreases |checks|
  {
    if checks == [] then r else Pipeline(Then(r, checks[0], reading), checks[1..], reading)
  }

  lemma {:induction false} PipelineNone(checks: seq<Check>, reading: BpmReading)
    ensures Pipeline(None, checks, reading) == None
    decreases |checks|
  {
    if checks != [] {
      PipelineNone(checks[1..], reading);
    }
  }

  lemma {:induction false} SelectNoChecks(s: seq<Record>, reading: BpmReading)
    ensures SelectPy(s, [], reading) == Some(s)
    decreases |s|
  {
    if s != [] {
      SelectNoChecks(s[1..], reading);
      assert [s[0]] + s[1..] == s;
    }
  }

  /** Running one comprehension and then the rest equals walking each record through all of them. */
  lemma {:induction false} SelectStep(s: seq<Record>, c: Check, cs: seq<Check>, reading: BpmReading)
    ensures SelectPy(s, [c] + cs, reading) ==
      match KeepPy(s, c, reading) case None => None case Some(x) => SelectPy(x, cs, reading)
    decreases |s|
  {
    if s != [] {
      SelectStep(s[1..], c, cs, reading);
      var checks := [c] + cs;
      assert checks[0] == c && checks[1..] == cs;
      match KeepPy(s, c, reading)
      case None =>
      case Some(x) =>
        var e := Eval(c, s[0], reading);
        var rest := KeepPy(s[1..], c, reading);
        if e == Some(true) {
          assert x == [s[0]] + rest.value;
          assert x[0] == s[0] && x[1..] == rest.value;
        }
    }
  }

  /** The comprehension chain computes SelectPy. */
  lemma {:induction false} PipelineSelects(s: seq<Record>, checks: seq<Check>, reading: BpmReading)
    ensures Pipeline(Some(s), checks, reading) == SelectPy(s, checks, reading)
    decreases |checks|
  {
    if checks == [] {
      SelectNoChecks(s, reading);
    } else {
      assert checks == [checks[0]] + checks[1..];
      SelectStep(s, checks[0], checks[1..], reading);
      match KeepPy(s, checks[0], reading)
      case None =>
        PipelineNone(checks[1..], reading);
      case Some(x) =>
        PipelineSelects(x, checks[1..], reading);
    }
  }

  lemma OptionalStep(r: Option<seq<Record>>, active: bool, c: Check, rest: seq<Check>, reading: BpmReading)
    ensures Pipeline(r, Optional(active, c) + rest, reading) == Pipeline(ThenIf(r, active, c, reading), rest, reading)
  {
    if active {
      var checks := [c] + rest;
      assert checks[0] == c && checks[1..] == rest;
    } else {
      assert Optional(active, c) + rest == rest;
    }
  }

  /** `get_tracks`'s chain is the pipeline of the active checks. */
  lemma FilteredIsPipeline(args: Args, all: seq<Record>, reading: BpmReading)
    ensures Filtered(args, all, reading) == Pipeline(Some(all), ActiveChecks(args), reading)
  {
    var genre := TagParam(args, "genre");
    var mood := TagParam(args, "mood");
    var bpmMin := IntParam(args, "bpm_min");
    var bpmMax := IntParam(args, "bpm_max");
    var key := KeyParam(args);
    var search := SearchParam(args);
    var o6 := Optional(search != "", Search(Lower(search)));
    var t5 := Optional(key != "", KeyEquals(key)) + o6;
    var t4 := Optional(BoundActive(bpmMax), MaxBpm(BoundValue(bpmMax))) + t5;
    var t3 := Optional(BoundActive(bpmMin), MinBpm(BoundValue(bpmMin))) + t4;
    var t2 := Optional(mood != [], AnyTag("mood", mood)) + t3;
    var r1 := ThenIf(Some(all), genre != [], AnyTag("genre", genre), reading);
    var r2 := ThenIf(r1, mood != [], AnyTag("mood", mood), reading);
    var r3 := ThenIf(r2, BoundActive(bpmMin), MinBpm(BoundValue(bpmMin)), reading);
    var r4 := ThenIf(r3, BoundActive(bpmMax), MaxBpm(BoundValue(bpmMax)), reading);
    var r5 := ThenIf(r4, key != "", KeyEquals(key), reading);
    OptionalStep(Some(all), genre != [], AnyTag("genre", genre), t2, reading);
    OptionalStep(r1, mood != [], AnyTag("mood", mood), t3, reading);
    OptionalStep(r2, BoundActive(bpmMin), MinBpm(BoundValue(bpmMin)), t4, reading);
    OptionalStep(r3, BoundActive(bpmMax), MaxBpm(BoundValue(bpmMax)), t5, reading);
    OptionalStep(r4, key != "", KeyEquals(key), o6, reading);
    OptionalStep(r5, search != "", Search(Lower(search)), [], reading);
    assert o6 + [] == o6;
  }

  /** SelectPy fails exactly when some record raises, and otherwise keeps, in order, the records walked to Kept. */
  lemma {:induction false} SelectPySpec(s: seq<Record>, checks: seq<Check>, reading: BpmReading)
    ensures SelectPy(s, checks, reading).None? <==>
      exists i :: 0 <= i < |s| && Walk(checks, s[i], reading) == Raised
    ensures SelectPy(s, checks, reading).Some? ==>
      var x := SelectPy(s, checks, reading).value;
      IsSubseq(x, s) && forall t :: t in x <==> t in s && Walk(checks, t, reading) == Kept
    decreases |s|
  {
    if s != [] {
      SelectPySpec(s[1..], checks, reading);
      if exists i :: 0 <= i < |s[1..]| && Walk(checks, s[1..][i], reading) == Raised {
        var i :| 0 <= i < |s[1..]| && Walk(checks, s[1..][i], reading) == Raised;
        assert Walk(checks, s[i + 1], reading) == Raised;
      }
      if exists i :: 0 <= i < |s| && Walk(checks, s[i], reading) == Raised {
        var i :| 0 <= i < |s| && Walk(checks, s[i], reading) == Raised;
        if i > 0 {
          assert Walk(checks, s[1..][i - 1], reading) == Raised;
        }
      }
      var w := Walk(checks, s[0], reading);
      var tail := SelectPy(s[1..], checks, reading);
      if w != Raised && tail.Some? {
        var x := SelectPy(s, checks, reading).value;
        assert forall t :: t in s <==> t == s[0] || t in s[1..] by {
          assert s == [s[0]] + s[1..];
        }
        if w == Kept {
          assert x == [s[0]] + tail.value;
          assert x[0] == s[0] && x[1..] == tail.value;
        } else {
          SubseqOfTail(x, s);
        }
      }
    }
  }

  /**
   * `GET /tracks`: a SERVER_ERROR/500 exactly when some record raises in the checks the
   * request switches on; otherwise a 200 listing that is an order-preserving subsequence
   * of all records holding exactly those every active check accepts, with total the number
   * of all records and filtered the length of the listing.
   */
  lemma ListTracksSpec(args: Args, all: seq<Record>, reading: BpmReading)
    ensures var r := ListTracks(args, all, reading);
      var checks := ActiveChecks(args);
      && (r.Failure? <==> exists i :: 0 <= i < |all| && Walk(checks, all[i], reading) == Raised)
      && (r.Failure? ==> r == Failure(500, ServerError))
      && (r.Success? ==>
            && r.status == 200 && r.body.Listing?
            && r.body.total == |all| && r.body.filtered == |r.body.tracks| <= r.body.total
            && IsSubseq(r.body.tracks, all)
            && forall t :: t in r.body.tracks <==>
                 t in all && forall i :: 0 <= i < |checks| ==> Eval(checks[i], t, reading) == Some(true))
  {
    var checks := ActiveChecks(args);
    FilteredIsPipeline(args, all, reading);
    PipelineSelects(all, checks, reading);
    SelectPySpec(all, checks, reading);
    forall t ensures Walk(checks, t, reading) == Kept <==>
      forall i :: 0 <= i < |checks| ==> Eval(checks[i], t, reading) == Some(true) {
      WalkKept(checks, t, reading);
    }
    var r := ListTracks(args, all, reading);
    if r.Success? {
      SubseqLength(r.body.tracks, all);
    }
  }

  /** With none of the six parameters, every record comes back in order. */
  lemma ListTracksUnfiltered(args: Args, all: seq<Record>, reading: BpmReading)
    requires forall p :: p in args ==> p !in {"genre", "mood", "bpm_min", "bpm_max", "key", "search"}
    ensures ListTracks(args, all, reading) == Success(200, Listing(all, |all|, |all|))
  {
    assert ActiveChecks(args) == [];
    FilteredIsPipeline(args, all, reading);
    SelectNoChecks(all, reading);
  }

  // ----- the None bpm of a created track -----

  /**
   * A minimum-bpm request fails with SERVER_ERROR whenever a stored track has bpm None,
   * which `create` stores for every track posted without a bpm: `None >= int` raises.
   */
  lemma NullBpmFailsListing(all: seq<Record>, i: nat, bound: string)
    requires i < |all| && "bpm" in all[i] && all[i]["bpm"] == JNull
    requires BoundActive(PyInt(bound))
    ensures ListTracks(map["bpm_min" := bound], all, AsWritten) == Failure(500, ServerError)
  {
    var args := map["bpm_min" := bound];
    var checks := ActiveChecks(args);
    MinBoundOnlyChecks(bound);
    assert Walk(checks, all[i], AsWritten) == Raised;
    ListTracksRaises(args, all, AsWritten, i);
  }

  /** A request with only `bpm_min` runs only the minimum-bpm comprehension. */
  lemma MinBoundOnlyChecks(bound: string)
    requires BoundActive(PyInt(bound))
    ensures ActiveChecks(map["bpm_min" := bound]) == [MinBpm(PyInt(bound).value)]
  {
    var args := map["bpm_min" := bound];
    assert "genre" !in args && "mood" !in args && "bpm_max" !in args;
    assert "key" !in args && "search" !in args;
  }

  /** One record that raises is enough to fail the whole listing. */
  lemma ListTracksRaises(args: Args, all: seq<Record>, reading: BpmReading, i: nat)
    requires i < |all| && Walk(ActiveChecks(args), all[i], reading) == Raised
    ensures ListTracks(args, all, reading) == Failure(500, ServerError)
  {
    ListTracksSpec(args, all, reading);
  }

  /** The concrete case: a track created without a bpm, then `GET /tracks?bpm_min=100`. */
  lemma CreatedWithoutBpmBreaksListing(id: string, createdAt: string)
    ensures var data: Record := map["title" := JStr("Intro"), "filePath" := JStr("intro.mp3")];
      var stored := NewRecord(data, id, createdAt, createdAt);
      ListTracks(map["bpm_min" := "100"], [stored], AsWritten) == Failure(500, ServerError)
  {
    var data: Record := map["title" := JStr("Intro"), "filePath" := JStr("intro.mp3")];
    var stored := NewRecord(data, id, createdAt, createdAt);
    assert "bpm" !in data;
    assert "bpm" in stored && stored["bpm"] == JNull;
    HundredParses();
    NullBpmFailsListing([stored], 0, "100");
  }

  lemma HundredParses()
    ensures PyInt("100") == Some(100)
  {
    PyIntOfPrinted(100);
    assert NatToString(1) == "1";
    assert NatToString(10) == "10";
    assert NatToString(100) == "100";
  }

  /** Field types for which every comprehension evaluates without raising once None bpm counts as missing. */
  predicate WellTyped(t: Record) {
    && (forall f :: f in {"genre", "mood"} && f in t ==> t[f].JList? || t[f].JStr?)
    && ("bpm" in t ==> t["bpm"].JInt? || t["bpm"].JNull?)
    && (forall f :: f in {"title", "artist"} && f in t ==> t[f].JStr?)
  }

  lemma EvalWellTyped(c: Check, t: Record)
    requires WellTyped(t)
    requires c.AnyTag? ==> c.field in {"genre", "mood"}
    ensures Eval(c, t, NullAsMissing).Some?
  {
    if c.AnyTag? {
      AnyInSpec(c.wanted, Get(t, c.field, JList([])));
    }
  }

  /** Reading a None bpm as missing, the listing never fails on well-typed records. */
  lemma ListTracksFixedSucceeds(args: Args, all: seq<Record>)
    requires forall i :: 0 <= i < |all| ==> WellTyped(all[i])
    ensures ListTracks(args, all, NullAsMissing).Success?
  {
    var checks := ActiveChecks(args);
    forall i | 0 <= i < |checks| && checks[i].AnyTag? ensures checks[i].field in {"genre", "mood"} {
      ActiveChecksSpec(args, checks[i]);
    }
    forall i | 0 <= i < |all| ensures Walk(checks, all[i], NullAsMissing) != Raised {
      WalkTyped(checks, all[i]);
    }
    ListTracksSpec(args, all, NullAsMissing);
  }

  /** Reading a None bpm as missing agrees with the code as written whenever no stored bpm is None. */
  lemma ListTracksFixedAgrees(args: Args, all: seq<Record>)
    requires forall i :: 0 <= i < |all| ==> "bpm" !in all[i] || all[i]["bpm"] != JNull
    ensures ListTracks(args, all, NullAsMissing) == ListTracks(args, all, AsWritten)
  {
    var checks := ActiveChecks(args);
    FilteredIsPipeline(args, all, NullAsMissing);
    FilteredIsPipeline(args, all, AsWritten);
    PipelineSelects(all, checks, NullAsMissing);
    PipelineSelects(all, checks, AsWritten);
    SelectSameReading(all, checks);
  }

  lemma {:induction false} WalkTyped(checks: seq<Check>, t: Record)
    requires WellTyped(t)
    requires forall i :: 0 <= i < |checks| && checks[i].AnyTag? ==> checks[i].field in {"genre", "mood"}
    ensures Walk(checks, t, NullAsMissing) != Raised
    decreases |checks|
  {
    if checks != [] {
      EvalWellTyped(checks[0], t);
      assert forall i :: 1 <= i < |checks| ==> checks[1..][i - 1] == checks[i];
      WalkTyped(checks[1..], t);
    }
  }

  lemma {:induction false} SelectSameReading(s: seq<Record>, checks: seq<Check>)
    requires forall i :: 0 <= i < |s| ==> "bpm" !in s[i] || s[i]["bpm"] != JNull
    ensures SelectPy(s, checks, NullAsMissing) == SelectPy(s, checks, AsWritten)
    decreases |s|
  {
    if s != [] {
      assert forall i :: 1 <= i < |s| ==> s[1..][i - 1] == s[i];
      SelectSameReading(s[1..], checks);
      WalkSameReading(checks, s[0]);
    }
  }

  lemma {:induction false} WalkSameReading(checks: seq<Check>, t: Record)
    requires "bpm" !in t || t["bpm"] != JNull
    ensures Walk(checks, t, NullAsMissing) == Walk(checks, t, AsWritten)
    decreases |checks|
  {
    if checks != [] {
      assert BpmSeen(t, 0, NullAsMissing) == BpmSeen(t, 0, AsWritten);
      assert BpmSeen(t, 999, NullAsMissing) == BpmSeen(t, 999, AsWritten);
      WalkSameReading(checks[1..], t);
    }
  }

  // ----- create, single-track routes -----

  /** `POST /tracks` accepts a body whose title and filePath are both truthy. */
  predicate CreateAccepted(data: Record)
    ensures CreateAccepted(data) ==> "title" in data && "filePath" in data
  {
    Truthy(Get(data, "title", JNull)) && Truthy(Get(data, "filePath", JNull))
  }

  /** `GET /tracks`, served from the store. */
  method ListTracksRoute(store: Store, args: Args, reading: BpmReading) returns (resp: Response)
    ensures resp == ListTracks(args, store.tracks, reading)
  {
    var tracks := store.GetAll();
    var all := store.GetAll();
    resp := match Filtered(args, tracks, reading)
      case None => Fail(ServerError)
      case Some(ts) => Success(200, Listing(ts, |all|, |ts|));
  }

  /** `GET /tracks/<id>`: the first track with that id, or TRACK_NOT_FOUND/404. */
  method GetTrackRoute(store: Store, id: string) returns (resp: Response)
    requires store.Valid()
    ensures var i := IndexOfId(store.tracks, id);
      && (i < 0 <==> resp == Failure(404, TrackNotFound))
      && (i >= 0 ==> resp == Success(200, One(store.tracks[i])))
  {
    var track := store.GetById(id);
    if track.None? {
      resp := Fail(TrackNotFound);
    } else {
      resp := Success(200, One(track.value));
    }
  }

  /**
   * `POST /tracks`: INVALID_DATA/400 without a truthy title and filePath; otherwise 201 and
   * the new track appended. The two clock readings of `create` are separate parameters.
   */
  method CreateTrackRoute(store: Store, data: Record, id: string, createdAt: string, updatedAt: string)
    returns (resp: Response)
    requires store.Valid()
    modifies store
    ensures store.Valid()
    ensures !CreateAccepted(data) ==> resp == Failure(400, InvalidData) && store.tracks == old(store.tracks)
    ensures CreateAccepted(data) ==>
      && resp == Success(201, One(NewRecord(data, id, createdAt, updatedAt)))
      && store.tracks == old(store.tracks) + [NewRecord(data, id, createdAt, updatedAt)]
  {
    if !CreateAccepted(data) {
      return Fail(InvalidData);
    }
    var track := store.Create(data, id, createdAt, updatedAt);
    resp := Success(201, One(track));
  }

  /** `PUT /tracks/<id>`: TRACK_NOT_FOUND/404 for an unknown id, otherwise 200 and the updated track. */
  method UpdateTrackRoute(store: Store, id: string, data: Record, now: string) returns (resp: Response)
    requires store.Valid()
    modifies store
    ensures store.Valid()
    ensures var i := IndexOfId(old(store.tracks), id);
      && (i < 0 ==> resp == Failure(404, TrackNotFound) && store.tracks == old(store.tracks))
      && (i >= 0 ==> resp == Success(200, One(Updated(old(store.tracks)[i], data, now)))
                     && store.tracks == old(store.tracks)[i := Updated(old(store.tracks)[i], data, now)])
  {
    var track := store.Update(id, data, now);
    if track.None? {
      resp := Fail(TrackNotFound);
    } else {
      resp := Success(200, One(track.value));
    }
  }

  /** `DELETE /tracks/<id>`: TRACK_NOT_FOUND/404 for an unknown id, otherwise 200 and the track removed. */
  method DeleteTrackRoute(store: Store, id: string) returns (resp: Response)
    requires store.Valid()
    modifies store
    ensures store.Valid()
    ensures var i := IndexOfId(old(store.tracks), id);
      && (i < 0 ==> resp == Failure(404, TrackNotFound) && store.tracks == old(store.tracks))
      && (i >= 0 ==> resp == Success(200, NoData) && store.tracks == old(store.tracks)[..i] + old(store.tracks)[i + 1..])
  {
    var deleted := store.Delete(id);
    if !deleted {
      resp := Fail(TrackNotFound);
    } else {
      resp := Success(200, NoData);
    }
  }

  /**
   * `POST /tracks` with a fresh id, then `GET /tracks/<id>`: the second request answers
   * 200 with exactly the track the first one created.
   */
  method CreateThenGet(store: Store, data: Record, id: string, createdAt: string, updatedAt: string)
    returns (created: Response, fetched: Response)
    requires store.Valid() && IndexOfId(store.tracks, id) == -1 && CreateAccepted(data)
    modifies store
    ensures store.Valid()
    ensures created == Success(201, One(NewRecord(data, id, createdAt, updatedAt)))
    ensures fetched == Success(200, One(NewRecord(data, id, createdAt, updatedAt)))
  {
    ghost var before := store.tracks;
    created := CreateTrackRoute(store, data, id, createdAt, updatedAt);
    FindAfterAppend(before, NewRecord(data, id, createdAt, updatedAt), id);
    fetched := GetTrackRoute(store, id);
  }
}
