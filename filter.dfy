/**
 * The filter criteria manager (`FilterManager`, frontend/js/filter.js). It owns the
 * current criteria, updates one dimension per call, and after every change calls each
 * registered callback, in registration order, with a copy of the criteria.
 *
 * The genre and mood lists are JavaScript arrays that the manager mutates in place, so
 * they are objects here (`TagList`); `getFilters` copies the record but not the arrays,
 * and a snapshot therefore shares its lists with the manager.
 */
module Filter {
  import opened Base
  import opened JsNumber
  import Catalog

  // ----- the genre/mood checkbox toggle -----

  /** `s.indexOf(v)`: the position of the first occurrence of `v`, or -1. */
  function FirstIndex(s: seq<string>, v: string): (r: int)
    ensures -1 <= r < |s|
    ensures r >= 0 ==> s[r] == v && forall j :: 0 <= j < r ==> s[j] != v
    ensures r == -1 <==> v !in s
    decreases |s|
  {
    if s == [] then -1
    else if s[0] == v then 0
    else
      var k := FirstIndex(s[1..], v);
      if k == -1 then -1 else k + 1
  }

  /** What a genre or mood update does to the list: drop the first `v` if present, else append `v`. */
  function Toggle(s: seq<string>, v: string): (r: seq<string>)
    ensures v !in s ==> r == s + [v]
    ensures v in s ==> |r| == |s| - 1
  {
    var i := FirstIndex(s, v);
    if i > -1 then s[..i] + s[i + 1..] else s + [v]
  }

  predicate NoDuplicates(s: seq<string>) {
    forall i, j :: 0 <= i < j < |s| ==> s[i] != s[j]
  }

  /** Toggling counts `v` once more when it was absent and once less when it was present. */
  lemma ToggleMultiset(s: seq<string>, v: string)
    ensures multiset(Toggle(s, v)) ==
      if v in s then multiset(s) - multiset{v} else multiset(s) + multiset{v}
  {
    var i := FirstIndex(s, v);
    if i > -1 {
      assert s == s[..i] + [v] + s[i + 1..];
      assert multiset(s) == multiset(s[..i]) + multiset{v} + multiset(s[i + 1..]);
    }
  }

  /** Ticking a box that was clear and then clearing it restores the list exactly. */
  lemma ToggleTwiceRestores(s: seq<string>, v: string)
    requires v !in s
    ensures Toggle(Toggle(s, v), v) == s
  {
    var t := s + [v];
    assert Toggle(s, v) == t;
    assert forall j :: 0 <= j < |s| ==> t[j] == s[j];
    assert t[..|s|] == s;
  }

  /**
   * A list without repeats stays without repeats, and `v` ends up selected exactly
   * when it was not selected before.
   */
  lemma ToggleKeepsNoDuplicates(s: seq<string>, v: string)
    requires NoDuplicates(s)
    ensures NoDuplicates(Toggle(s, v))
    ensures v in Toggle(s, v) <==> v !in s
  {
    var i := FirstIndex(s, v);
    var r := Toggle(s, v);
    if i > -1 {
      assert r == s[..i] + s[i + 1..];
      forall a, b | 0 <= a < b < |r| ensures r[a] != r[b] {
        var a' := if a < i then a else a + 1;
        var b' := if b < i then b else b + 1;
        assert r[a] == s[a'] && r[b] == s[b'];
      }
      forall k | 0 <= k < |r| ensures r[k] != v {
        var k' := if k < i then k else k + 1;
        assert r[k] == s[k'];
      }
    } else {
      assert r == s + [v];
      forall a, b | 0 <= a < b < |r| ensures r[a] != r[b] {
        if b == |s| {
          assert r[a] == s[a];
        }
      }
      assert r[|s|] == v;
    }
  }

  // ----- the scalar dimensions -----

  /** `value ? parseInt(value) : null` for a BPM input. */
  function BoundFromInput(value: string): (r: JsNumeric)
    ensures r.Null? <==> value == ""
    ensures r.Num? || r.NaN? || r.Null?
    ensures value != "" ==> r == ParseInt(value)
  {
    if value == "" then Null else ParseInt(value)
  }

  /** `value || null` for the key select. */
  function KeyFromInput(value: string): (r: Option<string>)
    ensures r != Some("")
    ensures r.Some? ==> r.value == value
    ensures r.None? <==> value == ""
  {
    if value == "" then None else Some(value)
  }

  /** A printed number typed into a BPM box is stored as that number. */
  lemma BoundFromPrinted(n: int)
    ensures BoundFromInput(Text.IntToString(n)) == Num(n)
  {
    ParseIntOfPrinted(n, "");
    assert Text.IntToString(n) + "" == Text.IntToString(n);
  }

  // ----- the arrays -----

  /** A JavaScript array of tag strings, mutated in place. */
  class TagList {
    var items: seq<string>

    constructor ()
      ensures items == []
    {
      items := [];
    }

    /** `indexOf`: a linear scan from the front. */
    method IndexOf(v: string) returns (r: int)
      ensures r == FirstIndex(items, v)
    {
      var i := 0;
      while i < |items|
        invariant 0 <= i <= |items|
        invariant forall j :: 0 <= j < i ==> items[j] != v
      {
        if items[i] == v {
          return i;
        }
        i := i + 1;
      }
      return -1;
    }

    /** `splice(index, 1)`. */
    method Splice(index: nat)
      requires index < |items|
      modifies this
      ensures items == old(items[..index] + items[index + 1..])
    {
      items := items[..index] + items[index + 1..];
    }

    /** `push(v)`. */
    method Push(v: string)
      modifies this
      ensures items == old(items) + [v]
    {
      items := items + [v];
    }
  }

  // ----- snapshots and notifications -----

  /** The object `getFilters` returns: a new record whose genre and mood are the manager's own arrays. */
  datatype Snapshot = Snapshot(
    genre: TagList,
    mood: TagList,
    bpmMin: JsNumeric,
    bpmMax: JsNumeric,
    key: Option<string>,
    search: string)

  /** How `getTracks` reads a snapshot (the lists as they are when it runs). */
  function AsQuery(s: Snapshot): (q: Catalog.Query)
    reads s.genre, s.mood
    ensures q.genre == Some(s.genre.items) && q.mood == Some(s.mood.items)
    ensures q.bpmMin == s.bpmMin && q.bpmMax == s.bpmMax && q.key == s.key
    ensures q.search == Some(s.search)
  {
    Catalog.Query(Some(s.genre.items), Some(s.mood.items), s.bpmMin, s.bpmMax, s.key, Some(s.search))
  }

  /** One callback invocation: which callback ran, and the snapshot it was given. */
  datatype Delivery = Delivery(callback: nat, filters: Snapshot)

  /** The calls one notification makes: every callback once, in registration order. */
  function Notifications(callbacks: seq<nat>, snapshot: Snapshot): (r: seq<Delivery>)
    ensures |r| == |callbacks|
    ensures forall i :: 0 <= i < |r| ==> r[i] == Delivery(callbacks[i], snapshot)
  {
    seq(|callbacks|, i requires 0 <= i < |callbacks| => Delivery(callbacks[i], snapshot))
  }

  /**
   * `FilterManager`. Callbacks are opaque handles; what they do when called is not
   * part of this model, and `delivered` records the calls made to them.
   */
  class FilterManager {
    var genre: TagList
    var mood: TagList
    var bpmMin: JsNumeric
    var bpmMax: JsNumeric
    var key: Option<string>
    var search: string
    var callbacks: seq<nat>
    var delivered: seq<Delivery>

    /** The two lists are distinct arrays, bounds are never `undefined`, and the key is never "". */
    ghost predicate Valid()
      reads this
    {
      genre != mood && bpmMin != Undefined && bpmMax != Undefined && key != Some("")
    }

    /** Criteria with nothing selected: the value the constructor and `reset` install. */
    ghost predicate IsInitial()
      reads this, genre, mood
    {
      genre.items == [] && mood.items == [] && bpmMin == Null && bpmMax == Null
      && key == None && search == ""
    }

    constructor ()
      ensures Valid() && IsInitial()
      ensures fresh(genre) && fresh(mood)
      ensures callbacks == [] && delivered == []
    {
      genre := new TagList();
      mood := new TagList();
      bpmMin, bpmMax := Null, Null;
      key := None;
      search := "";
      callbacks := [];
      delivered := [];
    }

    /** `getFilters`: a new top-level record; the genre and mood arrays are shared, not copied. */
    function GetFilters(): (s: Snapshot)
      reads this
      ensures s.genre == genre && s.mood == mood
      ensures s.bpmMin == bpmMin && s.bpmMax == bpmMax && s.key == key && s.search == search
    {
      Snapshot(genre, mood, bpmMin, bpmMax, key, search)
    }

    /** `onChange`: register a callback after the ones already registered. */
    method OnChange(callback: nat)
      modifies this
      ensures callbacks == old(callbacks) + [callback]
      ensures delivered == old(delivered)
      ensures GetFilters() == old(GetFilters())
    {
      callbacks := callbacks + [callback];
    }

    /** `notifyChange`: call every callback, in order, each with its own `getFilters()` copy. */
    method NotifyChange()
      modifies this
      ensures delivered == old(delivered) + Notifications(callbacks, GetFilters())
      ensures callbacks == old(callbacks) && GetFilters() == old(GetFilters())
    {
      var i := 0;
      while i < |callbacks|
        invariant 0 <= i <= |callbacks|
        invariant callbacks == old(callbacks) && GetFilters() == old(GetFilters())
        invariant delivered == old(delivered) + Notifications(callbacks[..i], GetFilters())
      {
        assert callbacks[..i + 1] == callbacks[..i] + [callbacks[i]];
        delivered := delivered + [Delivery(callbacks[i], GetFilters())];
        i := i + 1;
      }
      assert callbacks[..i] == callbacks;
    }

    /**
     * `updateFilter(filterType, value)`: genre and mood toggle `value` in place; the BPM
     * bounds, key and search store the normalised input; any other filter type changes
     * nothing. Every call notifies.
     */
    method UpdateFilter(filterType: string, value: string)
      requires Valid()
      modifies this, genre, mood
      ensures Valid()
      ensures genre == old(genre) && mood == old(mood)
      ensures genre.items == if filterType == "genre" then Toggle(old(genre.items), value) else old(genre.items)
      ensures mood.items == if filterType == "mood" then Toggle(old(mood.items), value) else old(mood.items)
      ensures bpmMin == if filterType == "bpmMin" then BoundFromInput(value) else old(bpmMin)
      ensures bpmMax == if filterType == "bpmMax" then BoundFromInput(value) else old(bpmMax)
      ensures key == if filterType == "key" then KeyFromInput(value) else old(key)
      ensures search == if filterType == "search" then value else old(search)
      ensures callbacks == old(callbacks)
      ensures delivered == old(delivered) + Notifications(callbacks, GetFilters())
    {
      if filterType == "genre" || filterType == "mood" {
        var list := if filterType == "genre" then genre else mood;
        var index := list.IndexOf(value);
        if index > -1 {
          list.Splice(index);
        } else {
          list.Push(value);
        }
      } else if filterType == "bpmMin" {
        bpmMin := BoundFromInput(value);
      } else if filterType == "bpmMax" {
        bpmMax := BoundFromInput(value);
      } else if filterType == "key" {
        key := KeyFromInput(value);
      } else if filterType == "search" {
        search := value;
      }
      NotifyChange();
    }

    /**
     * `reset`: install new empty arrays and the initial scalars, then notify. Arrays
     * handed out earlier are left as they were.
     */
    method Reset()
      requires Valid()
      modifies this
      ensures Valid() && IsInitial()
      ensures fresh(genre) && fresh(mood)
      ensures old(genre).items == old(genre.items) && old(mood).items == old(mood.items)
      ensures callbacks == old(callbacks)
      ensures delivered == old(delivered) + Notifications(callbacks, GetFilters())
    {
      genre := new TagList();
      mood := new TagList();
      bpmMin, bpmMax := Null, Null;
      key := None;
      search := "";
      NotifyChange();
    }

    /**
     * A copy taken with `getFilters` before a genre toggle sees the toggle: the copy
     * shares the manager's genre array, so `getTracks` reads the toggled list from it.
     */
    method ToggleSeenByEarlierCopy(value: string) returns (s: Snapshot, q: Catalog.Query)
      requires Valid()
      modifies this, genre, mood
      ensures Valid()
      ensures s == old(GetFilters())
      ensures q == AsQuery(s)
      ensures q.genre == Some(Toggle(old(genre.items), value))
      ensures q.mood == Some(old(mood.items)) && q.bpmMin == old(bpmMin) && q.bpmMax == old(bpmMax)
    {
      s := GetFilters();
      UpdateFilter("genre", value);
      q := AsQuery(s);
    }
  }

  /**
   * The first filter change made on a new manager, other than typing a maximum BPM,
   * passes `bpmMax: null` to `getTracks`; when every track has a positive BPM the grid
   * comes back empty.
   */
  method FirstChangeEmptiesGrid(catalog: seq<Catalog.Track>, filterType: string, value: string)
    returns (result: Catalog.QueryResult)
    requires filterType != "bpmMax"
    requires forall i :: 0 <= i < |catalog| ==> catalog[i].bpm.Num? && catalog[i].bpm.n > 0
    ensures result.tracks == [] && result.total == |catalog|
  {
    var manager := new FilterManager();
    manager.UpdateFilter(filterType, value);
    var q := AsQuery(manager.GetFilters());
    assert q.bpmMax == Null;
    result := Catalog.GetTracks(catalog, q);
    Catalog.NullMaximumExcludesAll(catalog, q);
  }
}
