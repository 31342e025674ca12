/**
 * The browser audio player (`AudioPlayer`, frontend/js/player.js): a current track and
 * an `isPlaying` flag kept beside one media element. The media element is modelled only
 * as far as the player touches it: its source, position, duration, volume and paused
 * flag. Whether the element accepts `play()` is a parameter.
 */
module Player {
  import opened Base
  import opened Text
  import opened Clock
  import Catalog

  /** `Math.max(0, Math.min(1, v))`. */
  function ClampVolume(v: real): (r: real)
    ensures 0.0 <= r <= 1.0
    ensures 0.0 <= v <= 1.0 ==> r == v
    ensures v < 0.0 ==> r == 0.0
    ensures v > 1.0 ==> r == 1.0
  {
    if v < 0.0 then 0.0 else if v > 1.0 then 1.0 else v
  }

  /** `formatTime`: '0:00' when the time is NaN (None here), else the "m:ss" text. */
  function FormatTime(seconds: Option<real>): (r: string)
    ensures seconds.None? ==> r == "0:00"
    ensures seconds.Some? && seconds.value >= 0.0 ==>
      ReadClock(r) == Some(seconds.value.Floor) && |r| >= 4 && r[|r| - 3] == ':'
  {
    match seconds
    case None => "0:00"
    case Some(s) => MinSecs(s)
  }

  /** What `audio.src = api.getStreamUrl(id)` stores: the URL, or the text "null" when there is none. */
  function StreamSource(catalog: seq<Catalog.Track>, id: string): (src: string)
    ensures forall i :: Catalog.FirstWithId(catalog, id, i) ==> src == catalog[i].filePath
    ensures (forall i :: 0 <= i < |catalog| ==> catalog[i].id != id) ==> src == "null"
  {
    match Catalog.GetStreamUrl(catalog, id)
    case Some(url) => url
    case None => "null"
  }

  /** The media element as the player uses it. */
  class Transport {
    var src: string
    var currentTime: real
    /** None while the duration is unknown (NaN). */
    var duration: Option<real>
    var volume: real
    var paused: bool

    ghost predicate Valid()
      reads this
    {
      0.0 <= volume <= 1.0 && currentTime >= 0.0
      && (duration.Some? ==> duration.value >= 0.0 && currentTime <= duration.value)
    }

    /** A new `Audio()`: no source, paused, full volume. */
    constructor ()
      ensures Valid()
      ensures src == "" && currentTime == 0.0 && duration == None && volume == 1.0 && paused
    {
      src := "";
      currentTime := 0.0;
      duration := None;
      volume := 1.0;
      paused := true;
    }

    /** Assigning `src` starts a new load: paused, at position 0, duration unknown. */
    method SetSource(url: string)
      requires Valid()
      modifies this
      ensures Valid()
      ensures src == url && currentTime == 0.0 && duration == None && paused
      ensures volume == old(volume)
    {
      src := url;
      currentTime := 0.0;
      duration := None;
      paused := true;
    }

    /** The `loadedmetadata` moment: the duration becomes known. */
    method MetadataLoaded(d: real)
      requires Valid() && 0.0 <= currentTime <= d
      modifies this
      ensures Valid() && duration == Some(d)
      ensures src == old(src) && currentTime == old(currentTime) && volume == old(volume) && paused == old(paused)
    {
      duration := Some(d);
    }

    /** `play()`: resolves (and starts) when the element accepts, rejects otherwise. */
    method Play(accepts: bool) returns (ok: bool)
      modifies this
      ensures ok == accepts
      ensures paused == (old(paused) && !accepts)
      ensures src == old(src) && currentTime == old(currentTime) && duration == old(duration) && volume == old(volume)
    {
      ok := accepts;
      if accepts {
        paused := false;
      }
    }

    method Pause()
      modifies this
      ensures paused
      ensures src == old(src) && currentTime == old(currentTime) && duration == old(duration) && volume == old(volume)
    {
      paused := true;
    }

    /**
     * Assigning `currentTime`: the element's seek clamps the position into the media,
     * [0, duration]; while the duration is unknown the position stays where it is.
     */
    method Seek(t: real)
      requires Valid()
      modifies this
      ensures Valid()
      ensures duration.Some? ==>
        currentTime == (if t < 0.0 then 0.0 else if t > duration.value then duration.value else t)
      ensures duration.None? ==> currentTime == old(currentTime)
      ensures duration.Some? && 0.0 <= t <= duration.value ==> currentTime == t
      ensures src == old(src) && duration == old(duration) && volume == old(volume) && paused == old(paused)
    {
      if duration.Some? {
        currentTime := if t < 0.0 then 0.0 else if t > duration.value then duration.value else t;
      }
    }

    /** Assigning `volume` (a value outside [0, 1] would throw; callers clamp first). */
    method SetVolume(v: real)
      requires 0.0 <= v <= 1.0 && Valid()
      modifies this
      ensures Valid() && volume == v
      ensures src == old(src) && currentTime == old(currentTime) && duration == old(duration) && paused == old(paused)
    {
      volume := v;
    }
  }

  /** `AudioPlayer`. */
  class AudioPlayer {
    const audio: Transport
    var currentTrack: Option<Catalog.Track>
    var isPlaying: bool

    ghost predicate Valid()
      reads this, audio
    {
      audio.Valid()
    }

    /** The flag agrees with the element: the player never claims to play a paused element. */
    predicate InSync()
      reads this, audio
    {
      isPlaying ==> !audio.paused
    }

    constructor ()
      ensures Valid() && fresh(audio)
      ensures currentTrack == None && !isPlaying
      ensures audio.paused && audio.src == "" && audio.volume == 1.0
    {
      audio := new Transport();
      currentTrack := None;
      isPlaying := false;
    }

    /**
     * `loadTrack`: the track becomes current and the element's source becomes its stream
     * URL (the text "null" when the catalog has no such id); `isPlaying` is left as it
     * was. Loading `null` stores it, then throws on `track.id` and reports failure with
     * the source untouched.
     */
    method LoadTrack(track: Option<Catalog.Track>, catalog: seq<Catalog.Track>) returns (ok: bool)
      requires Valid()
      modifies this, audio
      ensures Valid()
      ensures currentTrack == track && isPlaying == old(isPlaying)
      ensures ok == track.Some?
      ensures track.None? ==>
        audio.src == old(audio.src) && audio.paused == old(audio.paused)
        && audio.currentTime == old(audio.currentTime) && audio.duration == old(audio.duration)
      ensures track.Some? ==> audio.paused && audio.currentTime == 0.0 && audio.duration == None
      ensures track.Some? ==> audio.src == StreamSource(catalog, track.value.id)
      ensures audio.volume == old(audio.volume)
    {
      currentTrack := track;
      if track.None? {
        return false;
      }
      audio.SetSource(StreamSource(catalog, track.value.id));
      ok := true;
    }

    /** `play`: the flag turns on only when the element accepts; a rejection changes nothing. */
    method Play(accepts: bool)
      requires Valid()
      modifies this, audio
      ensures Valid()
      ensures isPlaying == (old(isPlaying) || accepts)
      ensures audio.paused == (old(audio.paused) && !accepts)
      ensures currentTrack == old(currentTrack)
      ensures old(InSync()) ==> InSync()
      ensures audio.src == old(audio.src) && audio.volume == old(audio.volume)
        && audio.currentTime == old(audio.currentTime) && audio.duration == old(audio.duration)
    {
      var ok := audio.Play(accepts);
      if ok {
        isPlaying := true;
      }
    }

    /** `pause`. */
    method Pause()
      requires Valid()
      modifies this, audio
      ensures Valid()
      ensures !isPlaying && audio.paused && InSync()
      ensures currentTrack == old(currentTrack)
      ensures audio.src == old(audio.src) && audio.volume == old(audio.volume)
        && audio.currentTime == old(audio.currentTime) && audio.duration == old(audio.duration)
    {
      audio.Pause();
      isPlaying := false;
    }

    /** `togglePlay`: pause when the flag is on, otherwise play. */
    method TogglePlay(accepts: bool)
      requires Valid()
      modifies this, audio
      ensures Valid()
      ensures old(isPlaying) ==> !isPlaying && audio.paused
      ensures !old(isPlaying) ==> isPlaying == accepts && audio.paused == (old(audio.paused) && !accepts)
      ensures currentTrack == old(currentTrack)
      ensures old(InSync()) ==> InSync()
      ensures audio.src == old(audio.src) && audio.volume == old(audio.volume)
        && audio.currentTime == old(audio.currentTime) && audio.duration == old(audio.duration)
    {
      if isPlaying {
        Pause();
      } else {
        Play(accepts);
      }
    }

    /** The `ended` event handler. */
    method OnEnded()
      modifies this
      ensures !isPlaying && currentTrack == old(currentTrack)
    {
      isPlaying := false;
    }

    /** `seek`: hands the time to the element. */
    method Seek(time: real)
      requires Valid()
      modifies audio
      ensures Valid()
      ensures audio.duration.Some? ==>
        audio.currentTime == (if time < 0.0 then 0.0 else if time > audio.duration.value then audio.duration.value else time)
      ensures audio.duration.None? ==> audio.currentTime == old(audio.currentTime)
      ensures audio.paused == old(audio.paused) && audio.src == old(audio.src)
        && audio.volume == old(audio.volume) && audio.duration == old(audio.duration)
      ensures isPlaying == old(isPlaying) && currentTrack == old(currentTrack)
    {
      audio.Seek(time);
    }

    /** `setVolume`: the element's volume becomes the clamped value. */
    method SetVolume(volume: real)
      requires Valid()
      modifies audio
      ensures Valid()
      ensures audio.volume == ClampVolume(volume)
      ensures 0.0 <= volume <= 1.0 ==> audio.volume == volume
      ensures audio.paused == old(audio.paused) && audio.src == old(audio.src)
        && audio.currentTime == old(audio.currentTime) && audio.duration == old(audio.duration)
      ensures isPlaying == old(isPlaying) && currentTrack == old(currentTrack)
    {
      audio.SetVolume(ClampVolume(volume));
    }

    /**
     * `onTimeUpdate`: nothing without a current track or while the duration is unknown;
     * otherwise the position and duration texts it displays.
     */
    method OnTimeUpdate() returns (shown: Option<(string, string)>)
      ensures currentTrack.None? || audio.duration.None? <==> shown.None?
      ensures shown.Some? ==>
        shown.value == (FormatTime(Some(audio.currentTime)), FormatTime(audio.duration))
    {
      if currentTrack.None? {
        return None;
      }
      var currentTime := audio.currentTime;
      var duration := audio.duration;
      if duration.None? {
        return None;
      }
      shown := Some((FormatTime(Some(currentTime)), FormatTime(duration)));
    }

    /** `onLoaded`: position text '0:00' next to the duration text. */
    method OnLoaded() returns (shown: (string, string))
      ensures shown.0 == "0:00"
      ensures shown.1 == FormatTime(audio.duration)
    {
      ZeroClock();
      shown := (FormatTime(Some(0.0)), FormatTime(audio.duration));
    }
  }
}
