/**
  The audio output sink (rodio's `Sink`) reduced to what the player uses:
  the track it holds, if any, and its pause flag. The sink is empty
  exactly when it holds no track.
 */
module AudioSink {
  import opened Wrappers
  import opened FilePaths

  datatype Sink = Sink(loaded: Option<Path>, paused: bool)

  /** `Sink::empty`: nothing queued or playing. */
  predicate Empty(s: Sink) {
    s.loaded.None?
  }

  /** A sink freshly connected to the output stream: empty and not paused. */
  function Connect(): (r: Sink)
    ensures Empty(r) && !r.paused
  {
    Sink(None, false)
  }

  /** `Sink::stop`: drops the queued track; the pause flag stays. */
  function Stop(s: Sink): (r: Sink)
    ensures Empty(r) && r.paused == s.paused
  {
    s.(loaded := None)
  }

  /** `Sink::append` into an empty sink: the sink then holds that one track. */
  function Append(s: Sink, p: Path): (r: Sink)
    requires Empty(s)
    ensures !Empty(r) && r.loaded == Some(p) && r.paused == s.paused
  {
    s.(loaded := Some(p))
  }

  /** `Sink::play`: clears the pause flag. */
  function Play(s: Sink): (r: Sink)
    ensures !r.paused && r.loaded == s.loaded
  {
    s.(paused := false)
  }

  /** `Sink::pause`: sets the pause flag. */
  function Pause(s: Sink): (r: Sink)
    ensures r.paused && r.loaded == s.loaded
  {
    s.(paused := true)
  }

  /** The audio backend reaching the end of the loaded track: the sink drains as if stopped. */
  function Finish(s: Sink): Sink {
    Stop(s)
  }
}
