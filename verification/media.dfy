/** The local media tracks and the loops of videoMuteToggle and videoToggle
    that enable or disable every track of one kind (video.js lines 381-397). */
module Media {

  datatype TrackKind = Audio | Video

  /** A local MediaStreamTrack: its kind and its `enabled` flag. */
  datatype Track = Track(kind: TrackKind, enabled: bool)

  /** The tracks after `track.enabled = on` for every track of kind k:
      those tracks carry `on`, all others are as they were. */
  function WithEnabled(ts: seq<Track>, k: TrackKind, on: bool): (r: seq<Track>)
    ensures |r| == |ts|
    ensures forall i :: 0 <= i < |ts| && ts[i].kind == k ==> r[i] == Track(k, on)
    ensures forall i :: 0 <= i < |ts| && ts[i].kind != k ==> r[i] == ts[i]
  {
    if ts == [] then []
    else [if ts[0].kind == k then ts[0].(enabled := on) else ts[0]] + WithEnabled(ts[1..], k, on)
  }

  /** The forEach loop over the stream's tracks of kind k, done in place. */
  method EnableTracks(tracks: array<Track>, k: TrackKind, on: bool)
    modifies tracks
    ensures tracks[..] == WithEnabled(old(tracks[..]), k, on)
  {
    for i := 0 to tracks.Length
      invariant forall j :: 0 <= j < i && old(tracks[j]).kind == k ==> tracks[j] == Track(k, on)
      invariant forall j :: 0 <= j < i && old(tracks[j]).kind != k ==> tracks[j] == old(tracks[j])
      invariant forall j :: i <= j < tracks.Length ==> tracks[j] == old(tracks[j])
    {
      if tracks[i].kind == k {
        tracks[i] := tracks[i].(enabled := on);
      }
    }
    assert tracks[..] == WithEnabled(old(tracks[..]), k, on);
  }

  /** Setting the flag twice in a row is the same as setting it once. */
  lemma WithEnabledIdempotent(ts: seq<Track>, k: TrackKind, on: bool)
    ensures WithEnabled(WithEnabled(ts, k, on), k, on) == WithEnabled(ts, k, on)
  {
    var once := WithEnabled(ts, k, on);
    var twice := WithEnabled(once, k, on);
    assert forall i :: 0 <= i < |ts| ==> twice[i] == once[i];
  }

  /** Muting audio and switching video off touch disjoint tracks, so their
      order does not matter. */
  lemma MuteAndVideoCommute(ts: seq<Track>, muted: bool, videoOff: bool)
    ensures WithEnabled(WithEnabled(ts, Audio, !muted), Video, !videoOff) ==
            WithEnabled(WithEnabled(ts, Video, !videoOff), Audio, !muted)
  {
    var a := WithEnabled(WithEnabled(ts, Audio, !muted), Video, !videoOff);
    var b := WithEnabled(WithEnabled(ts, Video, !videoOff), Audio, !muted);
    assert forall i :: 0 <= i < |ts| ==> a[i] == b[i];
  }
}
