/** What the tracker reports for a frame, and the pairs of a track with a region that the engines watch. */
module Tracks {
  import opened Sequences

  datatype Point = Point(x: real, y: real)

  datatype Visitor = Visitor(track: int, centroid: Point)

  datatype FrameTracks = FrameTracks(index: int, tracks: seq<Visitor>)

  function TrackIds(tracks: seq<Visitor>): seq<int> {
    if tracks == [] then [] else TrackIds(tracks[..|tracks| - 1]) + [tracks[|tracks| - 1].track]
  }

  /** Every frame reports each of its tracks once. */
  ghost predicate DistinctTracks(video: seq<FrameTracks>) {
    forall i | 0 <= i < |video| :: Distinct(TrackIds(video[i].tracks))
  }

  /** A track and a zone, queue or line. */
  datatype Key = Key(track: int, region: string)

  lemma {:induction false} TrackIdsAt(tracks: seq<Visitor>, i: nat)
    requires i < |tracks|
    ensures tracks[i].track in TrackIds(tracks)
  {
    if i < |tracks| - 1 {
      TrackIdsAt(tracks[..|tracks| - 1], i);
    }
  }

  lemma {:induction false} FreshTrack(tracks: seq<Visitor>, i: nat)
    requires i < |tracks| && Distinct(TrackIds(tracks))
    ensures tracks[i].track !in TrackIds(tracks[..i])
    ensures forall t: int :: t in TrackIds(tracks[..i + 1]) <==> t == tracks[i].track || t in TrackIds(tracks[..i])
  {
    assert tracks[..i + 1][..i] == tracks[..i];
    DistinctPrefix(tracks, i + 1);
  }

  lemma {:induction false} DistinctPrefix(tracks: seq<Visitor>, n: nat)
    requires n <= |tracks| && Distinct(TrackIds(tracks))
    ensures Distinct(TrackIds(tracks[..n]))
  {
    if n == |tracks| {
      assert tracks[..n] == tracks;
    } else {
      DistinctPrefix(tracks[..|tracks| - 1], n);
      assert tracks[..|tracks| - 1][..n] == tracks[..n];
    }
  }
}
