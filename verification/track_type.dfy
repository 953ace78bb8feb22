/**
 * The kinds of track (Lumix/Tracks/Track.cs). The enum declares Audio and
 * Midi only, while GroupTrack assigns a Group kind, so the model carries all
 * three.
 */
module TrackTypes {
  datatype TrackType = Audio | Midi | Group
}
