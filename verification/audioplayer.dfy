/** The audio playlist player: a playlist of buffers, a wrap-around play
    cursor, the single control slot that holds the playing stream, and the
    volume/mute settings of the effect wrapped around that control. */
module Audio {
  import opened Values
  import Cyclic

  /** A stream reading a buffer segment, as `buffer.Streamer(from, to)`. */
  datatype Stream = Stream(buffer: Buffer, from: nat, to: nat)

  /** The stream `Play` puts into the control for a buffer: all of it. */
  function WholeBuffer(b: Buffer): Stream {
    Stream(b, 0, b.len)
  }

  class AudioPlayer {
    var playlist: seq<Buffer>
    var playID: int
    /** `control.Streamer`: the stream the mixer pulls from, if any. */
    var control: Option<Stream>
    /** `volume.Volume`: stored as given, 0 leaves the signal unmodified. */
    var volume: real
    /** `volume.Silent` */
    var silent: bool

    constructor ()
      ensures playlist == [] && playID == 0 && control == None
      ensures volume == 0.0 && !silent
    {
      playlist := [];
      playID := 0;
      control := None;
      volume := 0.0;
      silent := false;
    }

    /** `NewAudioPlayer`: a fresh player, or an error when the speaker
        cannot be initialised. */
    static method NewAudioPlayer(speakerReady: bool) returns (p: AudioPlayer?, err: bool)
      ensures err <==> !speakerReady
      ensures err <==> p == null
      ensures p != null ==> fresh(p) && p.playlist == [] && p.playID == 0
      ensures p != null ==> p.control == None && p.volume == 0.0 && !p.silent
    {
      if !speakerReady {
        return null, true;
      }
      p := new AudioPlayer();
      err := false;
    }

    /** `AddAudio`: appends at the tail, duplicates included; never fails. */
    method AddAudio(ab: Buffer) returns (err: Option<string>)
      modifies this`playlist
      ensures playlist == old(playlist) + [ab]
      ensures err == None
    {
      playlist := playlist + [ab];
      err := None;
    }

    function Playlist(): seq<Buffer>
      reads this
    {
      playlist
    }

    /** `SetPlaylist`: replaces the playlist; the cursor is left as it was. */
    method SetPlaylist(pl: seq<Buffer>)
      modifies this`playlist
      ensures playlist == pl
    {
      playlist := pl;
    }

    /** Whether the cursor designates a playlist entry. */
    predicate CursorInRange()
      reads this
    {
      0 <= playID < |playlist|
    }

    /** `ResumePlaylist`: plays the entry under the cursor, or does nothing
        when the cursor is out of range. */
    method ResumePlaylist()
      modifies this`control
      ensures old(CursorInRange()) ==> control == Some(WholeBuffer(playlist[playID])) && Playing()
      ensures !old(CursorInRange()) ==> control == old(control)
    {
      if playID < 0 || playID > |playlist| - 1 {
        return;
      }
      var buffer := playlist[playID];
      var _ := Play(buffer);
    }

    /** `Play`: puts the whole buffer into the control, replacing whatever
        was playing; never fails. */
    method Play(buffer: Buffer) returns (err: Option<string>)
      modifies this`control
      ensures control == Some(WholeBuffer(buffer))
      ensures err == None
    {
      control := Some(WholeBuffer(buffer));
      err := None;
    }

    /** `StopPlaylist`: empties the control; nothing to do if it is empty. */
    method StopPlaylist()
      modifies this`control
      ensures control == None && !Playing()
    {
      if control == None {
        return;
      }
      control := None;
    }

    /** `Reset`: stop, then move the cursor to the first entry. */
    method Reset()
      modifies this`control, this`playID
      ensures !Playing()
      ensures playID == 0
    {
      StopPlaylist();
      SetPlayIndex(0);
    }

    method SetVolume(v: real)
      modifies this`volume
      ensures volume == v && Volume() == v
    {
      volume := v;
    }

    function Volume(): real
      reads this
    {
      volume
    }

    method SetMute(m: bool)
      modifies this`silent
      ensures silent == m && Muted() == m
    {
      silent := m;
    }

    function Muted(): bool
      reads this
    {
      silent
    }

    /** `Playing`: true exactly when a stream is assigned to the control. */
    predicate Playing()
      reads this
    {
      control.Some?
    }

    /** `Clear`: an empty playlist; the cursor is left as it was. */
    method Clear()
      modifies this`playlist
      ensures playlist == []
    {
      playlist := [];
    }

    function PlayIndex(): int
      reads this
    {
      playID
    }

    /** `SetPlayIndex`: the wrap-around rule; for a non-empty playlist the
        cursor always lands on an entry. */
    method SetPlayIndex(id: int)
      modifies this`playID
      ensures playID == Cyclic.Wrap(id, |playlist|)
      ensures |playlist| > 0 ==> CursorInRange()
    {
      if id > |playlist| - 1 {
        playID := 0;
      } else if id < 0 {
        playID := |playlist| - 1;
      } else {
        playID := id;
      }
    }
  }
}
