/** The story teller's two record types: a voice profile (`Character`) and an
    attributed piece of the story (`StorySegment`). */
module Domain {
  import opened Results

  /** An immutable voice profile: display name, description, voice identifier
      and rendering parameters. Speed, volume and pitch are exact reals. */
  datatype Character = Character(
    name: string,
    description: string,
    voiceId: string,
    speed: real,
    volume: real,
    pitch: real,
    emotion: string)

  /** One attributed unit of the story. Every segment the parser builds has a
      character; `audioFile` is filled in once synthesis succeeds. */
  datatype Segment = Segment(character: Character, text: string, audioFile: Option<string>)

  /** The segments' audio references, in segment order, as the script writer
      sees them: present and non-empty (Python's `if segment.audio_file:`). */
  function AudioFilesOf(segments: seq<Segment>): (r: seq<string>)
    ensures |r| <= |segments|
    ensures forall f :: f in r ==> f != []
  {
    if segments == [] then []
    else
      var a := segments[0].audioFile;
      (if a.Some? && a.value != [] then [a.value] else []) + AudioFilesOf(segments[1..])
  }
}
