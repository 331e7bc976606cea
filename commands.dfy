/**
 * The command vocabulary of the gesture classifier: the six tokens it can
 * emit, their wire spelling, and the human-readable description lookup.
 */
module Commands {
  import opened Wrappers

  /** The six command tokens a classified gesture can produce. */
  datatype Command = Next | Prev | Start | Pause | ZoomIn | ZoomOut

  /** The string each command is emitted as. */
  function Token(c: Command): (s: string)
    ensures |s| > 0
  {
    match c
    case Next => "next"
    case Prev => "prev"
    case Start => "start"
    case Pause => "pause"
    case ZoomIn => "zoom_in"
    case ZoomOut => "zoom_out"
  }

  /** Reads a token back; any other string is not a command. */
  function Parse(s: string): (r: Option<Command>)
    ensures r.Some? ==> Token(r.value) == s
  {
    if s == "next" then Some(Next)
    else if s == "prev" then Some(Prev)
    else if s == "start" then Some(Start)
    else if s == "pause" then Some(Pause)
    else if s == "zoom_in" then Some(ZoomIn)
    else if s == "zoom_out" then Some(ZoomOut)
    else None
  }

  /** Every command survives the trip through its token, so distinct commands have distinct tokens. */
  lemma ParseToken(c: Command)
    ensures Parse(Token(c)) == Some(c)
  {
  }

  const UNKNOWN_COMMAND: string := "Unknown Command"

  /** The description shown for each command. */
  function Description(c: Command): (d: string)
    ensures d != UNKNOWN_COMMAND
  {
    match c
    case Next => "Next Slide (Two Fingers Pointing Right)"
    case Prev => "Previous Slide (One Finger Pointing Left)"
    case Start => "Start Presentation (Thumbs Up)"
    case Pause => "Pause/Hold (Open Palm)"
    case ZoomIn => "Zoom In (Two Hands Frame Gesture)"
    case ZoomOut => "Zoom Out (Two Hands 3 Fingers Moving Together)"
  }

  /**
   * Looks a command string up in the fixed description table; any string that
   * is not one of the six tokens gets the unknown-command default.
   */
  function GestureInfo(command: string): (info: string)
    ensures Parse(command).Some? ==> info == Description(Parse(command).value)
    ensures info == UNKNOWN_COMMAND <==> Parse(command).None?
  {
    var table := map[
      "next" := "Next Slide (Two Fingers Pointing Right)",
      "prev" := "Previous Slide (One Finger Pointing Left)",
      "start" := "Start Presentation (Thumbs Up)",
      "pause" := "Pause/Hold (Open Palm)",
      "zoom_in" := "Zoom In (Two Hands Frame Gesture)",
      "zoom_out" := "Zoom Out (Two Hands 3 Fingers Moving Together)"];
    if command in table then table[command] else UNKNOWN_COMMAND
  }
}
