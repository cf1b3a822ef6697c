/**
  Subtitle side of the custom media player: the already-parsed cue list, the
  choice of the caption shown at a playback position, and the mapping from the
  colour names the subtitle menu stores to the colour the label is drawn in.
 */
module Subtitles {

  import opened Optional

  /** One parsed subtitle line, shown from `start` to `end` seconds. */
  datatype Cue = Cue(start: real, end: real, text: string)

  /** Both bounds of a cue's interval are inclusive. */
  predicate Covers(c: Cue, t: real)
  {
    c.start <= t && t <= c.end
  }

  /** No cue of the list is active at time t. */
  ghost predicate NoneCovers(cues: seq<Cue>, t: real)
  {
    forall j :: 0 <= j < |cues| ==> !Covers(cues[j], t)
  }

  /** Cue i is active at t and no earlier cue is. */
  ghost predicate IsFirstActive(cues: seq<Cue>, i: int, t: real)
  {
    0 <= i < |cues| && Covers(cues[i], t) && forall j :: 0 <= j < i ==> !Covers(cues[j], t)
  }

  /**
    The index of the first cue, in list order, whose interval contains t.
    The list need not be sorted and cues may overlap: the earliest listed
    match wins.
   */
  function FirstActiveCue(cues: seq<Cue>, t: real): (r: Option<nat>)
    ensures r.Some? ==> IsFirstActive(cues, r.value, t)
    ensures r.None? <==> NoneCovers(cues, t)
  {
    if |cues| == 0 then None
    else if Covers(cues[0], t) then Some(0)
    else match FirstActiveCue(cues[1..], t)
      case None => None
      case Some(i) => Some(i + 1)
  }

  /** The caption text shown at time t: the first active cue's text, else empty. */
  function CaptionAt(cues: seq<Cue>, t: real): (caption: string)
    ensures NoneCovers(cues, t) ==> caption == ""
    ensures forall i :: IsFirstActive(cues, i, t) ==> caption == cues[i].text
  {
    match FirstActiveCue(cues, t)
    case None => ""
    case Some(i) => cues[i].text
  }

  /**
    Cues listed after a list that already has an active cue at t never change
    the caption: appending to the list keeps the earlier match.
   */
  lemma {:induction false} FirstActiveCueAppend(a: seq<Cue>, b: seq<Cue>, t: real)
    ensures FirstActiveCue(a + b, t) ==
              match FirstActiveCue(a, t)
              case Some(i) => Some(i)
              case None =>
                match FirstActiveCue(b, t)
                case Some(k) => Some(|a| + k)
                case None => None
  {
    if |a| == 0 {
      assert a + b == b;
    } else {
      assert (a + b)[0] == a[0];
      if !Covers(a[0], t) {
        assert (a + b)[1..] == a[1..] + b;
        FirstActiveCueAppend(a[1..], b, t);
      }
    }
  }

  /** Overlapping cues resolve to the one listed first. */
  lemma OverlapPrefersEarlierCue()
    ensures CaptionAt([Cue(0.0, 5.0, "a"), Cue(3.0, 8.0, "b")], 4.0) == "a"
    ensures CaptionAt([Cue(3.0, 8.0, "b"), Cue(0.0, 5.0, "a")], 4.0) == "b"
  {
  }

  /** A cue is active at both ends of its interval and not just outside it. */
  lemma CueBoundsInclusive(c: Cue)
    requires c.start <= c.end
    ensures CaptionAt([c], c.start) == c.text && CaptionAt([c], c.end) == c.text
    ensures CaptionAt([c], c.end + 0.001) == "" && CaptionAt([c], c.start - 0.001) == ""
  {
  }

  /** The colours the subtitle menu offers. */
  datatype SubtitleColor = White | Yellow | Green | Purple | Blue | Red

  /** The names the menu stores for each colour choice. */
  const ColorNames: set<string> := {"white", "yellow", "green", "purple", "blue", "red"}

  /** The name the subtitle colour menu stores when a colour is picked. */
  function ColorName(c: SubtitleColor): (name: string)
    ensures name in ColorNames
  {
    match c
    case White => "white"
    case Yellow => "yellow"
    case Green => "green"
    case Purple => "purple"
    case Blue => "blue"
    case Red => "red"
  }

  /** The colour a stored name selects; any unknown name falls back to white. */
  function ColorFromName(name: string): (c: SubtitleColor)
    ensures name in ColorNames ==> ColorName(c) == name
    ensures name !in ColorNames ==> c == White
  {
    match name
    case "white" => White
    case "yellow" => Yellow
    case "green" => Green
    case "purple" => Purple
    case "blue" => Blue
    case "red" => Red
    case _ => White
  }

  /** Every colour the menu can store is read back as that same colour. */
  lemma ColorNameRoundTrip(c: SubtitleColor)
    ensures ColorFromName(ColorName(c)) == c
  {
  }
}
