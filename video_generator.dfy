/** The promotional video generator: which lines of the script the
    typewriter effect shows for a character budget, the guard and frame loop
    of a generation, and the lookups for the effect, font size and colour.
    Canvas drawing, the recorder, speech and every floating-point quantity
    (the budget itself, positions, scales) are outside the model; the budget
    is an input. */
module VideoGenerator {
  import opened Wrappers
  import opened JsText

  const FramesPerSecond := 30
  const CinematicFontSize := 32
  const DefaultFontSize := 28
  const GoldColour := "#FFD700"
  const WhiteColour := "#FFFFFF"
  const GreenColour := "#00FF88"
  const AlertText := "Please add an image and script first!"

  /** The lines of a script joined back-to-back, as the typewriter counts
      characters. */
  function Concat(lines: seq<string>): string {
    if lines == [] then [] else lines[0] + Concat(lines[1..])
  }

  /** `lines.filter(line => line.trim())`: the lines that are not blank, in
      order. */
  function KeepNonBlank(lines: seq<string>): (r: seq<string>)
    ensures |r| <= |lines|
    ensures forall i | 0 <= i < |r| :: !IsBlank(r[i]) && r[i] != []
    ensures forall x :: x in r <==> x in lines && !IsBlank(x)
  {
    if lines == [] then []
    else
      TrimSpec(lines[0]);
      (if Trim(lines[0]) != [] then [lines[0]] else []) + KeepNonBlank(lines[1..])
  }

  /** One line is kept exactly when it is not blank. */
  lemma KeepNonBlankSingle(x: string)
    ensures KeepNonBlank([x]) == if IsBlank(x) then [] else [x]
  {
    assert [x][1..] == [];
  }

  /** Filtering two runs of lines filters each in turn: the kept lines keep
      their order and their repetitions. */
  lemma {:induction false} KeepNonBlankAppend(a: seq<string>, b: seq<string>)
    ensures KeepNonBlank(a + b) == KeepNonBlank(a) + KeepNonBlank(b)
  {
    if a == [] {
      assert a + b == b;
    } else {
      assert (a + b)[0] == a[0];
      assert (a + b)[1..] == a[1..] + b;
      KeepNonBlankAppend(a[1..], b);
    }
  }

  /** `text.split('\n').filter(line => line.trim())`. */
  function NonBlankLines(text: string): seq<string> {
    KeepNonBlank(Split(text, '\n'))
  }

  /** The lines the typewriter shows with `budget` characters: whole lines
      while they fit, then the part of the next line that fits, if any. */
  function Visible(lines: seq<string>, budget: nat): seq<string> {
    if lines == [] then []
    else if |lines[0]| <= budget then [lines[0]] + Visible(lines[1..], budget - |lines[0]|)
    else if budget > 0 then [lines[0][..budget]]
    else []
  }

  function Min(a: nat, b: nat): nat {
    if a <= b then a else b
  }

  /** The typewriter shows exactly the first `budget` characters of the
      script's lines (all of them when the budget is larger). */
  lemma {:induction false} VisibleIsPrefix(lines: seq<string>, budget: nat)
    ensures Concat(Visible(lines, budget)) == Concat(lines)[..Min(budget, |Concat(lines)|)]
  {
    if lines != [] {
      var head, rest := lines[0], Concat(lines[1..]);
      assert Concat(lines) == head + rest;
      if |head| <= budget {
        VisibleIsPrefix(lines[1..], budget - |head|);
        assert Concat(Visible(lines, budget)) == head + Concat(Visible(lines[1..], budget - |head|));
        assert (head + rest)[..Min(budget, |head + rest|)] == head + rest[..Min(budget - |head|, |rest|)];
      } else if budget > 0 {
        assert Concat([head[..budget]]) == head[..budget] + Concat([]);
        assert (head + rest)[..budget] == head[..budget];
      }
    }
  }

  /** The visible text never has more characters than the budget. */
  lemma VisibleWithinBudget(lines: seq<string>, budget: nat)
    ensures |Concat(Visible(lines, budget))| <= budget
  {
    VisibleIsPrefix(lines, budget);
  }

  /** A larger budget only adds text: what was shown stays shown. */
  lemma VisibleGrows(lines: seq<string>, b1: nat, b2: nat)
    requires b1 <= b2
    ensures Concat(Visible(lines, b1)) <= Concat(Visible(lines, b2))
  {
    VisibleIsPrefix(lines, b1);
    VisibleIsPrefix(lines, b2);
  }

  /** Every visible line but the last is the matching script line; the last
      is the matching line or a non-empty start of it. */
  lemma {:induction false} VisibleShape(lines: seq<string>, budget: nat)
    requires forall i | 0 <= i < |lines| :: lines[i] != []
    ensures var v := Visible(lines, budget);
      |v| <= |lines| &&
      (forall i | 0 <= i < |v| - 1 :: v[i] == lines[i]) &&
      (v != [] ==> v[|v| - 1] != [] && v[|v| - 1] <= lines[|v| - 1])
  {
    if lines != [] && |lines[0]| <= budget {
      VisibleShape(lines[1..], budget - |lines[0]|);
    }
  }

  /** With a budget at least the script's length every line is shown in
      full; with no budget nothing is shown. */
  lemma {:induction false} VisibleExtremes(lines: seq<string>, budget: nat)
    requires forall i | 0 <= i < |lines| :: lines[i] != []
    ensures budget >= |Concat(lines)| ==> Visible(lines, budget) == lines
    ensures Visible(lines, 0) == []
  {
    if lines != [] && budget >= |Concat(lines)| {
      assert Concat(lines) == lines[0] + Concat(lines[1..]);
      VisibleExtremes(lines[1..], budget - |lines[0]|);
    }
  }

  /** The greedy loop of `drawText` over the lines it is given: lines are
      pushed while they fit in `maxChars`, then the part of the first line
      that does not fit, if any of it does, and the loop stops. */
  method SelectVisible(lines: seq<string>, maxChars: nat) returns (visible: seq<string>)
    ensures visible == Visible(lines, maxChars)
  {
    var currentChars := 0;
    visible := [];
    var i := 0;
    while i < |lines|
      invariant 0 <= i <= |lines|
      invariant currentChars <= maxChars
      invariant visible + Visible(lines[i..], maxChars - currentChars) == Visible(lines, maxChars)
    {
      var line := lines[i];
      assert lines[i..][1..] == lines[i + 1..];
      if currentChars + |line| <= maxChars {
        ghost var rest := Visible(lines[i + 1..], maxChars - currentChars - |line|);
        assert Visible(lines[i..], maxChars - currentChars) == [line] + rest;
        assert visible + [line] + rest == visible + ([line] + rest);
        visible := visible + [line];
        currentChars := currentChars + |line|;
      } else {
        var remainingChars := maxChars - currentChars;
        if remainingChars > 0 {
          visible := visible + [line[..remainingChars]];
        }
        return;
      }
      i := i + 1;
    }
    assert lines[i..] == [];
  }

  /** The lines `drawText` shows: the selection over the script's non-blank
      lines. */
  method DrawTextLines(text: string, maxChars: nat) returns (visible: seq<string>)
    ensures visible == Visible(NonBlankLines(text), maxChars)
  {
    visible := SelectVisible(NonBlankLines(text), maxChars);
  }

  /** `generateVideo`'s guard: an image and a script that is not blank. The
      generate button is disabled also while a generation runs. */
  predicate CanGenerate(hasImage: bool, script: string)
    ensures CanGenerate(hasImage, script) <==> hasImage && !IsBlank(script)
  {
    TrimSpec(script);
    hasImage && Trim(script) != []
  }

  /** The number of frames a generation renders. */
  function TotalFrames(duration: nat): nat {
    duration * FramesPerSecond
  }

  /** `Math.round(frame / totalFrames * 100)`, on exact rationals. */
  function ProgressPercent(frame: nat, totalFrames: nat): (p: nat)
    requires frame < totalFrames
    ensures p <= 100
    ensures p * (2 * totalFrames) <= 200 * frame + totalFrames < (p + 1) * (2 * totalFrames)
  {
    (200 * frame + totalFrames) / (2 * totalFrames)
  }

  /** The camera movements. */
  datatype Effect = ZoomIn | ZoomOut | PanLeft | PanRight | KenBurns

  /** The option value of each effect. */
  function EffectName(e: Effect): string {
    match e
    case ZoomIn => "zoomIn"
    case ZoomOut => "zoomOut"
    case PanLeft => "panLeft"
    case PanRight => "panRight"
    case KenBurns => "kenBurns"
  }

  /** `effects[name] || effects.zoomIn`: the effect with that name, and the
      zoom-in for any other name. */
  function EffectFor(name: string): (e: Effect)
    ensures name !in {"zoomIn", "zoomOut", "panLeft", "panRight", "kenBurns"} ==> e == ZoomIn
  {
    if name == "zoomOut" then ZoomOut
    else if name == "panLeft" then PanLeft
    else if name == "panRight" then PanRight
    else if name == "kenBurns" then KenBurns
    else ZoomIn
  }

  /** Choosing an effect by its option value gives that effect. */
  lemma EffectRoundTrip(e: Effect)
    ensures EffectFor(EffectName(e)) == e
  {
  }

  /** The font size: larger for the cinematic style. */
  function FontSize(style: string): (size: nat)
    ensures size == CinematicFontSize <==> style == "cinematic"
    ensures size != CinematicFontSize ==> size == DefaultFontSize
  {
    if style == "cinematic" then CinematicFontSize else DefaultFontSize
  }

  /** The text colour: gold for cinematic, white for modern, green for any
      other style. */
  function TextColour(style: string): (colour: string)
    ensures style == "cinematic" ==> colour == GoldColour
    ensures style == "modern" ==> colour == WhiteColour
    ensures style != "cinematic" && style != "modern" ==> colour == GreenColour
  {
    if style == "cinematic" then GoldColour else if style == "modern" then WhiteColour else GreenColour
  }

  /** The generator's settings. */
  datatype Settings = Settings(duration: nat, effect: string, textPosition: string, textStyle: string, addVoice: bool)

  /** A chosen image file. */
  datatype ImageFile = ImageFile(name: string, size: nat)

  class Generator {
    var image: Option<ImageFile>
    var script: string
    var isGenerating: bool
    var progress: nat
    var videoUrl: Option<string>
    var settings: Settings

    constructor ()
      ensures image == None && script == "" && !isGenerating && progress == 0 && videoUrl == None
      ensures settings == Settings(15, "zoomIn", "bottom", "modern", false)
    {
      image, script, isGenerating, progress, videoUrl := None, "", false, 0, None;
      settings := Settings(15, "zoomIn", "bottom", "modern", false);
    }

    /** `handleImageChange`: a chosen file replaces the image and discards
        the previous video; choosing nothing changes nothing. */
    method ImageChange(files: seq<ImageFile>)
      modifies this`image, this`videoUrl
      ensures files != [] ==> image == Some(files[0]) && videoUrl == None
      ensures files == [] ==> image == old(image) && videoUrl == old(videoUrl)
    {
      if files != [] {
        image := Some(files[0]);
        videoUrl := None;
      }
    }

    /** `generateVideo`. Without an image or with a blank script it only
        alerts. Otherwise it renders `duration * 30` frames, numbered from 0
        in order, showing the rounded percentage before each, and when the
        recorder stops the video is the recording `recordedUrl` and progress
        is 100. */
    method Generate(recordedUrl: string) returns (alert: Option<string>, frames: seq<nat>)
      modifies this`isGenerating, this`progress, this`videoUrl
      ensures !CanGenerate(image.Some?, script) ==>
        alert == Some(AlertText) && frames == [] &&
        isGenerating == old(isGenerating) && progress == old(progress) && videoUrl == old(videoUrl)
      ensures CanGenerate(image.Some?, script) ==>
        alert == None && |frames| == TotalFrames(settings.duration) &&
        (forall i | 0 <= i < |frames| :: frames[i] == i) &&
        videoUrl == Some(recordedUrl) && !isGenerating && progress == 100
    {
      if image.None? || Trim(script) == [] {
        return Some(AlertText), [];
      }
      alert := None;
      isGenerating := true;
      progress := 0;
      videoUrl := None;
      frames := RenderFrames(TotalFrames(settings.duration));
      videoUrl := Some(recordedUrl);
      isGenerating := false;
      progress := 100;
    }

    /** The `renderFrame` chain: frame after frame until the total is
        reached, each setting the shown percentage before it is drawn. The
        result lists the frames drawn, in order. */
    method RenderFrames(totalFrames: nat) returns (frames: seq<nat>)
      modifies this`progress
      ensures |frames| == totalFrames && forall i | 0 <= i < |frames| :: frames[i] == i
      ensures totalFrames > 0 ==> progress == ProgressPercent(totalFrames - 1, totalFrames)
      ensures totalFrames == 0 ==> progress == old(progress)
    {
      var currentFrame := 0;
      frames := [];
      while currentFrame < totalFrames
        invariant 0 <= currentFrame <= totalFrames
        invariant |frames| == currentFrame
        invariant forall i | 0 <= i < |frames| :: frames[i] == i
        invariant currentFrame == 0 ==> progress == old(progress)
        invariant currentFrame > 0 ==> progress == ProgressPercent(currentFrame - 1, totalFrames)
      {
        progress := ProgressPercent(currentFrame, totalFrames);
        frames := frames + [currentFrame];
        currentFrame := currentFrame + 1;
      }
    }

    /** `downloadVideo`: with a video, the name it is saved under, stamped
        with the time `now`; without one, nothing. */
    method Download(now: nat) returns (fileName: Option<string>)
      ensures fileName.Some? <==> videoUrl.Some?
      ensures fileName.Some? ==> fileName.value == "moviebuzz-promo-" + NatToString(now) + ".webm"
    {
      if videoUrl.Some? {
        fileName := Some("moviebuzz-promo-" + NatToString(now) + ".webm");
      } else {
        fileName := None;
      }
    }
  }
}
