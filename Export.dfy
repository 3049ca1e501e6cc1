/** The strings the component builds for the preview and the download
    (src/components/LogoGenerator.tsx:298-301, 528-641): the CSS background
    of the preview, the name of a downloaded image, and what a download
    request ends in. */
module Export {
  import opened Options
  import opened Text
  import opened Style
  import Package

  // ---------------------------------------------------------------------------
  // The preview background
  // ---------------------------------------------------------------------------

  /** What the preview is painted with. */
  datatype Paint = SolidPaint(color: string) | GradientPaint(angle: int, from: string, via: string, to: string)

  /** The paint the live settings select. */
  function PaintOf(live: LiveView): Paint
  {
    if live.backgroundType == Solid then SolidPaint(live.solidColor)
    else GradientPaint(live.gradientAngle, live.gradientColors.from, live.gradientColors.via, live.gradientColors.to)
  }

  const GradientOpen: string := "linear-gradient("

  /** The CSS value of a paint (line 301): the colour itself, or
      `linear-gradient(<angle>deg, <from>, <via>, <to>)`, which opens with
      `linear-gradient(` and closes with `)`. */
  function PaintText(p: Paint): (text: string)
    ensures p.GradientPaint? ==> GradientOpen <= text && text[|text| - 1] == ')'
  {
    match p
    case SolidPaint(c) => c
    case GradientPaint(a, f, v, t) => GradientOpen + IntToString(a) + "deg, " + f + ", " + v + ", " + t + ")"
  }

  /** The `background` entry of `containerStyle` (lines 298-301): there is
      one only while the background is shown. */
  function BackgroundPaint(live: LiveView): (r: Option<string>)
    ensures r.Some? <==> live.hasBackground
  {
    if live.hasBackground then Some(PaintText(PaintOf(live))) else None
  }

  /** The `background` the preview element sets after spreading
      `containerStyle` (lines 1051-1058; the capture clone sets the same at
      lines 561-563): painted whether or not the background is shown. It
      agrees with `containerStyle`'s entry whenever there is one, and reads
      back into the live paint. */
  function PreviewBackground(live: LiveView): (r: string)
    ensures live.hasBackground ==> BackgroundPaint(live) == Some(r)
    ensures Readable(PaintOf(live)) ==> ParsePaint(r) == Some(PaintOf(live))
  {
    assert Readable(PaintOf(live)) ==> ParsePaint(PaintText(PaintOf(live))) == Some(PaintOf(live)) by {
      if Readable(PaintOf(live)) {
        ParsePaintText(PaintOf(live));
      }
    }
    PaintText(PaintOf(live))
  }

  /** `s` with `open` in front and `close` behind removed, when it has both. */
  function Unwrap(s: string, open: string, close: string): (r: Option<string>)
    ensures r.Some? ==> open + r.value + close == s
  {
    if |open| + |close| <= |s| && open <= s && s[|s| - |close|..] == close then
      var m := s[|open|..|s| - |close|];
      assert s == s[..|open|] + m + s[|s| - |close|..];
      Some(m)
    else None
  }

  lemma UnwrapWrap(open: string, m: string, close: string)
    ensures Unwrap(open + m + close, open, close) == Some(m)
  {
    var s := open + m + close;
    assert s[..|open|] == open;
    assert s[|s| - |close|..] == close;
    assert s[|open|..|s| - |close|] == m;
  }

  /** Reads a CSS background value back into the paint it describes: a
      `linear-gradient(` value is taken apart at its commas, anything else is
      a solid colour. */
  function ParsePaint(s: string): Option<Paint>
  {
    if !(GradientOpen <= s) then Some(SolidPaint(s))
    else
      var parts := Split(s, ',');
      if |parts| != 4 then None
      else
        match (Unwrap(parts[0], GradientOpen, "deg"), Unwrap(parts[1], " ", ""),
               Unwrap(parts[2], " ", ""), Unwrap(parts[3], " ", ")"))
        case (Some(angleText), Some(f), Some(v), Some(t)) =>
          (match ParseInt(angleText)
           case Some(a) => Some(GradientPaint(a, f, v, t))
           case None => None)
        case _ => None
  }

  /** A paint whose text can be read back: no colour holds a comma, and a
      solid colour does not itself start like a gradient. */
  predicate Readable(p: Paint)
  {
    match p
    case SolidPaint(c) => !(GradientOpen <= c)
    case GradientPaint(_, f, v, t) => ',' !in f && ',' !in v && ',' !in t
  }

  /** The gradient text is its four comma-free pieces joined by commas. */
  lemma GradientPieces(angle: string, f: string, v: string, t: string)
    ensures GradientOpen + angle + "deg, " + f + ", " + v + ", " + t + ")"
         == JoinWith([GradientOpen + angle + "deg", " " + f, " " + v, " " + t + ")"], ',')
  {
    var p0, p1, p2, p3 := GradientOpen + angle + "deg", " " + f, " " + v, " " + t + ")";
    JoinFour(p0, p1, p2, p3, ',');
    assert "deg, " == "deg" + [','] + " ";
    assert ", " == [','] + " ";
    calc {
      GradientOpen + angle + "deg, " + f + ", " + v + ", " + t + ")";
      p0 + [','] + (" " + f) + ", " + v + ", " + t + ")";
      p0 + [','] + p1 + [','] + (" " + v) + ", " + t + ")";
      p0 + [','] + p1 + [','] + p2 + [','] + p3;
    }
  }

  /** The pieces of the gradient text between its commas. */
  lemma SplitGradient(a: int, f: string, v: string, t: string)
    requires ',' !in f && ',' !in v && ',' !in t
    ensures Split(PaintText(GradientPaint(a, f, v, t)), ',')
         == [GradientOpen + IntToString(a) + "deg", " " + f, " " + v, " " + t + ")"]
  {
    var angle := IntToString(a);
    var parts := [GradientOpen + angle + "deg", " " + f, " " + v, " " + t + ")"];
    GradientPieces(angle, f, v, t);
    assert ',' !in angle by {
      forall k | 0 <= k < |angle|
        ensures angle[k] != ','
      {
        assert IsDigit(angle[k]) || angle[k] == '-';
      }
    }
    assert ',' !in parts[0] && ',' !in parts[1] && ',' !in parts[2] && ',' !in parts[3];
    SplitJoin(parts, ',');
  }

  /** Reading the text of a readable paint gives the paint back: the
      background string determines the background settings. */
  lemma ParsePaintText(p: Paint)
    requires Readable(p)
    ensures ParsePaint(PaintText(p)) == Some(p)
  {
    match p
    case SolidPaint(c) =>
    case GradientPaint(a, f, v, t) =>
      var angle := IntToString(a);
      var s := PaintText(p);
      assert s == GradientOpen + (angle + "deg, " + f + ", " + v + ", " + t + ")");
      SplitGradient(a, f, v, t);
      UnwrapWrap(GradientOpen, angle, "deg");
      UnwrapWrap(" ", f, "");
      UnwrapWrap(" ", v, "");
      UnwrapWrap(" ", t, ")");
      assert " " + f + "" == " " + f && " " + v + "" == " " + v;
      ParseIntToString(a);
  }

  /** Two shown backgrounds with the same CSS value have the same settings. */
  lemma BackgroundPaintInjective(live1: LiveView, live2: LiveView)
    requires live1.hasBackground && live2.hasBackground
    requires Readable(PaintOf(live1)) && Readable(PaintOf(live2))
    requires BackgroundPaint(live1) == BackgroundPaint(live2)
    ensures PaintOf(live1) == PaintOf(live2)
  {
    ParsePaintText(PaintOf(live1));
    ParsePaintText(PaintOf(live2));
  }

  lemma DefaultGradientText()
    ensures PaintText(GradientPaint(135, "#6366f1", "#a855f7", "#ec4899"))
         == "linear-gradient(" + "135" + "deg, " + "#6366f1" + ", " + "#a855f7" + ", " + "#ec4899" + ")"
  {
    assert NatToString(1) == "1";
    assert NatToString(13) == NatToString(1) + [DigitChar(3)] == "13";
    assert NatToString(135) == NatToString(13) + [DigitChar(5)] == "135";
  }

  /** On first render the preview shows the default gradient. */
  lemma MountedBackgroundPaint(defaultSize: int)
    ensures BackgroundPaint(MountedView(defaultSize))
         == Some("linear-gradient(" + "135" + "deg, " + "#6366f1" + ", " + "#a855f7" + ", " + "#ec4899" + ")")
  {
    assert PaintOf(MountedView(defaultSize)) == GradientPaint(135, "#6366f1", "#a855f7", "#ec4899");
    DefaultGradientText();
  }

  /** The meta tags' theme colour (lines 483, 486) is a colour of the preview
      background: the solid colour, or the gradient's first stop, right after
      the angle. */
  lemma ThemeColorInBackground(live: LiveView)
    ensures var text := PaintText(PaintOf(live));
      var at := if live.backgroundType == Solid then 0 else |GradientOpen| + |IntToString(live.gradientAngle)| + 5;
      OccursAt(text, Package.ThemeColor(live), at)
  {
    var c := Package.ThemeColor(live);
    if live.backgroundType == Gradient {
      var head := GradientOpen + IntToString(live.gradientAngle) + "deg, ";
      var g := live.gradientColors;
      var text := PaintText(PaintOf(live));
      assert text == head + c + (", " + g.via + ", " + g.to + ")");
      assert |head| == |GradientOpen| + |IntToString(live.gradientAngle)| + 5;
      assert text[|head|..|head| + |c|] == c;
    }
  }

  // ---------------------------------------------------------------------------
  // Downloads
  // ---------------------------------------------------------------------------

  /** The `format` argument of `downloadLogo` (line 528). */
  datatype ExportFormat = Png | Jpeg | IconPackage

  function FormatName(f: ExportFormat): string
  {
    match f
    case Png => "png"
    case Jpeg => "jpeg"
    case IconPackage => "package"
  }

  /** Reads a format back from its name, as it stands after the last dot of
      an image file name: the inverse of `FormatName`. */
  function FormatNamed(name: string): (r: Option<ExportFormat>)
    ensures r.Some? ==> FormatName(r.value) == name
  {
    if name == "png" then Some(Png)
    else if name == "jpeg" then Some(Jpeg)
    else if name == "package" then Some(IconPackage)
    else None
  }

  lemma FormatNamedName(f: ExportFormat)
    ensures FormatNamed(FormatName(f)) == Some(f)
  {
  }

  /** `toISOString().replace(/[:.]/g, '-')` (line 601) on a given timestamp:
      every ':' and '.' becomes '-', and every other character stays. */
  function FileStamp(timestamp: string): (r: string)
    ensures |r| == |timestamp|
    ensures ':' !in r && '.' !in r
    ensures forall i :: 0 <= i < |r| && (timestamp[i] == ':' || timestamp[i] == '.') ==> r[i] == '-'
    ensures forall i :: 0 <= i < |r| && timestamp[i] != ':' && timestamp[i] != '.' ==> r[i] == timestamp[i]
  {
    seq(|timestamp|, i requires 0 <= i < |timestamp| =>
      if timestamp[i] == ':' || timestamp[i] == '.' then '-' else timestamp[i])
  }

  /** Stamping a stamp changes nothing. */
  lemma FileStampIdempotent(timestamp: string)
    ensures FileStamp(FileStamp(timestamp)) == FileStamp(timestamp)
  {
  }

  /** `icon-<stamp>.<format>` (line 602): it starts with `icon-`, ends with
      the format after a dot, and holds no ':'. */
  function LogoFileName(timestamp: string, f: ExportFormat): (name: string)
    ensures "icon-" <= name && ':' !in name && |FormatName(f)| + 1 <= |name|
    ensures name[|name| - |FormatName(f)| - 1..] == "." + FormatName(f)
  {
    "icon-" + FileStamp(timestamp) + "." + FormatName(f)
  }

  /** The name has exactly one dot, so the part after it is the format and
      the part before it the stamped timestamp. */
  lemma LogoFileNameParts(timestamp: string, f: ExportFormat)
    ensures Split(LogoFileName(timestamp, f), '.') == ["icon-" + FileStamp(timestamp), FormatName(f)]
    ensures FormatNamed(Split(LogoFileName(timestamp, f), '.')[1]) == Some(f)
  {
    var stem := "icon-" + FileStamp(timestamp);
    assert '.' !in "icon-";
    assert '.' !in stem;
    assert '.' !in FormatName(f);
    assert JoinWith([stem, FormatName(f)], '.') == stem + ['.'] + FormatName(f);
    SplitJoin([stem, FormatName(f)], '.');
  }

  /** What a download request ends in: the name of the file offered, if any,
      and whether the confetti shows. */
  datatype Download = Download(fileName: Option<string>, confetti: bool)

  /** `downloadLogo` (lines 528-637) as written. `previewFound` says whether
      the preview element exists and `captured` whether capturing it
      succeeded; either failing throws, and the catch skips the download and
      the confetti. `zipped` says whether the package's `generateAsync`
      succeeded: `downloadIconPackage` catches that failure itself (lines
      523-525), so `downloadLogo` goes on to the confetti (line 633) with no
      file offered. */
  function DownloadLogo(f: ExportFormat, previewFound: bool, captured: bool, zipped: bool, timestamp: string)
    : (r: Download)
    ensures f == IconPackage ==> r == Download(if zipped then Some("icon-package.zip") else None, true)
    ensures f != IconPackage ==> (r.fileName.Some? <==> previewFound && captured)
    ensures f != IconPackage ==> r.confetti == (previewFound && captured)
    ensures f != IconPackage && previewFound && captured ==> r.fileName == Some(LogoFileName(timestamp, f))
  {
    if f == IconPackage then Download(if zipped then Some("icon-package.zip") else None, true)
    else if !previewFound || !captured then Download(None, false)
    else Download(Some(LogoFileName(timestamp, f)), true)
  }

  /** Every file offered comes with the confetti; for an image the confetti
      shows exactly when the image is offered, under a name that carries its
      format. */
  lemma ConfettiOnEveryDownload(f: ExportFormat, previewFound: bool, captured: bool, zipped: bool,
                                timestamp: string)
    ensures var r := DownloadLogo(f, previewFound, captured, zipped, timestamp);
      && (r.fileName.Some? ==> r.confetti)
      && (f != IconPackage ==> (r.confetti <==> r.fileName.Some?))
      && (r.fileName.Some? && f != IconPackage ==>
            Split(r.fileName.value, '.') == ["icon-" + FileStamp(timestamp), FormatName(f)])
  {
    LogoFileNameParts(timestamp, f);
  }

  /** A package whose archive could not be generated still shows the
      confetti, although no file is offered. */
  lemma FailedPackageShowsConfetti(previewFound: bool, captured: bool, timestamp: string)
    ensures DownloadLogo(IconPackage, previewFound, captured, false, timestamp) == Download(None, true)
  {
  }

  /** `downloadLogo` with the confetti shown only after a file was offered,
      as the comment at line 632 says it should be. It offers the same files
      as the code as written. */
  function DownloadLogoOnSuccess(f: ExportFormat, previewFound: bool, captured: bool, zipped: bool,
                                 timestamp: string)
    : (r: Download)
    ensures r.fileName == DownloadLogo(f, previewFound, captured, zipped, timestamp).fileName
  {
    var offered := DownloadLogo(f, previewFound, captured, zipped, timestamp).fileName;
    Download(offered, offered.Some?)
  }

  /** With the correction the confetti shows exactly when a file is offered,
      and it differs from the code as written only on a failed package. */
  lemma ConfettiExactlyOnDownload(f: ExportFormat, previewFound: bool, captured: bool, zipped: bool,
                                  timestamp: string)
    ensures var r := DownloadLogoOnSuccess(f, previewFound, captured, zipped, timestamp);
      && (r.confetti <==> r.fileName.Some?)
      && (r != DownloadLogo(f, previewFound, captured, zipped, timestamp) <==> f == IconPackage && !zipped)
  {
  }
}
