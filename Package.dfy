/** The icon-package assembly of `downloadIconPackage` and
    `generateIconBatch` (src/components/LogoGenerator.tsx:399-526), without
    the rasterising, the zip encoding and the download. The renderer is an
    input: for each declared size, whether it produced an image. */
module Package {
  import opened Options
  import opened Text
  import opened Style

  /** One declared output size and its file stem. */
  datatype IconSize = IconSize(size: nat, name: string)

  /** `iconSizes` (lines 431-444), in declared order. */
  const IconSizes: seq<IconSize> := [
    IconSize(16, "favicon-16x16"), IconSize(32, "favicon-32x32"),
    IconSize(48, "favicon-48x48"), IconSize(64, "favicon-64x64"),
    IconSize(72, "icon-72x72"), IconSize(96, "icon-96x96"),
    IconSize(128, "icon-128x128"), IconSize(144, "icon-144x144"),
    IconSize(152, "icon-152x152"), IconSize(192, "icon-192x192"),
    IconSize(384, "icon-384x384"), IconSize(512, "icon-512x512")]

  /** Sizes rendered per batch (line 447). */
  const BatchSize: nat := 3

  /** One element of the manifest's `icons` array. */
  datatype ManifestIcon = ManifestIcon(src: string, sizes: string, mimeType: string, purpose: Option<string>)

  /** The web manifest as serialised into `site.webmanifest` (lines 423-428). */
  datatype ManifestValue = ManifestValue(name: string, shortName: string, description: string,
                                         icons: seq<ManifestIcon>)

  /** What a file of the archive holds: a raster of the given side length, a
      text, or the manifest. */
  datatype Content = PngImage(side: nat) | TextFile(text: string) | ManifestFile(manifest: ManifestValue)

  datatype ArchiveFile = ArchiveFile(path: string, content: Content)

  /** `${size}x${size}` */
  function Dimensions(size: nat): string
  {
    NatToString(size) + "x" + NatToString(size)
  }

  function IconPath(spec: IconSize): string
  {
    "icons/" + spec.name + ".png"
  }

  /** The manifest entry pushed for a size that rendered (lines 406-410): a
      plain PNG entry, never a maskable one. */
  function EntryFor(spec: IconSize): (e: ManifestIcon)
    ensures e.mimeType == "image/png" && e.purpose.None? && e != MaskableIcon
  {
    ManifestIcon(IconPath(spec), Dimensions(spec.size), "image/png", None)
  }

  /** The archive file written for a size that rendered (line 405): a raster
      of the size's side, at the path its manifest entry names. */
  function FileFor(spec: IconSize): (f: ArchiveFile)
    ensures f.path == EntryFor(spec).src && f.content == PngImage(spec.size)
  {
    ArchiveFile(IconPath(spec), PngImage(spec.size))
  }

  /** Two sizes with the same manifest entry are the same size: the entry
      names the file stem, and its `sizes` text reads back as the side. */
  lemma EntryForInjective(a: IconSize, b: IconSize)
    requires EntryFor(a) == EntryFor(b)
    ensures a == b
  {
    var na, nb := NatToString(a.size), NatToString(b.size);
    assert IconPath(a)[6..|IconPath(a)| - 4] == a.name;
    assert IconPath(b)[6..|IconPath(b)| - 4] == b.name;
    assert Dimensions(a.size)[..|na|] == na;
    assert Dimensions(b.size)[..|nb|] == nb;
    ParseNatToString(a.size);
    ParseNatToString(b.size);
  }

  /** The maskable entry (lines 460-465) and its file (line 459). */
  const MaskableIcon: ManifestIcon :=
    ManifestIcon("icons/maskable-512x512.png", "512x512", "image/png", Some("maskable"))
  const MaskableFile: ArchiveFile := ArchiveFile("icons/maskable-512x512.png", PngImage(512))

  // ---------------------------------------------------------------------------
  // Which sizes made it into the package
  // ---------------------------------------------------------------------------

  /** The declared sizes whose rendering succeeded, in declared order. */
  function Succeeded(specs: seq<IconSize>, rendered: seq<bool>): (r: seq<IconSize>)
    requires |rendered| == |specs|
    ensures |r| <= |specs|
    decreases |specs|
  {
    if |specs| == 0 then []
    else (if rendered[0] then [specs[0]] else []) + Succeeded(specs[1..], rendered[1..])
  }

  /** Only declared sizes make it into the package. */
  lemma {:induction false} SucceededWithin(specs: seq<IconSize>, rendered: seq<bool>, x: IconSize)
    requires |rendered| == |specs|
    ensures x in Succeeded(specs, rendered) ==> x in specs
    decreases |specs|
  {
    if |specs| > 0 {
      SucceededWithin(specs[1..], rendered[1..], x);
      if x in specs[1..] {
        var j :| 0 <= j < |specs[1..]| && specs[1..][j] == x;
        assert specs[j + 1] == x;
      }
    }
  }

  /** Processing two runs of sizes one after the other keeps both results in order. */
  lemma {:induction false} SucceededAppend(a: seq<IconSize>, ra: seq<bool>, b: seq<IconSize>, rb: seq<bool>)
    requires |ra| == |a| && |rb| == |b|
    ensures Succeeded(a + b, ra + rb) == Succeeded(a, ra) + Succeeded(b, rb)
    decreases |a|
  {
    if |a| == 0 {
      assert a + b == b && ra + rb == rb;
    } else {
      var head := if ra[0] then [a[0]] else [];
      assert (a + b)[0] == a[0] && (ra + rb)[0] == ra[0];
      assert (a + b)[1..] == a[1..] + b && (ra + rb)[1..] == ra[1..] + rb;
      assert Succeeded(a + b, ra + rb) == head + Succeeded(a[1..] + b, ra[1..] + rb);
      assert Succeeded(a, ra) == head + Succeeded(a[1..], ra[1..]);
      SucceededAppend(a[1..], ra[1..], b, rb);
      AppendAssoc(head, Succeeded(a[1..], ra[1..]), Succeeded(b, rb));
    }
  }

  function CountTrue(bs: seq<bool>): nat
    decreases |bs|
  {
    if |bs| == 0 then 0 else (if bs[0] then 1 else 0) + CountTrue(bs[1..])
  }

  /** One entry per successful rendering. */
  lemma {:induction false} SucceededCount(specs: seq<IconSize>, rendered: seq<bool>)
    requires |rendered| == |specs|
    ensures |Succeeded(specs, rendered)| == CountTrue(rendered)
    decreases |specs|
  {
    if |specs| > 0 {
      SucceededCount(specs[1..], rendered[1..]);
    }
  }

  /** With distinct declared sizes, a size is in the package exactly when its
      rendering succeeded: a failure skips that size and nothing else. */
  lemma {:induction false} SucceededExactly(specs: seq<IconSize>, rendered: seq<bool>, k: nat)
    requires |rendered| == |specs| && k < |specs|
    requires forall i, j :: 0 <= i < j < |specs| ==> specs[i] != specs[j]
    ensures specs[k] in Succeeded(specs, rendered) <==> rendered[k]
    decreases |specs|
  {
    if k > 0 {
      SucceededExactly(specs[1..], rendered[1..], k - 1);
      assert specs[k] != specs[0];
    } else if |specs| > 1 {
      SucceededWithin(specs[1..], rendered[1..], specs[0]);
      assert specs[0] !in specs[1..] by {
        forall j | 0 <= j < |specs[1..]|
          ensures specs[1..][j] != specs[0]
        {
          assert specs[1..][j] == specs[j + 1];
        }
      }
    }
  }

  /** `f` applied to every element, in order. */
  function Map<A, B>(f: A -> B, s: seq<A>): (r: seq<B>)
    ensures |r| == |s|
    decreases |s|
  {
    if |s| == 0 then [] else [f(s[0])] + Map(f, s[1..])
  }

  lemma {:induction false} MapAppend<A, B>(f: A -> B, a: seq<A>, b: seq<A>)
    ensures Map(f, a + b) == Map(f, a) + Map(f, b)
    decreases |a|
  {
    if |a| == 0 {
      assert a + b == b;
    } else {
      assert (a + b)[1..] == a[1..] + b;
      MapAppend(f, a[1..], b);
    }
  }

  lemma {:induction false} MapAt<A, B>(f: A -> B, s: seq<A>, k: nat)
    requires k < |s|
    ensures Map(f, s)[k] == f(s[k])
    decreases |s|
  {
    if k > 0 {
      MapAt(f, s[1..], k - 1);
    }
  }

  /** Every manifest entry names a file of the archive with the same path and
      a raster of the side its `sizes` field states. */
  lemma EntriesMatchFiles(specs: seq<IconSize>, k: nat)
    requires k < |specs|
    ensures Map(FileFor, specs)[k] == ArchiveFile(Map(EntryFor, specs)[k].src, PngImage(specs[k].size))
    ensures Map(EntryFor, specs)[k] == ManifestIcon("icons/" + specs[k].name + ".png", Dimensions(specs[k].size), "image/png", None)
  {
    MapAt(EntryFor, specs, k);
    MapAt(FileFor, specs, k);
  }

  /** Extending the rendered prefix by one size adds that size's entry and
      file when it rendered, and nothing when it did not. */
  lemma SucceededSnoc(specs: seq<IconSize>, rendered: seq<bool>, j: nat)
    requires |rendered| == |specs| && j < |specs|
    ensures Map(EntryFor, Succeeded(specs[..j + 1], rendered[..j + 1]))
         == Map(EntryFor, Succeeded(specs[..j], rendered[..j])) + (if rendered[j] then [EntryFor(specs[j])] else [])
    ensures Map(FileFor, Succeeded(specs[..j + 1], rendered[..j + 1]))
         == Map(FileFor, Succeeded(specs[..j], rendered[..j])) + (if rendered[j] then [FileFor(specs[j])] else [])
  {
    var done := Succeeded(specs[..j], rendered[..j]);
    var next := if rendered[j] then [specs[j]] else [];
    SucceededAppend(specs[..j], rendered[..j], [specs[j]], [rendered[j]]);
    assert specs[..j + 1] == specs[..j] + [specs[j]];
    assert rendered[..j + 1] == rendered[..j] + [rendered[j]];
    assert Succeeded([specs[j]], [rendered[j]]) == next;
    MapAppend(EntryFor, done, next);
    MapAppend(FileFor, done, next);
  }

  // ---------------------------------------------------------------------------
  // The mutable manifest and archive, and the batch loop
  // ---------------------------------------------------------------------------

  /** The `manifest` object whose `icons` array the batches push onto. */
  class Manifest {
    const name: string
    const shortName: string
    const description: string
    var icons: seq<ManifestIcon>

    constructor ()
      ensures icons == []
      ensures name == "GenFast-IconMaker" && shortName == "GenFast-IconMaker"
      ensures description == "Generated with GenFast-IconMaker"
    {
      name := "GenFast-IconMaker";
      shortName := "GenFast-IconMaker";
      description := "Generated with GenFast-IconMaker";
      icons := [];
    }

    /** `manifest.icons.push(entry)` */
    method Push(entry: ManifestIcon)
      modifies this
      ensures icons == old(icons) + [entry]
    {
      icons := icons + [entry];
    }

    function Value(): ManifestValue
      reads this
    {
      ManifestValue(name, shortName, description, icons)
    }
  }

  /** The zip archive, as the files written to it in order. */
  class Archive {
    var files: seq<ArchiveFile>

    constructor ()
      ensures files == []
    {
      files := [];
    }

    /** `zip.file(path, content)` */
    method File(path: string, content: Content)
      modifies this
      ensures files == old(files) + [ArchiveFile(path, content)]
    {
      files := files + [ArchiveFile(path, content)];
    }
  }

  /** One turn of the loop of `generateIconBatch` keeps its invariants. */
  lemma IconStep(specs: seq<IconSize>, rendered: seq<bool>, j: nat, icons0: seq<ManifestIcon>, files0: seq<ArchiveFile>)
    requires |rendered| == |specs| && j < |specs|
    ensures var entries, written := Map(EntryFor, Succeeded(specs[..j], rendered[..j])), Map(FileFor, Succeeded(specs[..j], rendered[..j]));
      var entries', written' := Map(EntryFor, Succeeded(specs[..j + 1], rendered[..j + 1])), Map(FileFor, Succeeded(specs[..j + 1], rendered[..j + 1]));
      && (rendered[j] ==> (icons0 + entries + [EntryFor(specs[j])] == icons0 + entries'
                           && files0 + written + [FileFor(specs[j])] == files0 + written'))
      && (!rendered[j] ==> icons0 + entries == icons0 + entries' && files0 + written == files0 + written')
  {
    var entries := Map(EntryFor, Succeeded(specs[..j], rendered[..j]));
    var written := Map(FileFor, Succeeded(specs[..j], rendered[..j]));
    SucceededSnoc(specs, rendered, j);
    if rendered[j] {
      AppendAssoc(icons0, entries, [EntryFor(specs[j])]);
      AppendAssoc(files0, written, [FileFor(specs[j])]);
    } else {
      assert entries + [] == entries && written + [] == written;
    }
  }

  /** `generateIconBatch` (lines 399-418): render each size of the batch in
      turn; a size that rendered gets its file and its manifest entry, a size
      that failed is skipped and the loop goes on. */
  method GenerateIconBatch(iconSizes: seq<IconSize>, rendered: seq<bool>, manifest: Manifest, zip: Archive)
    requires |rendered| == |iconSizes|
    modifies manifest, zip
    ensures manifest.icons == old(manifest.icons) + Map(EntryFor, Succeeded(iconSizes, rendered))
    ensures zip.files == old(zip.files) + Map(FileFor, Succeeded(iconSizes, rendered))
  {
    for j := 0 to |iconSizes|
      invariant manifest.icons == old(manifest.icons) + Map(EntryFor, Succeeded(iconSizes[..j], rendered[..j]))
      invariant zip.files == old(zip.files) + Map(FileFor, Succeeded(iconSizes[..j], rendered[..j]))
    {
      IconStep(iconSizes, rendered, j, old(manifest.icons), old(zip.files));
      if rendered[j] {
        zip.File(IconPath(iconSizes[j]), PngImage(iconSizes[j].size));
        manifest.Push(EntryFor(iconSizes[j]));
      }
    }
    assert iconSizes[..|iconSizes|] == iconSizes && rendered[..|rendered|] == rendered;
  }

  // ---------------------------------------------------------------------------
  // Texts written next to the icons
  // ---------------------------------------------------------------------------

  /** The colour of the theme-color and TileColor meta tags (lines 483, 486):
      the solid colour for a solid background, otherwise the first gradient stop. */
  function ThemeColor(live: LiveView): (c: string)
    ensures live.backgroundType == Solid ==> c == live.solidColor
    ensures live.backgroundType == Gradient ==> c == live.gradientColors.from
  {
    if live.backgroundType == Solid then live.solidColor else live.gradientColors.from
  }

  const MetaTagsHead: string :=
    "<!-- Favicon -->\n"
    + "<link rel=\"icon\" type=\"image/png\" sizes=\"16x16\" href=\"/icons/favicon-16x16.png\">\n"
    + "<link rel=\"icon\" type=\"image/png\" sizes=\"32x32\" href=\"/icons/favicon-32x32.png\">\n"
    + "<link rel=\"icon\" type=\"image/png\" sizes=\"48x48\" href=\"/icons/favicon-48x48.png\">\n"
    + "\n"
    + "<!-- Apple Touch Icons -->\n"
    + "<link rel=\"apple-touch-icon\" sizes=\"152x152\" href=\"/icons/icon-152x152.png\">\n"
    + "<link rel=\"apple-touch-icon\" sizes=\"144x144\" href=\"/icons/icon-144x144.png\">\n"
    + "\n"
    + "<!-- PWA -->\n"
    + "<link rel=\"manifest\" href=\"/site.webmanifest\">\n"
    + "<meta name=\"theme-color\" content=\""
  const MetaTagsMiddle: string :=
    "\">\n"
    + "\n"
    + "<!-- Microsoft -->\n"
    + "<meta name=\"msapplication-TileColor\" content=\""
  const MetaTagsTail: string :=
    "\">\n"
    + "<meta name=\"msapplication-TileImage\" content=\"/icons/icon-144x144.png\">"

  /** `meta-tags.html` (lines 472-487): the theme colour is the value of both
      the theme-color tag, which closes `MetaTagsHead`, and the TileColor tag,
      which closes `MetaTagsMiddle`. */
  function MetaTags(themeColor: string): (text: string)
    ensures FramesTwice(text, MetaTagsHead, themeColor, MetaTagsMiddle, MetaTagsTail)
  {
    FilledTwice(MetaTagsHead, themeColor, MetaTagsMiddle, MetaTagsTail);
    MetaTagsHead + themeColor + MetaTagsMiddle + themeColor + MetaTagsTail
  }

  /** `text` is `head`, then `value`, then `middle`, then `value` again, and
      ends with `tail`. */
  predicate FramesTwice(text: string, head: string, value: string, middle: string, tail: string)
  {
    && |text| == |head| + |value| + |middle| + |value| + |tail|
    && head <= text
    && OccursAt(text, value, |head|)
    && OccursAt(text, middle, |head| + |value|)
    && OccursAt(text, value, |head| + |value| + |middle|)
    && text[|text| - |tail|..] == tail
  }

  /** A template with two slots, both filled with `value`, has `value` at the
      two slots and its own text around them. */
  lemma FilledTwice(head: string, value: string, middle: string, tail: string)
    ensures FramesTwice(head + value + middle + value + tail, head, value, middle, tail)
  {
    var text := head + value + middle + value + tail;
    var i, j := |head|, |head| + |value| + |middle|;
    assert text[..|head|] == head;
    assert text[i..i + |value|] == value;
    assert text[i + |value|..j] == middle;
    assert text[j..j + |value|] == value;
    assert text[|text| - |tail|..] == tail;
  }

  /** One line of the README's size list (line 508): a list item that names
      the file and its side in pixels, twice, and a single line whenever the
      stem has no line break. */
  function ReadmeLine(spec: IconSize): (line: string)
    ensures "- " + spec.name + ".png" <= line
    ensures line == "- " + spec.name + ".png (" + NatToString(spec.size) + "x" + NatToString(spec.size) + ")"
    ensures '\n' !in spec.name ==> '\n' !in line
  {
    var n := NatToString(spec.size);
    NoNewlineInDigits(n);
    var line := "- " + spec.name + ".png (" + n + "x" + n + ")";
    assert line == "- " + spec.name + ".png" + (" (" + n + "x" + n + ")");
    line
  }

  function ReadmeLines(specs: seq<IconSize>): (r: seq<string>)
    ensures |r| == |specs| && forall k :: 0 <= k < |specs| ==> r[k] == ReadmeLine(specs[k])
  {
    seq(|specs|, k requires 0 <= k < |specs| => ReadmeLine(specs[k]))
  }

  const ReadmeHead: string :=
    "# Icon Package\n"
    + "\n"
    + "This package contains all the necessary icons for your web application.\n"
    + "\n"
    + "## Contents\n"
    + "- Various sizes of favicon and app icons\n"
    + "- Maskable icon for PWA\n"
    + "- Web manifest file\n"
    + "- Meta tags for HTML\n"
    + "\n"
    + "## Installation\n"
    + "1. Copy the 'icons' folder to your public directory\n"
    + "2. Copy 'site.webmanifest' to your public directory\n"
    + "3. Add the meta tags from 'meta-tags.html' to your HTML head section\n"
    + "\n"
    + "## Icon Sizes\n"
  const ReadmeTail: string :=
    "\n- maskable-512x512.png (512x512) - For PWA maskable icon\n"
    + "\n"
    + "## Generated with GenFast-IconMaker"

  /** `README.md` (lines 492-511): the size list joined with newlines between
      a fixed head and tail. It lists the declared sizes, not the ones that
      rendered: between head and tail, the text splits into one line per
      declared size whenever no stem holds a line break; the text ends with
      the maskable icon's line and the closing credit. */
  function Readme(specs: seq<IconSize>): (text: string)
    ensures ReadmeHead <= text && |ReadmeHead| + |ReadmeTail| <= |text|
    ensures text[|text| - |ReadmeTail|..] == ReadmeTail
    ensures LineFree(specs) ==>
      Split(text[|ReadmeHead|..|text| - |ReadmeTail|], '\n') == ReadmeLines(specs)
  {
    var list := JoinWith(ReadmeLines(specs), '\n');
    Enclosed(ReadmeHead, list, ReadmeTail);
    assert LineFree(specs) ==> Split(list, '\n') == ReadmeLines(specs) by {
      if LineFree(specs) {
        ReadmeListsEverySize(specs);
      }
    }
    ReadmeHead + list + ReadmeTail
  }

  /** The size list is not empty and no file stem in it holds a line break. */
  predicate LineFree(specs: seq<IconSize>)
  {
    |specs| >= 1 && forall k :: 0 <= k < |specs| ==> '\n' !in specs[k].name
  }


  /** `body` sits between a fixed head and tail. */
  lemma Enclosed(head: string, body: string, tail: string)
    ensures var text := head + body + tail;
      && head <= text && |text| == |head| + |body| + |tail|
      && text[|head|..|text| - |tail|] == body
      && text[|text| - |tail|..] == tail
  {
    var text := head + body + tail;
    assert text[..|head|] == head;
  }


  lemma NoNewlineInDigits(s: string)
    requires AllDigits(s)
    ensures '\n' !in s
  {
  }

  /** The size list reads back, line by line, as one line per declared size,
      in declared order, whenever no file stem contains a line break. */
  lemma ReadmeListsEverySize(specs: seq<IconSize>)
    requires |specs| >= 1
    requires forall k :: 0 <= k < |specs| ==> '\n' !in specs[k].name
    ensures Split(JoinWith(ReadmeLines(specs), '\n'), '\n') == ReadmeLines(specs)
  {
    var lines := ReadmeLines(specs);
    assert forall k :: 0 <= k < |lines| ==> '\n' !in lines[k];
    SplitJoin(lines, '\n');
  }

  /** The declared stems contain no line break, so the README lists all twelve. */
  lemma DeclaredReadmeListsEverySize()
    ensures Split(JoinWith(ReadmeLines(IconSizes), '\n'), '\n') == ReadmeLines(IconSizes)
    ensures |ReadmeLines(IconSizes)| == 12
  {
    forall k | 0 <= k < |IconSizes|
      ensures '\n' !in IconSizes[k].name
    {
      var name := IconSizes[k].name;
      assert forall i :: 0 <= i < |name| ==> name[i] != '\n';
    }
    ReadmeListsEverySize(IconSizes);
  }

  // ---------------------------------------------------------------------------
  // The whole package
  // ---------------------------------------------------------------------------

  /** The slices `specs.slice(i, i + BatchSize)` for i = 0, BatchSize, ...:
      the specification of the batch loop. */
  function Batches(specs: seq<IconSize>): (r: seq<seq<IconSize>>)
    ensures |r| == (|specs| + BatchSize - 1) / BatchSize
    decreases |specs|
  {
    if |specs| == 0 then []
    else if |specs| <= BatchSize then [specs]
    else [specs[..BatchSize]] + Batches(specs[BatchSize..])
  }

  function Flatten(batches: seq<seq<IconSize>>): seq<IconSize>
    decreases |batches|
  {
    if |batches| == 0 then [] else batches[0] + Flatten(batches[1..])
  }

  /** The batches cover every declared size exactly once, in declared order,
      and none holds more than `BatchSize` sizes or is empty. */
  lemma {:induction false} BatchesPartition(specs: seq<IconSize>)
    ensures Flatten(Batches(specs)) == specs
    ensures forall j :: 0 <= j < |Batches(specs)| ==> 1 <= |Batches(specs)[j]| <= BatchSize
    decreases |specs|
  {
    if |specs| > BatchSize {
      BatchesPartition(specs[BatchSize..]);
      assert specs[..BatchSize] + specs[BatchSize..] == specs;
    } else if |specs| > 0 {
      assert Flatten(Batches(specs)) == specs + Flatten([]);
    }
  }

  /** The twelve declared sizes go in four batches of three. */
  lemma DeclaredBatches()
    ensures Batches(IconSizes) == [IconSizes[0..3], IconSizes[3..6], IconSizes[6..9], IconSizes[9..12]]
  {
    var s := IconSizes;
    BatchesFrom(s, 0);
    BatchesFrom(s, 3);
    BatchesFrom(s, 6);
    BatchesFrom(s, 9);
    assert s[0..] == s;
    assert s[12..] == [];
  }

  /** Cutting the next batch off `specs[i..]`. */
  lemma BatchesFrom(specs: seq<IconSize>, i: nat)
    requires i < |specs|
    ensures Batches(specs[i..]) == [specs[i..Min(i + BatchSize, |specs|)]] + Batches(specs[Min(i + BatchSize, |specs|)..])
  {
    if |specs| - i > BatchSize {
      assert specs[i..][BatchSize..] == specs[i + BatchSize..];
      assert specs[i..][..BatchSize] == specs[i..i + BatchSize];
    } else {
      assert specs[|specs|..] == [];
      assert specs[i..] == specs[i..|specs|];
    }
  }

  /** Rendering `specs[..i]` and then `specs[i..end]` gives the entries and
      files of `specs[..end]`. */
  lemma SucceededStep(specs: seq<IconSize>, rendered: seq<bool>, i: nat, end: nat)
    requires |rendered| == |specs| && i <= end <= |specs|
    ensures Map(EntryFor, Succeeded(specs[..end], rendered[..end]))
         == Map(EntryFor, Succeeded(specs[..i], rendered[..i])) + Map(EntryFor, Succeeded(specs[i..end], rendered[i..end]))
    ensures Map(FileFor, Succeeded(specs[..end], rendered[..end]))
         == Map(FileFor, Succeeded(specs[..i], rendered[..i])) + Map(FileFor, Succeeded(specs[i..end], rendered[i..end]))
  {
    var a, b := Succeeded(specs[..i], rendered[..i]), Succeeded(specs[i..end], rendered[i..end]);
    SucceededAppend(specs[..i], rendered[..i], specs[i..end], rendered[i..end]);
    assert specs[..end] == specs[..i] + specs[i..end];
    assert rendered[..end] == rendered[..i] + rendered[i..end];
    MapAppend(EntryFor, a, b);
    MapAppend(FileFor, a, b);
  }

  lemma AppendAssoc<T>(a: seq<T>, b: seq<T>, c: seq<T>)
    ensures (a + b) + c == a + (b + c)
  {
  }

  /** The batch loop of `downloadIconPackage` (lines 446-453): slices of
      `BatchSize` sizes, the last one possibly shorter, each handed to
      `GenerateIconBatch` in order. Returns the slices it formed. */
  method ProcessInBatches(iconSizes: seq<IconSize>, rendered: seq<bool>, manifest: Manifest, zip: Archive)
    returns (batches: seq<seq<IconSize>>)
    requires |rendered| == |iconSizes|
    modifies manifest, zip
    ensures batches == Batches(iconSizes)
    ensures manifest.icons == old(manifest.icons) + Map(EntryFor, Succeeded(iconSizes, rendered))
    ensures zip.files == old(zip.files) + Map(FileFor, Succeeded(iconSizes, rendered))
  {
    var n := |iconSizes|;
    var i := 0;
    ghost var done := 0;
    batches := [];
    while i < n
      invariant done == Min(i, n)
      invariant batches + Batches(iconSizes[done..]) == Batches(iconSizes)
      invariant manifest.icons == old(manifest.icons) + Map(EntryFor, Succeeded(iconSizes[..done], rendered[..done]))
      invariant zip.files == old(zip.files) + Map(FileFor, Succeeded(iconSizes[..done], rendered[..done]))
    {
      var end := Min(i + BatchSize, n);
      var batch := iconSizes[i..end];
      BatchesFrom(iconSizes, i);
      SucceededStep(iconSizes, rendered, i, end);
      AppendAssoc(batches, [batch], Batches(iconSizes[end..]));
      AppendAssoc(old(manifest.icons), Map(EntryFor, Succeeded(iconSizes[..i], rendered[..i])),
                  Map(EntryFor, Succeeded(batch, rendered[i..end])));
      AppendAssoc(old(zip.files), Map(FileFor, Succeeded(iconSizes[..i], rendered[..i])),
                  Map(FileFor, Succeeded(batch, rendered[i..end])));
      GenerateIconBatch(batch, rendered[i..end], manifest, zip);
      batches := batches + [batch];
      i := i + BatchSize;
      done := end;
    }
    assert iconSizes[..done] == iconSizes && rendered[..done] == rendered;
  }

  /** The manifest's `icons` once the batches and the maskable rendering are
      done (lines 446-466). */
  function PackageIcons(specs: seq<IconSize>, rendered: seq<bool>, maskableRendered: bool): seq<ManifestIcon>
    requires |rendered| == |specs|
  {
    Map(EntryFor, Succeeded(specs, rendered)) + (if maskableRendered then [MaskableIcon] else [])
  }

  /** The image files of the archive, in the order they are written (lines
      405, 459). */
  function PackageImages(specs: seq<IconSize>, rendered: seq<bool>, maskableRendered: bool): seq<ArchiveFile>
    requires |rendered| == |specs|
  {
    Map(FileFor, Succeeded(specs, rendered)) + (if maskableRendered then [MaskableFile] else [])
  }

  /** The archive after the images: the manifest listing `icons` (line 469),
      the meta tags (line 489) and the README (line 511). */
  function Bundle(images: seq<ArchiveFile>, icons: seq<ManifestIcon>, metaTags: string, readme: string)
    : seq<ArchiveFile>
  {
    images
    + [ArchiveFile("site.webmanifest", ManifestFile(ManifestValue(
         "GenFast-IconMaker", "GenFast-IconMaker", "Generated with GenFast-IconMaker", icons))),
       ArchiveFile("meta-tags.html", TextFile(metaTags)),
       ArchiveFile("README.md", TextFile(readme))]
  }

  /** The files of the archive, in the order they are written (lines 405,
      459, 469, 489, 511). */
  function PackageFiles(specs: seq<IconSize>, rendered: seq<bool>, maskableRendered: bool, themeColor: string)
    : seq<ArchiveFile>
    requires |rendered| == |specs|
  {
    Bundle(PackageImages(specs, rendered, maskableRendered), PackageIcons(specs, rendered, maskableRendered),
           MetaTags(themeColor), Readme(specs))
  }

  lemma AppendThree<T>(s: seq<T>, a: T, b: T, c: T)
    ensures s + [a] + [b] + [c] == s + [a, b, c]
  {
  }

  /** The icon files and the manifest entries of `downloadIconPackage`
      (lines 446-466): the batch loop, then the maskable icon when it
      rendered. Returns the batches the loop formed. */
  method AddIcons(iconSizes: seq<IconSize>, rendered: seq<bool>, maskableRendered: bool,
                  manifest: Manifest, zip: Archive)
    returns (batches: seq<seq<IconSize>>)
    requires |rendered| == |iconSizes|
    modifies manifest, zip
    ensures batches == Batches(iconSizes)
    ensures manifest.icons == old(manifest.icons) + PackageIcons(iconSizes, rendered, maskableRendered)
    ensures zip.files == old(zip.files) + PackageImages(iconSizes, rendered, maskableRendered)
  {
    ghost var ok := Succeeded(iconSizes, rendered);
    batches := ProcessInBatches(iconSizes, rendered, manifest, zip);
    if maskableRendered {
      AppendAssoc(old(manifest.icons), Map(EntryFor, ok), [MaskableIcon]);
      AppendAssoc(old(zip.files), Map(FileFor, ok), [MaskableFile]);
      zip.File("icons/maskable-512x512.png", PngImage(512));
      manifest.Push(MaskableIcon);
    } else {
      assert Map(EntryFor, ok) + [] == Map(EntryFor, ok) && Map(FileFor, ok) + [] == Map(FileFor, ok);
    }
  }

  /** The archive writes of `downloadIconPackage` (lines 420-511) for a given
      size list and given texts: `rendered[k]` says whether the k-th size
      rendered and `maskableRendered` whether the maskable 512 rendering did.
      Returns the archive's files in order and the batches the loop formed. */
  method AssembleFiles(iconSizes: seq<IconSize>, rendered: seq<bool>, maskableRendered: bool,
                       metaTags: string, readme: string)
    returns (files: seq<ArchiveFile>, batches: seq<seq<IconSize>>)
    requires |rendered| == |iconSizes|
    ensures batches == Batches(iconSizes)
    ensures files == Bundle(PackageImages(iconSizes, rendered, maskableRendered),
                            PackageIcons(iconSizes, rendered, maskableRendered), metaTags, readme)
  {
    var zip := new Archive();
    var manifest := new Manifest();
    batches := AddIcons(iconSizes, rendered, maskableRendered, manifest, zip);
    ghost var icons := PackageIcons(iconSizes, rendered, maskableRendered);
    assert manifest.icons == icons by {
      assert [] + icons == icons;
    }
    ghost var images := zip.files;
    assert images == PackageImages(iconSizes, rendered, maskableRendered) by {
      assert [] + PackageImages(iconSizes, rendered, maskableRendered) == PackageImages(iconSizes, rendered, maskableRendered);
    }
    var manifestFile := ArchiveFile("site.webmanifest", ManifestFile(manifest.Value()));
    var metaFile := ArchiveFile("meta-tags.html", TextFile(metaTags));
    var readmeFile := ArchiveFile("README.md", TextFile(readme));
    zip.File(manifestFile.path, manifestFile.content);
    zip.File(metaFile.path, metaFile.content);
    zip.File(readmeFile.path, readmeFile.content);
    files := zip.files;
    AppendThree(images, manifestFile, metaFile, readmeFile);
  }

  /** `downloadIconPackage` (lines 420-511) for a given size list, up to the
      archive contents: the meta tags carry the theme colour of the live
      settings and the README lists the sizes. */
  method AssemblePackage(iconSizes: seq<IconSize>, live: LiveView, rendered: seq<bool>, maskableRendered: bool)
    returns (files: seq<ArchiveFile>, batches: seq<seq<IconSize>>)
    requires |rendered| == |iconSizes|
    ensures batches == Batches(iconSizes)
    ensures files == PackageFiles(iconSizes, rendered, maskableRendered, ThemeColor(live))
  {
    var metaTags := MetaTags(ThemeColor(live));
    var readme := Readme(iconSizes);
    files, batches := AssembleFiles(iconSizes, rendered, maskableRendered, metaTags, readme);
  }

  /** `downloadIconPackage` (lines 420-513) with its declared sizes
      (lines 431-444), up to the archive contents. */
  method DownloadIconPackage(live: LiveView, rendered: seq<bool>, maskableRendered: bool)
    returns (files: seq<ArchiveFile>, batches: seq<seq<IconSize>>)
    requires |rendered| == |IconSizes|
    ensures batches == Batches(IconSizes)
    ensures files == PackageFiles(IconSizes, rendered, maskableRendered, ThemeColor(live))
  {
    files, batches := AssemblePackage(IconSizes, live, rendered, maskableRendered);
  }

  // ---------------------------------------------------------------------------
  // What the package promises
  // ---------------------------------------------------------------------------

  /** The manifest lists one entry per size that rendered, then the maskable
      entry exactly when the maskable rendering succeeded; only that last
      entry carries a purpose. */
  lemma {:induction false} PackageIconsShape(specs: seq<IconSize>, rendered: seq<bool>, maskableRendered: bool)
    requires |rendered| == |specs|
    ensures var icons := PackageIcons(specs, rendered, maskableRendered);
      && |icons| == CountTrue(rendered) + (if maskableRendered then 1 else 0)
      && (maskableRendered ==> icons[|icons| - 1] == MaskableIcon)
      && (forall k :: 0 <= k < CountTrue(rendered) ==> icons[k].purpose == None && icons[k].mimeType == "image/png")
      && (maskableRendered <==> MaskableIcon in icons)
  {
    var ok := Succeeded(specs, rendered);
    var icons := PackageIcons(specs, rendered, maskableRendered);
    SucceededCount(specs, rendered);
    forall k | 0 <= k < |ok|
      ensures icons[k] == EntryFor(ok[k])
    {
      MapAt(EntryFor, ok, k);
    }
    if !maskableRendered {
      assert icons == Map(EntryFor, ok);
    }
  }

  /** The k-th manifest entry of a rendered size points at the k-th file of
      the archive, which is a PNG of the side its `sizes` field states. */
  lemma PackageEntriesHaveFiles(specs: seq<IconSize>, rendered: seq<bool>, maskableRendered: bool, k: nat)
    requires |rendered| == |specs| && k < |Succeeded(specs, rendered)|
    ensures var ok := Succeeded(specs, rendered);
      && PackageIcons(specs, rendered, maskableRendered)[k]
           == ManifestIcon("icons/" + ok[k].name + ".png", Dimensions(ok[k].size), "image/png", None)
      && PackageImages(specs, rendered, maskableRendered)[k]
           == ArchiveFile("icons/" + ok[k].name + ".png", PngImage(ok[k].size))
  {
    var ok := Succeeded(specs, rendered);
    EntriesMatchFiles(ok, k);
  }

  /** The archive written after the images holds the images first, then the
      manifest, the meta tags and the README. */
  lemma BundleShape(images: seq<ArchiveFile>, icons: seq<ManifestIcon>, metaTags: string, readme: string)
    ensures var files := Bundle(images, icons, metaTags, readme);
      && |files| == |images| + 3 && files[..|images|] == images
      && files[|images|] == ArchiveFile("site.webmanifest", ManifestFile(ManifestValue(
           "GenFast-IconMaker", "GenFast-IconMaker", "Generated with GenFast-IconMaker", icons)))
      && files[|images| + 1] == ArchiveFile("meta-tags.html", TextFile(metaTags))
      && files[|images| + 2] == ArchiveFile("README.md", TextFile(readme))
  {
    var files := Bundle(images, icons, metaTags, readme);
    assert files[..|images|] == images;
  }

  /** There is one image per manifest entry, the k-th describing the k-th
      entry's size, so in the archive the manifest follows the image of the
      last entry. */
  lemma {:induction false} ImagesMatchIcons(specs: seq<IconSize>, rendered: seq<bool>, maskableRendered: bool)
    requires |rendered| == |specs|
    ensures var images, icons := PackageImages(specs, rendered, maskableRendered), PackageIcons(specs, rendered, maskableRendered);
      && |images| == |icons|
      && forall k :: 0 <= k < |icons| ==> images[k].path == icons[k].src
  {
    var ok := Succeeded(specs, rendered);
    var images, icons := PackageImages(specs, rendered, maskableRendered), PackageIcons(specs, rendered, maskableRendered);
    forall k | 0 <= k < |icons|
      ensures images[k].path == icons[k].src
    {
      if k < |ok| {
        EntriesMatchFiles(ok, k);
      }
    }
  }

  /** Both colour tags of the package carry the solid colour for a solid
      background and the gradient's first stop otherwise (lines 483, 486). */
  lemma MetaTagsCarryThemeColor(live: LiveView)
    ensures var c := if live.backgroundType == Solid then live.solidColor else live.gradientColors.from;
      FramesTwice(MetaTags(ThemeColor(live)), MetaTagsHead, c, MetaTagsMiddle, MetaTagsTail)
  {
  }
}
