/** One snapshot of the logo's visual settings (the `LogoState` record), the
    partial updates applied to it, and the "live" fields the component renders
    from (src/components/LogoGenerator.tsx:54-77, 128-175). */
module Style {
  import opened Options

  /** A glyph of the icon catalog, identified by its catalog name. */
  type Icon = string

  datatype BackgroundType = Solid | Gradient

  datatype GradientColors = GradientColors(from: string, via: string, to: string)

  /** A history snapshot. Numbers the sliders move in whole steps are `int`;
      those with fractional steps (border width, shadow, fill opacity) and the
      unused `scale` are `real`. No arithmetic is done on them here. */
  datatype LogoState = LogoState(
    iconColor: string,
    backgroundColor: string,
    rotation: int,
    scale: real,
    size: int,
    borderWidth: real,
    borderColor: string,
    borderRadius: int,
    padding: int,
    shadowIntensity: real,
    fillOpacity: real,
    fillColor: string,
    backgroundType: BackgroundType,
    solidColor: string,
    gradientColors: GradientColors,
    gradientAngle: int,
    hasBackground: bool,
    selectedIcon: Icon)

  /** A `Partial<LogoState>`: each field is either supplied or absent. */
  datatype Patch = Patch(
    iconColor: Option<string>,
    backgroundColor: Option<string>,
    rotation: Option<int>,
    scale: Option<real>,
    size: Option<int>,
    borderWidth: Option<real>,
    borderColor: Option<string>,
    borderRadius: Option<int>,
    padding: Option<int>,
    shadowIntensity: Option<real>,
    fillOpacity: Option<real>,
    fillColor: Option<string>,
    backgroundType: Option<BackgroundType>,
    solidColor: Option<string>,
    gradientColors: Option<GradientColors>,
    gradientAngle: Option<int>,
    hasBackground: Option<bool>,
    selectedIcon: Option<Icon>)

  /** The empty partial update `{}`. */
  const NoChange: Patch := Patch(None, None, None, None, None, None, None, None, None,
                                 None, None, None, None, None, None, None, None, None)

  /** The value a spread `{ ...base, ...patch }` gives one field. */
  function Pick<T>(supplied: Option<T>, base: T): T
  {
    if supplied.Some? then supplied.value else base
  }

  /** The field took the supplied value, or kept its old one when none was supplied. */
  predicate Took<T(==)>(before: T, supplied: Option<T>, after: T)
  {
    if supplied.Some? then after == supplied.value else after == before
  }

  /** `r` is `s` with exactly the fields that `p` supplies replaced. */
  predicate Applied(s: LogoState, p: Patch, r: LogoState)
  {
    && Took(s.iconColor, p.iconColor, r.iconColor)
    && Took(s.backgroundColor, p.backgroundColor, r.backgroundColor)
    && Took(s.rotation, p.rotation, r.rotation)
    && Took(s.scale, p.scale, r.scale)
    && Took(s.size, p.size, r.size)
    && Took(s.borderWidth, p.borderWidth, r.borderWidth)
    && Took(s.borderColor, p.borderColor, r.borderColor)
    && Took(s.borderRadius, p.borderRadius, r.borderRadius)
    && Took(s.padding, p.padding, r.padding)
    && Took(s.shadowIntensity, p.shadowIntensity, r.shadowIntensity)
    && Took(s.fillOpacity, p.fillOpacity, r.fillOpacity)
    && Took(s.fillColor, p.fillColor, r.fillColor)
    && Took(s.backgroundType, p.backgroundType, r.backgroundType)
    && Took(s.solidColor, p.solidColor, r.solidColor)
    && Took(s.gradientColors, p.gradientColors, r.gradientColors)
    && Took(s.gradientAngle, p.gradientAngle, r.gradientAngle)
    && Took(s.hasBackground, p.hasBackground, r.hasBackground)
    && Took(s.selectedIcon, p.selectedIcon, r.selectedIcon)
  }

  /** `{ ...currentState, ...newState }`: the merged snapshot agrees with `s` on
      every field `p` leaves out and carries `p`'s value on every field it supplies. */
  function Merge(s: LogoState, p: Patch): (r: LogoState)
    ensures Applied(s, p, r)
  {
    LogoState(
      Pick(p.iconColor, s.iconColor),
      Pick(p.backgroundColor, s.backgroundColor),
      Pick(p.rotation, s.rotation),
      Pick(p.scale, s.scale),
      Pick(p.size, s.size),
      Pick(p.borderWidth, s.borderWidth),
      Pick(p.borderColor, s.borderColor),
      Pick(p.borderRadius, s.borderRadius),
      Pick(p.padding, s.padding),
      Pick(p.shadowIntensity, s.shadowIntensity),
      Pick(p.fillOpacity, s.fillOpacity),
      Pick(p.fillColor, s.fillColor),
      Pick(p.backgroundType, s.backgroundType),
      Pick(p.solidColor, s.solidColor),
      Pick(p.gradientColors, s.gradientColors),
      Pick(p.gradientAngle, s.gradientAngle),
      Pick(p.hasBackground, s.hasBackground),
      Pick(p.selectedIcon, s.selectedIcon))
  }

  /** The merge is the only snapshot that keeps that promise. */
  lemma MergeUnique(s: LogoState, p: Patch, r: LogoState)
    requires Applied(s, p, r)
    ensures r == Merge(s, p)
  {
  }

  /** An empty update changes nothing. */
  lemma MergeNoChange(s: LogoState)
    ensures Merge(s, NoChange) == s
  {
  }

  /** Applying the same update twice is the same as applying it once. */
  lemma MergeIdempotent(s: LogoState, p: Patch)
    ensures Merge(Merge(s, p), p) == Merge(s, p)
  {
  }

  /** `{ ...p, ...q }`: the later update wins on every field both supply. */
  function Then(p: Patch, q: Patch): Patch
  {
    Patch(
      if q.iconColor.Some? then q.iconColor else p.iconColor,
      if q.backgroundColor.Some? then q.backgroundColor else p.backgroundColor,
      if q.rotation.Some? then q.rotation else p.rotation,
      if q.scale.Some? then q.scale else p.scale,
      if q.size.Some? then q.size else p.size,
      if q.borderWidth.Some? then q.borderWidth else p.borderWidth,
      if q.borderColor.Some? then q.borderColor else p.borderColor,
      if q.borderRadius.Some? then q.borderRadius else p.borderRadius,
      if q.padding.Some? then q.padding else p.padding,
      if q.shadowIntensity.Some? then q.shadowIntensity else p.shadowIntensity,
      if q.fillOpacity.Some? then q.fillOpacity else p.fillOpacity,
      if q.fillColor.Some? then q.fillColor else p.fillColor,
      if q.backgroundType.Some? then q.backgroundType else p.backgroundType,
      if q.solidColor.Some? then q.solidColor else p.solidColor,
      if q.gradientColors.Some? then q.gradientColors else p.gradientColors,
      if q.gradientAngle.Some? then q.gradientAngle else p.gradientAngle,
      if q.hasBackground.Some? then q.hasBackground else p.hasBackground,
      if q.selectedIcon.Some? then q.selectedIcon else p.selectedIcon)
  }

  /** Two successive merges are one merge of the combined update. */
  lemma MergeThen(s: LogoState, p: Patch, q: Patch)
    ensures Merge(Merge(s, p), q) == Merge(s, Then(p, q))
  {
  }

  /** The snapshot that seeds the history (lines 128-151): the caller's size,
      a shown gradient background whose first stop is also the solid colour,
      and a black icon. */
  function InitialState(defaultSize: int): (s: LogoState)
    ensures s.size == defaultSize && s.hasBackground && s.backgroundType == Gradient
    ensures s.solidColor == s.gradientColors.from && s.iconColor == "#000000"
  {
    LogoState(
      "#000000", "#ffffff", 0, 1.0, defaultSize, 0.0, "#000000", 28, 20, 0.1, 0.0, "#ffffff",
      Gradient, "#6366f1", GradientColors("#6366f1", "#a855f7", "#ec4899"), 135, true, "Apple")
  }

  /** The sixteen fields the component renders from, which undo and redo
      overwrite from a snapshot (`rotate` is the snapshot's `rotation`). The
      snapshot's `backgroundColor` and `scale` have no live counterpart. */
  datatype LiveView = LiveView(
    selectedIcon: Icon,
    size: int,
    rotate: int,
    borderWidth: real,
    borderColor: string,
    borderRadius: int,
    padding: int,
    shadowIntensity: real,
    fillOpacity: real,
    fillColor: string,
    backgroundType: BackgroundType,
    solidColor: string,
    gradientColors: GradientColors,
    gradientAngle: int,
    hasBackground: bool,
    iconColor: string)

  /** The live fields a snapshot dictates (lines 205-220 and 228-243). */
  function View(s: LogoState): (v: LiveView)
    ensures v.rotate == s.rotation && v.iconColor == s.iconColor && v.selectedIcon == s.selectedIcon
  {
    LiveView(s.selectedIcon, s.size, s.rotation, s.borderWidth, s.borderColor, s.borderRadius,
             s.padding, s.shadowIntensity, s.fillOpacity, s.fillColor, s.backgroundType,
             s.solidColor, s.gradientColors, s.gradientAngle, s.hasBackground, s.iconColor)
  }

  /** The live setters a handler calls before recording the same values.
      On a preview that shows a snapshot, they show what recording the same
      update into that snapshot gives. */
  function ApplyToView(v: LiveView, p: Patch): (r: LiveView)
    ensures forall s :: View(s) == v ==> r == View(Merge(s, p))
  {
    LiveView(
      Pick(p.selectedIcon, v.selectedIcon),
      Pick(p.size, v.size),
      Pick(p.rotation, v.rotate),
      Pick(p.borderWidth, v.borderWidth),
      Pick(p.borderColor, v.borderColor),
      Pick(p.borderRadius, v.borderRadius),
      Pick(p.padding, v.padding),
      Pick(p.shadowIntensity, v.shadowIntensity),
      Pick(p.fillOpacity, v.fillOpacity),
      Pick(p.fillColor, v.fillColor),
      Pick(p.backgroundType, v.backgroundType),
      Pick(p.solidColor, v.solidColor),
      Pick(p.gradientColors, v.gradientColors),
      Pick(p.gradientAngle, v.gradientAngle),
      Pick(p.hasBackground, v.hasBackground),
      Pick(p.iconColor, v.iconColor))
  }

  /** Setting the live fields and merging the snapshot commute: the live view of
      the merged snapshot is the old view with the same update applied. */
  lemma ViewMerge(s: LogoState, p: Patch)
    ensures View(Merge(s, p)) == ApplyToView(View(s), p)
  {
  }

  /** The live fields right after mounting: the `useState` initial values
      (lines 156-175), then the `hasBackground` effect (lines 197-199) has set
      the icon colour to white because a background is present. */
  function MountedView(defaultSize: int): (v: LiveView)
    ensures v.iconColor == (if v.hasBackground then "#ffffff" else "#000000")
    ensures v.size == defaultSize
  {
    var v := LiveView(
      "Apple", defaultSize, 0, 0.0, "#000000", 28, 20, 0.1, 0.0, "#ffffff",
      Gradient, "#6366f1", GradientColors("#6366f1", "#a855f7", "#ec4899"), 135, true, "#000000");
    v.(iconColor := if v.hasBackground then "#ffffff" else "#000000")
  }

  /** The mounted live fields agree with the seed snapshot except for the icon
      colour: the seed records black, the mount effect sets white. */
  lemma MountedViewVersusSeed(defaultSize: int)
    ensures MountedView(defaultSize) == View(InitialState(defaultSize)).(iconColor := "#ffffff")
    ensures View(InitialState(defaultSize)).iconColor == "#000000"
  {
  }
}
