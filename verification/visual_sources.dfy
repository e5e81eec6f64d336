/** The order in which `TaskWorker.run_get_device_info` looks for an image
    to show: the home-screen wallpaper, three wallpaper previews, five
    common app icons, the icon of every app in the SpringBoard icon state,
    a regular screenshot, a drawn placeholder, and finally nothing.
    Every device call is an opaque fetch that either raises or returns data. */
module VisualSources {
  import opened Wrappers
  import opened DeviceFrame

  /** Outcome of one device call. */
  datatype Fetch = Raised | Returned(data: Bytes)

  /** The call returned data that Python treats as true (non-empty). */
  predicate Yields(f: Fetch) { f.Returned? && |f.data| > 0 }

  /** An entry of a SpringBoard icon-state page: a dictionary carrying a
      `bundleIdentifier`, or anything else (folders, widgets). */
  datatype IconEntry = App(bundleId: string) | OtherEntry

  /** A page of the icon state: a list of entries, or a non-list value. */
  datatype IconPage = EntryList(entries: seq<IconEntry>) | OtherPage

  /** What the device answers to each call the worker makes. */
  datatype Device = Device(
    springBoard: bool,                 // service opened and orientation answered
    wallpaper: Fetch,                  // get_wallpaper_pngdata
    preview: string -> Fetch,          // get_wallpaper_preview_image(name)
    iconState: Option<seq<IconPage>>,  // get_icon_state; None if it raised
    icon: string -> Fetch,             // get_icon_pngdata(bundle)
    screenshot: Fetch,                 // ScreenshotService.take_screenshot
    placeholderDraws: bool)            // drawing the placeholder succeeds

  const PreviewNames: seq<string> := ["Default", "OriginalPhoto", "UserPhoto"]

  const CommonApps: seq<string> := [
    "com.apple.Preferences", "com.apple.camera", "com.apple.mobilephone",
    "com.apple.mobilesafari", "com.apple.MobileSMS"]

  /** Where a captured image came from. */
  datatype Origin =
    | HomeWallpaper
    | WallpaperPreview(name: string)
    | CommonAppIcon(bundle: string)
    | FirstAppIcon(bundle: string)
    | RegularScreenshot

  datatype Capture = Capture(origin: Origin, data: Bytes)

  /** The visual the worker settles on. */
  datatype Visual = Captured(capture: Capture) | Placeholder | NoVisual

  // ---------------------------------------------------------------------
  // The worker's procedure, loop by loop

  /** A loop `for k in keys: data = fetch(k); if data: break`, where a
      raising call moves on to the next key. */
  function FirstYield(keys: seq<string>, fetch: string -> Fetch, tag: string -> Origin): (c: Option<Capture>)
    ensures c.Some? ==> exists i :: 0 <= i < |keys| && Yields(fetch(keys[i]))
                                    && c.value == Capture(tag(keys[i]), fetch(keys[i]).data)
                                    && forall j :: 0 <= j < i ==> !Yields(fetch(keys[j]))
    ensures c.Some? ==> |c.value.data| > 0
    ensures c.None? <==> forall i :: 0 <= i < |keys| ==> !Yields(fetch(keys[i]))
  {
    if |keys| == 0 then None
    else if Yields(fetch(keys[0])) then Some(Capture(tag(keys[0]), fetch(keys[0]).data))
    else
      var rest := FirstYield(keys[1..], fetch, tag);
      assert forall i :: 1 <= i < |keys| ==> keys[i] == keys[1..][i - 1];
      rest
  }

  function PreviewOrigin(name: string): Origin { WallpaperPreview(name) }
  function CommonOrigin(bundle: string): Origin { CommonAppIcon(bundle) }
  function FirstAppOrigin(bundle: string): Origin { FirstAppIcon(bundle) }

  /** The nested `for page in icon_state: for item in page:` search for the
      first app whose icon yields data. */
  function FirstPageIcon(pages: seq<IconPage>, icon: string -> Fetch): Option<Capture>
  {
    if |pages| == 0 then None
    else
      var here := match pages[0]
        case EntryList(entries) => FirstEntryIcon(entries, icon)
        case OtherPage => None;
      if here.Some? then here else FirstPageIcon(pages[1..], icon)
  }

  function FirstEntryIcon(entries: seq<IconEntry>, icon: string -> Fetch): Option<Capture>
  {
    if |entries| == 0 then None
    else match entries[0]
      case App(b) =>
        if Yields(icon(b)) then Some(Capture(FirstAppIcon(b), icon(b).data))
        else FirstEntryIcon(entries[1..], icon)
      case OtherEntry => FirstEntryIcon(entries[1..], icon)
  }

  /** The app-icon fallback (main.py's method 3 inside the wallpaper block). */
  function IconStage(dev: Device): Option<Capture>
  {
    match dev.iconState
    case None => None
    case Some(pages) =>
      if |pages| == 0 then None
      else
        var common := FirstYield(CommonApps, dev.icon, CommonOrigin);
        if common.Some? then common else FirstPageIcon(pages, dev.icon)
  }

  /** The whole SpringBoard block: wallpaper, previews, then icons. */
  function SpringBoardStage(dev: Device): Option<Capture>
  {
    if !dev.springBoard then None
    else if Yields(dev.wallpaper) then Some(Capture(HomeWallpaper, dev.wallpaper.data))
    else
      var preview := FirstYield(PreviewNames, dev.preview, PreviewOrigin);
      if preview.Some? then preview else IconStage(dev)
  }

  /** The image the worker settles on. A regular screenshot counts as soon as
      the call returns, even with empty data: unlike the earlier sources the
      worker does not test it for truth. */
  function SelectVisual(dev: Device): Visual
  {
    var sb := SpringBoardStage(dev);
    if sb.Some? then Captured(sb.value)
    else if dev.screenshot.Returned? then Captured(Capture(RegularScreenshot, dev.screenshot.data))
    else if dev.placeholderDraws then Placeholder
    else NoVisual
  }

  // ---------------------------------------------------------------------
  // Reference: one flat list of attempts, first success wins

  /** One attempt; `needsData` says whether empty data counts as failure. */
  datatype Attempt = Attempt(origin: Origin, result: Fetch, needsData: bool)

  predicate Succeeds(a: Attempt) {
    a.result.Returned? && (a.needsData ==> |a.result.data| > 0)
  }

  function FirstSuccess(attempts: seq<Attempt>): Option<Capture>
  {
    if |attempts| == 0 then None
    else if Succeeds(attempts[0]) then Some(Capture(attempts[0].origin, attempts[0].result.data))
    else FirstSuccess(attempts[1..])
  }

  function KeyAttempts(keys: seq<string>, fetch: string -> Fetch, tag: string -> Origin): (r: seq<Attempt>)
    ensures |r| == |keys|
  {
    seq(|keys|, i requires 0 <= i < |keys| => Attempt(tag(keys[i]), fetch(keys[i]), true))
  }

  /** Every bundle identifier of the icon state, page by page, skipping
      non-list pages and entries without a bundle identifier. */
  function Bundles(pages: seq<IconPage>): seq<string>
  {
    if |pages| == 0 then []
    else
      (match pages[0] case EntryList(entries) => EntryBundles(entries) case OtherPage => [])
      + Bundles(pages[1..])
  }

  function EntryBundles(entries: seq<IconEntry>): seq<string>
  {
    if |entries| == 0 then []
    else (match entries[0] case App(b) => [b] case OtherEntry => []) + EntryBundles(entries[1..])
  }

  /** The attempts of the app-icon fallback: none unless the icon state is
      a non-empty list, then the common apps and every icon-state bundle. */
  function IconAttempts(dev: Device): seq<Attempt>
  {
    match dev.iconState
    case Some(pages) =>
      if |pages| > 0
      then KeyAttempts(CommonApps, dev.icon, CommonOrigin) + KeyAttempts(Bundles(pages), dev.icon, FirstAppOrigin)
      else []
    case None => []
  }

  /** The attempts of the SpringBoard block, in order. */
  function SpringBoardAttempts(dev: Device): seq<Attempt>
  {
    if dev.springBoard
    then [Attempt(HomeWallpaper, dev.wallpaper, true)] + (KeyAttempts(PreviewNames, dev.preview, PreviewOrigin) + IconAttempts(dev))
    else []
  }

  /** All attempts in the order the worker makes them: the SpringBoard
      block's, then the regular screenshot. */
  function Attempts(dev: Device): seq<Attempt>
  {
    SpringBoardAttempts(dev) + [Attempt(RegularScreenshot, dev.screenshot, false)]
  }

  // ---------------------------------------------------------------------
  // The procedure equals the reference

  lemma {:induction false} FirstSuccessAppend(a: seq<Attempt>, b: seq<Attempt>)
    ensures FirstSuccess(a + b) == if FirstSuccess(a).Some? then FirstSuccess(a) else FirstSuccess(b)
    decreases |a|
  {
    if |a| > 0 {
      assert (a + b)[1..] == a[1..] + b;
      FirstSuccessAppend(a[1..], b);
    } else {
      assert a + b == b;
    }
  }

  lemma {:induction false} FirstYieldIsFirstSuccess(keys: seq<string>, fetch: string -> Fetch, tag: string -> Origin)
    ensures FirstYield(keys, fetch, tag) == FirstSuccess(KeyAttempts(keys, fetch, tag))
    decreases |keys|
  {
    if |keys| > 0 {
      assert KeyAttempts(keys, fetch, tag)[1..] == KeyAttempts(keys[1..], fetch, tag);
      FirstYieldIsFirstSuccess(keys[1..], fetch, tag);
    }
  }

  lemma {:induction false} FirstEntryIconIsFirstYield(entries: seq<IconEntry>, icon: string -> Fetch)
    ensures FirstEntryIcon(entries, icon) == FirstYield(EntryBundles(entries), icon, FirstAppOrigin)
    decreases |entries|
  {
    if |entries| > 0 {
      FirstEntryIconIsFirstYield(entries[1..], icon);
      match entries[0]
      case App(b) =>
        assert EntryBundles(entries)[1..] == EntryBundles(entries[1..]);
      case OtherEntry =>
        assert EntryBundles(entries) == EntryBundles(entries[1..]);
    }
  }

  lemma {:induction false} KeyAttemptsAppend(a: seq<string>, b: seq<string>, fetch: string -> Fetch, tag: string -> Origin)
    ensures KeyAttempts(a + b, fetch, tag) == KeyAttempts(a, fetch, tag) + KeyAttempts(b, fetch, tag)
  {
  }

  /** The nested page/entry loops try exactly the bundles of `Bundles`, in order. */
  lemma {:induction false} FirstPageIconIsFirstSuccess(pages: seq<IconPage>, icon: string -> Fetch)
    ensures FirstPageIcon(pages, icon) == FirstSuccess(KeyAttempts(Bundles(pages), icon, FirstAppOrigin))
    decreases |pages|
  {
    if |pages| > 0 {
      FirstPageIconIsFirstSuccess(pages[1..], icon);
      var head := match pages[0] case EntryList(entries) => EntryBundles(entries) case OtherPage => [];
      assert Bundles(pages) == head + Bundles(pages[1..]);
      KeyAttemptsAppend(head, Bundles(pages[1..]), icon, FirstAppOrigin);
      FirstSuccessAppend(KeyAttempts(head, icon, FirstAppOrigin), KeyAttempts(Bundles(pages[1..]), icon, FirstAppOrigin));
      FirstYieldIsFirstSuccess(head, icon, FirstAppOrigin);
      match pages[0]
      case EntryList(entries) =>
        FirstEntryIconIsFirstYield(entries, icon);
      case OtherPage =>
    }
  }

  lemma IconStageIsFirstSuccess(dev: Device)
    ensures IconStage(dev) == FirstSuccess(IconAttempts(dev))
  {
    match dev.iconState
    case Some(pages) =>
      if |pages| > 0 {
        FirstYieldIsFirstSuccess(CommonApps, dev.icon, CommonOrigin);
        FirstPageIconIsFirstSuccess(pages, dev.icon);
        FirstSuccessAppend(KeyAttempts(CommonApps, dev.icon, CommonOrigin),
                           KeyAttempts(Bundles(pages), dev.icon, FirstAppOrigin));
      }
    case None =>
  }

  lemma SpringBoardStageIsFirstSuccess(dev: Device)
    ensures SpringBoardStage(dev) == FirstSuccess(SpringBoardAttempts(dev))
  {
    if dev.springBoard {
      var wall := [Attempt(HomeWallpaper, dev.wallpaper, true)];
      var previews := KeyAttempts(PreviewNames, dev.preview, PreviewOrigin);
      FirstYieldIsFirstSuccess(PreviewNames, dev.preview, PreviewOrigin);
      IconStageIsFirstSuccess(dev);
      FirstSuccessAppend(previews, IconAttempts(dev));
      FirstSuccessAppend(wall, previews + IconAttempts(dev));
    }
  }

  /** The worker's nested fallbacks pick the first successful attempt of
      `Attempts`; the placeholder comes only after every attempt failed, and
      nothing is shown only if the placeholder could not be drawn either. */
  lemma SelectVisualIsFirstSuccess(dev: Device)
    ensures SelectVisual(dev) ==
      match FirstSuccess(Attempts(dev))
      case Some(c) => Captured(c)
      case None => if dev.placeholderDraws then Placeholder else NoVisual
  {
    var shot := [Attempt(RegularScreenshot, dev.screenshot, false)];
    assert Attempts(dev) == SpringBoardAttempts(dev) + shot;
    SpringBoardStageIsFirstSuccess(dev);
    FirstSuccessAppend(SpringBoardAttempts(dev), shot);
  }

  /** The placeholder is built exactly when every source failed and drawing
      it succeeds; nothing is shown exactly when that drawing fails too. */
  lemma PlaceholderOnlyAfterEverySource(dev: Device)
    ensures SelectVisual(dev) == Placeholder <==>
      (forall i :: 0 <= i < |Attempts(dev)| ==> !Succeeds(Attempts(dev)[i])) && dev.placeholderDraws
    ensures SelectVisual(dev) == NoVisual <==>
      (forall i :: 0 <= i < |Attempts(dev)| ==> !Succeeds(Attempts(dev)[i])) && !dev.placeholderDraws
  {
    SelectVisualIsFirstSuccess(dev);
    FirstSuccessNoneIffAllFail(Attempts(dev));
  }

  lemma {:induction false} FirstSuccessNoneIffAllFail(attempts: seq<Attempt>)
    ensures FirstSuccess(attempts).None? <==> forall i :: 0 <= i < |attempts| ==> !Succeeds(attempts[i])
    decreases |attempts|
  {
    if |attempts| > 0 {
      FirstSuccessNoneIffAllFail(attempts[1..]);
      assert forall i :: 1 <= i < |attempts| ==> attempts[i] == attempts[1..][i - 1];
    }
  }

  /** A non-empty home-screen wallpaper wins over every other source. */
  lemma WallpaperFirst(dev: Device)
    requires dev.springBoard && Yields(dev.wallpaper)
    ensures SelectVisual(dev) == Captured(Capture(HomeWallpaper, dev.wallpaper.data))
  {
  }

  /** Without the SpringBoard service, the screenshot is the only device
      source tried, and it is accepted even when it returned no bytes. */
  lemma ScreenshotWithoutSpringBoard(dev: Device)
    requires !dev.springBoard && dev.screenshot.Returned?
    ensures SelectVisual(dev) == Captured(Capture(RegularScreenshot, dev.screenshot.data))
  {
  }

  // ---------------------------------------------------------------------
  // The screenshot field handed to the display

  /** `device_info['screenshot']`: a captured image goes through
      `_create_device_frame`; the placeholder is its own image. */
  datatype Shown = FromDevice(frame: FrameResult) | Mockup(layout: PlaceholderLayout) | Absent

  function ScreenshotField(dev: Device, decode: Bytes -> Option<Dims>, draws: Dims -> bool): (s: Shown)
    ensures s.Absent? <==> SelectVisual(dev) == NoVisual
    ensures s.Mockup? ==> s.layout == DeviceFrame.Placeholder()
    ensures s.FromDevice? ==> SelectVisual(dev).Captured?
    ensures s.FromDevice? ==> s.frame == CreateDeviceFrame(SelectVisual(dev).capture.data, decode, draws)
  {
    match SelectVisual(dev)
    case Captured(c) => FromDevice(CreateDeviceFrame(c.data, decode, draws))
    case Placeholder => Mockup(DeviceFrame.Placeholder())
    case NoVisual => Absent
  }
}
