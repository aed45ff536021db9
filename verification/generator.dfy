/**
 * The generation state controller behind the emoji form (the `useEmojiGenerator`
 * hook): the eight form settings, the font catalogue, the generated image with its
 * loading and error flags, and the single debounce timer. Every method is one event:
 * a setter call, the timer firing, the outcome of a render request, the outcome of
 * the one font-directory request, or the component being torn down. Time and the
 * network are events here, not clocks and sockets; the requests the controller sends
 * and the object URLs it revokes are recorded as sequences.
 */
module EmojiGeneratorHook {
  import opened Wrappers
  import opened Strings
  import opened Api
  import ColorModel

  const DEFAULT_TEXT: string := "絵文字"
  const DEFAULT_TEXT_COLOR: string := "#ffffffff"
  const DEFAULT_BACKGROUND_COLOR: string := "#000000ff"
  const TRANSPARENT: string := "#00000000"
  const EMOJI_SIZE: nat := 128
  const UNKNOWN_ERROR_MESSAGE: string := "不明なエラーが発生しました。"
  /** The fixed font-load message: "loading the fonts failed", then the likely causes. */
  const FONT_LOAD_ERROR_MESSAGE: string := FONT_LOAD_FAILED + "しました。APIの形式が不正か、サーバーがダウンしています。"
  const FONT_LOAD_FAILED: string := "フォントの読み込みに失敗"

  /** The eight values the render effect depends on, as a timer callback captures them. */
  datatype Settings = Settings(
    text: string,
    font: string,
    textColor: string,
    backgroundColor: string,
    useBackgroundColor: bool,
    textAlign: TextAlign,
    isSizeFixed: bool,
    isStretchDisabled: bool)

  /** A call of one of the eight setters. */
  datatype Edit =
    | SetText(text: string)
    | SetFont(font: string)
    | SetTextColor(color: string)
    | SetBackgroundColor(color: string)
    | SetUseBackgroundColor(on: bool)
    | SetTextAlign(align: TextAlign)
    | SetIsSizeFixed(on: bool)
    | SetIsStretchDisabled(on: bool)

  /** The settings after one setter call: that one value replaced. */
  function Applied(s: Settings, e: Edit): Settings
  {
    match e
    case SetText(t) => s.(text := t)
    case SetFont(f) => s.(font := f)
    case SetTextColor(c) => s.(textColor := c)
    case SetBackgroundColor(c) => s.(backgroundColor := c)
    case SetUseBackgroundColor(on) => s.(useBackgroundColor := on)
    case SetTextAlign(a) => s.(textAlign := a)
    case SetIsSizeFixed(on) => s.(isSizeFixed := on)
    case SetIsStretchDisabled(on) => s.(isStretchDisabled := on)
  }

  /**
   * The request body the timer callback sends: the settings it captured, a fixed
   * 128 x 128 size, and a fully transparent background unless the background is on.
   */
  function RenderPayload(s: Settings): (p: GenerateEmojiPayload)
    ensures p.width == EMOJI_SIZE && p.height == EMOJI_SIZE
    ensures p.text == s.text && p.typeface_name == s.font && p.align == s.textAlign && p.color == s.textColor
    ensures p.size_fixed == s.isSizeFixed && p.disable_stretch == s.isStretchDisabled
    ensures s.useBackgroundColor ==> p.background_color == s.backgroundColor
    ensures !s.useBackgroundColor ==> p.background_color == TRANSPARENT
    ensures !s.useBackgroundColor ==>
      ColorModel.ValidHex(p.background_color) && ColorModel.HexToRgba(p.background_color) == ColorModel.Rgba(0.0, 0.0, 0.0, 0.0)
  {
    TransparentIsTransparent();
    GenerateEmojiPayload(
      text := s.text,
      width := EMOJI_SIZE,
      height := EMOJI_SIZE,
      align := s.textAlign,
      color := s.textColor,
      background_color := if s.useBackgroundColor then s.backgroundColor else TRANSPARENT,
      typeface_name := s.font,
      size_fixed := s.isSizeFixed,
      disable_stretch := s.isStretchDisabled)
  }

  /** `#00000000` is black with alpha 0. */
  lemma TransparentIsTransparent()
    ensures ColorModel.ValidHex(TRANSPARENT)
    ensures ColorModel.HexToRgba(TRANSPARENT) == ColorModel.Rgba(0.0, 0.0, 0.0, 0.0)
  {
    assert StartsWith(TRANSPARENT, "#");
    assert ColorModel.StripHash(TRANSPARENT) == "00000000";
  }

  /** `currentImage && currentImage.startsWith('blob:')`: an object URL the hook created. */
  predicate IsBlobUrl(s: string)
  {
    StartsWith(s, "blob:")
  }

  /**
   * What `generatedImage` holds when it is not null: an object URL made from a
   * response body, or the fixed error placeholder.
   */
  datatype Image = ObjectUrl(url: string) | ErrorPlaceholder

  /** The string the state cell holds for an image, which the preview uses as its source. */
  function Src(i: Image): string
  {
    match i
    case ObjectUrl(u) => u
    case ErrorPlaceholder => ERROR_PLACEHOLDER_IMAGE
  }

  /** An image the revocation cleanup releases: an object URL starting with `blob:`. */
  predicate Revocable(i: Image)
  {
    i.ObjectUrl? && IsBlobUrl(i.url)
  }

  /** An image is released exactly when its string starts with `blob:`; the placeholder never is. */
  lemma RevocableIffBlob(i: Image)
    ensures Revocable(i) <==> IsBlobUrl(Src(i))
    ensures !IsBlobUrl(Src(ErrorPlaceholder))
  {
    assert ERROR_PLACEHOLDER_IMAGE[0] == 'd';
  }

  /**
   * What the revocation cleanup releases when the image moves from `previous` to
   * `next`: nothing unless the value changed, and then the previous value only if it
   * is an object URL.
   */
  function Released(previous: Option<Image>, next: Option<Image>): (r: seq<string>)
    ensures forall i :: 0 <= i < |r| ==> IsBlobUrl(r[i])
    ensures r == [] || (|r| == 1 && previous.Some? && previous.value == ObjectUrl(r[0]) && previous != next)
    ensures previous.None? || previous == Some(ErrorPlaceholder) ==> r == []
    ensures previous != next && previous.Some? && Revocable(previous.value) ==> r == [previous.value.url]
  {
    if previous != next && previous.Some? && Revocable(previous.value) then [previous.value.url] else []
  }

  /** The message the render cycle stores for a failure. */
  function FailureMessage(thrown: Thrown): string
  {
    if thrown.Error? then thrown.message else UNKNOWN_ERROR_MESSAGE
  }

  class EmojiGenerator {
    // The form settings.
    var text: string
    var font: string
    var textColor: string
    var backgroundColor: string
    var useBackgroundColor: bool
    var textAlign: TextAlign
    var isSizeFixed: bool
    var isStretchDisabled: bool
    var fontCategories: seq<FontCategory>

    // What the render cycle produces.
    var generatedImage: Option<Image>
    var isLoading: bool
    var error: Option<string>

    // The environment: the armed timer with the settings its callback captured,
    // render requests not yet answered, whether the font request is still open,
    // whether the component is mounted, every request sent and every URL revoked.
    var pendingTimer: Option<Settings>
    var inFlight: nat
    var fontsPending: bool
    var mounted: bool
    var requests: seq<GenerateEmojiPayload>
    var revoked: seq<string>

    /** The current values of the eight settings. */
    function Current(): Settings
      reads this
    {
      Settings(text, font, textColor, backgroundColor, useBackgroundColor, textAlign, isSizeFixed, isStretchDisabled)
    }

    /**
     * At most one timer is armed, only while mounted and a font is selected, and its
     * callback sees the latest settings; every request sent had a font and a text;
     * only object URLs are ever revoked.
     */
    ghost predicate Valid()
      reads this
    {
      && (pendingTimer.Some? ==> pendingTimer.value == Current() && font != "" && mounted)
      && (forall i :: 0 <= i < |requests| ==> requests[i].typeface_name != "" && requests[i].text != "")
      && (forall i :: 0 <= i < |revoked| ==> IsBlobUrl(revoked[i]))
    }

    /** Mounting: the initial state; the font request is sent, and no timer is armed since no font is selected. */
    constructor ()
      ensures Valid() && mounted && fontsPending
      ensures Current() == Settings(DEFAULT_TEXT, "", DEFAULT_TEXT_COLOR, DEFAULT_BACKGROUND_COLOR, false, Center, false, false)
      ensures fontCategories == [] && generatedImage == None && isLoading && error == None
      ensures pendingTimer == None && inFlight == 0 && requests == [] && revoked == []
    {
      text := DEFAULT_TEXT;
      font := "";
      textColor := DEFAULT_TEXT_COLOR;
      backgroundColor := DEFAULT_BACKGROUND_COLOR;
      useBackgroundColor := false;
      textAlign := Center;
      isSizeFixed := false;
      isStretchDisabled := false;
      fontCategories := [];
      generatedImage := None;
      isLoading := true;
      error := None;
      pendingTimer := None;
      inFlight := 0;
      fontsPending := true;
      mounted := true;
      requests := [];
      revoked := [];
    }

    /**
     * The render effect re-running after the settings were `before`: if anything
     * changed, its cleanup clears the pending timer and, when a font is selected, a
     * new timer is armed on the current settings.
     */
    method Rearm(before: Settings)
      requires mounted
      requires pendingTimer.Some? ==> pendingTimer.value == before && before.font != ""
      modifies this`pendingTimer
      ensures pendingTimer == if Current() == before then old(pendingTimer)
                              else if font == "" then None
                              else Some(Current())
    {
      if Current() != before {
        pendingTimer := None;
        if font != "" {
          pendingTimer := Some(Current());
        }
      }
    }

    /** The image state moving to `next`; the cleanup of the previous value runs. */
    method ReplaceImage(next: Option<Image>)
      modifies this`generatedImage, this`revoked
      ensures generatedImage == next
      ensures revoked == old(revoked) + Released(old(generatedImage), next)
    {
      revoked := revoked + Released(generatedImage, next);
      generatedImage := next;
    }

    /**
     * A setter call. Setting a value equal to the current one changes nothing; any
     * real change cancels the pending timer and arms a new one if a font is selected.
     */
    method Set(e: Edit)
      requires Valid() && mounted
      modifies this
      ensures Valid() && mounted
      ensures Current() == Applied(old(Current()), e)
      ensures pendingTimer == if Current() == old(Current()) then old(pendingTimer)
                              else if font == "" then None
                              else Some(Current())
      ensures fontCategories == old(fontCategories) && fontsPending == old(fontsPending)
      ensures generatedImage == old(generatedImage) && isLoading == old(isLoading) && error == old(error)
      ensures inFlight == old(inFlight) && requests == old(requests) && revoked == old(revoked)
    {
      var before := Current();
      Assign(e);
      Rearm(before);
    }

    /** The state update of one setter call, before the effect re-runs. */
    method Assign(e: Edit)
      modifies this`text, this`font, this`textColor, this`backgroundColor
      modifies this`useBackgroundColor, this`textAlign, this`isSizeFixed, this`isStretchDisabled
      ensures Current() == Applied(old(Current()), e)
    {
      match e {
        case SetText(t) => text := t;
        case SetFont(f) => font := f;
        case SetTextColor(c) => textColor := c;
        case SetBackgroundColor(c) => backgroundColor := c;
        case SetUseBackgroundColor(on) => useBackgroundColor := on;
        case SetTextAlign(a) => textAlign := a;
        case SetIsSizeFixed(on) => isSizeFixed := on;
        case SetIsStretchDisabled(on) => isStretchDisabled := on;
      }
    }

    /**
     * The debounce timer fires. With empty text the image is cleared and loading ends,
     * without a request and without touching the error; otherwise loading starts, the
     * error is cleared and one request with the captured settings is sent.
     */
    method TimerFired()
      requires Valid() && mounted && pendingTimer.Some?
      modifies this
      ensures Valid() && mounted && pendingTimer == None
      ensures Current() == old(Current())
      ensures fontCategories == old(fontCategories) && fontsPending == old(fontsPending)
      ensures old(pendingTimer).value.text == "" ==>
        && generatedImage == None && !isLoading && error == old(error)
        && requests == old(requests) && inFlight == old(inFlight)
        && revoked == old(revoked) + Released(old(generatedImage), None)
      ensures old(pendingTimer).value.text != "" ==>
        && isLoading && error == None
        && requests == old(requests) + [RenderPayload(old(pendingTimer).value)] && inFlight == old(inFlight) + 1
        && generatedImage == old(generatedImage) && revoked == old(revoked)
    {
      var captured := pendingTimer.value;
      pendingTimer := None;
      if captured.text == "" {
        ReplaceImage(None);
        isLoading := false;
      } else {
        Issue(captured);
      }
    }

    /** `generateImageFromApi` up to the request: loading starts, the error is cleared, the payload is sent. */
    method Issue(captured: Settings)
      modifies this`isLoading, this`error, this`requests, this`inFlight
      ensures isLoading && error == None && inFlight == old(inFlight) + 1
      ensures requests == old(requests) + [RenderPayload(captured)]
    {
      isLoading := true;
      error := None;
      requests := requests + [RenderPayload(captured)];
      inFlight := inFlight + 1;
    }

    /** The `finally` of a request: loading ends and the request is no longer in flight. */
    method Settle()
      requires inFlight > 0
      modifies this`isLoading, this`inFlight
      ensures !isLoading && inFlight == old(inFlight) - 1
    {
      isLoading := false;
      inFlight := inFlight - 1;
    }

    /** A render request succeeded and its image was turned into the object URL `objectUrl`. */
    method RequestSucceeded(objectUrl: string)
      requires Valid() && mounted && inFlight > 0 && IsBlobUrl(objectUrl)
      modifies this
      ensures Valid() && mounted
      ensures generatedImage == Some(ObjectUrl(objectUrl)) && !isLoading && inFlight == old(inFlight) - 1
      ensures revoked == old(revoked) + Released(old(generatedImage), Some(ObjectUrl(objectUrl)))
      ensures error == old(error) && Current() == old(Current()) && pendingTimer == old(pendingTimer)
      ensures fontCategories == old(fontCategories) && fontsPending == old(fontsPending) && requests == old(requests)
    {
      ReplaceImage(Some(ObjectUrl(objectUrl)));
      Settle();
    }

    /** A render request failed with `thrown`: its message (or the fixed fallback) and the placeholder image are shown. */
    method RequestFailed(thrown: Thrown)
      requires Valid() && mounted && inFlight > 0
      modifies this
      ensures Valid() && mounted
      ensures error == Some(FailureMessage(thrown))
      ensures generatedImage == Some(ErrorPlaceholder) && !isLoading && inFlight == old(inFlight) - 1
      ensures revoked == old(revoked) + Released(old(generatedImage), Some(ErrorPlaceholder))
      ensures Current() == old(Current()) && pendingTimer == old(pendingTimer)
      ensures fontCategories == old(fontCategories) && fontsPending == old(fontsPending) && requests == old(requests)
    {
      error := Some(FailureMessage(thrown));
      ReplaceImage(Some(ErrorPlaceholder));
      Settle();
    }

    /**
     * The render endpoint answered `response`; on success the body became `objectUrl`.
     * A non-2xx answer shows an error naming the status and the placeholder image.
     */
    method RenderResponded(response: RenderResponse, objectUrl: string)
      requires Valid() && mounted && inFlight > 0 && IsBlobUrl(objectUrl)
      modifies this
      ensures Valid() && mounted && !isLoading && inFlight == old(inFlight) - 1
      ensures IsOk(response) ==> generatedImage == Some(ObjectUrl(objectUrl)) && error == old(error)
      ensures !IsOk(response) ==>
        && generatedImage == Some(ErrorPlaceholder)
        && error == Some(ApiErrorMessage(response.status, response.statusText))
        && Contains(error.value, DecimalString(response.status))
      ensures revoked == old(revoked) + Released(old(generatedImage), generatedImage)
      ensures Current() == old(Current()) && pendingTimer == old(pendingTimer) && requests == old(requests)
      ensures fontCategories == old(fontCategories) && fontsPending == old(fontsPending)
    {
      var outcome := GenerateEmoji(response);
      match outcome
      case Success(_) => RequestSucceeded(objectUrl);
      case Failure(thrown) => RequestFailed(thrown);
    }

    /**
     * The font directory arrived: the catalogue is stored and, when its first
     * category has a font, that font is selected, whatever was selected before.
     */
    method FontsLoaded(data: seq<FontCategory>)
      requires Valid() && mounted && fontsPending
      modifies this
      ensures Valid() && mounted && !fontsPending
      ensures fontCategories == data
      ensures Current() == old(Current()).(font := if |data| > 0 && |data[0].fonts| > 0 then data[0].fonts[0].value else old(font))
      ensures pendingTimer == if Current() == old(Current()) then old(pendingTimer)
                              else if font == "" then None
                              else Some(Current())
      ensures generatedImage == old(generatedImage) && isLoading == old(isLoading) && error == old(error)
      ensures inFlight == old(inFlight) && requests == old(requests) && revoked == old(revoked)
    {
      var before := Current();
      fontCategories := data;
      fontsPending := false;
      if |data| > 0 && |data[0].fonts| > 0 {
        font := data[0].fonts[0].value;
      }
      Rearm(before);
    }

    /** The font directory request failed: the fixed message is shown and the font stays as it was. */
    method FontsFailed()
      requires Valid() && mounted && fontsPending
      modifies this
      ensures Valid() && mounted && !fontsPending
      ensures error == Some(FONT_LOAD_ERROR_MESSAGE)
      ensures Current() == old(Current()) && pendingTimer == old(pendingTimer) && fontCategories == old(fontCategories)
      ensures generatedImage == old(generatedImage) && isLoading == old(isLoading)
      ensures inFlight == old(inFlight) && requests == old(requests) && revoked == old(revoked)
    {
      error := Some(FONT_LOAD_ERROR_MESSAGE);
      fontsPending := false;
    }

    /** The `/fonts` endpoint answered `response`: `fetchFonts` either yields the catalogue or throws. */
    method FontsResponded(response: FontsResponse)
      requires Valid() && mounted && fontsPending
      modifies this
      ensures Valid() && mounted && !fontsPending
      ensures FontsDelivered(response) ==>
        && fontCategories == Grouped(response.availableFonts.value) && error == old(error)
        && Current() == old(Current()).(font := if |fontCategories| > 0 && |fontCategories[0].fonts| > 0
                                                then fontCategories[0].fonts[0].value else old(font))
        && pendingTimer == if Current() == old(Current()) then old(pendingTimer)
                           else if font == "" then None
                           else Some(Current())
      ensures !FontsDelivered(response) ==>
        && error == Some(FONT_LOAD_ERROR_MESSAGE) && Current() == old(Current())
        && pendingTimer == old(pendingTimer) && fontCategories == old(fontCategories)
      ensures generatedImage == old(generatedImage) && isLoading == old(isLoading)
      ensures inFlight == old(inFlight) && requests == old(requests) && revoked == old(revoked)
    {
      var outcome := FetchFonts(response);
      match outcome
      case Success(data) => FontsLoaded(data);
      case Failure(_) => FontsFailed();
    }

    /** The component unmounts: the timer is cleared and the current image released if it is an object URL. */
    method Unmount()
      requires Valid() && mounted
      modifies this
      ensures Valid() && !mounted && pendingTimer == None
      ensures revoked == old(revoked) + Released(old(generatedImage), None)
      ensures Current() == old(Current()) && fontCategories == old(fontCategories) && fontsPending == old(fontsPending)
      ensures generatedImage == old(generatedImage) && isLoading == old(isLoading) && error == old(error)
      ensures inFlight == old(inFlight) && requests == old(requests)
    {
      pendingTimer := None;
      revoked := revoked + Released(generatedImage, None);
      mounted := false;
    }
  }
}
