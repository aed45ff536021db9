/**
 * Event sequences from the hook's own test suite, and the preset list of
 * `src/lib/constants.ts` used as example swatches, run through the model. Each method drives a fresh controller
 * and reports what the test observes.
 */
module GeneratorScenarios {
  import opened Wrappers
  import opened Strings
  import opened Api
  import opened EmojiGeneratorHook
  import ColorModel

  /** The catalogue the tests answer `/fonts` with: one category holding `font1`. */
  const MOCK_FONTS: seq<FontCategory> := [FontCategory("Category 1", [Font("Font 1", "font1")])]

  /** A controller after mounting and the mock catalogue arriving. */
  method Mounted() returns (g: EmojiGenerator)
    ensures fresh(g) && g.Valid() && g.mounted && !g.fontsPending
    ensures g.Current() == Settings(DEFAULT_TEXT, "font1", DEFAULT_TEXT_COLOR, DEFAULT_BACKGROUND_COLOR, false, Center, false, false)
    ensures g.fontCategories == MOCK_FONTS
    ensures g.pendingTimer == Some(g.Current()) && g.requests == [] && g.revoked == []
    ensures g.generatedImage == None && g.error == None && g.inFlight == 0
  {
    g := new EmojiGenerator();
    g.FontsLoaded(MOCK_FONTS);
  }

  /** Mounting selects the first font of the first category and stores the catalogue. */
  method FontsOnMount() returns (font: string, categories: seq<FontCategory>)
    ensures font == "font1" && categories == MOCK_FONTS
  {
    var g := Mounted();
    font, categories := g.font, g.fontCategories;
  }

  /**
   * The test's single edit: once the mock catalogue is in, `setText('new text')` and
   * the debounce delay send exactly one request, carrying the new text.
   */
  method TextChangeDebounced() returns (sent: seq<GenerateEmojiPayload>)
    ensures |sent| == 1 && sent[0].text == "new text" && sent[0].typeface_name == "font1"
  {
    var g := Mounted();
    g.Set(SetText("new text"));
    g.TimerFired();
    sent := g.requests;
  }

  /**
   * Three keystrokes inside one debounce window, then the timer fires: exactly one
   * request goes out, carrying the last text and the selected font, and the
   * background is sent transparent since it is off.
   */
  method TypingBurst() returns (sent: seq<GenerateEmojiPayload>, loading: bool)
    ensures |sent| == 1 && loading
    ensures sent[0].text == "abc" && sent[0].typeface_name == "font1"
    ensures sent[0].width == 128 && sent[0].height == 128
    ensures sent[0].background_color == TRANSPARENT
  {
    var g := Mounted();
    g.Set(SetText("a"));
    g.Set(SetText("ab"));
    g.Set(SetText("abc"));
    g.TimerFired();
    sent, loading := g.requests, g.isLoading;
  }

  /** The font directory fails: the message is shown, and with no font no timer is ever armed. */
  method FontLoadFailure() returns (error: Option<string>, armed: bool, sent: seq<GenerateEmojiPayload>)
    ensures error == Some(FONT_LOAD_ERROR_MESSAGE) && Contains(error.value, FONT_LOAD_FAILED)
    ensures !armed && sent == []
  {
    var g := new EmojiGenerator();
    g.FontsFailed();
    g.Set(SetText("new text"));
    g.Set(SetUseBackgroundColor(true));
    error, armed, sent := g.error, g.pendingTimer.Some?, g.requests;
    assert OccursAt(FONT_LOAD_ERROR_MESSAGE, FONT_LOAD_FAILED, 0);
  }

  /**
   * A directory whose only typeface is `constructor`: `fetchFonts` throws the `push`
   * `TypeError`, so the font-load message is shown and no catalogue or font is set.
   */
  method InheritedTypeface() returns (thrown: Result<seq<FontCategory>, Thrown>, error: Option<string>, font: string)
    ensures thrown == Failure(Error("TypeError", PUSH_NOT_A_FUNCTION))
    ensures error == Some(FONT_LOAD_ERROR_MESSAGE) && font == ""
  {
    var response := FontsResponse(true, Some([FontEntry("f", Some("constructor"))]));
    assert Inherited(CategoryOf(response.availableFonts.value[0]));
    thrown := FetchFonts(response);
    var g := new EmojiGenerator();
    g.FontsResponded(response);
    error, font := g.error, g.font;
  }

  /** The render request throws `Error('Generation failed')`: its message and the placeholder are shown. */
  method GenerationFailure() returns (error: Option<string>, image: Option<Image>, loading: bool)
    ensures error == Some("Generation failed") && image == Some(ErrorPlaceholder) && !loading
  {
    var g := Mounted();
    g.Set(SetText("trigger generation"));
    g.TimerFired();
    g.RequestFailed(Error("Error", "Generation failed"));
    error, image, loading := g.error, g.generatedImage, g.isLoading;
  }

  /** The render endpoint answers 500: the shown error names the status. */
  method ServerError(statusText: string) returns (error: Option<string>, image: Option<Image>)
    ensures error.Some? && Contains(error.value, "500") && Contains(error.value, statusText)
    ensures image == Some(ErrorPlaceholder)
  {
    var g := Mounted();
    g.TimerFired();
    g.RenderResponded(RenderResponse(500, statusText, Blob([])), "blob:unused");
    error, image := g.error, g.generatedImage;
    ServerErrorMentionsStatus(statusText, Blob([]));
  }

  /**
   * An image is shown, then the text is emptied: when the timer fires the image is
   * cleared without a request, and its object URL is revoked.
   */
  method EmptyTextClears() returns (image: Option<Image>, revoked: seq<string>, sent: nat, loading: bool)
    ensures image == None && revoked == ["blob:first"] && sent == 1 && !loading
  {
    var g := Mounted();
    g.TimerFired();
    g.RequestSucceeded("blob:first");
    g.Set(SetText(""));
    g.TimerFired();
    image, revoked, sent, loading := g.generatedImage, g.revoked, |g.requests|, g.isLoading;
  }

  /** A controller whose first render threw something that is not an `Error`. */
  method FailedOnce() returns (g: EmojiGenerator)
    ensures fresh(g) && g.Valid() && g.mounted && g.inFlight == 0
    ensures g.Current() == Settings(DEFAULT_TEXT, "font1", DEFAULT_TEXT_COLOR, DEFAULT_BACKGROUND_COLOR, false, Center, false, false)
    ensures g.generatedImage == Some(ErrorPlaceholder) && g.error == Some(UNKNOWN_ERROR_MESSAGE)
    ensures g.pendingTimer == None && g.revoked == []
  {
    g := Mounted();
    g.TimerFired();
    g.RequestFailed(NonErrorValue);
  }

  /**
   * A failure then a success: the placeholder is replaced without being revoked,
   * and the later object URL is revoked only once the component unmounts.
   */
  method PlaceholderIsKept() returns (before: seq<string>, after: seq<string>)
    ensures before == [] && after == ["blob:second"]
  {
    var g := Recovered();
    before := g.revoked;
    g.Unmount();
    after := g.revoked;
  }

  /** A controller whose first render failed and whose next render, after a colour change, succeeded. */
  method Recovered() returns (g: EmojiGenerator)
    ensures fresh(g) && g.Valid() && g.mounted
    ensures g.generatedImage == Some(ObjectUrl("blob:second")) && g.revoked == []
  {
    g := FailedOnce();
    g.Set(SetTextColor("#ff0000ff"));
    g.TimerFired();
    g.RequestSucceeded("blob:second");
  }

  /** The preset list of `src/lib/constants.ts`, used as example swatches. */
  const PRESET_COLORS: seq<string> := [
    "#FFFFFF", "#6B7280", "#1A1A1A", "#EF4444", "#F59E0B", "#F8E71C",
    "#84CC16", "#22C55E", "#3B82F6", "#6366F1", "#8B5CF6", "#EC4899"]

  /** Every preset is a `#rrggbb` colour, so clicking one highlights that swatch. */
  lemma PresetsHighlightThemselves(color: string, i: nat)
    requires ColorModel.ValidHex(color) && i < |PRESET_COLORS|
    ensures ColorModel.ValidHex(PRESET_COLORS[i])
    ensures ColorModel.IsHighlighted(ColorModel.HandlePresetClick(color, PRESET_COLORS[i]), PRESET_COLORS[i])
  {
    var p := PRESET_COLORS[i];
    assert |p| == 7 && p[0] == '#';
    assert StartsWith(p, "#");
    assert ColorModel.StripHash(p) == p[1..];
    assert ColorModel.AllHexDigits(p[1..]);
  }
}
