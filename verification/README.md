# Emoji generator: colour model, font catalogue and generation controller

This is a Dafny model of the logic behind a small web front end that renders text as
128 x 128 emoji images. It covers three parts of that front end:

- **The colour picker's colour model** (`color_model.dfy`, module `ColorModel`).
  `hexToRgba` parses `#rgb`, `#rgba`, `#rrggbb` and `#rrggbbaa`, with or without the
  `#`. `rgbaToHex` writes a colour back as the canonical lower-case `#rrggbbaa`. The
  three handlers build new colours from these two: the numeric RGBA fields, the
  preset swatches and the gradient picker. The swatch-highlight test is modelled
  too. Channels are `real`, so JavaScript's `k / 255 * 255` is exact. `Math.round(x)`
  is `Floor(x + 0.5)`, which matches it for every real.
- **The API client** (`api.dfy`, module `Api`). `fetchFonts` groups the flat
  `available_fonts` directory into categories. Its `for...in` loop over a mutable
  dictionary is the method `GroupFonts`, proved equal to a reference function
  `Grouped`, and the grouping laws are proved about `Grouped`. Also here: the error
  cases of `fetchFonts`, the render request payload, and the error message
  `generateEmoji` throws for an unsuccessful response.
- **The generation state controller** (`generator.dfy`, module `EmojiGeneratorHook`).
  This is the `useEmojiGenerator` hook, written as the class `EmojiGenerator`. Its
  fields are the hook's state cells plus the environment: the single debounce timer,
  with the settings its callback captured; the number of unanswered render requests;
  whether the font request is still open; whether the component is mounted; and the
  logs of requests sent and object URLs revoked. The image cell holds an `Image`:
  either an object URL or the fixed error placeholder. `Src` gives the string the
  source stores for each, and `RevocableIffBlob` ties the revocation test on that
  string to the two cases. Each method is one event. `Valid()`
  is the invariant every event keeps:
  - a timer is armed only while a font is selected, and it sees the latest settings;
  - every request sent carried a font and a non-empty text;
  - only `blob:` URLs are ever revoked.
- **Scenarios** (`scenarios.dfy`, module `GeneratorScenarios`). The event sequences
  of the hook's test file, plus the typing burst, empty-text and HTTP 500 cases.
  Each one drives a fresh controller and states what is observed. This file also
  holds the preset list from `src/lib/constants.ts`, used as example swatches (the settings panel passes no presets to the picker, so none is rendered).

`wrappers.dfy` holds `Option`, `Result` and `Thrown`. `Thrown` is what a `catch`
receives: an `Error` with a name and a message, or any other value. `strings.dfy`
holds the string helpers `startsWith`, `includes` and ASCII `toLowerCase`.

Some behaviours of the code are easy to miss, and the model keeps them:

- The font load selects the first font of the first category whenever one exists,
  even if a font was already chosen (`useEmojiGenerator.ts:27-29`).
- Object URLs are released by the cleanup of the `generatedImage` effect
  (`useEmojiGenerator.ts:95-102`). That is, the URL is released when the image is
  replaced or the component unmounts, not before the next request is issued.
- `error` is cleared when a request starts (`useEmojiGenerator.ts:52`). A success
  does not touch it (`useEmojiGenerator.ts:67-68`).
- The dictionary of `fetchFonts` is a plain `{}` (`api.ts:26`). A typeface named after
  one of its inherited properties (`constructor`, `toString`, `__proto__` and the
  like) finds a truthy value that has no `push`, so the loop throws a `TypeError`
  (`api.ts:31-34`) and the font load fails. `GroupFonts` models this.
- A channel round trip keeps whole r, g, b exactly, and `RoundTripPrecision` bounds
  the alpha error by 1/510, half of one 255th step.

Setting a state cell to the value it already holds does not re-run the effect, as
in React. So the pending timer is kept, not re-armed, when an edit changes nothing.

## Model

| member | source | states |
|---|---|---|
| ColorModel.HexToRgba | src/components/emoji-generator/ColorPicker.tsx:13-26 | every colour parsed from a valid string has r, g, b in [0,255], a in [0,1], and whole bytes |
| ColorModel.StripHash | src/components/emoji-generator/ColorPicker.tsx:13 | one leading `#` is removed when present, and the string is otherwise kept |
| ColorModel.PairValue | src/components/emoji-generator/ColorPicker.tsx:17-22 | `parseInt(hi + lo, 16)` of two hex digits is a byte; its inverses are `Hex2Value` (the digits of a byte read back as it) and `Hex2OfPair` (a pair read and rewritten gives its lower-cased digits) |
| ColorModel.ParseBytes | src/components/emoji-generator/ColorPicker.tsx:15-23 | the four integers read are bytes (below 256) |
| ColorModel.HashIsOptional | src/components/emoji-generator/ColorPicker.tsx:14 | the same digits parse to the same colour with or without a leading `#` |
| ColorModel.Doubled | src/components/emoji-generator/ColorPicker.tsx:15-19 | the long form of a short string is twice as long, and its i-th digit is the short form's digit i / 2 |
| ColorModel.ShortFormIsDoubled | src/components/emoji-generator/ColorPicker.tsx:15-22 | a 3- or 4-digit string parses like its digit-doubled 6- or 8-digit form, so `f` reads as 0xff (17 times the digit) |
| ColorModel.AlphaOfParsed | src/components/emoji-generator/ColorPicker.tsx:20-25 | alpha is 1 for 3 and 6 digits, and the last (doubled) byte over 255 for 4 and 8 digits |
| ColorModel.FromBytes | src/components/emoji-generator/ColorPicker.tsx:25 | dividing alpha by 255 gives a colour in range whose alpha is a whole number of 255ths |
| ColorModel.Clamp | src/components/emoji-generator/ColorPicker.tsx:46-48 | `Math.max(lo, Math.min(hi, v))` lies in [lo,hi]; it is v inside the range, lo below it or at -Infinity, and hi above it or at +Infinity |
| ColorModel.Round | src/components/emoji-generator/ColorPicker.tsx:29 | `Math.round` as `Floor(x + 0.5)`, halves rounded up; `RoundIsNearest` and `RoundOfWhole` state its properties |
| ColorModel.RoundIsNearest | src/components/emoji-generator/ColorPicker.tsx:29 | `Math.round` returns an integer within one half of its argument |
| ColorModel.LowerDigit | src/components/emoji-generator/ColorPicker.tsx:29 | the digit `toString(16)` writes for a value below 16 is a lower-case hex digit denoting that value; `LowerDigitOfValue` gives the converse, a digit's value written back as the lower-cased digit |
| ColorModel.LowerDigitOfValue | src/components/emoji-generator/ColorPicker.tsx:29 | writing the value of any hex digit gives that digit in lower case |
| ColorModel.Hex2Value | src/components/emoji-generator/ColorPicker.tsx:17-33 | the two digits written for a byte are read back by `parseInt` as that byte |
| ColorModel.Hex2OfPair | src/components/emoji-generator/ColorPicker.tsx:17-33 | a pair of digits read by `parseInt` and written back gives the pair lower-cased |
| ColorModel.HexString | src/components/emoji-generator/ColorPicker.tsx:29 | `toString(16)` of a non-negative integer is a non-empty string of lower-case hex digits |
| ColorModel.IntToHexString | src/components/emoji-generator/ColorPicker.tsx:29 | `toString(16)` of any integer is non-empty: lower-case hex digits, preceded by `-` for a negative number |
| ColorModel.ToHex | src/components/emoji-generator/ColorPicker.tsx:29 | `toHex` always yields two characters |
| ColorModel.PaddedHex | src/components/emoji-generator/ColorPicker.tsx:29 | a byte in base 16, prefixed with `0`, ends in its two lower-case digits |
| ColorModel.ToHexOfByte | src/components/emoji-generator/ColorPicker.tsx:29 | a value that rounds to a byte is written as exactly that byte's two lower-case digits |
| ColorModel.RgbaToHex | src/components/emoji-generator/ColorPicker.tsx:28-35 | the result is `#` followed by eight characters |
| ColorModel.RgbaToHexOfBytes | src/components/emoji-generator/ColorPicker.tsx:28-35 | a colour whose channels round to four bytes is written as `#` and those bytes' eight digits |
| ColorModel.CanonicalOfBytes | src/components/emoji-generator/ColorPicker.tsx:13-35 | `#` and the digits of four bytes is a valid lower-case colour that parses back to those bytes |
| ColorModel.SerialisedIsCanonical | src/components/emoji-generator/ColorPicker.tsx:28-34 | with channels in range the result is a valid colour of `#` and exactly eight lower-case hex digits, the rounded bytes |
| ColorModel.SerialiseParsed | src/components/emoji-generator/ColorPicker.tsx:13-35 | `rgbaToHex(hexToRgba(x))` is `#` plus x's canonical digits: short forms doubled, `ff` added when alpha is missing, lower case |
| ColorModel.RoundTripLongForm | src/components/emoji-generator/ColorPicker.tsx:13-35 | for an 8-digit string the round trip returns `#` plus its digits lower-cased |
| ColorModel.ParseSerialised | src/components/emoji-generator/ColorPicker.tsx:13-35 | `hexToRgba(rgbaToHex(c))` is c with every channel rounded to its byte |
| ColorModel.QuantizeError | src/components/emoji-generator/ColorPicker.tsx:29-33 | rounding keeps whole r, g, b and moves alpha by at most 1/510 |
| ColorModel.RoundTripPrecision | src/components/emoji-generator/ColorPicker.tsx:13-35 | a colour in range survives the round trip with whole r, g, b exact and alpha within 1/510 |
| ColorModel.QuantizeOfQuantized | src/components/emoji-generator/ColorPicker.tsx:29-33 | rounding a byte colour changes nothing |
| ColorModel.SetChannel | src/components/emoji-generator/ColorPicker.tsx:44-49 | the edited channel becomes the clamped value, with 255 or 1 as the bound, and every other channel is copied |
| ColorModel.SetChannelInRange | src/components/emoji-generator/ColorPicker.tsx:44-49 | a one-channel update keeps a colour in range |
| ColorModel.QuantizedUpdate | src/components/emoji-generator/ColorPicker.tsx:44-50 | after the update and rounding, the other channels of a byte colour are unchanged |
| ColorModel.HandleRgbaChange | src/components/emoji-generator/ColorPicker.tsx:42-51 | no change is reported exactly for NaN; otherwise the reported colour is `#` and eight lower-case hex digits, the other channels are unchanged and the edited one is the rounded clamp |
| ColorModel.WholeValueIsKept | src/components/emoji-generator/ColorPicker.tsx:42-51 | a whole number in [0,255] typed into r, g or b becomes that channel exactly |
| ColorModel.KeepAlpha | src/components/emoji-generator/ColorPicker.tsx:85-95 | the result is canonical, has the source's r, g, b and the current alpha, and its digits are the source's first six and the current alpha byte |
| ColorModel.HandlePresetClick | src/components/emoji-generator/ColorPicker.tsx:85-89 | the preset's r, g, b with the current alpha; for a `#rrggbb` preset the result highlights that preset's swatch |
| ColorModel.PresetPrefix | src/components/emoji-generator/ColorPicker.tsx:107 | a canonical colour whose first six digits are a `#rrggbb` preset's starts with that preset, ignoring case |
| ColorModel.HandlePickerChange | src/components/emoji-generator/ColorPicker.tsx:91-95 | the picked colour's r, g, b and exactly the current alpha byte |
| ColorModel.IsHighlighted | src/components/emoji-generator/ColorPicker.tsx:107 | the swatch test: the lower-cased colour starts with the lower-cased preset; `PresetPrefix` and `HandlePresetClick` state when it holds |
| Strings.Lower | src/components/emoji-generator/ColorPicker.tsx:107 | `toLowerCase` keeps the length, leaves no upper-case letter, moves each upper-case letter 32 code points up and keeps every other character |
| Strings.StartsWith | src/components/emoji-generator/ColorPicker.tsx:107 | `startsWith`: the prefix is no longer than the string and equals its first characters |
| Api.GroupFonts | src/lib/api.ts:26-42 | the loop filling the category dictionary and its key list returns exactly the reference grouping, and throws the `push` `TypeError` exactly when some category is an inherited property name |
| Api.FetchFonts | src/lib/api.ts:16-43 | a non-ok response throws `Error('Failed to fetch fonts')`; a missing `available_fonts` throws its `TypeError`; an inherited category name throws the `push` `TypeError`; otherwise, and only then, the grouped catalogue |
| Api.CategoryOf | src/lib/api.ts:29 | the category is never empty: a non-empty typeface names it, and otherwise it is `Uncategorized` |
| Api.FontOf | src/lib/api.ts:34 | the font pushed for an entry has the entry's key as both its name and its value |
| Api.AddFont | src/lib/api.ts:31-34 | one pass of the loop body turns a dictionary holding the grouping of the entries seen into one holding the grouping with the next entry |
| Api.ShadowsSnoc | src/lib/api.ts:31-34 | one more entry makes the loop throw exactly when an earlier one did or its own category is an inherited name |
| Api.ToCategories | src/lib/api.ts:37-40 | the dictionary listed in key order; `ListedIsGrouped` shows that it is the reference grouping once the dictionary holds it |
| Api.ListedIsGrouped | src/lib/api.ts:37-40 | a dictionary holding the grouping of the entries, listed in insertion order, is their reference catalogue |
| Api.SeenIffOccurs | src/lib/api.ts:29-33 | a category is listed exactly when some entry's typeface, or `Uncategorized`, names it |
| Api.SeenIffHasFonts | src/lib/api.ts:31-34 | a category is listed exactly when it received a font |
| Api.CategoryOrderDistinct | src/lib/api.ts:31-33 | the key list has no duplicates |
| Api.GroupedNamesDistinct | src/lib/api.ts:37-40 | returned category names are pairwise distinct |
| Api.GroupedNonEmpty | src/lib/api.ts:31-40 | no returned category is empty |
| Api.FontsInMembers | src/lib/api.ts:28-34 | a font is in category k exactly when some entry with its name has category k, and its name equals its value |
| Api.EveryFontPlaced | src/lib/api.ts:29-34 | every entry's font is in the category named by its typeface, or in `Uncategorized` |
| Api.UntypedIsUncategorized | src/lib/api.ts:29-34 | a font whose typeface is missing or empty is listed in the `Uncategorized` category |
| Api.FontsInAppend | src/lib/api.ts:34 | fonts keep input order inside a category: the fonts of a prefix come first |
| Api.FirstSeenOrder | src/lib/api.ts:31-40 | categories are listed in first-seen order |
| Api.FlattenAppend | src/lib/api.ts:37-40 | the fonts of a catalogue with one more category are the old fonts followed by that category's |
| Api.FlattenGrow | src/lib/api.ts:34 | pushing a font into one category adds exactly that font to the catalogue's fonts |
| Api.GroupedSnoc | src/lib/api.ts:27-35 | one more entry either extends its existing category or appends a new one-font category |
| Api.GroupedIsPermutation | src/lib/api.ts:27-40 | the catalogue's fonts are a permutation of the entries' fonts: nothing is lost or duplicated |
| Api.AllFontsOnce | src/lib/api.ts:27 | with distinct directory keys each entry's font occurs once in the input |
| Api.NotInAllFonts | src/lib/api.ts:27 | a name that is no key yields no font |
| Api.EveryFontOnce | src/lib/api.ts:27-40 | with distinct directory keys every font appears in the catalogue exactly once |
| Api.DecimalString | src/lib/api.ts:65 | a status is written as a non-empty string of decimal digits |
| Api.DecimalRoundTrip | src/lib/api.ts:65 | the written status reads back as the status |
| Api.ApiErrorMessage | src/lib/api.ts:65 | the message contains the numeric status and the status text |
| Api.IsOk | src/lib/api.ts:64 | `response.ok`: the status is in 200-299; `GenerateEmoji` states the result for both sides |
| Api.GenerateEmoji | src/lib/api.ts:57-70 | the result is the body exactly for a 2xx status; otherwise an `Error` whose message names the status and status text |
| Api.ServerErrorMentionsStatus | src/lib/api.ts:64-66 | an HTTP 500 fails with "500" in the message |
| EmojiGeneratorHook.RenderPayload | src/hooks/useEmojiGenerator.ts:55-65 | the payload is 128 x 128, carries the settings and the font, and the background is `#00000000` (parsing to alpha 0) whenever the background is off |
| EmojiGeneratorHook.TransparentIsTransparent | src/hooks/useEmojiGenerator.ts:61 | `#00000000` parses to black with alpha 0 |
| EmojiGeneratorHook.RevocableIffBlob | src/hooks/useEmojiGenerator.ts:98 | an image counts as revocable exactly when its string starts with `blob:`, and the placeholder's string (`data:...`) does not |
| EmojiGeneratorHook.IsBlobUrl | src/hooks/useEmojiGenerator.ts:98 | the revocation test `startsWith('blob:')`; `RevocableIffBlob` ties it to the two kinds of image |
| EmojiGeneratorHook.FailureMessage | src/hooks/useEmojiGenerator.ts:70 | the stored message: a thrown `Error`'s message, and the fixed Japanese fallback for any other thrown value; `RequestFailed` and `GenerationFailure` state its use |
| EmojiGeneratorHook.Released | src/hooks/useEmojiGenerator.ts:95-102 | the previous value is released exactly when it changed and is a `blob:` object URL, and nothing else is; no image and the placeholder are never released |
| EmojiGeneratorHook.EmojiGenerator.constructor | src/hooks/useEmojiGenerator.ts:7-19 | the initial state: `絵文字`, no font, white text, black background off, centred, both flags off, no image, loading, no error, no timer |
| EmojiGeneratorHook.EmojiGenerator.Rearm | src/hooks/useEmojiGenerator.ts:40-92 | if a dependency changed, the old timer is cleared and a timer on the current settings is armed exactly when a font is selected |
| EmojiGeneratorHook.EmojiGenerator.ReplaceImage | src/hooks/useEmojiGenerator.ts:95-102 | the image becomes the new value and the cleanup releases the old one as `Released` says |
| EmojiGeneratorHook.EmojiGenerator.Assign | src/hooks/useEmojiGenerator.ts:7-14 | a setter replaces exactly its own setting |
| EmojiGeneratorHook.EmojiGenerator.Set | src/hooks/useEmojiGenerator.ts:7-92 | one setting is replaced; any real change re-arms the timer on the latest settings, or clears it with no font; nothing else changes |
| EmojiGeneratorHook.EmojiGenerator.Issue | src/hooks/useEmojiGenerator.ts:51-67 | loading starts, the error is cleared and the payload built from the captured settings is sent |
| EmojiGeneratorHook.EmojiGenerator.Settle | src/hooks/useEmojiGenerator.ts:72-74 | loading ends and one fewer request is in flight |
| EmojiGeneratorHook.EmojiGenerator.TimerFired | src/hooks/useEmojiGenerator.ts:43-78 | empty text clears the image and loading with no request and the error kept; otherwise loading starts, the error is cleared and one request with the captured settings is sent |
| EmojiGeneratorHook.EmojiGenerator.RequestSucceeded | src/hooks/useEmojiGenerator.ts:67-74 | the new object URL is shown, loading ends, the previous image is released if it was a blob |
| EmojiGeneratorHook.EmojiGenerator.RequestFailed | src/hooks/useEmojiGenerator.ts:69-74 | the error is the thrown message or the fixed fallback, the placeholder is shown and loading ends |
| EmojiGeneratorHook.EmojiGenerator.RenderResponded | src/hooks/useEmojiGenerator.ts:67-74 | a 2xx answer shows the image and keeps the error; any other shows the placeholder and an error naming the status; loading ends, the old image is released as `Released` says, and settings, timer, catalogue and font request are unchanged |
| EmojiGeneratorHook.EmojiGenerator.FontsLoaded | src/hooks/useEmojiGenerator.ts:25-29 | the catalogue is stored and the first font of the first category, if any, is selected regardless of the earlier choice |
| EmojiGeneratorHook.EmojiGenerator.FontsFailed | src/hooks/useEmojiGenerator.ts:30-34 | the fixed font-load message is set and the font stays as it was |
| EmojiGeneratorHook.EmojiGenerator.FontsResponded | src/hooks/useEmojiGenerator.ts:22-38 | a usable answer stores the grouped catalogue, selects its first font and re-arms the timer as `Rearm` does; any failure sets the font-load message and keeps settings, timer and catalogue; image, loading, requests and revocations never change |
| EmojiGeneratorHook.EmojiGenerator.Unmount | src/hooks/useEmojiGenerator.ts:80-102 | the timer is cleared and the current image is released if it is a blob; settings, image, loading, error, catalogue and requests in flight are unchanged |
| GeneratorScenarios.FontsOnMount | src/hooks/useEmojiGenerator.test.ts:13-27 | after the mock catalogue arrives the font is `font1` and the catalogue is stored unchanged |
| GeneratorScenarios.TextChangeDebounced | src/hooks/useEmojiGenerator.test.ts:29-52 | after the catalogue arrives, one `setText('new text')` and the debounce delay send exactly one request, with that text and font `font1` |
| GeneratorScenarios.TypingBurst | src/hooks/useEmojiGenerator.ts:40-92 | a burst of three edits (more than the hook's test makes) inside one debounce window sends exactly one request, with text `abc`, font `font1`, size 128 and a transparent background |
| GeneratorScenarios.FontLoadFailure | src/hooks/useEmojiGenerator.test.ts:54-62 | a failed font load shows the message containing `フォントの読み込みに失敗`, and later edits arm no timer and send nothing |
| GeneratorScenarios.InheritedTypeface | src/lib/api.ts:26-34 | a directory whose typeface is `constructor` makes `fetchFonts` throw the `push` `TypeError`, and the hook shows the font-load message with no font selected |
| GeneratorScenarios.GenerationFailure | src/hooks/useEmojiGenerator.test.ts:64-83 | a render throwing `Error('Generation failed')` shows that message and the placeholder, and loading ends |
| GeneratorScenarios.ServerError | src/lib/api.ts:64-66 | an HTTP 500 answer leaves an error containing "500" and the status text, with the placeholder shown |
| GeneratorScenarios.EmptyTextClears | src/hooks/useEmojiGenerator.ts:44-48 | emptying the text clears the image without a request and revokes the old object URL |
| GeneratorScenarios.PlaceholderIsKept | src/hooks/useEmojiGenerator.ts:95-102 | the placeholder is replaced without being revoked; the later blob is revoked at unmount |
| GeneratorScenarios.Recovered | src/hooks/useEmojiGenerator.ts:67-102 | after a failure and a later success the object URL is shown and nothing has been revoked |
| GeneratorScenarios.PresetsHighlightThemselves | src/lib/constants.ts:1-14 | every preset swatch is a valid `#rrggbb` colour, and clicking it highlights that swatch |

## Left out

- HTTP I/O (`fetch`, `response.json()`, `response.blob()`, `API_BASE_URL`): a response is an input to `FetchFonts`, `GenerateEmoji` and the event methods. It is an ok flag with the parsed directory, or a status, status text and body.
- JSON decoding, a throwing `response.json()`, and a `null` body (reading `data.available_fonts` at `api.ts:21` then throws a `TypeError`): the directory arrives already decoded as an object. Each of these is one more way the font load fails, and `FontsFailed` covers it.
- Real timers, `setTimeout` and the 750 ms delay: the timer is the `pendingTimer` slot, armed by `Rearm` and fired by `TimerFired`.
- `URL.createObjectURL` and `revokeObjectURL`: the object URL is a parameter of `RequestSucceeded` and `RenderResponded`, and revocation is recorded in `revoked`.
- Out-of-order completion of overlapping requests: one outcome event is handled at a time. Which request an answer belongs to is not tracked, and freshness is not proved.
- `hexToRgba` on malformed strings (`parseInt` giving NaN or a partial parse, lengths other than 3, 4, 6 or 8): `ValidHex` is a precondition. The colour picker only ever produces valid strings.
- IEEE floating point: channels are reals, so `k / 255 * 255` and `Math.round` are exact.
- The `react-colorful` picker widget: its output is any valid hex string handed to `HandlePickerChange`.
- `GroupFonts` and `FetchFonts`: the `TypeError` message is the one V8 prints; other engines word it differently.
- Non-ASCII case mapping in `toLowerCase`: `Strings.Lower` maps only A-Z. Colour strings are ASCII.
- The key order of JavaScript objects, which puts integer-like keys first: the directory is a sequence of (name, typeface) entries in enumeration order, and category order is first-seen order in that sequence. A category called, say, `"1"` would be listed first in JavaScript.
- `!availableFonts` on falsy non-object values, directory entries that are `null` (reading `fontInfo.typeface` at `api.ts:29` then throws a `TypeError` and the font load fails), and entries whose `typeface` is not a string: the field is either absent or a directory, each entry is an object, and a typeface is either absent or a string.
- Events after unmount: the methods require `mounted`. React ignores such state updates, but a render answered after unmount still calls `URL.createObjectURL` (`useEmojiGenerator.ts:68`), and since the image effect's cleanup has already run, nothing revokes that URL. The model does not show this leak.
- `console.error` and `adContent` (always null): no behaviour.
- Rendering of the alpha field with `toFixed(2)`, and the rest of the view code: presentation only.
