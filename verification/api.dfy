/**
 * The two clients of the remote emoji service: the font directory, grouped into
 * display categories, and the render call with its request payload and the error it
 * raises for an unsuccessful response. The HTTP transfer itself is not modelled:
 * responses arrive as values.
 */
module Api {
  import opened Wrappers
  import opened Strings

  // ---------------------------------------------------------------- font directory

  datatype Font = Font(name: string, value: string)

  datatype FontCategory = FontCategory(name: string, fonts: seq<Font>)

  /** One entry of `available_fonts`: the font's key and its `typeface` field, when present. */
  datatype FontEntry = FontEntry(name: string, typeface: Option<string>)

  /** The decoded `/fonts` response: its `ok` flag and its `available_fonts` field, when present. */
  datatype FontsResponse = FontsResponse(ok: bool, availableFonts: Option<seq<FontEntry>>)

  const UNCATEGORIZED: string := "Uncategorized"
  const FETCH_FONTS_FAILED: string := "Failed to fetch fonts"
  const MISSING_FONTS_FIELD: string := "API response did not contain 'available_fonts' field."

  /** `fontInfo.typeface || 'Uncategorized'`: a missing or empty typeface falls back. */
  function CategoryOf(e: FontEntry): (c: string)
    ensures c != ""
    ensures e.typeface.Some? && e.typeface.value != "" ==> c == e.typeface.value
    ensures e.typeface.None? || e.typeface.value == "" ==> c == UNCATEGORIZED
  {
    if e.typeface.None? || e.typeface.value == "" then UNCATEGORIZED else e.typeface.value
  }

  /** The entry as the catalogue lists it: its key as both name and value. */
  function FontOf(e: FontEntry): (f: Font)
    ensures f.name == f.value == e.name
  {
    Font(e.name, e.name)
  }

  /** The category names in the order they are first seen in `entries`. */
  function CategoryOrder(entries: seq<FontEntry>): seq<string>
  {
    if entries == [] then []
    else
      var before := CategoryOrder(entries[..|entries| - 1]);
      var c := CategoryOf(entries[|entries| - 1]);
      if c in before then before else before + [c]
  }

  /** The fonts of the entries whose category is `k`, in input order. */
  function FontsIn(entries: seq<FontEntry>, k: string): seq<Font>
  {
    if entries == [] then []
    else
      var last := entries[|entries| - 1];
      FontsIn(entries[..|entries| - 1], k) + (if CategoryOf(last) == k then [FontOf(last)] else [])
  }

  /** Every entry's font, in input order. */
  function AllFonts(entries: seq<FontEntry>): seq<Font>
  {
    if entries == [] then [] else AllFonts(entries[..|entries| - 1]) + [FontOf(entries[|entries| - 1])]
  }

  /**
   * The catalogue the directory describes: one category per category name, in
   * first-seen order, each holding the fonts of its entries in input order.
   */
  function Grouped(entries: seq<FontEntry>): seq<FontCategory>
  {
    var order := CategoryOrder(entries);
    seq(|order|, j requires 0 <= j < |order| => FontCategory(order[j], FontsIn(entries, order[j])))
  }

  /** `Object.keys(categories).map(name => ({ name, fonts: categories[name] }))`, keys in insertion order. */
  function ToCategories(keys: seq<string>, categories: map<string, seq<Font>>): seq<FontCategory>
    requires forall k :: k in keys ==> k in categories
  {
    seq(|keys|, j requires 0 <= j < |keys| => FontCategory(keys[j], categories[keys[j]]))
  }

  /**
   * The properties every plain object inherits from `Object.prototype`. Looking one of
   * them up on the empty dictionary `{}` yields a truthy value that has no `push`.
   */
  const INHERITED_NAMES: set<string> := {
    "constructor", "hasOwnProperty", "isPrototypeOf", "propertyIsEnumerable",
    "toLocaleString", "toString", "valueOf", "__proto__",
    "__defineGetter__", "__defineSetter__", "__lookupGetter__", "__lookupSetter__"
  }

  /** `name` is an inherited property of a plain object. */
  predicate Inherited(name: string)
  {
    name in INHERITED_NAMES
  }

  /** The `TypeError` V8 raises when the loop calls `push` on an inherited property. */
  const PUSH_NOT_A_FUNCTION: string := "categories[categoryName].push is not a function"

  /** Some entry's category names an inherited property of the dictionary. */
  predicate ShadowsPrototype(entries: seq<FontEntry>)
  {
    exists i :: 0 <= i < |entries| && Inherited(CategoryOf(entries[i]))
  }

  /** The dictionary `categories`, with its keys in insertion order `keys`, holds the grouping of `entries`. */
  ghost predicate Holds(entries: seq<FontEntry>, keys: seq<string>, categories: map<string, seq<Font>>)
  {
    && keys == CategoryOrder(entries)
    && (forall k :: k in categories <==> k in keys)
    && (forall k :: k in categories ==> categories[k] == FontsIn(entries, k))
  }

  /** One more entry shadows an inherited name exactly when the earlier ones did or its own category does. */
  lemma ShadowsSnoc(entries: seq<FontEntry>, e: FontEntry)
    ensures ShadowsPrototype(entries + [e]) <==> ShadowsPrototype(entries) || Inherited(CategoryOf(e))
  {
    var all := entries + [e];
    if ShadowsPrototype(entries) {
      var j :| 0 <= j < |entries| && Inherited(CategoryOf(entries[j]));
      assert all[j] == entries[j];
    }
    if Inherited(CategoryOf(e)) {
      assert all[|entries|] == e;
    }
    if ShadowsPrototype(all) {
      var j :| 0 <= j < |all| && Inherited(CategoryOf(all[j]));
      if j < |entries| {
        assert all[j] == entries[j];
      }
    }
  }

  /** Listing a dictionary that holds the grouping of `entries` gives their catalogue. */
  lemma ListedIsGrouped(entries: seq<FontEntry>, keys: seq<string>, categories: map<string, seq<Font>>)
    requires Holds(entries, keys, categories)
    ensures ToCategories(keys, categories) == Grouped(entries)
  {
  }

  /**
   * One pass of the loop body for the entry `e` after `seen`: the category's array is
   * created on first sight and the font pushed onto it, so the dictionary then holds
   * the grouping of `seen + [e]`.
   */
  method AddFont(seen: seq<FontEntry>, e: FontEntry, keys: seq<string>, categories: map<string, seq<Font>>)
    returns (keys': seq<string>, categories': map<string, seq<Font>>)
    requires Holds(seen, keys, categories)
    ensures Holds(seen + [e], keys', categories')
  {
    var categoryName := CategoryOf(e);
    assert (seen + [e])[..|seen|] == seen;
    keys', categories' := keys, categories;
    if categoryName !in categories' {
      SeenIffHasFonts(seen, categoryName);
      categories' := categories'[categoryName := []];
      keys' := keys' + [categoryName];
    }
    categories' := categories'[categoryName := categories'[categoryName] + [Font(e.name, e.name)]];
  }

  /**
   * The grouping loop of `fetchFonts`: walks the directory, adding each font to the
   * dictionary entry of its category (creating the entry on first sight), then lists
   * the dictionary in key-insertion order. A category named after an inherited
   * property is found already "present", so its `push` throws.
   */
  method GroupFonts(availableFonts: seq<FontEntry>) returns (r: Result<seq<FontCategory>, Thrown>)
    ensures ShadowsPrototype(availableFonts) ==> r == Failure(Error("TypeError", PUSH_NOT_A_FUNCTION))
    ensures !ShadowsPrototype(availableFonts) ==> r == Success(Grouped(availableFonts))
  {
    var categories: map<string, seq<Font>> := map[];
    var keys: seq<string> := [];
    var i := 0;
    while i < |availableFonts|
      invariant 0 <= i <= |availableFonts|
      invariant !ShadowsPrototype(availableFonts[..i])
      invariant Holds(availableFonts[..i], keys, categories)
    {
      if Inherited(CategoryOf(availableFonts[i])) {
        return Failure(Error("TypeError", PUSH_NOT_A_FUNCTION));
      }
      assert availableFonts[..i + 1] == availableFonts[..i] + [availableFonts[i]];
      ShadowsSnoc(availableFonts[..i], availableFonts[i]);
      keys, categories := AddFont(availableFonts[..i], availableFonts[i], keys, categories);
      i := i + 1;
    }
    assert availableFonts[..i] == availableFonts;
    ListedIsGrouped(availableFonts, keys, categories);
    r := Success(ToCategories(keys, categories));
  }

  /** The `/fonts` answer yields a catalogue: it is successful, has `available_fonts`, and shadows no inherited name. */
  predicate FontsDelivered(response: FontsResponse)
  {
    response.ok && response.availableFonts.Some? && !ShadowsPrototype(response.availableFonts.value)
  }

  /**
   * `fetchFonts` once the response has arrived: an unsuccessful response, a body
   * without `available_fonts` and a category named after an inherited property are
   * errors; otherwise the grouped catalogue.
   */
  method FetchFonts(response: FontsResponse) returns (r: Result<seq<FontCategory>, Thrown>)
    ensures !response.ok ==> r == Failure(Error("Error", FETCH_FONTS_FAILED))
    ensures response.ok && response.availableFonts.None? ==> r == Failure(Error("TypeError", MISSING_FONTS_FIELD))
    ensures response.ok && response.availableFonts.Some? && ShadowsPrototype(response.availableFonts.value) ==>
      r == Failure(Error("TypeError", PUSH_NOT_A_FUNCTION))
    ensures FontsDelivered(response) <==> r.Success?
    ensures FontsDelivered(response) ==> r == Success(Grouped(response.availableFonts.value))
  {
    if !response.ok {
      return Failure(Error("Error", FETCH_FONTS_FAILED));
    }
    if response.availableFonts.None? {
      return Failure(Error("TypeError", MISSING_FONTS_FIELD));
    }
    r := GroupFonts(response.availableFonts.value);
  }

  // ---------------------------------------------------------------- properties of the grouping

  /** A category name is listed exactly when some entry has it. */
  lemma {:induction false} SeenIffOccurs(entries: seq<FontEntry>, k: string)
    ensures k in CategoryOrder(entries) <==> exists i :: 0 <= i < |entries| && CategoryOf(entries[i]) == k
  {
    if entries != [] {
      var init := entries[..|entries| - 1];
      SeenIffOccurs(init, k);
      assert forall i :: 0 <= i < |init| ==> init[i] == entries[i];
    }
  }

  /** A category name is listed exactly when it has fonts. */
  lemma {:induction false} SeenIffHasFonts(entries: seq<FontEntry>, k: string)
    ensures k in CategoryOrder(entries) <==> FontsIn(entries, k) != []
  {
    if entries != [] {
      SeenIffHasFonts(entries[..|entries| - 1], k);
    }
  }

  /** No element occurs twice. */
  predicate Distinct(s: seq<string>)
  {
    forall i, j :: 0 <= i < j < |s| ==> s[i] != s[j]
  }

  /** No category name is listed twice. */
  lemma {:induction false} CategoryOrderDistinct(entries: seq<FontEntry>)
    ensures Distinct(CategoryOrder(entries))
  {
    if entries != [] {
      var init := entries[..|entries| - 1];
      CategoryOrderDistinct(init);
      var before := CategoryOrder(init);
      var c := CategoryOf(entries[|entries| - 1]);
      if c !in before {
        var order := before + [c];
        assert CategoryOrder(entries) == order;
        forall i, j | 0 <= i < j < |order|
          ensures order[i] != order[j]
        {
          assert order[i] == before[i];
          if j < |before| {
            assert order[j] == before[j];
          } else {
            assert order[j] == c;
          }
        }
      }
    }
  }

  /** The returned categories have pairwise distinct names. */
  lemma GroupedNamesDistinct(entries: seq<FontEntry>)
    ensures var cats := Grouped(entries);
      forall i, j :: 0 <= i < j < |cats| ==> cats[i].name != cats[j].name
  {
    CategoryOrderDistinct(entries);
    var order := CategoryOrder(entries);
    var cats := Grouped(entries);
    forall i, j | 0 <= i < j < |cats|
      ensures cats[i].name != cats[j].name
    {
      assert cats[i].name == order[i] && cats[j].name == order[j];
    }
  }

  /** No returned category is empty. */
  lemma GroupedNonEmpty(entries: seq<FontEntry>)
    ensures var cats := Grouped(entries);
      forall j :: 0 <= j < |cats| ==> cats[j].fonts != []
  {
    var order := CategoryOrder(entries);
    forall j | 0 <= j < |order|
      ensures FontsIn(entries, order[j]) != []
    {
      SeenIffHasFonts(entries, order[j]);
    }
  }

  /** A font is in category `k` exactly when some entry with that key has category `k`; its name is its value. */
  lemma {:induction false} FontsInMembers(entries: seq<FontEntry>, k: string, f: Font)
    ensures f in FontsIn(entries, k) <==>
      f.name == f.value && exists i :: 0 <= i < |entries| && entries[i].name == f.name && CategoryOf(entries[i]) == k
  {
    if entries != [] {
      var init := entries[..|entries| - 1];
      FontsInMembers(init, k, f);
      assert forall i :: 0 <= i < |init| ==> init[i] == entries[i];
    }
  }

  /** Every entry's font is in the category its typeface names (or `Uncategorized`). */
  lemma EveryFontPlaced(entries: seq<FontEntry>, i: nat)
    requires i < |entries|
    ensures var cats := Grouped(entries);
      exists j :: 0 <= j < |cats| && cats[j].name == CategoryOf(entries[i]) && FontOf(entries[i]) in cats[j].fonts
  {
    var k := CategoryOf(entries[i]);
    SeenIffOccurs(entries, k);
    FontsInMembers(entries, k, FontOf(entries[i]));
    var order := CategoryOrder(entries);
    var j :| 0 <= j < |order| && order[j] == k;
    assert Grouped(entries)[j].name == k;
  }

  /** A font whose typeface is missing or empty is listed in the `Uncategorized` category. */
  lemma UntypedIsUncategorized(entries: seq<FontEntry>, i: nat)
    requires i < |entries| && (entries[i].typeface.None? || entries[i].typeface.value == "")
    ensures var cats := Grouped(entries);
      exists j :: 0 <= j < |cats| && cats[j].name == UNCATEGORIZED && FontOf(entries[i]) in cats[j].fonts
  {
    EveryFontPlaced(entries, i);
  }

  /** Grouping keeps input order: the fonts from earlier entries come first in their category. */
  lemma {:induction false} FontsInAppend(front: seq<FontEntry>, back: seq<FontEntry>, k: string)
    ensures FontsIn(front + back, k) == FontsIn(front, k) + FontsIn(back, k)
  {
    if back != [] {
      var initBack := back[..|back| - 1];
      var last := back[|back| - 1];
      var tail := if CategoryOf(last) == k then [FontOf(last)] else [];
      assert (front + back)[..|front + back| - 1] == front + initBack;
      assert (front + back)[|front + back| - 1] == last;
      assert FontsIn(front + back, k) == FontsIn(front + initBack, k) + tail;
      assert FontsIn(back, k) == FontsIn(initBack, k) + tail;
      FontsInAppend(front, initBack, k);
    } else {
      assert front + back == front;
    }
  }

  /** Every entry of a category is preceded by an entry of each category listed before it. */
  predicate OccursBefore(entries: seq<FontEntry>, k: string, i: int)
  {
    exists i1 :: 0 <= i1 < i && i1 < |entries| && CategoryOf(entries[i1]) == k
  }

  /**
   * Categories come out in first-seen order: wherever an entry of the j2-th category
   * appears, an entry of every earlier category has already appeared.
   */
  lemma {:induction false} FirstSeenOrder(entries: seq<FontEntry>)
    ensures var order := CategoryOrder(entries);
      forall j1, j2, i2 :: 0 <= j1 < j2 < |order| && 0 <= i2 < |entries| && CategoryOf(entries[i2]) == order[j2]
        ==> OccursBefore(entries, order[j1], i2)
  {
    if entries != [] {
      var init := entries[..|entries| - 1];
      var n := |init|;
      FirstSeenOrder(init);
      var before := CategoryOrder(init);
      var order := CategoryOrder(entries);
      var c := CategoryOf(entries[n]);
      assert forall i :: 0 <= i < n ==> init[i] == entries[i];
      forall j1, j2, i2 | 0 <= j1 < j2 < |order| && 0 <= i2 < |entries| && CategoryOf(entries[i2]) == order[j2]
        ensures OccursBefore(entries, order[j1], i2)
      {
        SeenIffOccurs(init, order[j1]);
        var i1 :| 0 <= i1 < n && CategoryOf(init[i1]) == order[j1];
        if i2 < n {
          assert OccursBefore(init, before[j1], i2) by {
            if j2 == |before| {
              SeenIffOccurs(init, c);
              assert false;
            }
          }
          var w :| 0 <= w < i2 && w < n && CategoryOf(init[w]) == before[j1];
          assert CategoryOf(entries[w]) == order[j1];
        } else {
          assert CategoryOf(entries[i1]) == order[j1];
        }
      }
    }
  }

  /** The fonts of a list of categories, one category after another. */
  function Flatten(cats: seq<FontCategory>): seq<Font>
  {
    if cats == [] then [] else cats[0].fonts + Flatten(cats[1..])
  }

  lemma {:induction false} FlattenAppend(cats: seq<FontCategory>, c: FontCategory)
    ensures Flatten(cats + [c]) == Flatten(cats) + c.fonts
  {
    if cats != [] {
      assert (cats + [c])[1..] == cats[1..] + [c];
      FlattenAppend(cats[1..], c);
    }
  }

  lemma {:induction false} FlattenGrow(cats: seq<FontCategory>, j: nat, f: Font)
    requires j < |cats|
    ensures multiset(Flatten(cats[j := cats[j].(fonts := cats[j].fonts + [f])]))
         == multiset(Flatten(cats)) + multiset{f}
  {
    var grown := cats[j := cats[j].(fonts := cats[j].fonts + [f])];
    if j > 0 {
      assert grown[1..] == cats[1..][j - 1 := cats[j].(fonts := cats[j].fonts + [f])];
      FlattenGrow(cats[1..], j - 1, f);
    } else {
      assert grown[1..] == cats[1..];
    }
  }

  /** Adding one entry adds its font to its category, or appends a new one-font category. */
  lemma {:induction false} GroupedSnoc(entries: seq<FontEntry>, x: FontEntry)
    ensures var c := CategoryOf(x);
      var before := Grouped(entries);
      var order := CategoryOrder(entries);
      if c in order then
        exists j :: 0 <= j < |order| && order[j] == c
          && Grouped(entries + [x]) == before[j := before[j].(fonts := before[j].fonts + [FontOf(x)])]
      else
        Grouped(entries + [x]) == before + [FontCategory(c, [FontOf(x)])]
  {
    var all := entries + [x];
    assert all[..|all| - 1] == entries;
    var c := CategoryOf(x);
    var order := CategoryOrder(entries);
    var before := Grouped(entries);
    var after := Grouped(all);
    CategoryOrderDistinct(entries);
    if c in order {
      var j :| 0 <= j < |order| && order[j] == c;
      var grown := before[j := before[j].(fonts := before[j].fonts + [FontOf(x)])];
      assert |after| == |grown|;
      forall m | 0 <= m < |after|
        ensures after[m] == grown[m]
      {
        var k := order[m];
        assert FontsIn(all, k) == FontsIn(entries, k) + (if c == k then [FontOf(x)] else []);
        assert m != j ==> k != c;
      }
      assert after == grown;
    } else {
      SeenIffHasFonts(entries, c);
      var grown := before + [FontCategory(c, [FontOf(x)])];
      assert |after| == |grown|;
      forall m | 0 <= m < |after|
        ensures after[m] == grown[m]
      {
        if m < |order| {
          var k := order[m];
          assert k != c;
          assert FontsIn(all, k) == FontsIn(entries, k);
        } else {
          assert FontsIn(all, c) == FontsIn(entries, c) + [FontOf(x)];
        }
      }
      assert after == grown;
    }
  }

  /** Every input font appears in the catalogue as often as in the input: grouping loses and duplicates nothing. */
  lemma {:induction false} GroupedIsPermutation(entries: seq<FontEntry>)
    ensures multiset(Flatten(Grouped(entries))) == multiset(AllFonts(entries))
  {
    if entries != [] {
      var init := entries[..|entries| - 1];
      var x := entries[|entries| - 1];
      assert init + [x] == entries;
      GroupedIsPermutation(init);
      GroupedSnoc(init, x);
      var before := Grouped(init);
      if CategoryOf(x) in CategoryOrder(init) {
        var j :| 0 <= j < |CategoryOrder(init)| && CategoryOrder(init)[j] == CategoryOf(x)
          && Grouped(entries) == before[j := before[j].(fonts := before[j].fonts + [FontOf(x)])];
        FlattenGrow(before, j, FontOf(x));
      } else {
        FlattenAppend(before, FontCategory(CategoryOf(x), [FontOf(x)]));
      }
    }
  }

  /** Keys of a JSON object are distinct. */
  predicate DistinctNames(entries: seq<FontEntry>)
  {
    forall i, j :: 0 <= i < j < |entries| ==> entries[i].name != entries[j].name
  }

  lemma {:induction false} AllFontsOnce(entries: seq<FontEntry>, i: nat)
    requires DistinctNames(entries) && i < |entries|
    ensures multiset(AllFonts(entries))[FontOf(entries[i])] == 1
  {
    var init := entries[..|entries| - 1];
    var x := entries[|entries| - 1];
    assert forall m :: 0 <= m < |init| ==> init[m] == entries[m];
    NotInAllFonts(init, x.name);
    if i < |init| {
      AllFontsOnce(init, i);
    }
  }

  lemma {:induction false} NotInAllFonts(entries: seq<FontEntry>, name: string)
    requires forall i :: 0 <= i < |entries| ==> entries[i].name != name
    ensures Font(name, name) !in AllFonts(entries)
  {
    if entries != [] {
      NotInAllFonts(entries[..|entries| - 1], name);
    }
  }

  /** Since the directory's keys are distinct, every font appears in the catalogue exactly once. */
  lemma EveryFontOnce(entries: seq<FontEntry>, i: nat)
    requires DistinctNames(entries) && i < |entries|
    ensures multiset(Flatten(Grouped(entries)))[FontOf(entries[i])] == 1
  {
    GroupedIsPermutation(entries);
    AllFontsOnce(entries, i);
  }

  // ---------------------------------------------------------------- render client

  datatype TextAlign = Left | Center | Right

  /** `GenerateEmojiPayload`, the JSON body of the render request (field names as on the wire). */
  datatype GenerateEmojiPayload = GenerateEmojiPayload(
    text: string,
    width: nat,
    height: nat,
    align: TextAlign,
    color: string,
    background_color: string,
    typeface_name: string,
    size_fixed: bool,
    disable_stretch: bool)

  /** The image bytes of a response body. */
  datatype Blob = Blob(bytes: seq<bv8>)

  /** The render endpoint's response: status, status text and body. */
  datatype RenderResponse = RenderResponse(status: nat, statusText: string, body: Blob)

  /** `response.ok`: a 2xx status. */
  predicate IsOk(response: RenderResponse)
  {
    200 <= response.status <= 299
  }

  /** A decimal digit. */
  function DecimalDigit(d: nat): (c: char)
    requires d < 10
    ensures '0' <= c <= '9'
  {
    ('0' as int + d) as char
  }

  /** The status as a template literal writes it: base 10, no leading zeros. */
  function DecimalString(n: nat): (s: string)
    ensures |s| >= 1 && forall i :: 0 <= i < |s| ==> '0' <= s[i] <= '9'
  {
    if n < 10 then [DecimalDigit(n)] else DecimalString(n / 10) + [DecimalDigit(n % 10)]
  }

  /** The number a string of decimal digits denotes. */
  function DecimalValue(s: string): nat
    requires forall i :: 0 <= i < |s| ==> '0' <= s[i] <= '9'
  {
    if s == [] then 0
    else 10 * DecimalValue(s[..|s| - 1]) + (s[|s| - 1] as int - '0' as int)
  }

  /** The status written in the error message reads back as the status. */
  lemma {:induction false} DecimalRoundTrip(n: nat)
    ensures DecimalValue(DecimalString(n)) == n
  {
    var s := DecimalString(n);
    if n >= 10 {
      DecimalRoundTrip(n / 10);
      assert s[..|s| - 1] == DecimalString(n / 10);
    }
  }

  /** The message of the error thrown for an unsuccessful render response. */
  function ApiErrorMessage(status: nat, statusText: string): (m: string)
    ensures Contains(m, DecimalString(status)) && Contains(m, statusText)
  {
    var prefix := "APIエラー: ";
    var m := prefix + DecimalString(status) + " " + statusText;
    assert OccursAt(m, DecimalString(status), |prefix|);
    assert OccursAt(m, statusText, |m| - |statusText|);
    m
  }

  /**
   * `generateEmoji` once the response has arrived: the body for a 2xx status,
   * otherwise an `Error` whose message contains the status and the status text.
   */
  function GenerateEmoji(response: RenderResponse): (r: Result<Blob, Thrown>)
    ensures r.Success? <==> IsOk(response)
    ensures r.Success? ==> r.value == response.body
    ensures r.Failure? ==>
      && r.error.Error? && r.error.name == "Error"
      && Contains(r.error.message, DecimalString(response.status))
      && Contains(r.error.message, response.statusText)
  {
    if !IsOk(response) then Failure(Error("Error", ApiErrorMessage(response.status, response.statusText)))
    else Success(response.body)
  }

  /** An HTTP 500 is reported with "500" in the message. */
  lemma ServerErrorMentionsStatus(statusText: string, body: Blob)
    ensures var r := GenerateEmoji(RenderResponse(500, statusText, body));
      r.Failure? && Contains(r.error.message, "500")
  {
    var status := 500;
    assert DecimalString(status) == "500" by {
      assert DecimalString(5) == "5";
      assert DecimalString(50) == "50";
    }
    var r := GenerateEmoji(RenderResponse(status, statusText, body));
    assert r.Failure? && Contains(r.error.message, DecimalString(status));
  }

  /** The image shown when a render fails: an inline SVG, not an object URL. */
  const ERROR_PLACEHOLDER_IMAGE: string := "data:image/svg+xml;base64," + PLACEHOLDER_SVG_BASE64

  /**
   * The base64 text of the placeholder SVG (an image-frame icon, 128 x 128), held
   * in lines of 64 characters.
   */
  const PLACEHOLDER_SVG_BASE64: string :=
    SVG_BASE64_0
    + SVG_BASE64_1
    + SVG_BASE64_2
    + SVG_BASE64_3
    + SVG_BASE64_4
    + SVG_BASE64_5
    + SVG_BASE64_6
    + SVG_BASE64_7
  const SVG_BASE64_0: string := "PHN2ZyB4bWxucz0iaHR0cDovL3d3dy53My5vcmcvMjAwMC9zdmciIHdpZHRoPSIx"
  const SVG_BASE64_1: string := "MjgiIGhlaWdodD0iMTI4IiB2aWV3Qm94PSIwIDAgMjQgMjQiIGZpbGw9Im5vbmUi"
  const SVG_BASE64_2: string := "IHN0cm9rZT0iI2U1ZTdlYiIgc3Ryb2tlLXdpZHRoPSIyIiBzdHJva2UtbGluZWNh"
  const SVG_BASE64_3: string := "cD0icm91bmQiIHN0cm9rZS1saW5lam9pbj0icm91bmQiPjxwYXRoIGQ9Ik0xOCAz"
  const SVG_BASE64_4: string := "SDZhMiAyIDAgMCAwLTIgMnYxNGMwIDEuMS45IDIgMiAyaDEyYzEuMSAwIDItLjkg"
  const SVG_BASE64_5: string := "Mi0yVjVjMC0xLjEtLjktMi0yLTJ6TTEyIDlhMyAzIDAgMSAwIDAgNmMwLTEuNy0y"
  const SVG_BASE64_6: string := "LTItMi0zLjVBMi41IDIuNSAwIDAgMSAxMiA5eiIvPjxjaXJjbGUgY3g9IjEyIiBj"
  const SVG_BASE64_7: string := "eT0iMTYuNSIgcj0iLjUiIGZpbGw9IiNlNWU3ZWIiLz48L3N2Zz4="
}
