/** The icon decision of settings.js, written once: the ordered format cascade
    for a custom icon, the class-table lookup for the built-in icons, and what
    the rocket button (`updateIconDisplay`) and the settings preview
    (`updateIconPreview`) each decide to show. The two methods that draw these
    decisions into elements are in module Settings. */
module IconResolver {
  import opened JsValues
  import opened JsStrings
  import opened Constants

  const SVG_DATA_PREFIX := "data:image/svg+xml;charset=utf-8,"
  const PNG_BASE64_PREFIX := "data:image/png;base64,"
  const BASE64_MARKER := "base64,"

  /** The four outcomes of the custom-icon cascade. */
  datatype IconSource =
    | SvgDataUrl(url: string)      // inline SVG markup, percent-encoded into a data URL
    | DirectUrl(url: string)       // a URL or data URI, used verbatim
    | SynthesizedPng(url: string)  // a partial base64 payload, given a PNG data-URL prefix
    | Unrecognised

  /** Rule 1: inline SVG markup. */
  predicate IsSvgMarkup(c: string) {
    StartsWith(c, "<svg") && Includes(c, "</svg>")
  }

  /** Rule 2: a URL, a data URI or an image file name. */
  predicate IsDirectReference(c: string) {
    StartsWith(c, "data:") || StartsWith(c, "http")
    || EndsWith(c, ".png") || EndsWith(c, ".jpg") || EndsWith(c, ".svg") || EndsWith(c, ".gif")
  }

  /** Rule 3: a base64 payload. */
  predicate HasBase64Marker(c: string) {
    Includes(c, BASE64_MARKER)
  }

  /** The cascade over already-trimmed content; the first rule that matches
      wins. `encode` is `encodeURIComponent`. */
  function ResolveCustom(content: string, encode: string -> string): IconSource {
    if IsSvgMarkup(content) then
      SvgDataUrl(SVG_DATA_PREFIX + encode(content))
    else if IsDirectReference(content) then
      DirectUrl(content)
    else if HasBase64Marker(content) then
      SynthesizedPng(if !StartsWith(content, "data:")
                     then PNG_BASE64_PREFIX + SplitSecond(content, BASE64_MARKER)
                     else content)
    else
      Unrecognised
  }

  /** Each outcome happens exactly when its rule is the first to match. */
  lemma CascadeOrder(c: string, encode: string -> string)
    ensures ResolveCustom(c, encode).SvgDataUrl? <==> IsSvgMarkup(c)
    ensures ResolveCustom(c, encode).DirectUrl? <==> !IsSvgMarkup(c) && IsDirectReference(c)
    ensures ResolveCustom(c, encode).SynthesizedPng?
            <==> !IsSvgMarkup(c) && !IsDirectReference(c) && HasBase64Marker(c)
    ensures ResolveCustom(c, encode).Unrecognised?
            <==> !IsSvgMarkup(c) && !IsDirectReference(c) && !HasBase64Marker(c)
  {
  }

  /** SVG markup always becomes an SVG data URL of the percent-encoded
      content, even when it also ends in `.svg` or holds `base64,`. */
  lemma SvgMarkupWins(c: string, encode: string -> string)
    requires IsSvgMarkup(c)
    ensures ResolveCustom(c, encode) == SvgDataUrl(SVG_DATA_PREFIX + encode(c))
  {
  }

  /** A direct reference that is not SVG markup is used verbatim. */
  lemma DirectReferenceVerbatim(c: string, encode: string -> string)
    requires !IsSvgMarkup(c) && IsDirectReference(c)
    ensures ResolveCustom(c, encode) == DirectUrl(c)
  {
  }

  /** In the base64 rule the "keep content starting with data:" branch is
      dead: rule 2 has already taken every such content. So the result is
      always the PNG prefix followed by `split('base64,')[1]`, which
      JsStrings.SplitSecond characterises as the text between the first and
      the second `base64,` (or the end). */
  lemma Base64PayloadSynthesized(c: string, encode: string -> string)
    requires !IsSvgMarkup(c) && !IsDirectReference(c) && HasBase64Marker(c)
    ensures !StartsWith(c, "data:")
    ensures ResolveCustom(c, encode) == SynthesizedPng(PNG_BASE64_PREFIX + SplitSecond(c, BASE64_MARKER))
  {
  }

  /** Every recognised content yields a URL the browser can load itself: a
      data URL, or the content as typed. */
  lemma ResolvedUrlKinds(c: string, encode: string -> string)
    ensures match ResolveCustom(c, encode)
            case SvgDataUrl(u) => StartsWith(u, "data:image/svg+xml")
            case DirectUrl(u) => u == c
            case SynthesizedPng(u) => StartsWith(u, "data:image/png;base64,")
            case Unrecognised => true
  {
    match ResolveCustom(c, encode)
    case SvgDataUrl(u) =>
      assert u[..|"data:image/svg+xml"|] == SVG_DATA_PREFIX[..|"data:image/svg+xml"|];
    case DirectUrl(u) =>
    case SynthesizedPng(u) =>
    case Unrecognised =>
  }

  /** Blank content matches no rule. */
  lemma EmptyContentUnrecognised(encode: string -> string)
    ensures ResolveCustom("", encode) == Unrecognised
  {
  }

  /** Sample input: SVG markup becomes an SVG data URL. */
  lemma SvgSample(encode: string -> string)
    ensures ResolveCustom("<svg></svg>", encode) == SvgDataUrl(SVG_DATA_PREFIX + encode("<svg></svg>"))
  {
    IndexOfSpec("<svg></svg>", "</svg>");
    assert OccursAt("<svg></svg>", "</svg>", 5);
  }

  /** Sample input: an https image URL is used as typed. */
  lemma UrlSample(encode: string -> string)
    ensures ResolveCustom("https://x/icon.png", encode) == DirectUrl("https://x/icon.png")
  {
    var url := "https://x/icon.png";
    assert !IsSvgMarkup(url) by {
      assert url[0] == 'h';
    }
    assert StartsWith(url, "http");
  }

  /** Sample input: plain text matches no rule. */
  lemma PlainTextSample(encode: string -> string)
    ensures ResolveCustom("plain-text", encode) == Unrecognised
  {
    var plain := "plain-text";
    assert !IsSvgMarkup(plain) by {
      assert plain[0] == 'p';
    }
    assert !IsDirectReference(plain) by {
      assert plain[0] == 'p' && plain[6] == 't';
      assert |plain| == 10;
      assert plain[6..][0] == 't';
    }
    assert !HasBase64Marker(plain) by {
      NoBase64Marker(plain);
    }
  }

  /** Text without a comma holds no base64 marker. */
  lemma {:induction false} NoBase64Marker(c: string)
    requires forall k :: 0 <= k < |c| ==> c[k] != ','
    ensures !HasBase64Marker(c)
  {
    forall i | 0 <= i ensures !OccursAt(c, BASE64_MARKER, i) {
      if i + |BASE64_MARKER| <= |c| {
        assert c[i..i + |BASE64_MARKER|][6] == c[i + 6];
      }
    }
    IndexOfFound(c, BASE64_MARKER);
  }

  /** `ICON_CLASS_MAP[iconType] || ICON_CLASS_MAP[ROCKET]`. A property key is
      the string form of the value, so a one-element array looks up its
      element's key. */
  function IconClassFor(iconType: JsValue): string {
    var key := ToString(iconType);
    if key in ICON_CLASS_MAP && ICON_CLASS_MAP[key] != "" then ICON_CLASS_MAP[key] else ICON_CLASS_MAP[ICON_ROCKET]
  }

  /** The keys comment, star and bolt get their own class; every other key
      (rocket, custom, unknown, or the string of a falsy value) gets
      `fa-rocket`. */
  lemma IconClassFallback(iconType: JsValue)
    ensures ToString(iconType) == ICON_COMMENT ==> IconClassFor(iconType) == "fa-comment"
    ensures ToString(iconType) == ICON_STAR ==> IconClassFor(iconType) == "fa-star"
    ensures ToString(iconType) == ICON_BOLT ==> IconClassFor(iconType) == "fa-bolt"
    ensures IconClassFor(iconType) == "fa-rocket"
            <==> ToString(iconType) !in [ICON_COMMENT, ICON_STAR, ICON_BOLT]
    ensures IconClassFor(iconType) in ["fa-rocket", "fa-comment", "fa-star", "fa-bolt"]
  {
  }

  /** The stored values whose string form is an icon type's name: the name
      itself, or an array whose single element is such a value. */
  predicate NamesIconType(v: JsValue) {
    match v
    case Str(s) => s in ICON_TYPES
    case Arr(es) => |es| == 1 && NamesIconType(es[0])
    case _ => false
  }

  /** `String(v)` is the name of an icon type exactly for the values
      NamesIconType describes: no boolean, number, null, undefined or plain
      object converts to one, and an array of two or more elements converts
      to a text with a comma, which no name holds. */
  lemma {:induction false} IconTypeKeys(v: JsValue)
    ensures ToString(v) in ICON_TYPES <==> NamesIconType(v)
  {
    match v
    case Num(n) =>
      var digits := NatToString(if n < 0 then -n else n);
      assert ToString(v)[0] == '-' || ToString(v)[0] == digits[0];
    case Arr(es) =>
      var parts := seq(|es|, i requires 0 <= i < |es| =>
                                if es[i].Undefined? || es[i].Null? then "" else ToString(es[i]));
      assert ToString(v) == Join(parts, ",");
      if |es| == 1 {
        if !(es[0].Undefined? || es[0].Null?) {
          IconTypeKeys(es[0]);
        }
      } else if |es| >= 2 {
        assert ToString(v)[|parts[0]|] == ',';
        assert forall t | t in ICON_TYPES :: ',' !in t;
      }
    case _ =>
  }

  /** A one-element array stored as the icon type selects that element's
      class. */
  lemma ArrayKeySample()
    ensures IconClassFor(Arr([Str(ICON_STAR)])) == "fa-star"
    ensures NamesIconType(Arr([Str(ICON_STAR)]))
  {
    assert ToString(Arr([Str(ICON_STAR)])) == ICON_STAR;
  }

  /** What a call site ends up showing. Missing is the preview's "no
      preview" for blank custom content; Unsupported is an unrecognised
      custom format. */
  datatype IconView =
    | Glyph(iconClass: string)
    | Picture(url: string)
    | Missing
    | Unsupported

  /** `customIconUrl.trim()` succeeds only on a string. */
  predicate DisplayDefined(iconType: JsValue, url: JsValue) {
    iconType == Str(ICON_CUSTOM) && Truthy(url) ==> url.Str?
  }

  /** `customIconUrl?.trim()` succeeds on a string, null or undefined. */
  predicate PreviewDefined(iconType: JsValue, url: JsValue) {
    iconType == Str(ICON_CUSTOM) ==> url.Str? || url.Undefined? || url.Null?
  }

  function Shown(src: IconSource): IconView {
    match src
    case Unrecognised => Unsupported
    case SvgDataUrl(u) => Picture(u)
    case DirectUrl(u) => Picture(u)
    case SynthesizedPng(u) => Picture(u)
  }

  /** The rocket button's decision in updateIconDisplay: the type defaults to
      rocket when falsy; a custom type with a truthy URL goes through the
      cascade on the trimmed URL, anything else through the class table. */
  function DisplayIcon(iconType: JsValue, url: JsValue, encode: string -> string): IconView
    requires DisplayDefined(iconType, url)
  {
    var t := Or(iconType, Str(ICON_ROCKET));
    if t == Str(ICON_CUSTOM) && Truthy(url) then Shown(ResolveCustom(Trim(url.s), encode))
    else Glyph(IconClassFor(t))
  }

  /** The preview's decision in updateIconPreview: for the custom type,
      blank trimmed content shows "no preview" before the cascade is tried. */
  function PreviewIcon(iconType: JsValue, url: JsValue, encode: string -> string): IconView
    requires PreviewDefined(iconType, url)
  {
    if iconType == Str(ICON_CUSTOM) then
      var content := if url.Str? then Trim(url.s) else "";
      if content == "" then Missing else Shown(ResolveCustom(content, encode))
    else
      Glyph(IconClassFor(iconType))
  }

  /** The custom URL is absent or only white space. */
  predicate BlankUrl(url: JsValue) {
    !url.Str? || Trim(url.s) == ""
  }

  /** The button and the preview show the same icon for the same settings
      except for a custom type with a blank URL: there the preview says "no
      preview" while the button falls back to the rocket (empty URL) or shows
      "?" (white space only). */
  lemma DisplayMatchesPreview(iconType: JsValue, url: JsValue, encode: string -> string)
    requires PreviewDefined(iconType, url)
    ensures DisplayDefined(iconType, url)
    ensures DisplayIcon(iconType, url, encode) == PreviewIcon(iconType, url, encode)
            <==> !(iconType == Str(ICON_CUSTOM) && BlankUrl(url))
    ensures iconType == Str(ICON_CUSTOM) && BlankUrl(url) ==>
              PreviewIcon(iconType, url, encode) == Missing
              && DisplayIcon(iconType, url, encode) == (if Truthy(url) then Unsupported else Glyph("fa-rocket"))
  {
    if iconType == Str(ICON_CUSTOM) && url.Str? && url.s != "" && Trim(url.s) == "" {
      EmptyContentUnrecognised(encode);
    }
  }

  /** Neither call site ever shows the empty class that the table holds for
      the custom type. */
  lemma NoEmptyGlyph(iconType: JsValue, url: JsValue, encode: string -> string)
    requires DisplayDefined(iconType, url)
    ensures DisplayIcon(iconType, url, encode) != Glyph("")
    ensures PreviewDefined(iconType, url) ==> PreviewIcon(iconType, url, encode) != Glyph("")
  {
    IconClassFallback(iconType);
    IconClassFallback(Or(iconType, Str(ICON_ROCKET)));
  }
}
